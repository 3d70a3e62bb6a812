/** The quick-action palette of the chat assistant (ChatAssistant.tsx, `quickActions`):
    four preset questions with a display category each. The lemmas below prove which
    response each preset question gets when it is sent as typed. (Choosing a preset
    sends it through a timer that reads the input box as it was before the choice, so
    what the button itself sends is not modelled.)

    Each proof spells the question word by word, lower-cases it word by word, rules out
    every fragment of the earlier rules (by a character the question lacks, or else by
    showing that no word holds the fragment) and finds a fragment of the expected rule. */
module QuickActionPalette {
  import opened Text
  import opened Classifier

  /** A preset question of the palette and its display category. */
  datatype QuickAction = QuickAction(text: string, category: string)

  const QuickActions: seq<QuickAction> := [
    QuickAction(SlowChargingQuestion, "troubleshooting"),
    QuickAction(OptimizationQuestion, "optimization"),
    QuickAction(MaintenanceQuestion, "maintenance"),
    QuickAction(StatusLightQuestion, "troubleshooting")
  ]

  const SlowChargingQuestion := "Why is my charger running slowly?"
  const OptimizationQuestion := "How can I optimize charging efficiency?"
  const MaintenanceQuestion := "When should I schedule maintenance?"
  const StatusLightQuestion := "What does the amber status light mean?"

  // ---------------------------------------------------------------------------
  // Quick action 0: "Why is my charger running slowly?"

  /** Quick action 0, cut into pieces of a few words. */
  lemma SlowChargingQuestionPieces(t: string)
    requires t == SlowChargingQuestion
    ensures t == "Why is my" + " charger" + " running" + " slowly?"
  {
  }

  /** Piece 1 of quick action 0, word by word. */
  lemma SlowChargingQuestionPiece1()
    ensures "Why is my" == "Why" + " " + "is" + " " + "my"
  {
  }

  /** Piece 2 of quick action 0, word by word. */
  lemma SlowChargingQuestionPiece2()
    ensures " charger" == " " + "charger"
  {
  }

  /** Piece 3 of quick action 0, word by word. */
  lemma SlowChargingQuestionPiece3()
    ensures " running" == " " + "running"
  {
  }

  /** Piece 4 of quick action 0, word by word. */
  lemma SlowChargingQuestionPiece4()
    ensures " slowly?" == " " + "slowly?"
  {
  }

  /** The pieces of quick action 0, put back together, are its words joined by spaces. */
  lemma SlowChargingQuestionRegroup(x1: string, x2: string, x3: string, x4: string)
    requires x1 == "Why" + " " + "is" + " " + "my"
    requires x2 == " " + "charger"
    requires x3 == " " + "running"
    requires x4 == " " + "slowly?"
    ensures x1 + x2 + x3 + x4 == "Why" + " " + "is" + " " + "my" + " " + "charger" + " " + "running" + " " + "slowly?"
  {
  }

  /** Quick action 0 is its words joined by spaces. */
  lemma SlowChargingQuestionSpelled(t: string)
    requires t == "Why is my" + " charger" + " running" + " slowly?"
    ensures t == "Why" + " " + "is" + " " + "my" + " " + "charger" + " " + "running" + " " + "slowly?"
  {
    SlowChargingQuestionPiece1();
    SlowChargingQuestionPiece2();
    SlowChargingQuestionPiece3();
    SlowChargingQuestionPiece4();
    SlowChargingQuestionRegroup("Why is my", " charger", " running", " slowly?");
  }

  /** Quick action 0, lower-cased word by word. */
  lemma SlowChargingQuestionLowered(t: string)
    requires t == "Why" + " " + "is" + " " + "my" + " " + "charger" + " " + "running" + " " + "slowly?"
    ensures Lower(t) == "why" + " " + "is" + " " + "my" + " " + "charger" + " " + "running" + " " + "slowly?"
  {
    var p := "Why";
    assert Lower(p) == "why";
    LowerConcat(p, " ");
    p := p + " ";
    LowerConcat(p, "is");
    p := p + "is";
    LowerConcat(p, " ");
    p := p + " ";
    LowerConcat(p, "my");
    p := p + "my";
    LowerConcat(p, " ");
    p := p + " ";
    LowerConcat(p, "charger");
    p := p + "charger";
    LowerConcat(p, " ");
    p := p + " ";
    LowerConcat(p, "running");
    p := p + "running";
    LowerConcat(p, " ");
    p := p + " ";
    LowerConcat(p, "slowly?");
    p := p + "slowly?";
    assert Lower(" ") == " ";
    assert Lower("is") == "is";
    assert Lower("my") == "my";
    assert Lower("charger") == "charger";
    assert Lower("running") == "running";
    assert Lower("slowly?") == "slowly?";
  }

  /** Characters that quick action 0, lower-cased, does not contain. */
  lemma SlowChargingQuestionLacksTP(s: string)
    requires s == "why" + " " + "is" + " " + "my" + " " + "charger" + " " + "running" + " " + "slowly?"
    ensures 't' !in s && 'p' !in s
  {
  }

  /** Characters that quick action 0, lower-cased, does not contain. */
  lemma SlowChargingQuestionLacksBD(s: string)
    requires s == "why" + " " + "is" + " " + "my" + " " + "charger" + " " + "running" + " " + "slowly?"
    ensures 'b' !in s && 'd' !in s
  {
  }

  /** Characters that quick action 0, lower-cased, does not contain. */
  lemma SlowChargingQuestionLacksFV(s: string)
    requires s == "why" + " " + "is" + " " + "my" + " " + "charger" + " " + "running" + " " + "slowly?"
    ensures 'f' !in s && 'v' !in s
  {
  }

  /** Fragments that no word of quick action 0, lower-cased, holds (part 1). */
  lemma SlowChargingQuestionAvoids1(s: string)
    requires s == "why" + " " + "is" + " " + "my" + " " + "charger" + " " + "running" + " " + "slowly?"
    ensures !Contains(s, "access")
  {
    var p := "why";
    NotAcrossSpace(p, "is", "access");
    p := p + " " + "is";
    NotAcrossSpace(p, "my", "access");
    p := p + " " + "my";
    NotAcrossSpace(p, "charger", "access");
    p := p + " " + "charger";
    NotAcrossSpace(p, "running", "access");
    p := p + " " + "running";
    NotAcrossSpace(p, "slowly?", "access");
    p := p + " " + "slowly?";
  }

  /** Rules 0 to 2 do not fire on a text without these characters and fragments, such as
      quick action 0. */
  lemma SlowChargingQuestionSkipsRules0To2(s: string)
    requires 't' !in s && 'p' !in s && 'd' !in s
    ensures forall j :: 0 <= j < 3 ==> !Matches(Rules[j], s)
  {
    MissingChar(s, "astreea", 't');
    MissingChar(s, "about", 't');
    MissingChar(s, "company", 'p');
    MissingChar(s, "model", 'd');
    MissingChar(s, "specification", 't');
    MissingChar(s, "specs", 'p');
    MissingChar(s, "installation", 't');
    MissingChar(s, "install", 't');
    MissingChar(s, "setup", 't');
    forall j | 0 <= j < 3 ensures !Matches(Rules[j], s) {
      if j == 0 {
        assert Rules[0].fragments == ["astreea", "about", "company"];
      } else if j == 1 {
        assert Rules[1].fragments == ["model", "specification", "specs"];
      } else if j == 2 {
        assert Rules[2].fragments == ["installation", "install", "setup"];
      }
    }
  }

  /** Rules 3 to 4 do not fire on a text without these characters and fragments, such as
      quick action 0. */
  lemma SlowChargingQuestionSkipsRules3To4(s: string)
    requires 't' !in s && 'p' !in s && 'b' !in s && 'v' !in s
    ensures forall j :: 3 <= j < 5 ==> !Matches(Rules[j], s)
  {
    MissingChar(s, "app", 'p');
    MissingChar(s, "mobile", 'b');
    MissingChar(s, "smartphone", 't');
    MissingChar(s, "warranty", 't');
    MissingChar(s, "support", 't');
    MissingChar(s, "service", 'v');
    forall j | 3 <= j < 5 ensures !Matches(Rules[j], s) {
      if j == 3 {
        assert Rules[3].fragments == ["app", "mobile", "smartphone"];
      } else if j == 4 {
        assert Rules[4].fragments == ["warranty", "support", "service"];
      }
    }
  }

  /** Rules 5 to 6 do not fire on a text without these characters and fragments, such as
      quick action 0. */
  lemma SlowChargingQuestionSkipsRules5To6(s: string)
    requires 't' !in s && 'p' !in s && 'b' !in s && 'd' !in s
    requires !Contains(s, "access")
    ensures forall j :: 5 <= j < 7 ==> !Matches(Rules[j], s)
  {
    MissingChar(s, "price", 'p');
    MissingChar(s, "cost", 't');
    MissingChar(s, "buy", 'b');
    MissingChar(s, "purchase", 'p');
    MissingChar(s, "rfid", 'd');
    MissingChar(s, "card", 'd');
    MissingChar(s, "authentication", 't');
    forall j | 5 <= j < 7 ensures !Matches(Rules[j], s) {
      if j == 5 {
        assert Rules[5].fragments == ["price", "cost", "buy", "purchase"];
      } else if j == 6 {
        assert Rules[6].fragments == ["rfid", "access", "card", "authentication"];
      }
    }
  }

  /** Rules 7 to 8 do not fire on a text without these characters and fragments, such as
      quick action 0. */
  lemma SlowChargingQuestionSkipsRules7To8(s: string)
    requires 't' !in s && 'p' !in s && 'b' !in s
    ensures forall j :: 7 <= j < 9 ==> !Matches(Rules[j], s)
  {
    MissingChar(s, "load balancing", 'b');
    MissingChar(s, "power sharing", 'p');
    MissingChar(s, "multiple chargers", 't');
    MissingChar(s, "weather", 't');
    MissingChar(s, "outdoor", 't');
    MissingChar(s, "ip65", 'p');
    MissingChar(s, "waterproof", 't');
    forall j | 7 <= j < 9 ensures !Matches(Rules[j], s) {
      if j == 7 {
        assert Rules[7].fragments == ["load balancing", "power sharing", "multiple chargers"];
      } else if j == 8 {
        assert Rules[8].fragments == ["weather", "outdoor", "ip65", "waterproof"];
      }
    }
  }

  /** Rules 9 to 10 do not fire on a text without these characters and fragments, such as
      quick action 0. */
  lemma SlowChargingQuestionSkipsRules9To10(s: string)
    requires 't' !in s && 'p' !in s && 'b' !in s && 'f' !in s
    ensures forall j :: 9 <= j < 11 ==> !Matches(Rules[j], s)
  {
    MissingChar(s, "firmware", 'f');
    MissingChar(s, "update", 't');
    MissingChar(s, "software", 't');
    MissingChar(s, "connector", 't');
    MissingChar(s, "cable", 'b');
    MissingChar(s, "type 2", 't');
    MissingChar(s, "plug", 'p');
    forall j | 9 <= j < 11 ensures !Matches(Rules[j], s) {
      if j == 9 {
        assert Rules[9].fragments == ["firmware", "update", "software"];
      } else if j == 10 {
        assert Rules[10].fragments == ["connector", "cable", "type 2", "plug"];
      }
    }
  }

  /** Rule 11 fires on quick action 0, lower-cased: it holds "slow". */
  lemma SlowChargingQuestionHits(s: string)
    requires s == "why" + " " + "is" + " " + "my" + " " + "charger" + " " + "running" + " " + "slowly?"
    ensures Matches(Rules[11], s)
  {
    var w := "slowly?";
    assert OccursAt(w, "slow", 0);
    ContainsIffOccurs(w, "slow");
    ContainsWithin("why" + " " + "is" + " " + "my" + " " + "charger" + " " + "running" + " ", w, "", "slow");
    assert s == ("why" + " " + "is" + " " + "my" + " " + "charger" + " " + "running" + " ") + w + ("");
    assert Rules[11].fragments == ["slow", "charging slowly"];
  }

  /** Quick action 0, lower-cased: its words, lower-cased, joined by spaces. */
  lemma SlowChargingQuestionLowerCased(t: string)
    requires t == SlowChargingQuestion
    ensures Lower(t) == "why" + " " + "is" + " " + "my" + " " + "charger" + " " + "running" + " " + "slowly?"
  {
    SlowChargingQuestionPieces(t);
    SlowChargingQuestionSpelled(t);
    SlowChargingQuestionLowered(t);
  }

  /** On quick action 0, lower-cased, rule 11 is the first rule to fire. */
  lemma SlowChargingQuestionFirstRule(s: string)
    requires s == "why" + " " + "is" + " " + "my" + " " + "charger" + " " + "running" + " " + "slowly?"
    ensures Matches(Rules[11], s)
    ensures forall j :: 0 <= j < 11 ==> !Matches(Rules[j], s)
  {
    SlowChargingQuestionLacksTP(s);
    SlowChargingQuestionLacksBD(s);
    SlowChargingQuestionLacksFV(s);
    SlowChargingQuestionAvoids1(s);
    SlowChargingQuestionSkipsRules0To2(s);
    SlowChargingQuestionSkipsRules3To4(s);
    SlowChargingQuestionSkipsRules5To6(s);
    SlowChargingQuestionSkipsRules7To8(s);
    SlowChargingQuestionSkipsRules9To10(s);
    SlowChargingQuestionHits(s);
  }

  /** Quick action 0, "Why is my charger running slowly?", gets the SlowCharging response. */
  lemma QuickActionSlowCharging()
    ensures Classify(QuickActions[0].text) == SlowCharging
  {
    var t := QuickActions[0].text;
    assert t == SlowChargingQuestion;
    SlowChargingQuestionLowerCased(t);
    SlowChargingQuestionFirstRule(Lower(t));
    FirstMatchFound(Rules, Lower(t), 11);
    assert Rules[11].template == SlowCharging;
  }

  // ---------------------------------------------------------------------------
  // Quick action 1: "How can I optimize charging efficiency?"

  /** Quick action 1, cut into pieces of a few words. */
  lemma OptimizationQuestionPieces(t: string)
    requires t == OptimizationQuestion
    ensures t == "How can I" + " optimize" + " charging" + " efficiency?"
  {
  }

  /** Piece 1 of quick action 1, word by word. */
  lemma OptimizationQuestionPiece1()
    ensures "How can I" == "How" + " " + "can" + " " + "I"
  {
  }

  /** Piece 2 of quick action 1, word by word. */
  lemma OptimizationQuestionPiece2()
    ensures " optimize" == " " + "optimize"
  {
  }

  /** Piece 3 of quick action 1, word by word. */
  lemma OptimizationQuestionPiece3()
    ensures " charging" == " " + "charging"
  {
  }

  /** Piece 4 of quick action 1, word by word. */
  lemma OptimizationQuestionPiece4()
    ensures " efficiency?" == " " + "efficiency?"
  {
  }

  /** The pieces of quick action 1, put back together, are its words joined by spaces. */
  lemma OptimizationQuestionRegroup(x1: string, x2: string, x3: string, x4: string)
    requires x1 == "How" + " " + "can" + " " + "I"
    requires x2 == " " + "optimize"
    requires x3 == " " + "charging"
    requires x4 == " " + "efficiency?"
    ensures x1 + x2 + x3 + x4 == "How" + " " + "can" + " " + "I" + " " + "optimize" + " " + "charging" + " " + "efficiency?"
  {
  }

  /** Quick action 1 is its words joined by spaces. */
  lemma OptimizationQuestionSpelled(t: string)
    requires t == "How can I" + " optimize" + " charging" + " efficiency?"
    ensures t == "How" + " " + "can" + " " + "I" + " " + "optimize" + " " + "charging" + " " + "efficiency?"
  {
    OptimizationQuestionPiece1();
    OptimizationQuestionPiece2();
    OptimizationQuestionPiece3();
    OptimizationQuestionPiece4();
    OptimizationQuestionRegroup("How can I", " optimize", " charging", " efficiency?");
  }

  /** Quick action 1, lower-cased word by word. */
  lemma OptimizationQuestionLowered(t: string)
    requires t == "How" + " " + "can" + " " + "I" + " " + "optimize" + " " + "charging" + " " + "efficiency?"
    ensures Lower(t) == "how" + " " + "can" + " " + "i" + " " + "optimize" + " " + "charging" + " " + "efficiency?"
  {
    var p := "How";
    assert Lower(p) == "how";
    LowerConcat(p, " ");
    p := p + " ";
    LowerConcat(p, "can");
    p := p + "can";
    LowerConcat(p, " ");
    p := p + " ";
    LowerConcat(p, "I");
    p := p + "I";
    LowerConcat(p, " ");
    p := p + " ";
    LowerConcat(p, "optimize");
    p := p + "optimize";
    LowerConcat(p, " ");
    p := p + " ";
    LowerConcat(p, "charging");
    p := p + "charging";
    LowerConcat(p, " ");
    p := p + " ";
    LowerConcat(p, "efficiency?");
    p := p + "efficiency?";
    assert Lower(" ") == " ";
    assert Lower("can") == "can";
    assert Lower("I") == "i";
    assert Lower("optimize") == "optimize";
    assert Lower("charging") == "charging";
    assert Lower("efficiency?") == "efficiency?";
  }

  /** Characters that quick action 1, lower-cased, does not contain. */
  lemma OptimizationQuestionLacksSD(s: string)
    requires s == "how" + " " + "can" + " " + "i" + " " + "optimize" + " " + "charging" + " " + "efficiency?"
    ensures 's' !in s && 'd' !in s
  {
  }

  /** Characters that quick action 1, lower-cased, does not contain. */
  lemma OptimizationQuestionLacksBU(s: string)
    requires s == "how" + " " + "can" + " " + "i" + " " + "optimize" + " " + "charging" + " " + "efficiency?"
    ensures 'b' !in s && 'u' !in s
  {
  }

  /** Characters that quick action 1, lower-cased, does not contain. */
  lemma OptimizationQuestionLacksDigit2Digit5(s: string)
    requires s == "how" + " " + "can" + " " + "i" + " " + "optimize" + " " + "charging" + " " + "efficiency?"
    ensures '2' !in s && '5' !in s
  {
  }

  /** Fragments that no word of quick action 1, lower-cased, holds (part 1). */
  lemma OptimizationQuestionAvoids1(s: string)
    requires s == "how" + " " + "can" + " " + "i" + " " + "optimize" + " " + "charging" + " " + "efficiency?"
    ensures !Contains(s, "company")
  {
    var p := "how";
    NotAcrossSpace(p, "can", "company");
    p := p + " " + "can";
    NotAcrossSpace(p, "i", "company");
    p := p + " " + "i";
    NotAcrossSpace(p, "optimize", "company");
    p := p + " " + "optimize";
    NotAcrossSpace(p, "charging", "company");
    p := p + " " + "charging";
    NotAcrossSpace(p, "efficiency?", "company");
    p := p + " " + "efficiency?";
  }

  /** Fragments that no word of quick action 1, lower-cased, holds (part 2). */
  lemma OptimizationQuestionAvoids2(s: string)
    requires s == "how" + " " + "can" + " " + "i" + " " + "optimize" + " " + "charging" + " " + "efficiency?"
    ensures !Contains(s, "app")
  {
    var p := "how";
    NotAcrossSpace(p, "can", "app");
    p := p + " " + "can";
    NotAcrossSpace(p, "i", "app");
    p := p + " " + "i";
    NotAcrossSpace(p, "optimize", "app");
    p := p + " " + "optimize";
    NotAcrossSpace(p, "charging", "app");
    p := p + " " + "charging";
    NotAcrossSpace(p, "efficiency?", "app");
    p := p + " " + "efficiency?";
  }

  /** Fragments that no word of quick action 1, lower-cased, holds (part 3). */
  lemma OptimizationQuestionAvoids3(s: string)
    requires s == "how" + " " + "can" + " " + "i" + " " + "optimize" + " " + "charging" + " " + "efficiency?"
    ensures !Contains(s, "warranty")
  {
    var p := "how";
    NotAcrossSpace(p, "can", "warranty");
    p := p + " " + "can";
    NotAcrossSpace(p, "i", "warranty");
    p := p + " " + "i";
    NotAcrossSpace(p, "optimize", "warranty");
    p := p + " " + "optimize";
    NotAcrossSpace(p, "charging", "warranty");
    p := p + " " + "charging";
    NotAcrossSpace(p, "efficiency?", "warranty");
    p := p + " " + "efficiency?";
  }

  /** Fragments that no word of quick action 1, lower-cased, holds (part 4). */
  lemma OptimizationQuestionAvoids4(s: string)
    requires s == "how" + " " + "can" + " " + "i" + " " + "optimize" + " " + "charging" + " " + "efficiency?"
    ensures !Contains(s, "price")
  {
    var p := "how";
    NotAcrossSpace(p, "can", "price");
    p := p + " " + "can";
    NotAcrossSpace(p, "i", "price");
    p := p + " " + "i";
    NotAcrossSpace(p, "optimize", "price");
    p := p + " " + "optimize";
    NotAcrossSpace(p, "charging", "price");
    p := p + " " + "charging";
    NotAcrossSpace(p, "efficiency?", "price");
    p := p + " " + "efficiency?";
  }

  /** Fragments that no word of quick action 1, lower-cased, holds (part 5). */
  lemma OptimizationQuestionAvoids5(s: string)
    requires s == "how" + " " + "can" + " " + "i" + " " + "optimize" + " " + "charging" + " " + "efficiency?"
    ensures !Contains(s, "weather")
  {
    var p := "how";
    NotAcrossSpace(p, "can", "weather");
    p := p + " " + "can";
    NotAcrossSpace(p, "i", "weather");
    p := p + " " + "i";
    NotAcrossSpace(p, "optimize", "weather");
    p := p + " " + "optimize";
    NotAcrossSpace(p, "charging", "weather");
    p := p + " " + "charging";
    NotAcrossSpace(p, "efficiency?", "weather");
    p := p + " " + "efficiency?";
  }

  /** Fragments that no word of quick action 1, lower-cased, holds (part 6). */
  lemma OptimizationQuestionAvoids6(s: string)
    requires s == "how" + " " + "can" + " " + "i" + " " + "optimize" + " " + "charging" + " " + "efficiency?"
    ensures !Contains(s, "waterproof")
  {
    var p := "how";
    NotAcrossSpace(p, "can", "waterproof");
    p := p + " " + "can";
    NotAcrossSpace(p, "i", "waterproof");
    p := p + " " + "i";
    NotAcrossSpace(p, "optimize", "waterproof");
    p := p + " " + "optimize";
    NotAcrossSpace(p, "charging", "waterproof");
    p := p + " " + "charging";
    NotAcrossSpace(p, "efficiency?", "waterproof");
    p := p + " " + "efficiency?";
  }

  /** Fragments that no word of quick action 1, lower-cased, holds (part 7). */
  lemma OptimizationQuestionAvoids7(s: string)
    requires s == "how" + " " + "can" + " " + "i" + " " + "optimize" + " " + "charging" + " " + "efficiency?"
    ensures !Contains(s, "firmware")
  {
    var p := "how";
    NotAcrossSpace(p, "can", "firmware");
    p := p + " " + "can";
    NotAcrossSpace(p, "i", "firmware");
    p := p + " " + "i";
    NotAcrossSpace(p, "optimize", "firmware");
    p := p + " " + "optimize";
    NotAcrossSpace(p, "charging", "firmware");
    p := p + " " + "charging";
    NotAcrossSpace(p, "efficiency?", "firmware");
    p := p + " " + "efficiency?";
  }

  /** Fragments that no word of quick action 1, lower-cased, holds (part 8). */
  lemma OptimizationQuestionAvoids8(s: string)
    requires s == "how" + " " + "can" + " " + "i" + " " + "optimize" + " " + "charging" + " " + "efficiency?"
    ensures !Contains(s, "connector")
  {
    var p := "how";
    NotAcrossSpace(p, "can", "connector");
    p := p + " " + "can";
    NotAcrossSpace(p, "i", "connector");
    p := p + " " + "i";
    NotAcrossSpace(p, "optimize", "connector");
    p := p + " " + "optimize";
    NotAcrossSpace(p, "charging", "connector");
    p := p + " " + "charging";
    NotAcrossSpace(p, "efficiency?", "connector");
    p := p + " " + "efficiency?";
  }

  /** Rules 0 to 2 do not fire on a text without these characters and fragments, such as
      quick action 1. */
  lemma OptimizationQuestionSkipsRules0To2(s: string)
    requires 's' !in s && 'd' !in s && 'b' !in s && !Contains(s, "company")
    ensures forall j :: 0 <= j < 3 ==> !Matches(Rules[j], s)
  {
    MissingChar(s, "astreea", 's');
    MissingChar(s, "about", 'b');
    MissingChar(s, "model", 'd');
    MissingChar(s, "specification", 's');
    MissingChar(s, "specs", 's');
    MissingChar(s, "installation", 's');
    MissingChar(s, "install", 's');
    MissingChar(s, "setup", 's');
    forall j | 0 <= j < 3 ensures !Matches(Rules[j], s) {
      if j == 0 {
        assert Rules[0].fragments == ["astreea", "about", "company"];
      } else if j == 1 {
        assert Rules[1].fragments == ["model", "specification", "specs"];
      } else if j == 2 {
        assert Rules[2].fragments == ["installation", "install", "setup"];
      }
    }
  }

  /** Rules 3 to 4 do not fire on a text without these characters and fragments, such as
      quick action 1. */
  lemma OptimizationQuestionSkipsRules3To4(s: string)
    requires 's' !in s && 'b' !in s && !Contains(s, "app") && !Contains(s, "warranty")
    ensures forall j :: 3 <= j < 5 ==> !Matches(Rules[j], s)
  {
    MissingChar(s, "mobile", 'b');
    MissingChar(s, "smartphone", 's');
    MissingChar(s, "support", 's');
    MissingChar(s, "service", 's');
    forall j | 3 <= j < 5 ensures !Matches(Rules[j], s) {
      if j == 3 {
        assert Rules[3].fragments == ["app", "mobile", "smartphone"];
      } else if j == 4 {
        assert Rules[4].fragments == ["warranty", "support", "service"];
      }
    }
  }

  /** Rules 5 to 6 do not fire on a text without these characters and fragments, such as
      quick action 1. */
  lemma OptimizationQuestionSkipsRules5To6(s: string)
    requires 's' !in s && 'd' !in s && 'b' !in s && 'u' !in s
    requires !Contains(s, "price")
    ensures forall j :: 5 <= j < 7 ==> !Matches(Rules[j], s)
  {
    MissingChar(s, "cost", 's');
    MissingChar(s, "buy", 'b');
    MissingChar(s, "purchase", 's');
    MissingChar(s, "rfid", 'd');
    MissingChar(s, "access", 's');
    MissingChar(s, "card", 'd');
    MissingChar(s, "authentication", 'u');
    forall j | 5 <= j < 7 ensures !Matches(Rules[j], s) {
      if j == 5 {
        assert Rules[5].fragments == ["price", "cost", "buy", "purchase"];
      } else if j == 6 {
        assert Rules[6].fragments == ["rfid", "access", "card", "authentication"];
      }
    }
  }

  /** Rules 7 to 8 do not fire on a text without these characters and fragments, such as
      quick action 1. */
  lemma OptimizationQuestionSkipsRules7To8(s: string)
    requires 's' !in s && 'd' !in s && '5' !in s && !Contains(s, "weather")
    requires !Contains(s, "waterproof")
    ensures forall j :: 7 <= j < 9 ==> !Matches(Rules[j], s)
  {
    MissingChar(s, "load balancing", 'd');
    MissingChar(s, "power sharing", 's');
    MissingChar(s, "multiple chargers", 's');
    MissingChar(s, "outdoor", 'd');
    MissingChar(s, "ip65", '5');
    forall j | 7 <= j < 9 ensures !Matches(Rules[j], s) {
      if j == 7 {
        assert Rules[7].fragments == ["load balancing", "power sharing", "multiple chargers"];
      } else if j == 8 {
        assert Rules[8].fragments == ["weather", "outdoor", "ip65", "waterproof"];
      }
    }
  }

  /** Rules 9 to 11 do not fire on a text without these characters and fragments, such as
      quick action 1. */
  lemma OptimizationQuestionSkipsRules9To11(s: string)
    requires 's' !in s && 'd' !in s && 'b' !in s && 'u' !in s
    requires '2' !in s && !Contains(s, "firmware") && !Contains(s, "connector")
    ensures forall j :: 9 <= j < 12 ==> !Matches(Rules[j], s)
  {
    MissingChar(s, "update", 'd');
    MissingChar(s, "software", 's');
    MissingChar(s, "cable", 'b');
    MissingChar(s, "type 2", '2');
    MissingChar(s, "plug", 'u');
    MissingChar(s, "slow", 's');
    MissingChar(s, "charging slowly", 's');
    forall j | 9 <= j < 12 ensures !Matches(Rules[j], s) {
      if j == 9 {
        assert Rules[9].fragments == ["firmware", "update", "software"];
      } else if j == 10 {
        assert Rules[10].fragments == ["connector", "cable", "type 2", "plug"];
      } else if j == 11 {
        assert Rules[11].fragments == ["slow", "charging slowly"];
      }
    }
  }

  /** Rule 12 fires on quick action 1, lower-cased: it holds "optim". */
  lemma OptimizationQuestionHits(s: string)
    requires s == "how" + " " + "can" + " " + "i" + " " + "optimize" + " " + "charging" + " " + "efficiency?"
    ensures Matches(Rules[12], s)
  {
    var w := "optimize";
    assert OccursAt(w, "optim", 0);
    ContainsIffOccurs(w, "optim");
    ContainsWithin("how" + " " + "can" + " " + "i" + " ", w, " " + "charging" + " " + "efficiency?", "optim");
    assert s == ("how" + " " + "can" + " " + "i" + " ") + w + (" " + "charging" + " " + "efficiency?");
    assert Rules[12].fragments == ["optim", "efficiency"];
  }

  /** Quick action 1, lower-cased: its words, lower-cased, joined by spaces. */
  lemma OptimizationQuestionLowerCased(t: string)
    requires t == OptimizationQuestion
    ensures Lower(t) == "how" + " " + "can" + " " + "i" + " " + "optimize" + " " + "charging" + " " + "efficiency?"
  {
    OptimizationQuestionPieces(t);
    OptimizationQuestionSpelled(t);
    OptimizationQuestionLowered(t);
  }

  /** On quick action 1, lower-cased, rule 12 is the first rule to fire. */
  lemma OptimizationQuestionFirstRule(s: string)
    requires s == "how" + " " + "can" + " " + "i" + " " + "optimize" + " " + "charging" + " " + "efficiency?"
    ensures Matches(Rules[12], s)
    ensures forall j :: 0 <= j < 12 ==> !Matches(Rules[j], s)
  {
    OptimizationQuestionLacksSD(s);
    OptimizationQuestionLacksBU(s);
    OptimizationQuestionLacksDigit2Digit5(s);
    OptimizationQuestionAvoids1(s);
    OptimizationQuestionAvoids2(s);
    OptimizationQuestionAvoids3(s);
    OptimizationQuestionAvoids4(s);
    OptimizationQuestionAvoids5(s);
    OptimizationQuestionAvoids6(s);
    OptimizationQuestionAvoids7(s);
    OptimizationQuestionAvoids8(s);
    OptimizationQuestionSkipsRules0To2(s);
    OptimizationQuestionSkipsRules3To4(s);
    OptimizationQuestionSkipsRules5To6(s);
    OptimizationQuestionSkipsRules7To8(s);
    OptimizationQuestionSkipsRules9To11(s);
    OptimizationQuestionHits(s);
  }

  /** Quick action 1, "How can I optimize charging efficiency?", gets the Optimization response. */
  lemma QuickActionOptimization()
    ensures Classify(QuickActions[1].text) == Optimization
  {
    var t := QuickActions[1].text;
    assert t == OptimizationQuestion;
    OptimizationQuestionLowerCased(t);
    OptimizationQuestionFirstRule(Lower(t));
    FirstMatchFound(Rules, Lower(t), 12);
    assert Rules[12].template == Optimization;
  }

  // ---------------------------------------------------------------------------
  // Quick action 2: "When should I schedule maintenance?"

  /** Quick action 2, cut into pieces of a few words. */
  lemma MaintenanceQuestionPieces(t: string)
    requires t == MaintenanceQuestion
    ensures t == "When should I" + " schedule" + " maintenance?"
  {
  }

  /** Piece 1 of quick action 2, word by word. */
  lemma MaintenanceQuestionPiece1()
    ensures "When should I" == "When" + " " + "should" + " " + "I"
  {
  }

  /** Piece 2 of quick action 2, word by word. */
  lemma MaintenanceQuestionPiece2()
    ensures " schedule" == " " + "schedule"
  {
  }

  /** Piece 3 of quick action 2, word by word. */
  lemma MaintenanceQuestionPiece3()
    ensures " maintenance?" == " " + "maintenance?"
  {
  }

  /** The pieces of quick action 2, put back together, are its words joined by spaces. */
  lemma MaintenanceQuestionRegroup(x1: string, x2: string, x3: string)
    requires x1 == "When" + " " + "should" + " " + "I"
    requires x2 == " " + "schedule"
    requires x3 == " " + "maintenance?"
    ensures x1 + x2 + x3 == "When" + " " + "should" + " " + "I" + " " + "schedule" + " " + "maintenance?"
  {
  }

  /** Quick action 2 is its words joined by spaces. */
  lemma MaintenanceQuestionSpelled(t: string)
    requires t == "When should I" + " schedule" + " maintenance?"
    ensures t == "When" + " " + "should" + " " + "I" + " " + "schedule" + " " + "maintenance?"
  {
    MaintenanceQuestionPiece1();
    MaintenanceQuestionPiece2();
    MaintenanceQuestionPiece3();
    MaintenanceQuestionRegroup("When should I", " schedule", " maintenance?");
  }

  /** Quick action 2, lower-cased word by word. */
  lemma MaintenanceQuestionLowered(t: string)
    requires t == "When" + " " + "should" + " " + "I" + " " + "schedule" + " " + "maintenance?"
    ensures Lower(t) == "when" + " " + "should" + " " + "i" + " " + "schedule" + " " + "maintenance?"
  {
    var p := "When";
    assert Lower(p) == "when";
    LowerConcat(p, " ");
    p := p + " ";
    LowerConcat(p, "should");
    p := p + "should";
    LowerConcat(p, " ");
    p := p + " ";
    LowerConcat(p, "I");
    p := p + "I";
    LowerConcat(p, " ");
    p := p + " ";
    LowerConcat(p, "schedule");
    p := p + "schedule";
    LowerConcat(p, " ");
    p := p + " ";
    LowerConcat(p, "maintenance?");
    p := p + "maintenance?";
    assert Lower(" ") == " ";
    assert Lower("should") == "should";
    assert Lower("I") == "i";
    assert Lower("schedule") == "schedule";
    assert Lower("maintenance?") == "maintenance?";
  }

  /** Characters that quick action 2, lower-cased, does not contain. */
  lemma MaintenanceQuestionLacksRP(s: string)
    requires s == "when" + " " + "should" + " " + "i" + " " + "schedule" + " " + "maintenance?"
    ensures 'r' !in s && 'p' !in s
  {
  }

  /** Characters that quick action 2, lower-cased, does not contain. */
  lemma MaintenanceQuestionLacksBF(s: string)
    requires s == "when" + " " + "should" + " " + "i" + " " + "schedule" + " " + "maintenance?"
    ensures 'b' !in s && 'f' !in s
  {
  }

  /** Fragments that no word of quick action 2, lower-cased, holds (part 1). */
  lemma MaintenanceQuestionAvoids1(s: string)
    requires s == "when" + " " + "should" + " " + "i" + " " + "schedule" + " " + "maintenance?"
    ensures !Contains(s, "model")
  {
    var p := "when";
    NotAcrossSpace(p, "should", "model");
    p := p + " " + "should";
    NotAcrossSpace(p, "i", "model");
    p := p + " " + "i";
    NotAcrossSpace(p, "schedule", "model");
    p := p + " " + "schedule";
    NotAcrossSpace(p, "maintenance?", "model");
    p := p + " " + "maintenance?";
  }

  /** Fragments that no word of quick action 2, lower-cased, holds (part 2). */
  lemma MaintenanceQuestionAvoids2(s: string)
    requires s == "when" + " " + "should" + " " + "i" + " " + "schedule" + " " + "maintenance?"
    ensures !Contains(s, "installation")
  {
    var p := "when";
    NotAcrossSpace(p, "should", "installation");
    p := p + " " + "should";
    NotAcrossSpace(p, "i", "installation");
    p := p + " " + "i";
    NotAcrossSpace(p, "schedule", "installation");
    p := p + " " + "schedule";
    NotAcrossSpace(p, "maintenance?", "installation");
    p := p + " " + "maintenance?";
  }

  /** Fragments that no word of quick action 2, lower-cased, holds (part 3). */
  lemma MaintenanceQuestionAvoids3(s: string)
    requires s == "when" + " " + "should" + " " + "i" + " " + "schedule" + " " + "maintenance?"
    ensures !Contains(s, "install")
  {
    var p := "when";
    NotAcrossSpace(p, "should", "install");
    p := p + " " + "should";
    NotAcrossSpace(p, "i", "install");
    p := p + " " + "i";
    NotAcrossSpace(p, "schedule", "install");
    p := p + " " + "schedule";
    NotAcrossSpace(p, "maintenance?", "install");
    p := p + " " + "maintenance?";
  }

  /** Fragments that no word of quick action 2, lower-cased, holds (part 4). */
  lemma MaintenanceQuestionAvoids4(s: string)
    requires s == "when" + " " + "should" + " " + "i" + " " + "schedule" + " " + "maintenance?"
    ensures !Contains(s, "cost")
  {
    var p := "when";
    NotAcrossSpace(p, "should", "cost");
    p := p + " " + "should";
    NotAcrossSpace(p, "i", "cost");
    p := p + " " + "i";
    NotAcrossSpace(p, "schedule", "cost");
    p := p + " " + "schedule";
    NotAcrossSpace(p, "maintenance?", "cost");
    p := p + " " + "maintenance?";
  }

  /** Fragments that no word of quick action 2, lower-cased, holds (part 5). */
  lemma MaintenanceQuestionAvoids5(s: string)
    requires s == "when" + " " + "should" + " " + "i" + " " + "schedule" + " " + "maintenance?"
    ensures !Contains(s, "access")
  {
    var p := "when";
    NotAcrossSpace(p, "should", "access");
    p := p + " " + "should";
    NotAcrossSpace(p, "i", "access");
    p := p + " " + "i";
    NotAcrossSpace(p, "schedule", "access");
    p := p + " " + "schedule";
    NotAcrossSpace(p, "maintenance?", "access");
    p := p + " " + "maintenance?";
  }

  /** Fragments that no word of quick action 2, lower-cased, holds (part 6). */
  lemma MaintenanceQuestionAvoids6(s: string)
    requires s == "when" + " " + "should" + " " + "i" + " " + "schedule" + " " + "maintenance?"
    ensures !Contains(s, "authentication")
  {
    var p := "when";
    NotAcrossSpace(p, "should", "authentication");
    p := p + " " + "should";
    NotAcrossSpace(p, "i", "authentication");
    p := p + " " + "i";
    NotAcrossSpace(p, "schedule", "authentication");
    p := p + " " + "schedule";
    NotAcrossSpace(p, "maintenance?", "authentication");
    p := p + " " + "maintenance?";
  }

  /** Fragments that no word of quick action 2, lower-cased, holds (part 7). */
  lemma MaintenanceQuestionAvoids7(s: string)
    requires s == "when" + " " + "should" + " " + "i" + " " + "schedule" + " " + "maintenance?"
    ensures !Contains(s, "slow")
  {
    var p := "when";
    NotAcrossSpace(p, "should", "slow");
    p := p + " " + "should";
    NotAcrossSpace(p, "i", "slow");
    p := p + " " + "i";
    NotAcrossSpace(p, "schedule", "slow");
    p := p + " " + "schedule";
    NotAcrossSpace(p, "maintenance?", "slow");
    p := p + " " + "maintenance?";
  }

  /** Rules 0 to 2 do not fire on a text without these characters and fragments, such as
      quick action 2. */
  lemma MaintenanceQuestionSkipsRules0To2(s: string)
    requires 'r' !in s && 'p' !in s && 'b' !in s && !Contains(s, "model")
    requires !Contains(s, "installation") && !Contains(s, "install")
    ensures forall j :: 0 <= j < 3 ==> !Matches(Rules[j], s)
  {
    MissingChar(s, "astreea", 'r');
    MissingChar(s, "about", 'b');
    MissingChar(s, "company", 'p');
    MissingChar(s, "specification", 'p');
    MissingChar(s, "specs", 'p');
    MissingChar(s, "setup", 'p');
    forall j | 0 <= j < 3 ensures !Matches(Rules[j], s) {
      if j == 0 {
        assert Rules[0].fragments == ["astreea", "about", "company"];
      } else if j == 1 {
        assert Rules[1].fragments == ["model", "specification", "specs"];
      } else if j == 2 {
        assert Rules[2].fragments == ["installation", "install", "setup"];
      }
    }
  }

  /** Rules 3 to 4 do not fire on a text without these characters and fragments, such as
      quick action 2. */
  lemma MaintenanceQuestionSkipsRules3To4(s: string)
    requires 'r' !in s && 'p' !in s && 'b' !in s
    ensures forall j :: 3 <= j < 5 ==> !Matches(Rules[j], s)
  {
    MissingChar(s, "app", 'p');
    MissingChar(s, "mobile", 'b');
    MissingChar(s, "smartphone", 'r');
    MissingChar(s, "warranty", 'r');
    MissingChar(s, "support", 'r');
    MissingChar(s, "service", 'r');
    forall j | 3 <= j < 5 ensures !Matches(Rules[j], s) {
      if j == 3 {
        assert Rules[3].fragments == ["app", "mobile", "smartphone"];
      } else if j == 4 {
        assert Rules[4].fragments == ["warranty", "support", "service"];
      }
    }
  }

  /** Rules 5 to 6 do not fire on a text without these characters and fragments, such as
      quick action 2. */
  lemma MaintenanceQuestionSkipsRules5To6(s: string)
    requires 'r' !in s && 'b' !in s && !Contains(s, "cost") && !Contains(s, "access")
    requires !Contains(s, "authentication")
    ensures forall j :: 5 <= j < 7 ==> !Matches(Rules[j], s)
  {
    MissingChar(s, "price", 'r');
    MissingChar(s, "buy", 'b');
    MissingChar(s, "purchase", 'r');
    MissingChar(s, "rfid", 'r');
    MissingChar(s, "card", 'r');
    forall j | 5 <= j < 7 ensures !Matches(Rules[j], s) {
      if j == 5 {
        assert Rules[5].fragments == ["price", "cost", "buy", "purchase"];
      } else if j == 6 {
        assert Rules[6].fragments == ["rfid", "access", "card", "authentication"];
      }
    }
  }

  /** Rules 7 to 8 do not fire on a text without these characters and fragments, such as
      quick action 2. */
  lemma MaintenanceQuestionSkipsRules7To8(s: string)
    requires 'r' !in s && 'p' !in s && 'b' !in s
    ensures forall j :: 7 <= j < 9 ==> !Matches(Rules[j], s)
  {
    MissingChar(s, "load balancing", 'b');
    MissingChar(s, "power sharing", 'r');
    MissingChar(s, "multiple chargers", 'r');
    MissingChar(s, "weather", 'r');
    MissingChar(s, "outdoor", 'r');
    MissingChar(s, "ip65", 'p');
    MissingChar(s, "waterproof", 'r');
    forall j | 7 <= j < 9 ensures !Matches(Rules[j], s) {
      if j == 7 {
        assert Rules[7].fragments == ["load balancing", "power sharing", "multiple chargers"];
      } else if j == 8 {
        assert Rules[8].fragments == ["weather", "outdoor", "ip65", "waterproof"];
      }
    }
  }

  /** Rules 9 to 11 do not fire on a text without these characters and fragments, such as
      quick action 2. */
  lemma MaintenanceQuestionSkipsRules9To11(s: string)
    requires 'r' !in s && 'p' !in s && 'b' !in s && !Contains(s, "slow")
    ensures forall j :: 9 <= j < 12 ==> !Matches(Rules[j], s)
  {
    MissingChar(s, "firmware", 'r');
    MissingChar(s, "update", 'p');
    MissingChar(s, "software", 'r');
    MissingChar(s, "connector", 'r');
    MissingChar(s, "cable", 'b');
    MissingChar(s, "type 2", 'p');
    MissingChar(s, "plug", 'p');
    MissingChar(s, "charging slowly", 'r');
    forall j | 9 <= j < 12 ensures !Matches(Rules[j], s) {
      if j == 9 {
        assert Rules[9].fragments == ["firmware", "update", "software"];
      } else if j == 10 {
        assert Rules[10].fragments == ["connector", "cable", "type 2", "plug"];
      } else if j == 11 {
        assert Rules[11].fragments == ["slow", "charging slowly"];
      }
    }
  }

  /** Rule 12 does not fire on a text without these characters and fragments, such as
      quick action 2. */
  lemma MaintenanceQuestionSkipsRules12To12(s: string)
    requires 'p' !in s && 'f' !in s
    ensures forall j :: 12 <= j < 13 ==> !Matches(Rules[j], s)
  {
    MissingChar(s, "optim", 'p');
    MissingChar(s, "efficiency", 'f');
    assert Rules[12].fragments == ["optim", "efficiency"];
  }

  /** Rule 13 fires on quick action 2, lower-cased: it holds "maintenance". */
  lemma MaintenanceQuestionHits(s: string)
    requires s == "when" + " " + "should" + " " + "i" + " " + "schedule" + " " + "maintenance?"
    ensures Matches(Rules[13], s)
  {
    var w := "maintenance?";
    assert OccursAt(w, "maintenance", 0);
    ContainsIffOccurs(w, "maintenance");
    ContainsWithin("when" + " " + "should" + " " + "i" + " " + "schedule" + " ", w, "", "maintenance");
    assert s == ("when" + " " + "should" + " " + "i" + " " + "schedule" + " ") + w + ("");
    assert Rules[13].fragments == ["maintenance", "service"];
  }

  /** Quick action 2, lower-cased: its words, lower-cased, joined by spaces. */
  lemma MaintenanceQuestionLowerCased(t: string)
    requires t == MaintenanceQuestion
    ensures Lower(t) == "when" + " " + "should" + " " + "i" + " " + "schedule" + " " + "maintenance?"
  {
    MaintenanceQuestionPieces(t);
    MaintenanceQuestionSpelled(t);
    MaintenanceQuestionLowered(t);
  }

  /** On quick action 2, lower-cased, rule 13 is the first rule to fire. */
  lemma MaintenanceQuestionFirstRule(s: string)
    requires s == "when" + " " + "should" + " " + "i" + " " + "schedule" + " " + "maintenance?"
    ensures Matches(Rules[13], s)
    ensures forall j :: 0 <= j < 13 ==> !Matches(Rules[j], s)
  {
    MaintenanceQuestionLacksRP(s);
    MaintenanceQuestionLacksBF(s);
    MaintenanceQuestionAvoids1(s);
    MaintenanceQuestionAvoids2(s);
    MaintenanceQuestionAvoids3(s);
    MaintenanceQuestionAvoids4(s);
    MaintenanceQuestionAvoids5(s);
    MaintenanceQuestionAvoids6(s);
    MaintenanceQuestionAvoids7(s);
    MaintenanceQuestionSkipsRules0To2(s);
    MaintenanceQuestionSkipsRules3To4(s);
    MaintenanceQuestionSkipsRules5To6(s);
    MaintenanceQuestionSkipsRules7To8(s);
    MaintenanceQuestionSkipsRules9To11(s);
    MaintenanceQuestionSkipsRules12To12(s);
    MaintenanceQuestionHits(s);
  }

  /** Quick action 2, "When should I schedule maintenance?", gets the Maintenance response. */
  lemma QuickActionMaintenance()
    ensures Classify(QuickActions[2].text) == Maintenance
  {
    var t := QuickActions[2].text;
    assert t == MaintenanceQuestion;
    MaintenanceQuestionLowerCased(t);
    MaintenanceQuestionFirstRule(Lower(t));
    FirstMatchFound(Rules, Lower(t), 13);
    assert Rules[13].template == Maintenance;
  }

  // ---------------------------------------------------------------------------
  // Quick action 3: "What does the amber status light mean?"

  /** Quick action 3, cut into pieces of a few words. */
  lemma StatusLightQuestionPieces(t: string)
    requires t == StatusLightQuestion
    ensures t == "What does the" + " amber status" + " light mean?"
  {
  }

  /** Piece 1 of quick action 3, word by word. */
  lemma StatusLightQuestionPiece1()
    ensures "What does the" == "What" + " " + "does" + " " + "the"
  {
  }

  /** Piece 2 of quick action 3, word by word. */
  lemma StatusLightQuestionPiece2()
    ensures " amber status" == " " + "amber" + " " + "status"
  {
  }

  /** Piece 3 of quick action 3, word by word. */
  lemma StatusLightQuestionPiece3()
    ensures " light mean?" == " " + "light" + " " + "mean?"
  {
  }

  /** The pieces of quick action 3, put back together, are its words joined by spaces. */
  lemma StatusLightQuestionRegroup(x1: string, x2: string, x3: string)
    requires x1 == "What" + " " + "does" + " " + "the"
    requires x2 == " " + "amber" + " " + "status"
    requires x3 == " " + "light" + " " + "mean?"
    ensures x1 + x2 + x3 == "What" + " " + "does" + " " + "the" + " " + "amber" + " " + "status" + " " + "light" + " " + "mean?"
  {
  }

  /** Quick action 3 is its words joined by spaces. */
  lemma StatusLightQuestionSpelled(t: string)
    requires t == "What does the" + " amber status" + " light mean?"
    ensures t == "What" + " " + "does" + " " + "the" + " " + "amber" + " " + "status" + " " + "light" + " " + "mean?"
  {
    StatusLightQuestionPiece1();
    StatusLightQuestionPiece2();
    StatusLightQuestionPiece3();
    StatusLightQuestionRegroup("What does the", " amber status", " light mean?");
  }

  /** Quick action 3, lower-cased word by word. */
  lemma StatusLightQuestionLowered(t: string)
    requires t == "What" + " " + "does" + " " + "the" + " " + "amber" + " " + "status" + " " + "light" + " " + "mean?"
    ensures Lower(t) == "what" + " " + "does" + " " + "the" + " " + "amber" + " " + "status" + " " + "light" + " " + "mean?"
  {
    var p := "What";
    assert Lower(p) == "what";
    LowerConcat(p, " ");
    p := p + " ";
    LowerConcat(p, "does");
    p := p + "does";
    LowerConcat(p, " ");
    p := p + " ";
    LowerConcat(p, "the");
    p := p + "the";
    LowerConcat(p, " ");
    p := p + " ";
    LowerConcat(p, "amber");
    p := p + "amber";
    LowerConcat(p, " ");
    p := p + " ";
    LowerConcat(p, "status");
    p := p + "status";
    LowerConcat(p, " ");
    p := p + " ";
    LowerConcat(p, "light");
    p := p + "light";
    LowerConcat(p, " ");
    p := p + " ";
    LowerConcat(p, "mean?");
    p := p + "mean?";
    assert Lower(" ") == " ";
    assert Lower("does") == "does";
    assert Lower("the") == "the";
    assert Lower("amber") == "amber";
    assert Lower("status") == "status";
    assert Lower("light") == "light";
    assert Lower("mean?") == "mean?";
  }

  /** Characters that quick action 3, lower-cased, does not contain. */
  lemma StatusLightQuestionLacksCP(s: string)
    requires s == "what" + " " + "does" + " " + "the" + " " + "amber" + " " + "status" + " " + "light" + " " + "mean?"
    ensures 'c' !in s && 'p' !in s
  {
  }

  /** Characters that quick action 3, lower-cased, does not contain. */
  lemma StatusLightQuestionLacksFY(s: string)
    requires s == "what" + " " + "does" + " " + "the" + " " + "amber" + " " + "status" + " " + "light" + " " + "mean?"
    ensures 'f' !in s && 'y' !in s
  {
  }

  /** Fragments that no word of quick action 3, lower-cased, holds (part 1). */
  lemma StatusLightQuestionAvoids1(s: string)
    requires s == "what" + " " + "does" + " " + "the" + " " + "amber" + " " + "status" + " " + "light" + " " + "mean?"
    ensures !Contains(s, "astreea")
  {
    var p := "what";
    NotAcrossSpace(p, "does", "astreea");
    p := p + " " + "does";
    NotAcrossSpace(p, "the", "astreea");
    p := p + " " + "the";
    NotAcrossSpace(p, "amber", "astreea");
    p := p + " " + "amber";
    NotAcrossSpace(p, "status", "astreea");
    p := p + " " + "status";
    NotAcrossSpace(p, "light", "astreea");
    p := p + " " + "light";
    NotAcrossSpace(p, "mean?", "astreea");
    p := p + " " + "mean?";
  }

  /** Fragments that no word of quick action 3, lower-cased, holds (part 2). */
  lemma StatusLightQuestionAvoids2(s: string)
    requires s == "what" + " " + "does" + " " + "the" + " " + "amber" + " " + "status" + " " + "light" + " " + "mean?"
    ensures !Contains(s, "about")
  {
    var p := "what";
    NotAcrossSpace(p, "does", "about");
    p := p + " " + "does";
    NotAcrossSpace(p, "the", "about");
    p := p + " " + "the";
    NotAcrossSpace(p, "amber", "about");
    p := p + " " + "amber";
    NotAcrossSpace(p, "status", "about");
    p := p + " " + "status";
    NotAcrossSpace(p, "light", "about");
    p := p + " " + "light";
    NotAcrossSpace(p, "mean?", "about");
    p := p + " " + "mean?";
  }

  /** Fragments that no word of quick action 3, lower-cased, holds (part 3). */
  lemma StatusLightQuestionAvoids3(s: string)
    requires s == "what" + " " + "does" + " " + "the" + " " + "amber" + " " + "status" + " " + "light" + " " + "mean?"
    ensures !Contains(s, "model")
  {
    var p := "what";
    NotAcrossSpace(p, "does", "model");
    p := p + " " + "does";
    NotAcrossSpace(p, "the", "model");
    p := p + " " + "the";
    NotAcrossSpace(p, "amber", "model");
    p := p + " " + "amber";
    NotAcrossSpace(p, "status", "model");
    p := p + " " + "status";
    NotAcrossSpace(p, "light", "model");
    p := p + " " + "light";
    NotAcrossSpace(p, "mean?", "model");
    p := p + " " + "mean?";
  }

  /** Fragments that no word of quick action 3, lower-cased, holds (part 4). */
  lemma StatusLightQuestionAvoids4(s: string)
    requires s == "what" + " " + "does" + " " + "the" + " " + "amber" + " " + "status" + " " + "light" + " " + "mean?"
    ensures !Contains(s, "installation")
  {
    var p := "what";
    NotAcrossSpace(p, "does", "installation");
    p := p + " " + "does";
    NotAcrossSpace(p, "the", "installation");
    p := p + " " + "the";
    NotAcrossSpace(p, "amber", "installation");
    p := p + " " + "amber";
    NotAcrossSpace(p, "status", "installation");
    p := p + " " + "status";
    NotAcrossSpace(p, "light", "installation");
    p := p + " " + "light";
    NotAcrossSpace(p, "mean?", "installation");
    p := p + " " + "mean?";
  }

  /** Fragments that no word of quick action 3, lower-cased, holds (part 5). */
  lemma StatusLightQuestionAvoids5(s: string)
    requires s == "what" + " " + "does" + " " + "the" + " " + "amber" + " " + "status" + " " + "light" + " " + "mean?"
    ensures !Contains(s, "install")
  {
    var p := "what";
    NotAcrossSpace(p, "does", "install");
    p := p + " " + "does";
    NotAcrossSpace(p, "the", "install");
    p := p + " " + "the";
    NotAcrossSpace(p, "amber", "install");
    p := p + " " + "amber";
    NotAcrossSpace(p, "status", "install");
    p := p + " " + "status";
    NotAcrossSpace(p, "light", "install");
    p := p + " " + "light";
    NotAcrossSpace(p, "mean?", "install");
    p := p + " " + "mean?";
  }

  /** Fragments that no word of quick action 3, lower-cased, holds (part 6). */
  lemma StatusLightQuestionAvoids6(s: string)
    requires s == "what" + " " + "does" + " " + "the" + " " + "amber" + " " + "status" + " " + "light" + " " + "mean?"
    ensures !Contains(s, "mobile")
  {
    var p := "what";
    NotAcrossSpace(p, "does", "mobile");
    p := p + " " + "does";
    NotAcrossSpace(p, "the", "mobile");
    p := p + " " + "the";
    NotAcrossSpace(p, "amber", "mobile");
    p := p + " " + "amber";
    NotAcrossSpace(p, "status", "mobile");
    p := p + " " + "status";
    NotAcrossSpace(p, "light", "mobile");
    p := p + " " + "light";
    NotAcrossSpace(p, "mean?", "mobile");
    p := p + " " + "mean?";
  }

  /** Fragments that no word of quick action 3, lower-cased, holds (part 7). */
  lemma StatusLightQuestionAvoids7(s: string)
    requires s == "what" + " " + "does" + " " + "the" + " " + "amber" + " " + "status" + " " + "light" + " " + "mean?"
    ensures !Contains(s, "weather")
  {
    var p := "what";
    NotAcrossSpace(p, "does", "weather");
    p := p + " " + "does";
    NotAcrossSpace(p, "the", "weather");
    p := p + " " + "the";
    NotAcrossSpace(p, "amber", "weather");
    p := p + " " + "amber";
    NotAcrossSpace(p, "status", "weather");
    p := p + " " + "status";
    NotAcrossSpace(p, "light", "weather");
    p := p + " " + "light";
    NotAcrossSpace(p, "mean?", "weather");
    p := p + " " + "mean?";
  }

  /** Fragments that no word of quick action 3, lower-cased, holds (part 8). */
  lemma StatusLightQuestionAvoids8(s: string)
    requires s == "what" + " " + "does" + " " + "the" + " " + "amber" + " " + "status" + " " + "light" + " " + "mean?"
    ensures !Contains(s, "outdoor")
  {
    var p := "what";
    NotAcrossSpace(p, "does", "outdoor");
    p := p + " " + "does";
    NotAcrossSpace(p, "the", "outdoor");
    p := p + " " + "the";
    NotAcrossSpace(p, "amber", "outdoor");
    p := p + " " + "amber";
    NotAcrossSpace(p, "status", "outdoor");
    p := p + " " + "status";
    NotAcrossSpace(p, "light", "outdoor");
    p := p + " " + "light";
    NotAcrossSpace(p, "mean?", "outdoor");
    p := p + " " + "mean?";
  }

  /** Fragments that no word of quick action 3, lower-cased, holds (part 9). */
  lemma StatusLightQuestionAvoids9(s: string)
    requires s == "what" + " " + "does" + " " + "the" + " " + "amber" + " " + "status" + " " + "light" + " " + "mean?"
    ensures !Contains(s, "slow")
  {
    var p := "what";
    NotAcrossSpace(p, "does", "slow");
    p := p + " " + "does";
    NotAcrossSpace(p, "the", "slow");
    p := p + " " + "the";
    NotAcrossSpace(p, "amber", "slow");
    p := p + " " + "amber";
    NotAcrossSpace(p, "status", "slow");
    p := p + " " + "status";
    NotAcrossSpace(p, "light", "slow");
    p := p + " " + "light";
    NotAcrossSpace(p, "mean?", "slow");
    p := p + " " + "mean?";
  }

  /** Rules 0 to 2 do not fire on a text without these characters and fragments, such as
      quick action 3. */
  lemma StatusLightQuestionSkipsRules0To2(s: string)
    requires 'c' !in s && 'p' !in s && !Contains(s, "astreea") && !Contains(s, "about")
    requires !Contains(s, "model") && !Contains(s, "installation") && !Contains(s, "install")
    ensures forall j :: 0 <= j < 3 ==> !Matches(Rules[j], s)
  {
    MissingChar(s, "company", 'c');
    MissingChar(s, "specification", 'c');
    MissingChar(s, "specs", 'c');
    MissingChar(s, "setup", 'p');
    forall j | 0 <= j < 3 ensures !Matches(Rules[j], s) {
      if j == 0 {
        assert Rules[0].fragments == ["astreea", "about", "company"];
      } else if j == 1 {
        assert Rules[1].fragments == ["model", "specification", "specs"];
      } else if j == 2 {
        assert Rules[2].fragments == ["installation", "install", "setup"];
      }
    }
  }

  /** Rules 3 to 4 do not fire on a text without these characters and fragments, such as
      quick action 3. */
  lemma StatusLightQuestionSkipsRules3To4(s: string)
    requires 'c' !in s && 'p' !in s && 'y' !in s && !Contains(s, "mobile")
    ensures forall j :: 3 <= j < 5 ==> !Matches(Rules[j], s)
  {
    MissingChar(s, "app", 'p');
    MissingChar(s, "smartphone", 'p');
    MissingChar(s, "warranty", 'y');
    MissingChar(s, "support", 'p');
    MissingChar(s, "service", 'c');
    forall j | 3 <= j < 5 ensures !Matches(Rules[j], s) {
      if j == 3 {
        assert Rules[3].fragments == ["app", "mobile", "smartphone"];
      } else if j == 4 {
        assert Rules[4].fragments == ["warranty", "support", "service"];
      }
    }
  }

  /** Rules 5 to 6 do not fire on a text without these characters and fragments, such as
      quick action 3. */
  lemma StatusLightQuestionSkipsRules5To6(s: string)
    requires 'c' !in s && 'f' !in s && 'y' !in s
    ensures forall j :: 5 <= j < 7 ==> !Matches(Rules[j], s)
  {
    MissingChar(s, "price", 'c');
    MissingChar(s, "cost", 'c');
    MissingChar(s, "buy", 'y');
    MissingChar(s, "purchase", 'c');
    MissingChar(s, "rfid", 'f');
    MissingChar(s, "access", 'c');
    MissingChar(s, "card", 'c');
    MissingChar(s, "authentication", 'c');
    forall j | 5 <= j < 7 ensures !Matches(Rules[j], s) {
      if j == 5 {
        assert Rules[5].fragments == ["price", "cost", "buy", "purchase"];
      } else if j == 6 {
        assert Rules[6].fragments == ["rfid", "access", "card", "authentication"];
      }
    }
  }

  /** Rules 7 to 8 do not fire on a text without these characters and fragments, such as
      quick action 3. */
  lemma StatusLightQuestionSkipsRules7To8(s: string)
    requires 'c' !in s && 'p' !in s && !Contains(s, "weather") && !Contains(s, "outdoor")
    ensures forall j :: 7 <= j < 9 ==> !Matches(Rules[j], s)
  {
    MissingChar(s, "load balancing", 'c');
    MissingChar(s, "power sharing", 'p');
    MissingChar(s, "multiple chargers", 'c');
    MissingChar(s, "ip65", 'p');
    MissingChar(s, "waterproof", 'p');
    forall j | 7 <= j < 9 ensures !Matches(Rules[j], s) {
      if j == 7 {
        assert Rules[7].fragments == ["load balancing", "power sharing", "multiple chargers"];
      } else if j == 8 {
        assert Rules[8].fragments == ["weather", "outdoor", "ip65", "waterproof"];
      }
    }
  }

  /** Rules 9 to 11 do not fire on a text without these characters and fragments, such as
      quick action 3. */
  lemma StatusLightQuestionSkipsRules9To11(s: string)
    requires 'c' !in s && 'p' !in s && 'f' !in s && !Contains(s, "slow")
    ensures forall j :: 9 <= j < 12 ==> !Matches(Rules[j], s)
  {
    MissingChar(s, "firmware", 'f');
    MissingChar(s, "update", 'p');
    MissingChar(s, "software", 'f');
    MissingChar(s, "connector", 'c');
    MissingChar(s, "cable", 'c');
    MissingChar(s, "type 2", 'p');
    MissingChar(s, "plug", 'p');
    MissingChar(s, "charging slowly", 'c');
    forall j | 9 <= j < 12 ensures !Matches(Rules[j], s) {
      if j == 9 {
        assert Rules[9].fragments == ["firmware", "update", "software"];
      } else if j == 10 {
        assert Rules[10].fragments == ["connector", "cable", "type 2", "plug"];
      } else if j == 11 {
        assert Rules[11].fragments == ["slow", "charging slowly"];
      }
    }
  }

  /** Rules 12 to 13 do not fire on a text without these characters and fragments, such as
      quick action 3. */
  lemma StatusLightQuestionSkipsRules12To13(s: string)
    requires 'c' !in s && 'p' !in s
    ensures forall j :: 12 <= j < 14 ==> !Matches(Rules[j], s)
  {
    MissingChar(s, "optim", 'p');
    MissingChar(s, "efficiency", 'c');
    MissingChar(s, "maintenance", 'c');
    MissingChar(s, "service", 'c');
    forall j | 12 <= j < 14 ensures !Matches(Rules[j], s) {
      if j == 12 {
        assert Rules[12].fragments == ["optim", "efficiency"];
      } else if j == 13 {
        assert Rules[13].fragments == ["maintenance", "service"];
      }
    }
  }

  /** Rule 14 fires on quick action 3, lower-cased: it holds "status". */
  lemma StatusLightQuestionHits(s: string)
    requires s == "what" + " " + "does" + " " + "the" + " " + "amber" + " " + "status" + " " + "light" + " " + "mean?"
    ensures Matches(Rules[14], s)
  {
    var w := "status";
    assert OccursAt(w, "status", 0);
    ContainsIffOccurs(w, "status");
    ContainsWithin("what" + " " + "does" + " " + "the" + " " + "amber" + " ", w, " " + "light" + " " + "mean?", "status");
    assert s == ("what" + " " + "does" + " " + "the" + " " + "amber" + " ") + w + (" " + "light" + " " + "mean?");
    assert Rules[14].fragments == ["status", "light", "amber", "warning"];
  }

  /** Quick action 3, lower-cased: its words, lower-cased, joined by spaces. */
  lemma StatusLightQuestionLowerCased(t: string)
    requires t == StatusLightQuestion
    ensures Lower(t) == "what" + " " + "does" + " " + "the" + " " + "amber" + " " + "status" + " " + "light" + " " + "mean?"
  {
    StatusLightQuestionPieces(t);
    StatusLightQuestionSpelled(t);
    StatusLightQuestionLowered(t);
  }

  /** On quick action 3, lower-cased, rule 14 is the first rule to fire. */
  lemma StatusLightQuestionFirstRule(s: string)
    requires s == "what" + " " + "does" + " " + "the" + " " + "amber" + " " + "status" + " " + "light" + " " + "mean?"
    ensures Matches(Rules[14], s)
    ensures forall j :: 0 <= j < 14 ==> !Matches(Rules[j], s)
  {
    StatusLightQuestionLacksCP(s);
    StatusLightQuestionLacksFY(s);
    StatusLightQuestionAvoids1(s);
    StatusLightQuestionAvoids2(s);
    StatusLightQuestionAvoids3(s);
    StatusLightQuestionAvoids4(s);
    StatusLightQuestionAvoids5(s);
    StatusLightQuestionAvoids6(s);
    StatusLightQuestionAvoids7(s);
    StatusLightQuestionAvoids8(s);
    StatusLightQuestionAvoids9(s);
    StatusLightQuestionSkipsRules0To2(s);
    StatusLightQuestionSkipsRules3To4(s);
    StatusLightQuestionSkipsRules5To6(s);
    StatusLightQuestionSkipsRules7To8(s);
    StatusLightQuestionSkipsRules9To11(s);
    StatusLightQuestionSkipsRules12To13(s);
    StatusLightQuestionHits(s);
  }

  /** Quick action 3, "What does the amber status light mean?", gets the StatusLight response. */
  lemma QuickActionStatusLight()
    ensures Classify(QuickActions[3].text) == StatusLight
  {
    var t := QuickActions[3].text;
    assert t == StatusLightQuestion;
    StatusLightQuestionLowerCased(t);
    StatusLightQuestionFirstRule(Lower(t));
    FirstMatchFound(Rules, Lower(t), 14);
    assert Rules[14].template == StatusLight;
  }
}
