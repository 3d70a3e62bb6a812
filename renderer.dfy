/** The line renderer of the chat assistant (ChatAssistant.tsx, `formatMessage`): the
    message is split on newlines and each line becomes one display block, chosen by the
    first rule that applies. The blocks are what the component draws; the markup around
    them is left to the view. */
module Renderer {
  import opened Text

  /** One rendered line. A labelled bullet is drawn as its title (the label) in bold, a colon and
      its body. */
  datatype Block =
    | LabeledBullet(title: string, body: string)
    | Heading(text: string)
    | Plain(text: string)
    | Spacer

  /** The opening of a labelled bullet: a bullet, a space and two stars. */
  const BulletOpen: string := "• **"
  /** What replaces the opening in the label: the bullet and its space. */
  const Bullet: string := "• "
  /** The end of a label. */
  const LabelClose: string := "**:"

  predicate IsLabeledBulletLine(line: string) {
    StartsWith(line, BulletOpen) && Contains(line, LabelClose)
  }

  predicate IsHeadingLine(line: string) {
    StartsWith(line, "**") && EndsWith(line, "**")
  }

  /** The block of one line; the first rule that applies decides. */
  function RenderLine(line: string): (b: Block)
    ensures b.LabeledBullet? <==> IsLabeledBulletLine(line)
    ensures b.Heading? <==> !IsLabeledBulletLine(line) && IsHeadingLine(line)
    ensures b.Heading? ==> !Contains(b.text, "**")
    ensures b.Plain? ==> b.text == line
  {
    if StartsWith(line, BulletOpen) && Contains(line, LabelClose) then
      var parts := SplitOn(line, LabelClose);
      LabeledBullet(ReplaceFirst(parts[0], BulletOpen, Bullet), JoinOn(parts[1..], LabelClose))
    else if StartsWith(line, "**") && EndsWith(line, "**") then
      Heading(RemovePairs(line))
    else if Trim(line) != "" then
      Plain(line)
    else
      Spacer
  }

  /** `formatMessage`: one block per line, in order. */
  function Render(content: string): (blocks: seq<Block>)
    ensures |blocks| == CountChar(content, '\n') + 1
  {
    var lines := Split(content, '\n');
    seq(|lines|, i requires 0 <= i < |lines| => RenderLine(lines[i]))
  }

  // ---------------------------------------------------------------------------
  // One block per line

  /** Nothing is dropped or reordered: the message is its lines joined by newlines,
      and block `i` is the rendering of line `i`. */
  lemma RenderIsLineByLine(content: string)
    ensures var lines := Split(content, '\n');
            Join(lines, '\n') == content
            && |Render(content)| == |lines| == CountChar(content, '\n') + 1
            && (forall i :: 0 <= i < |lines| ==> '\n' !in lines[i])
            && (forall i :: 0 <= i < |lines| ==> Render(content)[i] == RenderLine(lines[i]))
  {
    JoinSplit(content, '\n');
  }

  /** Rendering newline-free lines joined by newlines gives each line's block, in order. */
  lemma RenderJoinedLines(lines: seq<string>)
    requires |lines| >= 1
    requires forall i :: 0 <= i < |lines| ==> '\n' !in lines[i]
    ensures |Render(Join(lines, '\n'))| == |lines|
    ensures forall i :: 0 <= i < |lines| ==> Render(Join(lines, '\n'))[i] == RenderLine(lines[i])
  {
    SplitJoin(lines, '\n');
  }

  // ---------------------------------------------------------------------------
  // The line rules

  /** A labelled bullet is cut at the first label end: the body is everything after
      it, the raw label everything before it, and raw label, label end and body make up
      the line again. The label is the raw label with its opening replaced by the
      bullet, which leaves the text between the opening and the label end. */
  lemma LabeledBulletSplit(line: string)
    requires IsLabeledBulletLine(line)
    ensures IndexOf(line, LabelClose).Some?
    ensures var i := IndexOf(line, LabelClose).value;
            var b := RenderLine(line);
            b.LabeledBullet?
            && b.body == line[i + 3..]
            && line == line[..i] + LabelClose + b.body
            && !Contains(line[..i], LabelClose)
            && b.title == (if i >= 4 then Bullet + line[4..i] else line[..i])
  {
    SplitOnFirst(line, LabelClose);
    var i := IndexOf(line, LabelClose).value;
    var raw := line[..i];
    assert line == raw + LabelClose + line[i + 3..];
    if Contains(raw, LabelClose) {
      ContainsIffOccurs(raw, LabelClose);
      var k :| OccursAt(raw, LabelClose, k);
      assert line[k..k + 3] == raw[k..k + 3];
      assert OccursAt(line, LabelClose, k);
    }
    if i >= 4 {
      assert raw[..4] == line[..4];
      assert ReplaceFirst(raw, BulletOpen, Bullet) == Bullet + raw[4..];
      assert raw[4..] == line[4..i];
    } else if Contains(raw, BulletOpen) {
      ContainsIffOccurs(raw, BulletOpen);
    }
  }

  /** A bullet whose name has no star and no colon renders as that name after the
      bullet, with the rest of the line as its body, whatever the body holds. */
  lemma BulletOfName(name: string, body: string)
    requires '*' !in name && ':' !in name
    ensures RenderLine(BulletOpen + name + LabelClose + body) == LabeledBullet(Bullet + name, body)
  {
    var line := BulletOpen + name + LabelClose + body;
    var j := 4 + |name|;
    assert line[j..j + 3] == LabelClose;
    assert OccursAt(line, LabelClose, j);
    ContainsIffOccurs(line, LabelClose);
    assert line[..4] == BulletOpen;
    LabeledBulletSplit(line);
    var i := IndexOf(line, LabelClose).value;
    if i < j {
      NoLabelCloseInName(name, body, i);
    }
    assert i == j;
    assert line[4..i] == name;
    assert line[i + 3..] == body;
  }

  /** No label end starts before the label end that follows a name without stars or
      colons. */
  lemma NoLabelCloseInName(name: string, body: string, i: nat)
    requires '*' !in name && ':' !in name
    requires i < 4 + |name|
    ensures !OccursAt(BulletOpen + name + LabelClose + body, LabelClose, i)
  {
    var line := BulletOpen + name + LabelClose + body;
    if i >= 4 {
      assert line[i] == name[i - 4];
    } else if i >= 2 {
      if |name| > 0 {
        assert line[4] == name[0];
      } else {
        assert line[4..7] == LabelClose;
        assert line[i + 2] == '*';
        assert line[i..i + 3][2] == line[i + 2];
      }
    } else {
      assert line[i] == BulletOpen[i];
    }
  }

  /** A line that starts and ends with two stars and is not a labelled bullet is a
      heading: its text keeps every character but the stars, in order, and holds no two
      stars in a row. */
  lemma HeadingDropsStars(line: string)
    requires !IsLabeledBulletLine(line) && IsHeadingLine(line)
    ensures RenderLine(line).Heading?
    ensures NonStars(RenderLine(line).text) == NonStars(line)
    ensures !Contains(RenderLine(line).text, "**")
  {
    RemovePairsKeepsNonStars(line);
  }

  /** Text without stars between two pairs of stars renders as a heading of that text. */
  lemma HeadingOfText(text: string)
    requires '*' !in text
    ensures RenderLine("**" + text + "**") == Heading(text)
  {
    var line := "**" + text + "**";
    assert line[0] == '*' && line[0] != BulletOpen[0];
    assert line[..2] == "**" && line[|line| - 2..] == "**";
    assert line[2..] == text + "**";
    assert (text + "**")[|text|..] == "**";
    assert StartsWith(line, "**");
    assert RemovePairs(line) == RemovePairs(text + "**");
    RemovePairsOfText(text);
  }

  /** A lone star between star-free text is not a pair: it stays in the heading, so
      "**a*b**" is the heading "a*b" and not "ab". */
  lemma HeadingKeepsLoneStar(a: string, b: string)
    requires '*' !in a && '*' !in b
    ensures RenderLine("**" + a + "*" + b + "**") == Heading(a + "*" + b)
  {
    var inner := a + "*" + b + "**";
    assert "**" + a + "*" + b + "**" == "**" + inner;
    assert inner[|inner| - 2..] == "**";
    HeadingOfPairs(inner);
    StarFree(a);
    StarFree(b);
    if |b| > 0 {
      RemovePairsOfStarBefore(a, b);
    } else {
      RemovePairsOfStarAtEnd(a);
      assert a + "*" + b + "**" == a + "***" && a + "*" + b == a + "*";
    }
  }

  /** A line of two stars and a text ending in "**" is a heading of that text with its
      pairs removed. */
  lemma HeadingOfPairs(inner: string)
    requires EndsWith(inner, "**")
    ensures RenderLine("**" + inner) == Heading(RemovePairs(inner))
  {
    var line := "**" + inner;
    assert line[0] == '*' && line[0] != BulletOpen[0];
    assert line[..2] == "**" && line[|line| - 2..] == inner[|inner| - 2..];
    assert line[2..] == inner;
  }

  /** Star-free text has no pair to lose, and neither starts nor ends with a star. */
  lemma StarFree(a: string)
    requires '*' !in a
    ensures RemovePairs(a) == a
    ensures |a| == 0 || (a[0] != '*' && a[|a| - 1] != '*')
  {
    MissingChar(a, "**", '*');
    RemovePairsNoPairs(a);
  }

  /** A lone star followed by text: the closing pair goes with that text. */
  lemma RemovePairsOfStarBefore(a: string, b: string)
    requires RemovePairs(a) == a && (|a| == 0 || a[|a| - 1] != '*')
    requires RemovePairs(b) == b && |b| > 0 && b[0] != '*' && b[|b| - 1] != '*'
    ensures RemovePairs(a + "*" + b + "**") == a + "*" + b
  {
    var text := a + "*" + b;
    assert text[|text| - 1] == b[|b| - 1];
    RemovePairsClosingPair(text);
    ConcatAssoc(a, "*", b);
    RemovePairsLoneStar(a, b);
  }

  /** A star right before the closing pair: three stars, of which the first two are a
      pair and the last stays. */
  lemma RemovePairsOfStarAtEnd(a: string)
    requires RemovePairs(a) == a && (|a| == 0 || a[|a| - 1] != '*')
    ensures RemovePairs(a + "***") == a + "*"
  {
    calc {
      RemovePairs(a + "***");
      { RemovePairsAppend(a, "***"); }
      RemovePairs(a) + RemovePairs("***");
      { assert "***" == "**" + "*";
        RemovePairsPair("*"); }
      a + RemovePairs("*");
      { assert "*" == ['*'] + "";
        RemovePairsCons('*', ""); }
      a + "*";
    }
  }

  /** Removing the pairs of `text + "**"` leaves `text`, for text without stars. */
  lemma {:induction false} RemovePairsOfText(text: string)
    requires '*' !in text
    ensures RemovePairs(text + "**") == text
    decreases |text|
  {
    var s := text + "**";
    if |text| == 0 {
      assert s == "**" && s[2..] == "";
    } else {
      assert s[0] == text[0] && s[0] != '*';
      assert s[1..] == text[1..] + "**";
      RemovePairsOfText(text[1..]);
      assert [text[0]] + text[1..] == text;
    }
  }

  /** A line is plain, and kept as it is, exactly when no earlier rule applies and it
      has a character other than whitespace. */
  lemma PlainIff(line: string)
    ensures RenderLine(line).Plain? <==>
              !IsLabeledBulletLine(line) && !IsHeadingLine(line) && !IsBlank(line)
    ensures RenderLine(line).Plain? ==> RenderLine(line).text == line
  {
    TrimEmptyIffBlank(line);
  }

  /** Only empty or whitespace-only lines become spacers. */
  lemma SpacerIffBlank(line: string)
    ensures RenderLine(line) == Spacer <==> IsBlank(line)
  {
    TrimEmptyIffBlank(line);
    if IsBlank(line) && |line| > 0 {
      assert IsWhitespace(line[0]);
      assert line[0] != '*' && line[0] != '•';
      assert !StartsWith(line, BulletOpen) && !StartsWith(line, "**");
    }
  }

  // ---------------------------------------------------------------------------
  // Lines of the response texts

  /** A contact line of the support response renders as a labelled bullet. */
  lemma SupportContactBullet()
    ensures RenderLine("• **Technical Support**: support@astreea.com")
            == LabeledBullet("• Technical Support", " support@astreea.com")
  {
    SupportContactBody();
    SupportContactLabel();
    SupportContactTitle();
    BulletOfName("Technical Support", " support@astreea.com");
  }

  /** The support contact line is its labelled part and its body. */
  lemma SupportContactBody()
    ensures "• **Technical Support**: support@astreea.com"
            == "• **Technical Support**:" + " support@astreea.com"
  {
  }

  /** The labelled part of the support contact line is an opening, a name and a label end. */
  lemma SupportContactLabel()
    ensures "• **Technical Support**:" == "• **" + "Technical Support" + "**:"
  {
  }

  /** The title of the support contact bullet is the bullet and the name. */
  lemma SupportContactTitle()
    ensures "• Technical Support" == "• " + "Technical Support"
  {
  }

  /** A section title of the product response renders as a heading without its stars. */
  lemma KeyFeaturesHeading()
    ensures RenderLine("**Key Features:**") == Heading("Key Features:")
  {
    HeadingOfText("Key Features:");
    assert "**Key Features:**" == "**" + "Key Features:" + "**";
  }

  /** A starred label that does not end the line, as in the specification response, is
      neither a bullet nor a heading: it is kept verbatim. */
  lemma DimensionsIsPlain(line: string)
    requires line == "**Dimensions**: 320mm x 180mm x 95mm"
    ensures RenderLine(line) == Plain(line)
  {
    assert line[0] == '*' && line[|line| - 1] == 'm';
    assert line[0] != BulletOpen[0];
    assert !EndsWith(line, "**");
    assert !IsBlank(line) by {
      assert !IsWhitespace(line[0]);
    }
    PlainIff(line);
  }
}
