/** The string primitives the components rely on, as JavaScript defines them for the
    inputs that occur: ASCII lower-casing, `includes`/`indexOf`, `startsWith`/`endsWith`,
    `trim`, `split`/`join` on one character, `replace` of the first occurrence, global
    removal of a pattern, `Number.prototype.toString` on naturals and `padStart`. */
module Text {

  datatype Option<T> = None | Some(value: T)

  // ---------------------------------------------------------------------------
  // Lower-casing (String.prototype.toLowerCase, restricted to ASCII letters)

  function LowerChar(c: char): char {
    if 'A' <= c <= 'Z' then (c as int + 32) as char else c
  }

  function Lower(s: string): (r: string)
    ensures |r| == |s|
    ensures forall i :: 0 <= i < |s| ==> r[i] == LowerChar(s[i])
  {
    seq(|s|, i requires 0 <= i < |s| => LowerChar(s[i]))
  }

  /** Lower-casing twice is lower-casing once. */
  lemma LowerIdempotent(s: string)
    ensures Lower(Lower(s)) == Lower(s)
  {
    assert forall i :: 0 <= i < |s| ==> LowerChar(LowerChar(s[i])) == LowerChar(s[i]);
  }

  /** Lower-casing works piece by piece. */
  lemma LowerConcat(a: string, b: string)
    ensures Lower(a + b) == Lower(a) + Lower(b)
  {
  }

  /** A lower-cased string has no upper-case ASCII letter left. */
  lemma LowerHasNoUpper(s: string, i: nat)
    requires i < |s|
    ensures !('A' <= Lower(s)[i] <= 'Z')
  {
  }

  // ---------------------------------------------------------------------------
  // Substring search (String.prototype.includes / indexOf)

  /** `p` sits in `s` at position `i`: the reference definition of an occurrence. */
  predicate OccursAt(s: string, p: string, i: int) {
    0 <= i && i + |p| <= |s| && s[i..i + |p|] == p
  }

  /** Characters `j..` of `p` agree with `s` from position `i + j` on. */
  predicate MatchFrom(s: string, p: string, i: nat, j: nat)
    decreases |p| - j
  {
    j >= |p| || (i + j < |s| && s[i + j] == p[j] && MatchFrom(s, p, i, j + 1))
  }

  /** The left-to-right scan of `includes`: some position at or after `i` matches. */
  predicate ContainsFrom(s: string, p: string, i: nat)
    decreases |s| - i
  {
    i + |p| <= |s| && (MatchFrom(s, p, i, 0) || ContainsFrom(s, p, i + 1))
  }

  predicate Contains(s: string, p: string) {
    ContainsFrom(s, p, 0)
  }

  lemma {:induction false} MatchFromIffOccurs(s: string, p: string, i: nat, j: nat)
    requires j <= |p| && i + |p| <= |s|
    ensures MatchFrom(s, p, i, j) <==> s[i + j..i + |p|] == p[j..]
    decreases |p| - j
  {
    if j < |p| {
      MatchFromIffOccurs(s, p, i, j + 1);
      assert s[i + j..i + |p|] == [s[i + j]] + s[i + j + 1..i + |p|];
      assert p[j..] == [p[j]] + p[j + 1..];
    }
  }

  lemma {:induction false} ContainsFromIffOccurs(s: string, p: string, i: nat)
    ensures ContainsFrom(s, p, i) <==> exists k :: i <= k && OccursAt(s, p, k)
    decreases |s| - i
  {
    if i + |p| <= |s| {
      MatchFromIffOccurs(s, p, i, 0);
      ContainsFromIffOccurs(s, p, i + 1);
      if MatchFrom(s, p, i, 0) {
        assert OccursAt(s, p, i);
      }
      if exists k :: i <= k && OccursAt(s, p, k) {
        var k :| i <= k && OccursAt(s, p, k);
        assert k == i || i + 1 <= k;
      }
    }
  }

  /** The scan agrees with the reference definition: `includes` holds exactly when
      the pattern occurs somewhere. */
  lemma ContainsIffOccurs(s: string, p: string)
    ensures Contains(s, p) <==> exists k :: OccursAt(s, p, k)
  {
    ContainsFromIffOccurs(s, p, 0);
  }

  /** `indexOf` from position `i`: the first occurrence at or after `i`, if any. */
  function IndexFrom(s: string, p: string, i: nat): (r: Option<nat>)
    ensures r.Some? <==> ContainsFrom(s, p, i)
    ensures r.Some? ==> i <= r.value && OccursAt(s, p, r.value)
    ensures r.Some? ==> forall k :: i <= k < r.value ==> !OccursAt(s, p, k)
    decreases |s| - i
  {
    if i + |p| > |s| then None
    else if MatchFrom(s, p, i, 0) then
      MatchFromIffOccurs(s, p, i, 0);
      Some(i)
    else
      MatchFromIffOccurs(s, p, i, 0);
      IndexFrom(s, p, i + 1)
  }

  /** `indexOf`: the first occurrence of `p` in `s`. */
  function IndexOf(s: string, p: string): (r: Option<nat>)
    ensures r.Some? <==> Contains(s, p)
    ensures r.Some? ==> OccursAt(s, p, r.value)
    ensures r.Some? ==> forall k :: 0 <= k < r.value ==> !OccursAt(s, p, k)
  {
    IndexFrom(s, p, 0)
  }

  predicate StartsWith(s: string, p: string) {
    |p| <= |s| && s[..|p|] == p
  }

  predicate EndsWith(s: string, p: string) {
    |p| <= |s| && s[|s| - |p|..] == p
  }

  /** `s.replace(pat, rep)` with a string pattern: only the first occurrence is replaced. */
  function ReplaceFirst(s: string, pat: string, rep: string): (r: string)
    ensures !Contains(s, pat) ==> r == s
    ensures StartsWith(s, pat) ==> r == rep + s[|pat|..]
  {
    if StartsWith(s, pat) then
      assert OccursAt(s, pat, 0);
      ContainsIffOccurs(s, pat);
      var k := IndexOf(s, pat).value;
      s[..k] + rep + s[k + |pat|..]
    else
      match IndexOf(s, pat)
      case None => s
      case Some(k) => s[..k] + rep + s[k + |pat|..]
  }

  /** `s` opens with a pair of stars. */
  predicate PairFirst(s: string) {
    |s| >= 2 && s[0] == '*' && s[1] == '*'
  }

  // `s.replace(/\*\*/g, '')`: a left-to-right scan that drops each non-overlapping
  // `"**"` and keeps every other character.
  function RemovePairs(s: string): (r: string)
    ensures |r| <= |s|
    ensures |s| > 0 && s[0] != '*' ==> |r| > 0 && r[0] == s[0]
    ensures !Contains(r, "**")
    decreases |s|
  {
    if PairFirst(s) then RemovePairs(s[2..])
    else if |s| == 0 then s
    else
      var rest := RemovePairs(s[1..]);
      NoPairsCons(s[0], rest);
      [s[0]] + rest
  }

  /** Putting one character in front of a pair-free string keeps it pair-free unless
      both that character and the string's first are stars. */
  lemma NoPairsCons(c: char, t: string)
    requires !Contains(t, "**")
    requires c == '*' ==> |t| == 0 || t[0] != '*'
    ensures !Contains([c] + t, "**")
  {
    var u := [c] + t;
    ContainsIffOccurs(t, "**");
    ContainsIffOccurs(u, "**");
    assert u[0] == c;
    assert |t| > 0 ==> u[1] == t[0];
    if exists k :: OccursAt(u, "**", k) {
      var k :| OccursAt(u, "**", k);
      if k > 0 {
        assert u[k..k + 2] == t[k - 1..k + 1];
        assert OccursAt(t, "**", k - 1);
      }
    }
  }

  /** The characters of `s` other than stars, in order. */
  function NonStars(s: string): (r: string)
    ensures '*' !in r && |r| <= |s|
    decreases |s|
  {
    if |s| == 0 then "" else (if s[0] == '*' then "" else [s[0]]) + NonStars(s[1..])
  }

  /** Removing the pairs drops stars only: every other character stays, in order. */
  lemma {:induction false} RemovePairsKeepsNonStars(s: string)
    ensures NonStars(RemovePairs(s)) == NonStars(s)
    decreases |s|
  {
    if PairFirst(s) {
      RemovePairsKeepsNonStars(s[2..]);
      assert s[1..][1..] == s[2..];
    } else if |s| > 0 {
      var rest := RemovePairs(s[1..]);
      RemovePairsKeepsNonStars(s[1..]);
      assert ([s[0]] + rest)[1..] == rest;
    }
  }

  /** A string without a pair of stars is left as it is. */
  lemma {:induction false} RemovePairsNoPairs(s: string)
    requires !Contains(s, "**")
    ensures RemovePairs(s) == s
    decreases |s|
  {
    if PairFirst(s) {
      assert false;
    } else if |s| > 0 {
      assert [s[0]] + s[1..] + "" == s;
      if Contains(s[1..], "**") {
        ContainsWithin([s[0]], s[1..], "", "**");
      }
      RemovePairsNoPairs(s[1..]);
      assert [s[0]] + s[1..] == s;
    }
  }

  /** A leading pair is removed. */
  lemma RemovePairsPair(t: string)
    ensures RemovePairs("**" + t) == RemovePairs(t)
  {
    var s := "**" + t;
    assert PairFirst(s) && s[2..] == t;
  }

  /** A leading character that does not open a pair is kept. */
  lemma RemovePairsCons(c: char, t: string)
    requires c != '*' || |t| == 0 || t[0] != '*'
    ensures RemovePairs([c] + t) == [c] + RemovePairs(t)
  {
    var s := [c] + t;
    assert s[0] == c && s[1..] == t;
    if |t| > 0 {
      assert s[1] == t[0];
    }
  }

  /** No pair straddles the end of a text that does not end with a star, so the text and
      what follows it lose their pairs separately. */
  lemma {:induction false} RemovePairsAppend(a: string, t: string)
    requires |a| == 0 || a[|a| - 1] != '*'
    ensures RemovePairs(a + t) == RemovePairs(a) + RemovePairs(t)
    decreases |a|
  {
    if |a| == 0 {
      assert a + t == t;
    } else if |a| >= 2 && a[0] == '*' && a[1] == '*' {
      var rest := a[2..];
      assert a == "**" + rest;
      assert a + t == "**" + (rest + t);
      RemovePairsPair(rest);
      RemovePairsPair(rest + t);
      RemovePairsAppend(rest, t);
    } else {
      var rest := a[1..];
      assert a == [a[0]] + rest;
      assert a + t == [a[0]] + (rest + t);
      if |a| >= 2 {
        assert rest[0] == a[1] && (rest + t)[0] == a[1];
      }
      RemovePairsCons(a[0], rest);
      RemovePairsCons(a[0], rest + t);
      RemovePairsAppend(rest, t);
      var ra, rt := RemovePairs(rest), RemovePairs(t);
      assert [a[0]] + (ra + rt) == [a[0]] + ra + rt;
    }
  }

  /** A star with no star beside it is not part of a pair: it stays, and the text on
      either side loses its pairs separately. */
  lemma RemovePairsLoneStar(a: string, b: string)
    requires |a| == 0 || a[|a| - 1] != '*'
    requires |b| == 0 || b[0] != '*'
    ensures RemovePairs(a + ("*" + b)) == RemovePairs(a) + ("*" + RemovePairs(b))
  {
    RemovePairsAppend(a, "*" + b);
    RemovePairsCons('*', b);
  }

  /** Concatenation is associative. */
  lemma ConcatAssoc(x: string, y: string, z: string)
    ensures x + y + z == x + (y + z)
  {
  }

  /** A closing pair after a text that does not end with a star is removed. */
  lemma RemovePairsClosingPair(t: string)
    requires |t| == 0 || t[|t| - 1] != '*'
    ensures RemovePairs(t + "**") == RemovePairs(t)
  {
    RemovePairsAppend(t, "**");
    assert "**" == "**" + "";
    RemovePairsPair("");
    assert RemovePairs(t) + "" == RemovePairs(t);
  }

  // ---------------------------------------------------------------------------
  // Whitespace and String.prototype.trim

  /** ECMAScript WhiteSpace and LineTerminator code points, the set `trim` strips. */
  predicate IsWhitespace(c: char) {
    c == '\t' || c == '\n' || c == '\U{000B}' || c == '\U{000C}' || c == '\r' || c == ' '
    || c == '\U{00A0}' || c == '\U{1680}' || ('\U{2000}' <= c <= '\U{200A}')
    || c == '\U{2028}' || c == '\U{2029}' || c == '\U{202F}' || c == '\U{205F}'
    || c == '\U{3000}' || c == '\U{FEFF}'
  }

  predicate IsBlank(s: string) {
    forall i :: 0 <= i < |s| ==> IsWhitespace(s[i])
  }

  function TrimStart(s: string): (r: string)
    ensures |r| <= |s|
    ensures |r| > 0 ==> !IsWhitespace(r[0])
    decreases |s|
  {
    if |s| > 0 && IsWhitespace(s[0]) then TrimStart(s[1..]) else s
  }

  function TrimEnd(s: string): (r: string)
    ensures |r| <= |s|
    decreases |s|
  {
    if |s| > 0 && IsWhitespace(s[|s| - 1]) then TrimEnd(s[..|s| - 1]) else s
  }

  function Trim(s: string): string {
    TrimEnd(TrimStart(s))
  }

  lemma {:induction false} TrimStartEmptyIffBlank(s: string)
    ensures TrimStart(s) == "" <==> IsBlank(s)
    decreases |s|
  {
    if |s| > 0 && IsWhitespace(s[0]) {
      TrimStartEmptyIffBlank(s[1..]);
      assert IsBlank(s) <==> IsBlank(s[1..]) by {
        if IsBlank(s[1..]) {
          forall i | 0 <= i < |s| ensures IsWhitespace(s[i]) {
            if i > 0 { assert s[i] == s[1..][i - 1]; }
          }
        }
      }
    } else if |s| > 0 {
      assert !IsWhitespace(s[0]);
    }
  }

  lemma {:induction false} TrimEndOfNonBlankStart(s: string)
    requires |s| > 0 && !IsWhitespace(s[0])
    ensures TrimEnd(s) != ""
    decreases |s|
  {
    if IsWhitespace(s[|s| - 1]) {
      TrimEndOfNonBlankStart(s[..|s| - 1]);
    }
  }

  /** `str.trim()` is empty (falsy) exactly when every character is whitespace. */
  lemma TrimEmptyIffBlank(s: string)
    ensures Trim(s) == "" <==> IsBlank(s)
  {
    TrimStartEmptyIffBlank(s);
    var t := TrimStart(s);
    if t != "" {
      assert !IsWhitespace(t[0]);
      TrimEndOfNonBlankStart(t);
    }
  }

  // ---------------------------------------------------------------------------
  // split and join on one separator character

  function CountChar(s: string, c: char): (n: nat)
    ensures n <= |s|
    decreases |s|
  {
    if |s| == 0 then 0 else (if s[0] == c then 1 else 0) + CountChar(s[1..], c)
  }

  /** `s.split(sep)` for a one-character separator: the pieces between separators,
      an empty string before a leading and after a trailing separator. */
  function Split(s: string, sep: char): (parts: seq<string>)
    ensures |parts| == CountChar(s, sep) + 1
    ensures forall k :: 0 <= k < |parts| ==> sep !in parts[k]
    decreases |s|
  {
    if |s| == 0 then [""]
    else
      var rest := Split(s[1..], sep);
      if s[0] == sep then [""] + rest
      else [[s[0]] + rest[0]] + rest[1..]
  }

  /** `parts.join(sep)`. */
  function Join(parts: seq<string>, sep: char): string
    decreases |parts|
  {
    if |parts| == 0 then ""
    else if |parts| == 1 then parts[0]
    else parts[0] + [sep] + Join(parts[1..], sep)
  }

  /** Splitting loses nothing: joining the pieces again gives back the input. */
  lemma {:induction false} JoinSplit(s: string, sep: char)
    ensures Join(Split(s, sep), sep) == s
    decreases |s|
  {
    if |s| > 0 {
      var rest := Split(s[1..], sep);
      JoinSplit(s[1..], sep);
      if s[0] == sep {
        assert Split(s, sep) == [""] + rest;
        assert Join(Split(s, sep), sep) == "" + [sep] + Join(rest, sep);
        assert s == [s[0]] + s[1..];
      } else {
        var parts := [[s[0]] + rest[0]] + rest[1..];
        assert Split(s, sep) == parts;
        if |rest| == 1 {
          assert Join(parts, sep) == [s[0]] + rest[0];
        } else {
          assert parts[1..] == rest[1..];
          assert Join(rest, sep) == rest[0] + [sep] + Join(rest[1..], sep);
          assert Join(parts, sep) == [s[0]] + rest[0] + [sep] + Join(rest[1..], sep);
        }
        assert s == [s[0]] + s[1..];
      }
    }
  }

  lemma {:induction false} SplitNoSep(a: string, t: string, sep: char)
    requires sep !in a
    ensures Split(a + t, sep) == [a + Split(t, sep)[0]] + Split(t, sep)[1..]
    decreases |a|
  {
    var parts := Split(t, sep);
    if |a| > 0 {
      assert (a + t)[0] == a[0] && (a + t)[1..] == a[1..] + t;
      SplitNoSep(a[1..], t, sep);
      var rest := Split(a[1..] + t, sep);
      assert rest[0] == a[1..] + parts[0] && rest[1..] == parts[1..];
      assert Split(a + t, sep) == [[a[0]] + rest[0]] + rest[1..];
      assert [a[0]] + (a[1..] + parts[0]) == a + parts[0];
    } else {
      assert a + t == t;
      assert a + parts[0] == parts[0];
      assert parts == [parts[0]] + parts[1..];
    }
  }

  /** Joining separator-free pieces and splitting again gives back the pieces. */
  lemma {:induction false} SplitJoin(parts: seq<string>, sep: char)
    requires |parts| >= 1
    requires forall k :: 0 <= k < |parts| ==> sep !in parts[k]
    ensures Split(Join(parts, sep), sep) == parts
    decreases |parts|
  {
    if |parts| == 1 {
      SplitNoSep(parts[0], "", sep);
      assert parts[0] + "" == parts[0];
      assert Split("", sep) == [""];
      assert parts == [parts[0]];
    } else {
      var t := Join(parts[1..], sep);
      SplitJoin(parts[1..], sep);
      assert Join(parts, sep) == parts[0] + ([sep] + t);
      SplitNoSep(parts[0], [sep] + t, sep);
      assert ([sep] + t)[0] == sep && ([sep] + t)[1..] == t;
      var q := Split([sep] + t, sep);
      assert q == [""] + parts[1..];
      assert q[0] == "" && q[1..] == parts[1..];
      assert parts[0] + q[0] == parts[0];
      assert parts == [parts[0]] + parts[1..];
    }
  }

  /** `s.split(sep)` for a non-empty string separator: scanning left to right, each
      occurrence of `sep` ends a piece and the scan resumes after it. */
  function SplitOn(s: string, sep: string): (parts: seq<string>)
    requires |sep| > 0
    ensures |parts| >= 1
    ensures !Contains(s, sep) ==> parts == [s]
    decreases |s|
  {
    match IndexOf(s, sep)
    case None => [s]
    case Some(i) => [s[..i]] + SplitOn(s[i + |sep|..], sep)
  }

  /** `parts.join(sep)` for a string separator. */
  function JoinOn(parts: seq<string>, sep: string): string
    decreases |parts|
  {
    if |parts| == 0 then ""
    else if |parts| == 1 then parts[0]
    else parts[0] + sep + JoinOn(parts[1..], sep)
  }

  /** Splitting on a string loses nothing: joining the pieces gives back the input. */
  lemma {:induction false} JoinOnSplitOn(s: string, sep: string)
    requires |sep| > 0
    ensures JoinOn(SplitOn(s, sep), sep) == s
    decreases |s|
  {
    var r := IndexOf(s, sep);
    if r.Some? {
      var i := r.value;
      var t := s[i + |sep|..];
      JoinOnSplitOn(t, sep);
      var rest := SplitOn(t, sep);
      assert SplitOn(s, sep) == [s[..i]] + rest;
      JoinOnCons(s[..i], rest, sep);
      CutAround(s, i, i + |sep|);
    }
  }

  /** Joining a piece in front of at least one more piece puts the separator between. */
  lemma JoinOnCons(a: string, rest: seq<string>, sep: string)
    requires |rest| >= 1
    ensures JoinOn([a] + rest, sep) == a + sep + JoinOn(rest, sep)
  {
    assert ([a] + rest)[0] == a && ([a] + rest)[1..] == rest;
  }

  /** A string is its prefix, a middle piece and its suffix. */
  lemma CutAround(s: string, i: nat, j: nat)
    requires i <= j <= |s|
    ensures s == s[..i] + s[i..j] + s[j..]
  {
  }

  /** The first piece is what comes before the first occurrence, and the other pieces
      joined again are everything after it. */
  lemma SplitOnFirst(s: string, sep: string)
    requires |sep| > 0 && Contains(s, sep)
    ensures IndexOf(s, sep).Some?
    ensures var i := IndexOf(s, sep).value;
            var parts := SplitOn(s, sep);
            |parts| >= 2 && parts[0] == s[..i] && JoinOn(parts[1..], sep) == s[i + |sep|..]
  {
    var i := IndexOf(s, sep).value;
    var t := s[i + |sep|..];
    JoinOnSplitOn(t, sep);
    assert (SplitOn(s, sep))[1..] == SplitOn(t, sep);
  }

  // ---------------------------------------------------------------------------
  // Searching a text made of words

  /** A string with a character that `s` lacks does not occur in `s`. */
  lemma MissingChar(s: string, p: string, c: char)
    requires c in p && c !in s
    ensures !Contains(s, p)
  {
    ContainsIffOccurs(s, p);
  }

  /** An occurrence of an occurrence is an occurrence. */
  lemma ContainsTrans(s: string, f: string, q: string)
    requires Contains(s, f) && Contains(f, q)
    ensures Contains(s, q)
  {
    ContainsIffOccurs(s, f);
    ContainsIffOccurs(f, q);
    var i :| OccursAt(s, f, i);
    var j :| OccursAt(f, q, j);
    forall k | 0 <= k < |q|
      ensures s[i + j + k] == q[k]
    {
      assert s[i + j + k] == f[j + k];
    }
    assert s[i + j..i + j + |q|] == q;
    assert OccursAt(s, q, i + j);
    ContainsIffOccurs(s, q);
  }

  /** An occurrence of `q` at `i` shows its characters in `s`. */
  lemma OccurrenceCovers(s: string, q: string, i: int, k: int)
    requires OccursAt(s, q, i) && i <= k < i + |q|
    ensures s[k] == q[k - i] && s[k] in q
  {
    assert s[i..i + |q|][k - i] == s[k];
  }

  /** A string without `sep` that occurs in `a + [sep] + b` occurs in `a` or in `b`. */
  lemma ContainsAcrossSep(a: string, sep: char, b: string, q: string)
    requires sep !in q
    requires Contains(a + [sep] + b, q)
    ensures Contains(a, q) || Contains(b, q)
  {
    var s := a + [sep] + b;
    ContainsIffOccurs(s, q);
    var i :| OccursAt(s, q, i);
    if i + |q| <= |a| {
      assert a[i..i + |q|] == s[i..i + |q|];
      assert OccursAt(a, q, i);
      ContainsIffOccurs(a, q);
    } else if i > |a| {
      var j := i - |a| - 1;
      assert b[j..j + |q|] == s[i..i + |q|];
      assert OccursAt(b, q, j);
      ContainsIffOccurs(b, q);
    } else {
      OccurrenceCovers(s, q, i, |a|);
      assert false;
    }
  }

  /** A string without a space found neither in `a` nor in `b` is not found in
      `a`, a space and `b`. */
  lemma NotAcrossSpace(a: string, b: string, q: string)
    requires ' ' !in q && !Contains(a, q) && !Contains(b, q)
    ensures !Contains(a + " " + b, q)
  {
    if Contains(a + " " + b, q) {
      ContainsAcrossSep(a, ' ', b, q);
    }
  }

  /** What occurs in a piece occurs in any text around it. */
  lemma ContainsWithin(a: string, w: string, b: string, q: string)
    requires Contains(w, q)
    ensures Contains(a + w + b, q)
  {
    ContainsIffOccurs(w, q);
    var i :| OccursAt(w, q, i);
    var s := a + w + b;
    assert s[|a| + i..|a| + i + |q|] == w[i..i + |q|];
    assert OccursAt(s, q, |a| + i);
    ContainsIffOccurs(s, q);
  }

  // ---------------------------------------------------------------------------
  // Decimal rendering of naturals (Number.prototype.toString) and padStart

  function DigitChar(d: nat): char
    requires d < 10
  {
    ('0' as int + d) as char
  }

  predicate IsDigit(c: char) {
    '0' <= c <= '9'
  }

  function DigitValue(c: char): nat
    requires IsDigit(c)
  {
    c as int - '0' as int
  }

  predicate AllDigits(s: string) {
    forall i :: 0 <= i < |s| ==> IsDigit(s[i])
  }

  /** The shortest decimal numeral of `n`: digits only, no leading zero. */
  function DecimalString(n: nat): (r: string)
    ensures |r| >= 1 && AllDigits(r)
    ensures n < 10 <==> |r| == 1
    ensures 10 <= n < 100 <==> |r| == 2
    ensures |r| > 1 ==> r[0] != '0'
    decreases n
  {
    if n < 10 then [DigitChar(n)] else DecimalString(n / 10) + [DigitChar(n % 10)]
  }

  /** The value of a numeral, leading zeros included. */
  function ParseDecimal(s: string): nat
    requires AllDigits(s)
    decreases |s|
  {
    if |s| == 0 then 0 else ParseDecimal(s[..|s| - 1]) * 10 + DigitValue(s[|s| - 1])
  }

  /** Reading a rendered numeral back gives the number. */
  lemma {:induction false} ParseDecimalString(n: nat)
    ensures ParseDecimal(DecimalString(n)) == n
    decreases n
  {
    if n >= 10 {
      var r := DecimalString(n);
      ParseDecimalString(n / 10);
      assert r[..|r| - 1] == DecimalString(n / 10);
    }
  }

  /** `s.padStart(width, fill)`: fill characters in front up to `width`. */
  function PadStart(s: string, width: nat, fill: char): (r: string)
    ensures |r| == if |s| >= width then |s| else width
    ensures r[|r| - |s|..] == s
    ensures forall i :: 0 <= i < |r| - |s| ==> r[i] == fill
  {
    if |s| >= width then s else seq(width - |s|, _ => fill) + s
  }

  /** Leading zeros do not change the value of a numeral. */
  lemma {:induction false} ParseLeadingZeros(z: nat, s: string)
    requires AllDigits(s)
    ensures AllDigits(seq(z, _ => '0') + s)
    ensures ParseDecimal(seq(z, _ => '0') + s) == ParseDecimal(s)
    decreases |s|
  {
    var t := seq(z, _ => '0') + s;
    if |s| == 0 {
      assert t == seq(z, _ => '0');
      ZerosParseToZero(z);
    } else {
      ParseLeadingZeros(z, s[..|s| - 1]);
      assert t[..|t| - 1] == seq(z, _ => '0') + s[..|s| - 1];
    }
  }

  lemma {:induction false} ZerosParseToZero(z: nat)
    ensures AllDigits(seq(z, _ => '0'))
    ensures ParseDecimal(seq(z, _ => '0')) == 0
    decreases z
  {
    if z > 0 {
      ZerosParseToZero(z - 1);
      assert seq(z, _ => '0')[..z - 1] == seq(z - 1, _ => '0');
    }
  }
}
