/** Strings cut at a separator, joined again, and trimmed of white space. */
module Text {
  /** White space as Unicode defines it. */
  predicate IsSpace(c: char) {
    || '\t' <= c <= '\r' || c == ' '
    || c == '\U{85}' || c == '\U{A0}' || c == '\U{1680}'
    || '\U{2000}' <= c <= '\U{200A}'
    || c == '\U{2028}' || c == '\U{2029}' || c == '\U{202F}' || c == '\U{205F}' || c == '\U{3000}'
  }

  function Split(s: string, sep: char): (parts: seq<string>)
    ensures |parts| >= 1
  {
    if s == "" then [""]
    else
      var rest := Split(s[1..], sep);
      if s[0] == sep then [""] + rest else [[s[0]] + rest[0]] + rest[1..]
  }

  function Join(parts: seq<string>, sep: char): string {
    if |parts| == 0 then "" else if |parts| == 1 then parts[0] else parts[0] + [sep] + Join(parts[1..], sep)
  }

  /** With a comma and a space between them. */
  function Listed(parts: seq<string>): string {
    if |parts| == 0 then "" else if |parts| == 1 then parts[0] else parts[0] + ", " + Listed(parts[1..])
  }

  /** One thing stands for itself, and lists are put together with a comma and a space. */
  lemma {:induction false} ListedAppend(a: seq<string>, b: seq<string>)
    requires a != [] && b != []
    ensures |a| == 1 ==> Listed(a) == a[0]
    ensures Listed(a + b) == Listed(a) + ", " + Listed(b)
  {
    assert (a + b)[1..] == a[1..] + b;
    if |a| > 1 {
      ListedAppend(a[1..], b);
    } else {
      assert a[1..] + b == b;
    }
  }

  lemma {:induction false} ListedIsFree(parts: seq<string>, c: char)
    requires Free(parts, c) && c != ',' && c != ' '
    ensures c !in Listed(parts)
  {
    if parts == [] {
    } else {
      assert parts[0] in parts;
      ListedIsFree(parts[1..], c);
    }
  }

  /** The last place of a character, or -1. */
  function LastIndex(s: string, c: char): (i: int)
    ensures -1 <= i < |s|
    ensures i >= 0 ==> s[i] == c
    ensures forall j :: i < j < |s| ==> s[j] != c
  {
    if s == "" then -1 else if s[|s| - 1] == c then |s| - 1 else LastIndex(s[..|s| - 1], c)
  }

  predicate Free(parts: seq<string>, sep: char) {
    forall p :: p in parts ==> sep !in p
  }

  lemma {:induction false} SplitIsFree(s: string, sep: char)
    ensures Free(Split(s, sep), sep)
  {
    if s == "" {
    } else {
      SplitIsFree(s[1..], sep);
    }
  }

  lemma {:induction false} SplitWhole(s: string, sep: char)
    requires sep !in s
    ensures Split(s, sep) == [s]
  {
    if s == "" {
    } else {
      assert s[0] in s;
      SplitWhole(s[1..], sep);
      assert [s[0]] + s[1..] == s;
    }
  }

  /** How one more character in front changes the parts. */
  function Onto(c: char, parts: seq<string>, sep: char): seq<string>
    requires |parts| >= 1
  {
    if c == sep then [""] + parts else [[c] + parts[0]] + parts[1..]
  }

  lemma SplitCons(s: string, sep: char)
    requires s != ""
    ensures Split(s, sep) == Onto(s[0], Split(s[1..], sep), sep)
  {
  }

  lemma OntoAppend(c: char, rest: seq<string>, more: seq<string>, sep: char)
    requires |rest| >= 1
    ensures Onto(c, rest + more, sep) == Onto(c, rest, sep) + more
  {
  }

  /** A separator between two texts is a boundary between their parts. */
  lemma {:induction false} SplitAppend(a: string, b: string, sep: char)
    ensures Split(a + [sep] + b, sep) == Split(a, sep) + Split(b, sep)
  {
    var whole := a + [sep] + b;
    SplitCons(whole, sep);
    if a == "" {
      assert whole[1..] == b;
      assert Split(a, sep) == [""];
    } else {
      SplitCons(a, sep);
      assert whole[1..] == a[1..] + [sep] + b;
      hide Split, Onto;
      SplitAppend(a[1..], b, sep);
      OntoAppend(a[0], Split(a[1..], sep), Split(b, sep), sep);
    }
  }

  lemma {:induction false} JoinSplit(s: string, sep: char)
    ensures Join(Split(s, sep), sep) == s
  {
    if s == "" {
    } else {
      JoinSplit(s[1..], sep);
      var rest := Split(s[1..], sep);
      if s[0] == sep {
        assert ([""] + rest)[1..] == rest;
      } else {
        assert ([[s[0]] + rest[0]] + rest[1..])[1..] == rest[1..];
      }
    }
  }

  lemma {:induction false} SplitJoin(parts: seq<string>, sep: char)
    requires |parts| >= 1 && Free(parts, sep)
    ensures Split(Join(parts, sep), sep) == parts
  {
    SplitWhole(parts[0], sep);
    if |parts| > 1 {
      SplitJoin(parts[1..], sep);
      SplitAppend(parts[0], Join(parts[1..], sep), sep);
    }
  }

  /** The last part made longer by a character. */
  function Longer(parts: seq<string>, c: char): seq<string>
    requires |parts| >= 1
  {
    parts[..|parts| - 1] + [parts[|parts| - 1] + [c]]
  }

  lemma OntoLonger(c: char, parts: seq<string>, d: char, sep: char)
    requires |parts| >= 1
    ensures Onto(c, Longer(parts, d), sep) == Longer(Onto(c, parts, sep), d)
  {
    if c == sep {
    } else if |parts| == 1 {
      assert [c] + (parts[0] + [d]) == [c] + parts[0] + [d];
    } else {
      assert Onto(c, parts, sep)[..|parts| - 1] == [[c] + parts[0]] + parts[1..|parts| - 1];
    }
  }

  /** One character more at the end makes the last part longer. */
  lemma {:induction false} SplitSnoc(s: string, c: char, sep: char)
    requires c != sep
    ensures Split(s + [c], sep) == Longer(Split(s, sep), c)
  {
    SplitCons(s + [c], sep);
    if s == "" {
      assert s + [c] == [c] && [c][1..] == "";
      assert [c] + "" == [c] == "" + [c];
      assert Split("", sep) == [""];
    } else {
      SplitCons(s, sep);
      assert (s + [c])[1..] == s[1..] + [c];
      hide Split, Onto, Longer;
      SplitSnoc(s[1..], c, sep);
      OntoLonger(s[0], Split(s[1..], sep), c, sep);
    }
  }

  function TrimLeft(s: string): string {
    if s != "" && IsSpace(s[0]) then TrimLeft(s[1..]) else s
  }

  function TrimRight(s: string): string {
    if s != "" && IsSpace(s[|s| - 1]) then TrimRight(s[..|s| - 1]) else s
  }

  function Trim(s: string): string {
    TrimRight(TrimLeft(s))
  }

  /** Nothing to trim. */
  predicate Trimmed(s: string) {
    s == "" || (!IsSpace(s[0]) && !IsSpace(s[|s| - 1]))
  }

  lemma {:induction false} TrimRightFacts(s: string)
    ensures var t := TrimRight(s);
      && t <= s && (t == "" || !IsSpace(t[|t| - 1]))
  {
    if s != "" && IsSpace(s[|s| - 1]) { TrimRightFacts(s[..|s| - 1]); }
  }

  lemma {:induction false} TrimLeftFacts(s: string)
    ensures var t := TrimLeft(s);
      && (t == "" || !IsSpace(t[0]))
      && (forall c :: c in t ==> c in s)
  {
    if s != "" && IsSpace(s[0]) { TrimLeftFacts(s[1..]); }
  }

  lemma TrimIsTrimmed(s: string)
    ensures Trimmed(Trim(s)) && (forall c :: c in Trim(s) ==> c in s)
  {
    TrimLeftFacts(s);
    TrimRightFacts(TrimLeft(s));
  }

  /** Trimming what is not trimmed makes it shorter. */
  lemma {:induction false} TrimIsShorter(s: string)
    ensures |TrimLeft(s)| <= |s|
    ensures !Trimmed(s) ==> |Trim(s)| < |s|
  {
    TrimRightFacts(TrimLeft(s));
    if s != "" && IsSpace(s[0]) {
      TrimIsShorter(s[1..]);
    } else if s != "" {
      TrimRightFacts(s[..|s| - 1]);
    }
  }

  lemma TrimTwice(s: string)
    ensures Trim(Trim(s)) == Trim(s)
  {
    TrimIsTrimmed(s);
  }

  lemma {:induction false} TrimRightAppend(s: string, w: string)
    requires forall c :: c in w ==> IsSpace(c)
    ensures TrimRight(s + w) == TrimRight(s)
  {
    if w == "" {
      assert s + w == s;
    } else {
      var shorter := w[..|w| - 1];
      assert (s + w)[..|s + w| - 1] == s + shorter;
      TrimRightAppend(s, shorter);
    }
  }

  /** White space after a text that ends in something else goes. */
  lemma TrimTail(s: string, w: string)
    requires s != "" && Trimmed(s) && forall c :: c in w ==> IsSpace(c)
    ensures Trim(s + w) == s
  {
    TrimRightAppend(s, w);
  }

  /** A leading or trailing space makes no difference to the trimmed text. */
  lemma TrimIgnoresFirst(c: char, s: string)
    requires IsSpace(c)
    ensures Trim([c] + s) == Trim(s)
  {
    assert ([c] + s)[1..] == s;
  }

  lemma {:induction false} TrimIgnoresLast(s: string, c: char)
    requires IsSpace(c)
    ensures Trim(s + [c]) == Trim(s)
  {
    if s == "" {
      assert s + [c] == [c] && [c][1..] == "";
    } else if IsSpace(s[0]) {
      assert (s + [c])[1..] == s[1..] + [c];
      TrimIgnoresLast(s[1..], c);
    } else {
      TrimRightAppend(s, [c]);
    }
  }

  lemma {:induction false} TrimAfterTrimRight(s: string)
    ensures Trim(TrimRight(s)) == Trim(s)
  {
    if s != "" && IsSpace(s[|s| - 1]) {
      TrimAfterTrimRight(s[..|s| - 1]);
      TrimIgnoresLast(s[..|s| - 1], s[|s| - 1]);
      assert s[..|s| - 1] + [s[|s| - 1]] == s;
    }
  }

  /** Trimming at the right stops at a character that is not white space. */
  lemma {:induction false} TrimRightOf(a: string, b: string)
    requires a != "" && !IsSpace(a[|a| - 1])
    ensures TrimRight(a + b) == a + TrimRight(b)
  {
    if b == "" {
      assert a + b == a;
    } else if IsSpace(b[|b| - 1]) {
      TrimRightOf(a, b[..|b| - 1]);
      assert (a + b)[..|a + b| - 1] == a + b[..|b| - 1];
    }
  }

  /** Every part of `small` is, but for white space at its ends, a part of `large`. */
  ghost predicate PartsWithin(small: seq<string>, large: seq<string>) {
    forall p :: p in small ==> exists q :: q in large && Trim(q) == Trim(p)
  }

  lemma PartsWithinItself(a: seq<string>)
    ensures PartsWithin(a, a)
  {
  }

  lemma PartsWithinTransitive(a: seq<string>, b: seq<string>, c: seq<string>)
    requires PartsWithin(a, b) && PartsWithin(b, c)
    ensures PartsWithin(a, c)
  {
  }

  /** Part `k` of `s` without its first character is a part of `s`, but for that character. */
  lemma PartOfTail(s: string, sep: char, k: nat) returns (j: nat)
    requires s != "" && IsSpace(s[0]) && k < |Split(s[1..], sep)|
    ensures j < |Split(s, sep)| && Trim(Split(s, sep)[j]) == Trim(Split(s[1..], sep)[k])
  {
    var rest := Split(s[1..], sep);
    j := if s[0] == sep then k + 1 else k;
    if s[0] != sep && k == 0 { TrimIgnoresFirst(s[0], rest[0]); }
  }

  lemma PartOfFront(s: string, c: char, sep: char, k: nat)
    requires IsSpace(c) && k < |Split(s, sep)|
    ensures k < |Split(s + [c], sep)| && Trim(Split(s + [c], sep)[k]) == Trim(Split(s, sep)[k])
  {
    if c == sep {
      assert s + [c] == s + [sep] + "";
      SplitAppend(s, "", sep);
    } else {
      SplitSnoc(s, c, sep);
      TrimIgnoresLast(Split(s, sep)[k], c);
    }
  }

  lemma TailWithin(s: string, sep: char)
    requires s != "" && IsSpace(s[0])
    ensures PartsWithin(Split(s[1..], sep), Split(s, sep))
  {
    var rest, parts := Split(s[1..], sep), Split(s, sep);
    forall p | p in rest ensures exists q :: q in parts && Trim(q) == Trim(p) {
      var k :| 0 <= k < |rest| && rest[k] == p;
      var j := PartOfTail(s, sep, k);
      assert parts[j] in parts;
    }
  }

  lemma FrontWithin(s: string, c: char, sep: char)
    requires IsSpace(c)
    ensures PartsWithin(Split(s, sep), Split(s + [c], sep))
  {
    var front, parts := Split(s, sep), Split(s + [c], sep);
    forall p | p in front ensures exists q :: q in parts && Trim(q) == Trim(p) {
      var k :| 0 <= k < |front| && front[k] == p;
      PartOfFront(s, c, sep, k);
      assert parts[k] in parts;
    }
  }

  lemma {:induction false} TrimLeftParts(s: string, sep: char)
    ensures PartsWithin(Split(TrimLeft(s), sep), Split(s, sep))
  {
    hide PartsWithin, Split;
    if s != "" && IsSpace(s[0]) {
      TrimLeftParts(s[1..], sep);
      TailWithin(s, sep);
      PartsWithinTransitive(Split(TrimLeft(s), sep), Split(s[1..], sep), Split(s, sep));
    } else {
      PartsWithinItself(Split(s, sep));
    }
  }

  lemma {:induction false} TrimRightParts(s: string, sep: char)
    ensures PartsWithin(Split(TrimRight(s), sep), Split(s, sep))
  {
    hide PartsWithin, Split;
    if s != "" && IsSpace(s[|s| - 1]) {
      var t, c := s[..|s| - 1], s[|s| - 1];
      assert s == t + [c];
      TrimRightParts(t, sep);
      FrontWithin(t, c, sep);
      PartsWithinTransitive(Split(TrimRight(s), sep), Split(t, sep), Split(s, sep));
    } else {
      PartsWithinItself(Split(s, sep));
    }
  }

  lemma TrimParts(s: string, sep: char)
    ensures PartsWithin(Split(Trim(s), sep), Split(s, sep))
  {
    TrimLeftParts(s, sep);
    TrimRightParts(TrimLeft(s), sep);
    PartsWithinTransitive(Split(Trim(s), sep), Split(TrimLeft(s), sep), Split(s, sep));
  }
}
