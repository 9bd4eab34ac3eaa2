/** Stripping and splitting of text as Python does it, on ASCII. */
module Text {

  /** What `bytes.strip` removes. */
  predicate IsBlank(c: char) {
    c in {' ', '\t', '\n', '\r', '\U{000B}', '\U{000C}'}
  }

  /** What `str.strip` removes. */
  predicate IsWhite(c: char) {
    IsBlank(c) || '\U{001C}' <= c <= '\U{001F}'
  }

  function StripLeft(s: string, blank: char -> bool): string {
    if s != "" && blank(s[0]) then StripLeft(s[1..], blank) else s
  }

  function StripRight(s: string, blank: char -> bool): string {
    if s != "" && blank(s[|s| - 1]) then StripRight(s[..|s| - 1], blank) else s
  }

  /** The text without the blanks at its two ends. */
  function Strip(s: string, blank: char -> bool): string {
    StripRight(StripLeft(s, blank), blank)
  }

  ghost predicate AllBlank(s: string, blank: char -> bool) {
    forall i :: 0 <= i < |s| ==> blank(s[i])
  }

  predicate Bare(t: string, blank: char -> bool) {
    t == "" || (!blank(t[0]) && !blank(t[|t| - 1]))
  }

  lemma {:induction false} StripLeftExact(a: string, t: string, blank: char -> bool)
    requires AllBlank(a, blank) && (t == "" || !blank(t[0]))
    ensures StripLeft(a + t, blank) == t
  {
    if a == "" {
      assert a + t == t;
    } else {
      assert (a + t)[0] == a[0] && (a + t)[1..] == a[1..] + t;
      StripLeftExact(a[1..], t, blank);
    }
  }

  lemma {:induction false} StripRightExact(t: string, b: string, blank: char -> bool)
    requires AllBlank(b, blank) && (t == "" || !blank(t[|t| - 1]))
    ensures StripRight(t + b, blank) == t
  {
    if b == "" {
      assert t + b == t;
    } else {
      var s, n := t + b, |b| - 1;
      assert s[|s| - 1] == b[n] && s[..|s| - 1] == t + b[..n];
      StripRightExact(t, b[..n], blank);
    }
  }

  /** Stripping takes away the blanks at both ends, all of them and nothing else. */
  lemma StripExact(a: string, t: string, b: string, blank: char -> bool)
    requires AllBlank(a, blank) && AllBlank(b, blank) && Bare(t, blank)
    ensures Strip(a + t + b, blank) == t
  {
    if t == "" {
      assert a + t + b == (a + b) + "";
      StripLeftExact(a + b, "", blank);
      assert StripRight("", blank) == "";
    } else {
      assert a + t + b == a + (t + b) && (t + b)[0] == t[0];
      StripLeftExact(a, t + b, blank);
      StripRightExact(t, b, blank);
    }
  }

  lemma {:induction false} StripLeftSplits(s: string, blank: char -> bool) returns (a: string)
    ensures AllBlank(a, blank) && s == a + StripLeft(s, blank)
    ensures StripLeft(s, blank) == "" || !blank(StripLeft(s, blank)[0])
  {
    if s != "" && blank(s[0]) {
      var a' := StripLeftSplits(s[1..], blank);
      a := [s[0]] + a';
      assert s == [s[0]] + s[1..];
    } else {
      a := "";
    }
  }

  lemma {:induction false} StripRightSplits(s: string, blank: char -> bool) returns (b: string)
    ensures AllBlank(b, blank) && s == StripRight(s, blank) + b
    ensures StripRight(s, blank) == "" || !blank(StripRight(s, blank)[|StripRight(s, blank)| - 1])
  {
    if s != "" && blank(s[|s| - 1]) {
      var b' := StripRightSplits(s[..|s| - 1], blank);
      b := b' + [s[|s| - 1]];
      assert s == s[..|s| - 1] + [s[|s| - 1]];
    } else {
      b := "";
    }
  }

  /** Every text is what stripping leaves, between blanks. */
  lemma StripSplits(s: string, blank: char -> bool) returns (a: string, b: string)
    ensures AllBlank(a, blank) && AllBlank(b, blank) && Bare(Strip(s, blank), blank)
    ensures s == a + Strip(s, blank) + b
  {
    a := StripLeftSplits(s, blank);
    b := StripRightSplits(StripLeft(s, blank), blank);
  }

  /** `s.split(sep)` for a separator of one character. */
  function Split(s: string, sep: char): (parts: seq<string>)
    ensures |parts| >= 1
  {
    if s == "" then [""]
    else
      var parts := Split(s[1..], sep);
      if s[0] == sep then [""] + parts else [[s[0]] + parts[0]] + parts[1..]
  }

  predicate Free(s: string, sep: char) {
    forall i :: 0 <= i < |s| ==> s[i] != sep
  }

  lemma {:induction false} SplitOfFree(a: string, sep: char)
    requires Free(a, sep)
    ensures Split(a, sep) == [a]
  {
    if a != "" {
      SplitOfFree(a[1..], sep);
      assert a == [a[0]] + a[1..];
    }
  }

  lemma {:induction false} SplitAfter(a: string, sep: char, rest: string)
    requires Free(a, sep)
    ensures Split(a + [sep] + rest, sep) == [a] + Split(rest, sep)
  {
    var s := a + [sep] + rest;
    if a == "" {
      assert s[1..] == rest;
    } else {
      assert s[1..] == a[1..] + [sep] + rest;
      SplitAfter(a[1..], sep, rest);
      assert a == [a[0]] + a[1..];
    }
  }

  /** The first part is what stands before the first separator. */
  lemma {:induction false} FirstPart(s: string, sep: char) returns (rest: string)
    ensures s == Split(s, sep)[0] + rest && Free(Split(s, sep)[0], sep) && (rest == "" || rest[0] == sep)
  {
    if s == "" {
      rest := "";
    } else if s[0] == sep {
      rest := s;
    } else {
      rest := FirstPart(s[1..], sep);
      assert s == [s[0]] + s[1..];
    }
  }

  function Join(parts: seq<string>, sep: char): string
    requires parts != []
  {
    if |parts| == 1 then parts[0] else parts[0] + [sep] + Join(parts[1..], sep)
  }

  /** The parts put together again are the text. */
  lemma {:induction false} JoinOfSplit(s: string, sep: char)
    ensures Join(Split(s, sep), sep) == s
  {
    if s != "" {
      JoinOfSplit(s[1..], sep);
      var parts := Split(s[1..], sep);
      if s[0] == sep {
        assert Split(s, sep)[1..] == parts;
      } else {
        JoinCons(s[0], parts, sep);
      }
      assert s == [s[0]] + s[1..];
    }
  }

  lemma JoinCons(c: char, parts: seq<string>, sep: char)
    requires parts != []
    ensures Join([[c] + parts[0]] + parts[1..], sep) == [c] + Join(parts, sep)
  {
    var t := [[c] + parts[0]] + parts[1..];
    assert t[1..] == parts[1..];
  }

  /** No part holds the separator. */
  lemma {:induction false} SplitFree(s: string, sep: char)
    ensures forall i :: 0 <= i < |Split(s, sep)| ==> Free(Split(s, sep)[i], sep)
  {
    if s != "" {
      SplitFree(s[1..], sep);
    }
  }
}
