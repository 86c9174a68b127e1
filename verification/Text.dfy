/** The few `str` operations the model needs, on sequences of Unicode scalar values. */
module Text {
  /** The characters `str.strip()` removes. */
  predicate IsSpace(c: char) {
    || '\U{0009}' <= c <= '\U{000D}'
    || '\U{001C}' <= c <= '\U{0020}'
    || c == '\U{0085}' || c == '\U{00A0}' || c == '\U{1680}'
    || '\U{2000}' <= c <= '\U{200A}'
    || c == '\U{2028}' || c == '\U{2029}' || c == '\U{202F}' || c == '\U{205F}' || c == '\U{3000}'
  }

  predicate AllSpace(s: string) {
    forall i :: 0 <= i < |s| ==> IsSpace(s[i])
  }

  function StripLeft(s: string): (r: string)
    ensures r != [] ==> !IsSpace(r[0])
    ensures |r| <= |s| && r == s[|s| - |r|..] && AllSpace(s[..|s| - |r|])
    ensures s != [] && !IsSpace(s[0]) ==> r == s
  {
    hide IsSpace;
    if s == [] || !IsSpace(s[0]) then s
    else
      var r := StripLeft(s[1..]);
      assert s[..|s| - |r|] == [s[0]] + s[1..][..|s| - 1 - |r|];
      r
  }

  function StripRight(s: string): (r: string)
    ensures r != [] ==> !IsSpace(r[|r| - 1])
    ensures |r| <= |s| && r == s[..|r|] && AllSpace(s[|r|..])
    ensures s != [] && !IsSpace(s[|s| - 1]) ==> r == s
  {
    hide IsSpace;
    if s == [] || !IsSpace(s[|s| - 1]) then s
    else
      var r := StripRight(s[..|s| - 1]);
      assert s[|r|..] == s[..|s| - 1][|r|..] + [s[|s| - 1]];
      r
  }

  /** `str.strip()`. */
  function Strip(s: string): (r: string)
    ensures r != [] ==> !IsSpace(r[0]) && !IsSpace(r[|r| - 1])
    ensures s != [] && !IsSpace(s[0]) && !IsSpace(s[|s| - 1]) ==> r == s
  {
    var left := StripLeft(s);
    var r := StripRight(left);
    assert r != [] ==> r[0] == left[0];
    r
  }

  function LowerChar(c: char): char {
    if 'A' <= c <= 'Z' then c - 'A' + 'a' else c
  }

  /** `str.lower()` and `str.casefold()` on ASCII letters; other characters are unchanged. */
  function Lower(s: string): (r: string)
    ensures |r| == |s|
    ensures forall i :: 0 <= i < |s| ==> r[i] == LowerChar(s[i])
  {
    seq(|s|, i requires 0 <= i < |s| => LowerChar(s[i]))
  }

  lemma {:induction false} StripLeftOf(left: string, rest: string)
    requires AllSpace(left) && (rest != "" ==> !IsSpace(rest[0]))
    ensures StripLeft(left + rest) == rest
  {
    if left == "" {
      assert left + rest == rest;
    } else {
      assert (left + rest)[1..] == left[1..] + rest;
      StripLeftOf(left[1..], rest);
    }
  }

  lemma {:induction false} StripRightOf(rest: string, right: string)
    requires AllSpace(right) && (rest != "" ==> !IsSpace(rest[|rest| - 1]))
    ensures StripRight(rest + right) == rest
  {
    if right == "" {
      assert rest + right == rest;
    } else {
      assert (rest + right)[..|rest + right| - 1] == rest + right[..|right| - 1];
      StripRightOf(rest, right[..|right| - 1]);
    }
  }

  /** Stripping a text with whitespace around a core that neither starts nor ends with any gives the core. */
  lemma StripOfPadded(left: string, core: string, right: string)
    requires AllSpace(left) && AllSpace(right)
    requires core != "" ==> !IsSpace(core[0]) && !IsSpace(core[|core| - 1])
    ensures Strip(left + core + right) == core
  {
    hide IsSpace, StripLeft, StripRight;
    var s := left + core + right;
    if core == "" {
      assert s == left + right && AllSpace(s);
      StripLeftOf(s, "");
      assert s + "" == s;
    } else {
      assert s == left + (core + right);
      StripLeftOf(left, core + right);
      StripRightOf(core, right);
    }
  }

  lemma Parts(s: string, i: nat, j: nat)
    requires i + j <= |s|
    ensures s == s[..i] + s[i..][..j] + s[i..][j..]
  {
  }

  /** A text is its stripped core between two runs of whitespace. */
  lemma StripSplits(s: string) returns (left: string, right: string)
    ensures AllSpace(left) && AllSpace(right) && s == left + Strip(s) + right
  {
    var l := StripLeft(s);
    var core := StripRight(l);
    left, right := s[..|s| - |l|], l[|core|..];
    Parts(s, |s| - |l|, |core|);
  }

  // ------------------------------------------------------------------ splitting

  function Prepend(c: char, sep: char, parts: seq<string>): (r: seq<string>)
    requires parts != []
    ensures r != []
  {
    if c == sep then [""] + parts else [[c] + parts[0]] + parts[1..]
  }

  /** `s.split(sep)`. */
  function Split(s: string, sep: char): (r: seq<string>)
    ensures r != []
  {
    if s == "" then [""] else Prepend(s[0], sep, Split(s[1..], sep))
  }

  lemma PrependKeepsTheRest(c: char, sep: char, x: seq<string>, y: seq<string>)
    requires x != []
    ensures Prepend(c, sep, x + y) == Prepend(c, sep, x) + y
  {
    assert (x + y)[1..] == x[1..] + y;
  }

  lemma PrependSeparator(sep: char, parts: seq<string>)
    requires parts != []
    ensures Prepend(sep, sep, parts) == [""] + parts
  {
  }

  /** A separator ends one part and starts the next. */
  lemma {:induction false} SplitAtSeparator(a: string, sep: char, b: string)
    ensures Split(a + [sep] + b, sep) == Split(a, sep) + Split(b, sep)
    decreases |a|
  {
    hide Prepend;
    var s := a + [sep] + b;
    if a == "" {
      assert s[0] == sep && s[1..] == b;
      PrependSeparator(sep, Split(b, sep));
    } else {
      assert s[0] == a[0] && s[1..] == a[1..] + [sep] + b;
      SplitAtSeparator(a[1..], sep, b);
      PrependKeepsTheRest(a[0], sep, Split(a[1..], sep), Split(b, sep));
    }
  }

  lemma {:induction false} OnePartIff(s: string, sep: char)
    ensures Split(s, sep) == [s] <==> sep !in s
    decreases |s|
  {
    if s != "" {
      OnePartIff(s[1..], sep);
      assert s == [s[0]] + s[1..];
      if sep !in s[1..] && s[0] != sep { assert sep !in s; }
    }
  }
}
