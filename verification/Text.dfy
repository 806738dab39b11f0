/** Python string operations the modelled code relies on. */
module Text {

  datatype Option<+T> = None | Some(value: T)

  /** The characters str.strip() removes. */
  predicate IsSpace(c: char) {
    var n := c as int;
    || 0x09 <= n <= 0x0d || 0x1c <= n <= 0x20 || n == 0x85 || n == 0xa0 || n == 0x1680
    || 0x2000 <= n <= 0x200a || n == 0x2028 || n == 0x2029 || n == 0x202f || n == 0x205f || n == 0x3000
  }

  function StripLeft(s: string): (r: string)
    ensures |r| <= |s| && (r != "" ==> !IsSpace(r[0]))
  {
    if s != "" && IsSpace(s[0]) then StripLeft(s[1..]) else s
  }

  function StripRight(s: string): (r: string)
    ensures |r| <= |s| && (r != "" ==> !IsSpace(r[|r| - 1])) && r <= s
  {
    if s != "" && IsSpace(s[|s| - 1]) then StripRight(s[..|s| - 1]) else s
  }

  /** str.strip() */
  function Strip(s: string): (r: string)
    ensures |r| <= |s| && (r != "" ==> !IsSpace(r[0]) && !IsSpace(r[|r| - 1]))
  {
    StripRight(StripLeft(s))
  }

  /** A string without white space at its ends is already stripped. */
  lemma {:induction false} StripsToItself(s: string)
    requires s == "" || (!IsSpace(s[0]) && !IsSpace(s[|s| - 1]))
    ensures Strip(s) == s
  {
  }

  predicate Blank(s: string) {
    forall i :: 0 <= i < |s| ==> IsSpace(s[i])
  }

  lemma {:induction false} StripLeftShape(s: string)
    ensures StripLeft(s) == s[|s| - |StripLeft(s)|..] && Blank(s[..|s| - |StripLeft(s)|])
  {
    if s != "" && IsSpace(s[0]) {
      StripLeftShape(s[1..]);
      var k := |s| - |StripLeft(s)|;
      assert s[1..][k - 1..] == s[k..];
      assert s[..k] == [s[0]] + s[1..][..k - 1];
    }
  }

  lemma {:induction false} StripRightShape(s: string)
    ensures StripRight(s) == s[..|StripRight(s)|] && Blank(s[|StripRight(s)|..])
  {
    if s != "" && IsSpace(s[|s| - 1]) {
      var t := s[..|s| - 1];
      StripRightShape(t);
      var k := |StripRight(s)|;
      assert s[k..] == t[k..] + [s[|s| - 1]];
    }
  }

  /** Stripping takes white space off both ends, all of it, and nothing else. */
  lemma {:induction false} StripIs(s: string) returns (left: string, right: string)
    ensures s == left + Strip(s) + right && Blank(left) && Blank(right)
  {
    var t := StripLeft(s);
    StripLeftShape(s);
    StripRightShape(t);
    left, right := s[..|s| - |t|], t[|Strip(s)|..];
  }

  /** str.lstrip(c) and str.rstrip(c) for one character. */
  function TrimLeft(s: string, c: char): (r: string)
    ensures |r| <= |s| && (r != "" ==> r[0] != c)
  {
    if s != "" && s[0] == c then TrimLeft(s[1..], c) else s
  }

  function TrimRight(s: string, c: char): (r: string)
    ensures r <= s && (r != "" ==> r[|r| - 1] != c)
  {
    if s != "" && s[|s| - 1] == c then TrimRight(s[..|s| - 1], c) else s
  }

  /** Trimming takes off the leading run of `c` and nothing else. */
  lemma {:induction false} TrimLeftIs(s: string, c: char)
    ensures TrimLeft(s, c) == s[|s| - |TrimLeft(s, c)|..]
    ensures forall i :: 0 <= i < |s| - |TrimLeft(s, c)| ==> s[i] == c
  {
    if s != "" && s[0] == c {
      TrimLeftIs(s[1..], c);
      var k := |s| - |TrimLeft(s, c)|;
      assert s[1..][k - 1..] == s[k..];
      assert forall i :: 1 <= i < k ==> s[i] == s[1..][i - 1];
    }
  }

  lemma {:induction false} TrimRightIs(s: string, c: char)
    ensures TrimRight(s, c) <= s && forall i :: |TrimRight(s, c)| <= i < |s| ==> s[i] == c
  {
    if s != "" && s[|s| - 1] == c {
      TrimRightIs(s[..|s| - 1], c);
    }
  }

  predicate EndsWith(s: string, t: string) {
    |t| <= |s| && s[|s| - |t|..] == t
  }

  predicate Lacks(s: string, c: char) {
    forall i :: 0 <= i < |s| ==> s[i] != c
  }

  /** The part of a string before the first `c`. */
  function Before(s: string, c: char): (r: string)
    ensures r <= s && Lacks(r, c) && (|r| < |s| ==> s[|r|] == c)
  {
    if s == "" || s[0] == c then "" else [s[0]] + Before(s[1..], c)
  }

  /** str.split(sep) */
  function Split(s: string, sep: char): (parts: seq<string>)
    ensures |parts| >= 1
  {
    if s == "" then [""]
    else
      var rest := Split(s[1..], sep);
      if s[0] == sep then [""] + rest else [[s[0]] + rest[0]] + rest[1..]
  }

  function Join(parts: seq<string>, sep: char): string
    requires |parts| >= 1
  {
    if |parts| == 1 then parts[0] else parts[0] + [sep] + Join(parts[1..], sep)
  }

  /** Splitting cuts at every separator, and joining puts the string back together. */
  lemma {:induction false} SplitIs(s: string, sep: char)
    ensures Join(Split(s, sep), sep) == s && forall i :: 0 <= i < |Split(s, sep)| ==> Lacks(Split(s, sep)[i], sep)
  {
    if s != "" {
      var rest := Split(s[1..], sep);
      SplitIs(s[1..], sep);
      assert s == [s[0]] + s[1..];
      if s[0] == sep {
        assert Split(s, sep)[1..] == rest;
      } else {
        var parts := [[s[0]] + rest[0]] + rest[1..];
        assert parts[1..] == rest[1..];
        assert Join(parts, sep) == [s[0]] + Join(rest, sep);
      }
    }
  }

  lemma {:induction false} SplitWhole(s: string, sep: char)
    requires Lacks(s, sep)
    ensures Split(s, sep) == [s]
  {
    if s != "" {
      SplitWhole(s[1..], sep);
      assert [s[0]] + s[1..] == s;
    }
  }

  /** A final separator starts a part of its own. */
  lemma {:induction false} SplitLast(s: string, sep: char, last: string)
    requires Lacks(last, sep)
    ensures Split(s + [sep] + last, sep) == Split(s, sep) + [last]
  {
    var t := s + [sep] + last;
    if s == "" {
      assert t[1..] == last;
      SplitWhole(last, sep);
    } else {
      assert t[1..] == s[1..] + [sep] + last;
      SplitLast(s[1..], sep, last);
      var rest := Split(s[1..], sep);
      assert (rest + [last])[1..] == rest[1..] + [last];
    }
  }

  /** Where the first `c` of a string ends a known, c-free head, the head is determined. */
  lemma {:induction false} HeadIsUnique(a: string, x: string, b: string, y: string, c: char)
    requires Lacks(a, c) && Lacks(b, c) && a + [c] + x == b + [c] + y
    ensures a == b && x == y
  {
    var s, t := a + [c] + x, b + [c] + y;
    assert s[|a|] == c && t[|b|] == c;
    assert (forall i :: 0 <= i < |a| ==> s[i] == a[i]) && (forall i :: 0 <= i < |b| ==> t[i] == b[i]);
    assert |a| == |b|;
    assert a == s[..|a|] && b == t[..|a|];
    assert x == s[|a| + 1..] && y == t[|a| + 1..];
  }

  /** Where the last `c` of a string starts a c-free tail, the tail is determined. */
  lemma {:induction false} TailIsUnique(a: string, x: string, b: string, y: string, c: char)
    requires Lacks(x, c) && Lacks(y, c) && a + [c] + x == b + [c] + y
    ensures a == b && x == y
  {
    var s, t := a + [c] + x, b + [c] + y;
    assert s[|a|] == c && t[|b|] == c;
    assert forall i :: |a| < i < |s| ==> s[i] == x[i - |a| - 1];
    assert forall i :: |b| < i < |t| ==> t[i] == y[i - |b| - 1];
    assert |a| == |b|;
    assert a == s[..|a|] && b == t[..|a|];
    assert x == s[|a| + 1..] && y == t[|a| + 1..];
  }

  /** Equal strings with a common head have equal tails. */
  lemma {:induction false} CancelHead(h: string, x: string, y: string)
    requires h + x == h + y
    ensures x == y
  {
    assert x == (h + x)[|h|..] && y == (h + y)[|h|..];
  }

  /** Equal strings with a common tail have equal heads. */
  lemma {:induction false} CancelTail(x: string, y: string, t: string)
    requires x + t == y + t
    ensures x == y
  {
    assert |x| == |x + t| - |t|;
    assert x == (x + t)[..|x|] && y == (y + t)[..|y|];
  }
}
