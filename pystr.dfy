/** The pieces of Python's list and `str` semantics that the modelled code relies on:
    open-ended slices with negative starts, `str.join`, `str.split`, `str.strip`,
    `str.replace` on single characters, prefix and suffix tests, `str(int)` and `int(str)`. */
module PyStr {
  import opened Wrappers

  // ---------------------------------------------------------------- slices

  /** Python `s[start:]`: a negative start counts from the end and is clamped at 0,
      a start past the end gives the empty list. */
  function SliceFrom<T>(s: seq<T>, start: int): (r: seq<T>)
    ensures |r| <= |s| && r == s[|s| - |r|..]
    ensures start == 0 ==> r == s
    ensures -|s| <= start < 0 ==> r == s[|s| + start..]
    ensures start < -|s| ==> r == s
    ensures 0 <= start <= |s| ==> r == s[start..]
  {
    var k := if start < 0 then (if -start >= |s| then 0 else |s| + start)
             else (if start >= |s| then |s| else start);
    s[k..]
  }

  /** Flattening of a list of lists (`sum(lists, [])`, or repeated `+=`). */
  function Concat<T>(ss: seq<seq<T>>): seq<T>
  {
    if ss == [] then [] else Concat(ss[..|ss| - 1]) + ss[|ss| - 1]
  }

  lemma {:induction false} ConcatAppend<T>(a: seq<seq<T>>, b: seq<seq<T>>)
    ensures Concat(a + b) == Concat(a) + Concat(b)
    decreases |b|
  {
    if b == [] {
      assert a + b == a;
    } else {
      var n := |b| - 1;
      assert (a + b)[..|a + b| - 1] == a + b[..n];
      ConcatAppend(a, b[..n]);
    }
  }

  lemma ConcatSingle<T>(x: seq<T>)
    ensures Concat([x]) == x
  {
    assert [x][..0] == [];
  }

  // ---------------------------------------------------------------- prefixes

  predicate StartsWith(s: string, prefix: string) {
    |prefix| <= |s| && s[..|prefix|] == prefix
  }

  predicate EndsWith(s: string, suffix: string) {
    |suffix| <= |s| && s[|s| - |suffix|..] == suffix
  }

  // ---------------------------------------------------------------- join / split

  /** Python `sep.join(parts)`. */
  function Join(sep: string, parts: seq<string>): string
  {
    if parts == [] then ""
    else if |parts| == 1 then parts[0]
    else Join(sep, parts[..|parts| - 1]) + sep + parts[|parts| - 1]
  }

  /** Joining two non-empty lists is joining each and putting one separator between. */
  lemma {:induction false} JoinAppend(sep: string, a: seq<string>, b: seq<string>)
    requires |a| >= 1 && |b| >= 1
    ensures Join(sep, a + b) == Join(sep, a) + sep + Join(sep, b)
    decreases |b|
  {
    var ab := a + b;
    if |b| == 1 {
      assert ab[..|ab| - 1] == a;
    } else {
      var n := |b| - 1;
      assert ab[..|ab| - 1] == a + b[..n];
      JoinAppend(sep, a, b[..n]);
    }
  }

  /** Python `s.split(c)` for a one-character separator: always at least one field,
      and no field contains the separator. */
  function Split(s: string, c: char): (r: seq<string>)
    ensures |r| >= 1
    ensures forall i :: 0 <= i < |r| ==> c !in r[i]
  {
    if s == [] then [""]
    else
      var rest := Split(s[1..], c);
      if s[0] == c then [""] + rest else [[s[0]] + rest[0]] + rest[1..]
  }

  lemma {:induction false} JoinCons(sep: string, x: string, parts: seq<string>)
    requires |parts| >= 1
    ensures Join(sep, [x] + parts) == x + sep + Join(sep, parts)
    decreases |parts|
  {
    var all := [x] + parts;
    if |parts| == 1 {
      assert all[..|all| - 1] == [x];
    } else {
      var n := |parts| - 1;
      assert all[..|all| - 1] == [x] + parts[..n];
      JoinCons(sep, x, parts[..n]);
    }
  }

  lemma {:induction false} JoinHeadExtend(sep: string, ch: char, parts: seq<string>)
    requires |parts| >= 1
    ensures Join(sep, [[ch] + parts[0]] + parts[1..]) == [ch] + Join(sep, parts)
    decreases |parts|
  {
    if |parts| == 1 {
    } else {
      var n := |parts| - 1;
      var ext := [[ch] + parts[0]] + parts[1..];
      assert ext[..|ext| - 1] == [[ch] + parts[0]] + parts[1..n];
      assert parts[..n][1..] == parts[1..n];
      JoinHeadExtend(sep, ch, parts[..n]);
    }
  }

  /** Splitting on a character and joining back with it gives the original string. */
  lemma {:induction false} JoinSplit(s: string, c: char)
    ensures Join([c], Split(s, c)) == s
    decreases |s|
  {
    if s != [] {
      var rest := Split(s[1..], c);
      JoinSplit(s[1..], c);
      if s[0] == c {
        JoinCons([c], "", rest);
      } else {
        JoinHeadExtend([c], s[0], rest);
      }
    }
  }

  // ---------------------------------------------------------------- strip / replace

  /** The characters Python's `str.isspace()` accepts. */
  predicate IsSpace(c: char) {
    c == ' ' || ('\t' <= c <= '\r') || ('\U{1C}' <= c <= '\U{1F}') || c == '\U{85}'
    || c == '\U{A0}' || c == '\U{1680}' || ('\U{2000}' <= c <= '\U{200A}')
    || c == '\U{2028}' || c == '\U{2029}' || c == '\U{202F}' || c == '\U{205F}' || c == '\U{3000}'
  }

  function StripLeft(s: string): (r: string)
    ensures |r| <= |s| && r == s[|s| - |r|..]
    ensures r == [] || !IsSpace(r[0])
    ensures forall i :: 0 <= i < |s| - |r| ==> IsSpace(s[i])
  {
    if s != [] && IsSpace(s[0]) then StripLeft(s[1..]) else s
  }

  function StripRight(s: string): (r: string)
    ensures |r| <= |s| && r == s[..|r|]
    ensures r == [] || !IsSpace(r[|r| - 1])
    ensures forall i :: |r| <= i < |s| ==> IsSpace(s[i])
  {
    if s != [] && IsSpace(s[|s| - 1]) then StripRight(s[..|s| - 1]) else s
  }

  /** Python `s.strip()`: the longest slice without surrounding whitespace. */
  function Strip(s: string): (r: string)
    ensures r == [] || (!IsSpace(r[0]) && !IsSpace(r[|r| - 1]))
    ensures |r| <= |s|
  {
    StripRight(StripLeft(s))
  }

  /** Python `s.replace(a, b)` for one-character strings. */
  function ReplaceChar(s: string, a: char, b: char): (r: string)
    ensures |r| == |s|
    ensures a != b ==> a !in r
    ensures forall i :: 0 <= i < |s| && s[i] != a ==> r[i] == s[i]
  {
    seq(|s|, i requires 0 <= i < |s| => if s[i] == a then b else s[i])
  }

  // ---------------------------------------------------------------- str(int) / int(str)

  predicate IsDigit(c: char) { '0' <= c <= '9' }

  function DigitChar(d: nat): (c: char)
    requires d < 10
    ensures IsDigit(c)
  {
    (('0' as int) + d) as char
  }

  function DigitValue(c: char): (d: nat)
    requires IsDigit(c)
    ensures d < 10
  {
    (c as int) - ('0' as int)
  }

  /** Python `str(n)` for a non-negative integer: decimal digits, no sign, no leading zero. */
  function NatToString(n: nat): (r: string)
    ensures |r| >= 1
    ensures forall i :: 0 <= i < |r| ==> IsDigit(r[i])
    decreases n
  {
    if n < 10 then [DigitChar(n)] else NatToString(n / 10) + [DigitChar(n % 10)]
  }

  /** Python `str(i)` for any integer. */
  function IntToString(i: int): string
  {
    if i < 0 then "-" + NatToString(-i) else NatToString(i)
  }

  function ParseDigits(s: string): nat
    requires |s| >= 1 && forall i :: 0 <= i < |s| ==> IsDigit(s[i])
  {
    if |s| == 1 then DigitValue(s[0])
    else ParseDigits(s[..|s| - 1]) * 10 + DigitValue(s[|s| - 1])
  }

  function ParseNat(s: string): Option<nat>
  {
    if |s| >= 1 && forall i :: 0 <= i < |s| ==> IsDigit(s[i]) then Some(ParseDigits(s)) else None
  }

  /** Python `int(s)` restricted to an optional minus sign followed by decimal digits;
      anything else raises ValueError. */
  function ParseInt(s: string): Result<int>
  {
    if |s| >= 1 && s[0] == '-' then
      (match ParseNat(s[1..]) case Some(v) => Success(-(v as int)) case None => Failure(ValueError))
    else
      (match ParseNat(s) case Some(v) => Success(v) case None => Failure(ValueError))
  }

  lemma {:induction false} ParseNatToString(n: nat)
    ensures ParseNat(NatToString(n)) == Some(n)
    decreases n
  {
    if n >= 10 {
      var s := NatToString(n);
      ParseNatToString(n / 10);
      assert s[..|s| - 1] == NatToString(n / 10);
    }
  }

  /** `int(str(i)) == i` for every integer. */
  lemma IntRoundTrip(i: int)
    ensures ParseInt(IntToString(i)) == Success(i)
  {
    if i < 0 {
      ParseNatToString(-i);
      assert IntToString(i)[1..] == NatToString(-i);
    } else {
      ParseNatToString(i);
    }
  }
}
