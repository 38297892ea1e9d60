/** The string operations the orchestration code relies on: Python's
    `str.strip()`, `str.startswith`, `str.split(sep, 1)` followed by a
    two-name unpack, and `int()` on a decimal literal. */
module Text {

  import opened Json

  /** Python's `str.isspace()` for one character: the characters `strip()`
      removes when called without arguments. */
  predicate IsSpace(c: char) {
    var n := c as int;
    || 0x09 <= n <= 0x0D
    || 0x1C <= n <= 0x20
    || n == 0x85 || n == 0xA0 || n == 0x1680
    || 0x2000 <= n <= 0x200A
    || n == 0x2028 || n == 0x2029 || n == 0x202F || n == 0x205F || n == 0x3000
  }

  /** `s.lstrip()`: drops the leading whitespace and nothing else. */
  function TrimLeft(s: string): (r: string)
    ensures |r| <= |s| && r == s[|s| - |r|..]
    ensures forall k :: 0 <= k < |s| - |r| ==> IsSpace(s[k])
    ensures r == [] || !IsSpace(r[0])
  {
    if s != [] && IsSpace(s[0]) then TrimLeft(s[1..]) else s
  }

  /** `s.rstrip()`: drops the trailing whitespace and nothing else. */
  function TrimRight(s: string): (r: string)
    ensures |r| <= |s| && r == s[..|r|]
    ensures forall k :: |r| <= k < |s| ==> IsSpace(s[k])
    ensures r == [] || !IsSpace(r[|r| - 1])
  {
    if s != [] && IsSpace(s[|s| - 1]) then TrimRight(s[..|s| - 1]) else s
  }

  /** `s.strip()`: the result is a contiguous part of `s`, everything cut off
      on either side is whitespace, and the result neither starts nor ends
      with whitespace. */
  function Strip(s: string): (r: string)
    ensures r == [] || (!IsSpace(r[0]) && !IsSpace(r[|r| - 1]))
    ensures exists i, j :: 0 <= i <= j <= |s| && r == s[i..j]
              && (forall k :: 0 <= k < i ==> IsSpace(s[k]))
              && (forall k :: j <= k < |s| ==> IsSpace(s[k]))
  {
    var l := TrimLeft(s);
    var r := TrimRight(l);
    var i := |s| - |l|;
    assert r == s[i..i + |r|];
    r
  }

  /** Stripping a string that has no whitespace at either end leaves it as it is. */
  lemma {:induction false} StripUnpadded(s: string)
    requires s == [] || (!IsSpace(s[0]) && !IsSpace(s[|s| - 1]))
    ensures Strip(s) == s
  {
    assert TrimLeft(s) == s;
  }

  /** Stripping twice is stripping once. */
  lemma StripIdempotent(s: string)
    ensures Strip(Strip(s)) == Strip(s)
  {
    StripUnpadded(Strip(s));
  }

  /** A string strips to "" exactly when it consists of whitespace only. */
  lemma StripBlank(s: string)
    ensures Strip(s) == "" <==> forall k :: 0 <= k < |s| ==> IsSpace(s[k])
  {
    var r := Strip(s);
    var i, j :| 0 <= i <= j <= |s| && r == s[i..j]
      && (forall k :: 0 <= k < i ==> IsSpace(s[k]))
      && (forall k :: j <= k < |s| ==> IsSpace(s[k]));
    assert r != [] ==> r[0] == s[i];
  }

  /** Whitespace added around a string without whitespace at its ends is
      exactly what stripping removes. */
  lemma StripPadded(lead: string, s: string, trail: string)
    requires forall k :: 0 <= k < |lead| ==> IsSpace(lead[k])
    requires forall k :: 0 <= k < |trail| ==> IsSpace(trail[k])
    requires s != [] && !IsSpace(s[0]) && !IsSpace(s[|s| - 1])
    ensures Strip(lead + s + trail) == s
  {
    assert lead + s + trail == lead + (s + trail);
    TrimLeftPadded(lead, s + trail);
    TrimRightPadded(s, trail);
  }

  lemma {:induction false} TrimLeftPadded(lead: string, x: string)
    requires forall k :: 0 <= k < |lead| ==> IsSpace(lead[k])
    requires x != [] && !IsSpace(x[0])
    ensures TrimLeft(lead + x) == x
  {
    if lead == [] {
      assert lead + x == x;
    } else {
      assert (lead + x)[1..] == lead[1..] + x;
      TrimLeftPadded(lead[1..], x);
    }
  }

  lemma {:induction false} TrimRightPadded(x: string, trail: string)
    requires forall k :: 0 <= k < |trail| ==> IsSpace(trail[k])
    requires x != [] && !IsSpace(x[|x| - 1])
    ensures TrimRight(x + trail) == x
  {
    if trail == [] {
      assert x + trail == x;
    } else {
      var t := x + trail;
      assert t[..|t| - 1] == x + trail[..|trail| - 1];
      TrimRightPadded(x, trail[..|trail| - 1]);
    }
  }

  /** `prefix` is an initial part of `s`. */
  predicate StartsWith(s: string, prefix: string) {
    |prefix| <= |s| && s[..|prefix|] == prefix
  }

  /** `s.split(sep, 1)` unpacked into two names: None when `sep` does not
      occur (the unpack raises), otherwise the text before the first `sep`
      and everything after it, further separators included. */
  function SplitFirst(s: string, sep: char): (r: Option<(string, string)>)
    ensures r.None? <==> sep !in s
    ensures r.Some? ==> sep !in r.value.0 && s == r.value.0 + [sep] + r.value.1
  {
    if s == [] then None
    else if s[0] == sep then Some(([], s[1..]))
    else match SplitFirst(s[1..], sep)
      case None => None
      case Some((a, b)) => Some(([s[0]] + a, b))
  }

  /** The split at the first separator is the only one whose left part is
      free of separators. */
  lemma {:induction false} SplitUnique(a: string, b: string, a': string, b': string, sep: char)
    requires sep !in a && sep !in a'
    requires a + [sep] + b == a' + [sep] + b'
    ensures a == a' && b == b'
  {
    var s := a + [sep] + b;
    assert s[0] == (if a == [] then sep else a[0]);
    assert s[0] == (if a' == [] then sep else a'[0]);
    assert a == [] <==> a' == [];
    if a != [] {
      assert a[0] == a'[0];
      assert a[1..] + [sep] + b == (a + [sep] + b)[1..];
      assert a'[1..] + [sep] + b' == (a' + [sep] + b')[1..];
      SplitUnique(a[1..], b, a'[1..], b', sep);
      assert a == [a[0]] + a[1..];
      assert a' == [a'[0]] + a'[1..];
    } else {
      assert b == (a + [sep] + b)[1..];
      assert b' == (a' + [sep] + b')[1..];
    }
  }

  /** Splitting a joined pair gives the pair back when its left part holds no separator. */
  lemma SplitJoin(a: string, b: string, sep: char)
    requires sep !in a
    ensures SplitFirst(a + [sep] + b, sep) == Some((a, b))
  {
    var s := a + [sep] + b;
    assert s[|a|] == sep;
    var r := SplitFirst(s, sep);
    SplitUnique(r.value.0, r.value.1, a, b, sep);
  }

  predicate IsDigit(c: char) {
    '0' <= c <= '9'
  }

  predicate AllDigits(s: string) {
    forall k :: 0 <= k < |s| ==> IsDigit(s[k])
  }

  /** The value of a run of decimal digits, most significant first. */
  function DigitsValue(s: string): nat
    requires AllDigits(s)
  {
    if s == [] then 0 else DigitsValue(s[..|s| - 1]) * 10 + (s[|s| - 1] as int - '0' as int)
  }

  /** `int(s)` for the literals this model accepts: an optional `+` or `-`
      followed by one or more decimal digits. None is Python's ValueError. */
  function ParseInt(s: string): (r: Option<int>)
    ensures r.Some? <==> (s != [] && (if s[0] == '+' || s[0] == '-' then |s| > 1 && AllDigits(s[1..]) else AllDigits(s)))
  {
    if s == [] then None
    else if s[0] == '+' || s[0] == '-' then
      var body := s[1..];
      if body != [] && AllDigits(body) then
        Some(if s[0] == '-' then 0 - DigitsValue(body) else DigitsValue(body) as int)
      else None
    else if AllDigits(s) then Some(DigitsValue(s))
    else None
  }

  /** The decimal digits of a natural number, without leading zeros. */
  function NatToString(n: nat): (r: string)
    ensures r != [] && AllDigits(r)
    ensures r[0] != '0' || n == 0
  {
    if n < 10 then ["0123456789"[n]]
    else NatToString(n / 10) + ["0123456789"[n % 10]]
  }

  /** The decimal representation Python's `str(n)` gives an integer. */
  function IntToString(n: int): string {
    if n < 0 then "-" + NatToString(-n) else NatToString(n)
  }

  lemma {:induction false} DigitsOfNat(n: nat)
    ensures DigitsValue(NatToString(n)) == n
  {
    var s := NatToString(n);
    if n >= 10 {
      DigitsOfNat(n / 10);
      assert s[..|s| - 1] == NatToString(n / 10);
    }
  }

  /** Every integer written in decimal parses back to itself. */
  lemma ParseShow(n: int)
    ensures ParseInt(IntToString(n)) == Some(n)
  {
    if n < 0 {
      DigitsOfNat(-n);
      assert IntToString(n)[1..] == NatToString(-n);
    } else {
      DigitsOfNat(n);
    }
  }
}
