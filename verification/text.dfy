/** Decimal rendering of Python integers and integer lists, as f-strings
    produce them in the tool server's replies (`f"{[w, x, y, z]}"`). */
module Text {
  import opened Protocol

  predicate IsDigit(c: char) {
    '0' as int <= c as int <= '9' as int
  }

  function DigitChar(d: nat): (c: char)
    requires d < 10
    ensures IsDigit(c) && c as int - '0' as int == d
  {
    "0123456789"[d]
  }

  /** Decimal digits of a natural number, most significant first. */
  function ShowNat(n: nat): (s: string)
    ensures s != []
    ensures forall i :: 0 <= i < |s| ==> IsDigit(s[i])
    ensures s[0] == '0' ==> n == 0
  {
    if n < 10 then [DigitChar(n)] else ShowNat(n / 10) + [DigitChar(n % 10)]
  }

  /** `str(i)` for an integer: a minus sign, then the digits of `|i|`. */
  function ShowInt(i: int): (s: string)
    ensures s != [] && IsIntText(s)
  {
    if i < 0 then "-" + ShowNat(-i) else ShowNat(i)
  }

  /** An optional minus sign followed by decimal digits. */
  predicate IsIntText(s: string) {
    s != [] && (s[0] == '-' || IsDigit(s[0])) && forall i :: 1 <= i < |s| ==> IsDigit(s[i])
  }

  /** Reads back a string of decimal digits. */
  function ParseNat(s: string): nat
    requires forall i :: 0 <= i < |s| ==> IsDigit(s[i])
  {
    if s == [] then 0
    else
      assert IsDigit(s[|s| - 1]);
      ParseNat(s[..|s| - 1]) * 10 + (s[|s| - 1] as int - '0' as int)
  }

  /** Reads back an optionally signed decimal integer. */
  function ParseInt(s: string): int
    requires IsIntText(s)
  {
    if s[0] == '-' then -(ParseNat(s[1..]) as int) else ParseNat(s)
  }

  lemma {:induction false} ShowNatRoundTrip(n: nat)
    ensures ParseNat(ShowNat(n)) == n
  {
    if n >= 10 {
      ShowNatRoundTrip(n / 10);
      var s := ShowNat(n);
      assert s[..|s| - 1] == ShowNat(n / 10);
    }
  }

  /** Rendering an integer loses nothing: it reads back as the same value. */
  lemma ShowIntRoundTrip(i: int)
    ensures ParseInt(ShowInt(i)) == i
  {
    if i < 0 {
      ShowNatRoundTrip(-i);
      assert ShowInt(i)[1..] == ShowNat(-i);
    } else {
      ShowNatRoundTrip(i);
    }
  }

  /** The elements of a list joined by ", ". */
  function JoinInts(xs: seq<int>): (s: string)
    ensures s == [] <==> xs == []
  {
    if xs == [] then ""
    else if |xs| == 1 then ShowInt(xs[0])
    else ShowInt(xs[0]) + ", " + JoinInts(xs[1..])
  }

  /** `str(xs)` for a list of integers: `[1, 2, 3, 4]`. */
  function ShowIntList(xs: seq<int>): (s: string)
    ensures |s| >= 2 && s[0] == '[' && s[|s| - 1] == ']'
    ensures s[1..|s| - 1] == JoinInts(xs)
  {
    "[" + JoinInts(xs) + "]"
  }

  /** The position of the first comma, or the length when there is none. */
  function CommaIndex(s: string): (k: nat)
    ensures k <= |s|
    ensures k < |s| ==> s[k] == ','
    ensures forall j :: 0 <= j < k ==> s[j] != ','
  {
    if s == [] || s[0] == ',' then 0 else 1 + CommaIndex(s[1..])
  }

  /** Reads back integers separated by ", ": the text up to the first
      comma is one integer, and a comma must be followed by a space and
      another element. */
  function ParseInts(s: string): Option<seq<int>>
    decreases |s|
  {
    if s == [] then Some([])
    else
      var k := CommaIndex(s);
      var token := s[..k];
      if !IsIntText(token) then None
      else if k == |s| then Some([ParseInt(token)])
      else if k + 2 < |s| && s[k + 1] == ' ' then
        match ParseInts(s[k + 2..])
        case Some(rest) => Some([ParseInt(token)] + rest)
        case None => None
      else None
  }

  /** Reads back a bracketed list of integers. */
  function ParseIntList(s: string): Option<seq<int>> {
    if |s| >= 2 && s[0] == '[' && s[|s| - 1] == ']' then ParseInts(s[1..|s| - 1]) else None
  }

  /** Integer text has no comma, so the first comma after it is the one
      that follows it. */
  lemma CommaAfterInt(a: string, b: string)
    requires IsIntText(a)
    ensures CommaIndex(a) == |a|
    ensures b != [] && b[0] == ',' ==> CommaIndex(a + b) == |a|
  {
    assert forall j :: 0 <= j < |a| ==> a[j] != ',' by {
      forall j | 0 <= j < |a|
        ensures a[j] != ','
      {
        if j > 0 {
          assert IsDigit(a[j]);
        }
      }
    }
    if b != [] && b[0] == ',' {
      assert (a + b)[|a|] == ',';
    }
  }

  /** Joined integers read back as the same list. */
  lemma {:induction false} JoinIntsRoundTrip(xs: seq<int>)
    ensures ParseInts(JoinInts(xs)) == Some(xs)
  {
    if xs != [] {
      var a := ShowInt(xs[0]);
      ShowIntRoundTrip(xs[0]);
      if |xs| == 1 {
        CommaAfterInt(a, []);
        assert a[..|a|] == a && xs == [xs[0]];
      } else {
        var r := JoinInts(xs[1..]);
        JoinIntsRoundTrip(xs[1..]);
        var s := a + ", " + r;
        assert s == a + (", " + r);
        CommaAfterInt(a, ", " + r);
        assert s[..|a|] == a && s[|a| + 1] == ' ' && s[|a| + 2..] == r;
        assert [xs[0]] + xs[1..] == xs;
      }
    }
  }

  /** The rendered list reads back as the same integers, in order: the
      reply loses neither a value nor a sign nor the order. */
  lemma ShowIntListRoundTrip(xs: seq<int>)
    ensures ParseIntList(ShowIntList(xs)) == Some(xs)
  {
    JoinIntsRoundTrip(xs);
  }
}
