/** Printing integers into the parameter string of a request, and reading them back at a server copy. */
module Codec {
  import opened Common

  const INT32_MIN := -0x8000_0000
  const INT32_MAX := 0x7fff_ffff

  predicate IsInt32(x: int) {
    INT32_MIN <= x <= INT32_MAX
  }

  predicate AllInt32(xs: seq<int>) {
    forall i :: 0 <= i < |xs| ==> IsInt32(xs[i])
  }

  function DigitChar(d: nat): char
    requires d < 10
  {
    '0' + d as char
  }

  predicate IsDigit(c: char) {
    '0' <= c <= '9'
  }

  predicate IsSpace(c: char) {
    c == ' ' || 9 as char <= c <= 13 as char
  }

  function Digits(n: nat): string {
    if n < 10 then [DigitChar(n)] else Digits(n / 10) + [DigitChar(n % 10)]
  }

  /** `std::to_string`. */
  function ToString(x: int): string {
    if x < 0 then "-" + Digits(-x) else Digits(x)
  }

  /** `serialize`: every argument is appended in turn, each followed by a blank. */
  function Serialize(str: string, xs: seq<int>): string
    decreases |xs|
  {
    if xs == [] then str
    else Serialize(str + (ToString(xs[0]) + " "), xs[1..])
  }

  /** What is left to read, and whether the stream is still in a good state. */
  datatype Stream = Stream(text: string, good: bool)

  datatype Extraction = Extraction(stream: Stream, value: int)

  function SkipSpaces(s: string): string {
    if s != [] && IsSpace(s[0]) then SkipSpaces(s[1..]) else s
  }

  /** How many digits the text starts with. */
  function DigitRun(s: string): (n: nat)
    ensures n <= |s| && forall i :: 0 <= i < n ==> IsDigit(s[i])
  {
    if s != [] && IsDigit(s[0]) then 1 + DigitRun(s[1..]) else 0
  }

  function DigitValue(c: char): nat
    requires IsDigit(c)
  {
    c as int - '0' as int
  }

  function Numeral(s: string): nat
    requires forall i :: 0 <= i < |s| ==> IsDigit(s[i])
  {
    if s == [] then 0
    else Numeral(s[..|s| - 1]) * 10 + DigitValue(s[|s| - 1])
  }

  /** Reads the digits at the start of `u` as a number of the given sign. */
  function ExtractDigits(u: string, negative: bool): Extraction {
    var n := DigitRun(u);
    var v: int := if negative then -(Numeral(u[..n]) as int) else Numeral(u[..n]);
    if n == 0 then Extraction(Stream(u, false), 0)
    else if v > INT32_MAX then Extraction(Stream(u[n..], false), INT32_MAX)
    else if v < INT32_MIN then Extraction(Stream(u[n..], false), INT32_MIN)
    else Extraction(Stream(u[n..], n < |u|), v)
  }

  /** Reads one number off a text that does not start with a blank. */
  function ExtractToken(t: string): Extraction
    requires t != []
  {
    if t[0] == '-' || t[0] == '+' then ExtractDigits(t[1..], t[0] == '-') else ExtractDigits(t, false)
  }

  /**
   * `params >> h` for an `int32_t`. Nothing is stored when the stream is bad or exhausted; zero is
   * stored when no digit follows; a value out of range is clamped. In all these cases the stream goes bad.
   */
  function Extract(st: Stream, h: int): Extraction {
    var t := SkipSpaces(st.text);
    if !st.good then Extraction(st, h)
    else if t == [] then Extraction(Stream([], false), h)
    else ExtractToken(t)
  }

  /** `deserialize`: `hs` are the variables to fill, with the values they hold beforehand. */
  function Deserialize(st: Stream, hs: seq<int>): seq<int>
    decreases |hs|
  {
    if hs == [] then []
    else
      var e := Extract(st, hs[0]);
      [e.value] + Deserialize(e.stream, hs[1..])
  }

  // ---- Round trip

  lemma {:induction false} DigitsReadBack(n: nat)
    ensures |Digits(n)| > 0 && forall i :: 0 <= i < |Digits(n)| ==> IsDigit(Digits(n)[i])
    ensures Numeral(Digits(n)) == n
  {
    if n < 10 {
      assert Numeral([DigitChar(n)]) == Numeral([]) * 10 + n;
    } else {
      DigitsReadBack(n / 10);
      var s := Digits(n);
      assert s[..|s| - 1] == Digits(n / 10);
    }
  }

  lemma {:induction false} DigitRunStops(ds: string, rest: string)
    requires forall i :: 0 <= i < |ds| ==> IsDigit(ds[i])
    requires rest == [] || !IsDigit(rest[0])
    ensures DigitRun(ds + rest) == |ds|
  {
    if ds == [] {
      assert ds + rest == rest;
    } else {
      DigitRunStops(ds[1..], rest);
      assert (ds + rest)[1..] == ds[1..] + rest;
    }
  }

  lemma DigitsPrinted(a: nat, rest: string, negative: bool)
    requires if negative then a <= -INT32_MIN else a <= INT32_MAX
    ensures ExtractDigits(Digits(a) + (" " + rest), negative)
         == Extraction(Stream(" " + rest, true), if negative then -(a as int) else a)
  {
    var ds := Digits(a);
    DigitsReadBack(a);
    DigitRunStops(ds, " " + rest);
    var u := ds + (" " + rest);
    assert u[..|ds|] == ds && u[|ds|..] == " " + rest;
  }

  lemma NegativePrinted(a: nat, rest: string)
    requires a <= -INT32_MIN
    ensures ExtractToken("-" + (Digits(a) + (" " + rest))) == Extraction(Stream(" " + rest, true), -(a as int))
  {
    DigitsPrinted(a, rest, true);
    var u := Digits(a) + (" " + rest);
    assert ("-" + u)[1..] == u;
  }

  lemma PositivePrinted(a: nat, rest: string)
    requires a <= INT32_MAX
    ensures var t := Digits(a) + (" " + rest);
            IsDigit(t[0]) && ExtractToken(t) == Extraction(Stream(" " + rest, true), a)
  {
    DigitsPrinted(a, rest, false);
    DigitsReadBack(a);
  }

  lemma Regroup(a: string, b: string, c: string)
    ensures (a + b) + c == a + (b + c)
  {
  }

  lemma TokenPrinted(x: int, rest: string)
    requires IsInt32(x)
    ensures var t := ToString(x) + (" " + rest);
            !IsSpace(t[0]) && ExtractToken(t) == Extraction(Stream(" " + rest, true), x)
  {
    if x < 0 {
      NegativePrinted(-x, rest);
      Regroup("-", Digits(-x), " " + rest);
    } else {
      PositivePrinted(x, rest);
    }
  }

  lemma SkipOneBlank(t: string)
    requires t != [] && !IsSpace(t[0])
    ensures SkipSpaces(t) == t && SkipSpaces(" " + t) == t
  {
    assert (" " + t)[1..] == t;
  }

  /** Reading a printed integer gives it back and leaves the stream at the blank behind it. */
  lemma ExtractPrinted(x: int, rest: string, h: int, blank: string)
    requires IsInt32(x) && (blank == "" || blank == " ")
    ensures Extract(Stream(blank + (ToString(x) + (" " + rest)), true), h) == Extraction(Stream(" " + rest, true), x)
  {
    var t := ToString(x) + (" " + rest);
    TokenPrinted(x, rest);
    SkipOneBlank(t);
    assert "" + t == t;
  }

  function Encoded(xs: seq<int>): string {
    if xs == [] then "" else ToString(xs[0]) + (" " + Encoded(xs[1..]))
  }

  lemma {:induction false} SerializeAppends(str: string, xs: seq<int>)
    ensures Serialize(str, xs) == str + Encoded(xs)
    decreases |xs|
  {
    if xs != [] {
      SerializeAppends(str + (ToString(xs[0]) + " "), xs[1..]);
    }
  }

  lemma {:induction false} DeserializeEncoded(xs: seq<int>, hs: seq<int>, blank: string)
    requires AllInt32(xs) && |hs| <= |xs| && (blank == "" || blank == " ")
    ensures Deserialize(Stream(blank + Encoded(xs), true), hs) == xs[..|hs|]
    decreases |xs|
  {
    if hs != [] {
      ExtractPrinted(xs[0], Encoded(xs[1..]), hs[0], blank);
      assert blank + Encoded(xs) == blank + (ToString(xs[0]) + (" " + Encoded(xs[1..])));
      DeserializeEncoded(xs[1..], hs[1..], " ");
    }
  }

  /** A server reads back the arguments the client passed, whatever its variables held before. */
  lemma RoundTrip(xs: seq<int>, hs: seq<int>)
    requires AllInt32(xs) && |hs| <= |xs|
    ensures Deserialize(Stream(Serialize("", xs), true), hs) == xs[..|hs|]
  {
    SerializeAppends("", xs);
    assert Serialize("", xs) == "" + Encoded(xs);
    DeserializeEncoded(xs, hs, "");
  }

  // ---- Room in the parameter field

  function Pow10(k: nat): nat {
    if k == 0 then 1 else 10 * Pow10(k - 1)
  }

  lemma {:induction false} DigitsLength(n: nat, k: nat)
    requires k > 0 && n < Pow10(k)
    ensures |Digits(n)| <= k
  {
    if n >= 10 {
      assert k > 1;
      DigitsLength(n / 10, k - 1);
    }
  }

  lemma {:induction false} EncodedLength(xs: seq<int>)
    requires AllInt32(xs)
    ensures |Encoded(xs)| <= 12 * |xs|
  {
    if xs != [] {
      assert Pow10(10) == 10_000_000_000;
      DigitsLength(if xs[0] < 0 then -xs[0] else xs[0], 10);
      EncodedLength(xs[1..]);
    }
  }

  /** Any eight arguments fit the request's parameter field together with the terminating zero. */
  lemma EightArgumentsFit(xs: seq<int>)
    requires AllInt32(xs) && |xs| <= 8
    ensures |Serialize("", xs)| + 1 <= PARAM_SIZE
  {
    SerializeAppends("", xs);
    EncodedLength(xs);
  }

  lemma {:induction false} DigitsLengthExact(n: nat, k: nat)
    requires Pow10(k) <= n < Pow10(k + 1)
    ensures |Digits(n)| == k + 1
  {
    if n >= 10 {
      assert k > 0;
      DigitsLengthExact(n / 10, k - 1);
    }
  }

  lemma {:induction false} SmallestLength(n: nat)
    ensures |Encoded(seq(n, _ => INT32_MIN))| == 12 * n
  {
    if n > 0 {
      var xs := seq(n, _ => INT32_MIN);
      assert Pow10(9) == 1_000_000_000 && Pow10(10) == 10_000_000_000;
      DigitsLengthExact(2147483648, 9);
      assert xs[1..] == seq(n - 1, _ => INT32_MIN);
      SmallestLength(n - 1);
    }
  }

  /** Eight is the most that always fits: every longer argument list has one that overruns the field. */
  lemma NineMayOverrun(n: nat)
    requires n > 8
    ensures exists xs :: |xs| == n && AllInt32(xs) && |Serialize("", xs)| + 1 > PARAM_SIZE
  {
    var xs := seq(n, _ => INT32_MIN);
    SerializeAppends("", xs);
    SmallestLength(n);
    assert |xs| == n && AllInt32(xs);
  }
}
