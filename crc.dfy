/**
 * Cyclic redundancy check by modulo-2 long division against a generator
 * polynomial given as a bit string (by default "1011", x^3 + x + 1).
 */
module Crc {
  import opened Bits

  /** The generator used when the caller gives none. */
  const DefaultPolynomial: seq<char> := "1011"

  /** `n` numeric zero bits: `Array(n).fill(0)`. */
  function ZeroBits(n: nat): (r: seq<Bit>)
    ensures |r| == n && forall j :: 0 <= j < n ==> r[j] == 0
  {
    seq(n, _ => 0)
  }

  /** Bitwise exclusive or of two equally long bit sequences. */
  function XorBits(a: seq<Bit>, b: seq<Bit>): (r: seq<Bit>)
    requires |a| == |b|
    ensures |r| == |a|
  {
    seq(|a|, j requires 0 <= j < |a| => Xor(a[j], b[j]))
  }

  /** `buf` with the generator XORed into the window that starts at `i`. */
  function XorInto(buf: seq<Bit>, poly: seq<Bit>, i: nat): (r: seq<Bit>)
    requires i + |poly| <= |buf|
    ensures |r| == |buf|
  {
    seq(|buf|, j requires 0 <= j < |buf| =>
      if i <= j < i + |poly| then Xor(buf[j], poly[j - i]) else buf[j])
  }

  /**
   * The division from position `i` up to `n`: every position that holds a 1
   * when it is reached gets the generator XORed in at that position.
   */
  function Divide(buf: seq<Bit>, poly: seq<Bit>, i: nat, n: nat): (r: seq<Bit>)
    requires |poly| >= 1 && i <= n && n + |poly| <= |buf| + 1
    ensures |r| == |buf|
    decreases n - i
  {
    if i == n then buf
    else Divide(Step(buf, poly, i), poly, i + 1, n)
  }

  /**
   * One step of the division at position `i`: a 1 there gets the generator
   * XORed in, a 0 is skipped. Only the window under the generator changes,
   * and a generator with a leading 1 clears position `i`.
   */
  function Step(buf: seq<Bit>, poly: seq<Bit>, i: nat): (r: seq<Bit>)
    requires |poly| >= 1 && i + |poly| <= |buf|
    ensures |r| == |buf|
  {
    if buf[i] == 0 then buf else XorInto(buf, poly, i)
  }

  /**
   * The CRC of `data`: pad with |poly| - 1 zeros, divide, keep the last
   * |poly| - 1 bits. With a one-bit generator `slice(-0)` keeps the whole
   * buffer, so the result is then as long as the data.
   */
  function Remainder(data: seq<char>, poly: seq<char>): (r: seq<char>)
    requires IsBits(data) && IsBits(poly) && |poly| >= 1
    ensures IsBits(r)
    ensures |r| == if |poly| == 1 then |data| else |poly| - 1
  {
    var k := |poly| - 1;
    var buf := Divide(Values(data) + ZeroBits(k), Values(poly), 0, |data|);
    Digits(if k == 0 then buf else buf[|buf| - k..])
  }

  /**
   * `calculateCRC` as the source runs it: the padded buffer is an array and
   * the generator is XORed into it in place, one bit at a time.
   */
  method CalculateCrc(data: seq<char>, poly: seq<char>) returns (crc: seq<char>)
    requires IsBits(data) && IsBits(poly) && |poly| >= 1
    ensures crc == Remainder(data, poly)
  {
    var dataArr := Values(data);
    var polyArr := Values(poly);
    var crcLength := |polyArr| - 1;
    var paddedData := new Bit[|dataArr| + crcLength](j requires 0 <= j < |dataArr| + crcLength =>
      if j < |dataArr| then dataArr[j] else 0);
    assert paddedData[..] == dataArr + ZeroBits(crcLength);
    DivideInPlace(paddedData, polyArr, |dataArr|);
    var buf := paddedData[..];
    assert |buf| - crcLength == |data|;
    crc := Digits(if crcLength == 0 then buf else buf[|buf| - crcLength..]);
    RemainderOfDivided(data, poly, buf);
  }

  /** The outer loop of the division: one step at each data position, in place. */
  method DivideInPlace(paddedData: array<Bit>, polyArr: seq<Bit>, n: nat)
    requires |polyArr| >= 1 && n + |polyArr| <= paddedData.Length + 1
    modifies paddedData
    ensures paddedData[..] == Divide(old(paddedData[..]), polyArr, 0, n)
  {
    for i := 0 to n
      invariant Divide(paddedData[..], polyArr, i, n) == Divide(old(paddedData[..]), polyArr, 0, n)
    {
      if paddedData[i] == 0 {
        continue;
      }
      XorGenerator(paddedData, polyArr, i);
    }
  }

  /** The inner loop of the division: XOR the generator into the buffer at `i`. */
  method XorGenerator(paddedData: array<Bit>, polyArr: seq<Bit>, i: nat)
    requires i + |polyArr| <= paddedData.Length
    modifies paddedData
    ensures paddedData[..] == XorInto(old(paddedData[..]), polyArr, i)
  {
    for j := 0 to |polyArr|
      invariant forall m :: 0 <= m < paddedData.Length ==>
        paddedData[m] == if i <= m < i + j then Xor(old(paddedData[m]), polyArr[m - i]) else old(paddedData[m])
    {
      paddedData[i + j] := Xor(paddedData[i + j], polyArr[j]);
    }
  }

  /** The encoded message: the data followed by its CRC. */
  function EncodeCrc(data: seq<char>, poly: seq<char>): (r: seq<char>)
    requires IsBits(data) && IsBits(poly) && |poly| >= 1
    ensures IsBits(r) && |r| >= |data| && r[..|data|] == data
    ensures |poly| >= 2 ==> |r| == |data| + |poly| - 1
  {
    data + Remainder(data, poly)
  }

  predicate AllZeros(s: seq<char>) {
    forall i :: 0 <= i < |s| ==> s[i] == '0'
  }

  /** A received message passes when the CRC computed over all of it is all zeros. */
  predicate CheckCrc(encoded: seq<char>, poly: seq<char>)
    requires IsBits(encoded) && IsBits(poly) && |poly| >= 1
  {
    AllZeros(Remainder(encoded, poly))
  }

  /** Dividing in two stretches is dividing in one. */
  lemma {:induction false} DivideSplit(buf: seq<Bit>, poly: seq<Bit>, i: nat, m: nat, n: nat)
    requires |poly| >= 1 && i <= m <= n && n + |poly| <= |buf| + 1
    ensures Divide(buf, poly, i, n) == Divide(Divide(buf, poly, i, m), poly, m, n)
    decreases m - i
  {
    if i < m {
      DivideSplit(Step(buf, poly, i), poly, i + 1, m, n);
    }
  }

  /** An all-zero buffer is left as it is. */
  lemma {:induction false} DivideZeros(len: nat, poly: seq<Bit>, i: nat, n: nat)
    requires |poly| >= 1 && i <= n && n + |poly| <= len + 1
    ensures Divide(ZeroBits(len), poly, i, n) == ZeroBits(len)
    decreases n - i
  {
    if i < n {
      DivideZeros(len, poly, i + 1, n);
    }
  }

  /** A step does not look at bits beyond the generator's window. */
  lemma StepExtend(buf: seq<Bit>, tail: seq<Bit>, poly: seq<Bit>, i: nat)
    requires |poly| >= 1 && i + |poly| <= |buf|
    ensures Step(buf + tail, poly, i) == Step(buf, poly, i) + tail
  {
    if buf[i] != 0 {
      var x, y := XorInto(buf + tail, poly, i), XorInto(buf, poly, i) + tail;
      forall j | 0 <= j < |x|
        ensures x[j] == y[j]
      {
        if j < |buf| {
        } else {
        }
      }
    }
  }

  /** Bits beyond the reach of the division ride along unchanged. */
  lemma {:induction false} DivideExtend(buf: seq<Bit>, tail: seq<Bit>, poly: seq<Bit>, i: nat, n: nat)
    requires |poly| >= 1 && i <= n && n + |poly| <= |buf| + 1
    ensures Divide(buf + tail, poly, i, n) == Divide(buf, poly, i, n) + tail
    decreases n - i
  {
    if i < n {
      StepExtend(buf, tail, poly, i);
      DivideExtend(Step(buf, poly, i), tail, poly, i + 1, n);
    }
  }

  lemma XorCommutes(a: Bit, b: Bit, c: Bit)
    ensures Xor(Xor(a, b), c) == Xor(Xor(a, c), b)
  {
  }

  /** A pattern that is zero at the step's position does not change the step's decision. */
  lemma StepXor(buf: seq<Bit>, delta: seq<Bit>, poly: seq<Bit>, i: nat)
    requires |poly| >= 1 && i + |poly| <= |buf| && |delta| == |buf| && delta[i] == 0
    ensures Step(XorBits(buf, delta), poly, i) == XorBits(Step(buf, poly, i), delta)
  {
    var mixed := XorBits(buf, delta);
    assert mixed[i] == buf[i];
    if buf[i] != 0 {
      var x, y := XorInto(mixed, poly, i), XorBits(XorInto(buf, poly, i), delta);
      forall j | 0 <= j < |x|
        ensures x[j] == y[j]
      {
        if i <= j < i + |poly| {
          XorCommutes(buf[j], delta[j], poly[j - i]);
        }
      }
    }
  }

  /**
   * Linearity: XORing in a pattern that is zero over the divided positions
   * changes no decision, so the pattern comes out XORed onto the result.
   */
  lemma {:induction false} DivideXor(buf: seq<Bit>, delta: seq<Bit>, poly: seq<Bit>, i: nat, n: nat)
    requires |poly| >= 1 && i <= n && n + |poly| <= |buf| + 1 && |delta| == |buf|
    requires forall j :: 0 <= j < n ==> delta[j] == 0
    ensures Divide(XorBits(buf, delta), poly, i, n) == XorBits(Divide(buf, poly, i, n), delta)
    decreases n - i
  {
    if i < n {
      StepXor(buf, delta, poly, i);
      DivideXor(Step(buf, poly, i), delta, poly, i + 1, n);
    }
  }

  /** With a leading 1 in the generator, every divided position ends up 0. */
  lemma {:induction false} DivideClears(buf: seq<Bit>, poly: seq<Bit>, i: nat, n: nat)
    requires |poly| >= 1 && poly[0] == 1 && i <= n && n + |poly| <= |buf| + 1
    requires forall j :: 0 <= j < i ==> buf[j] == 0
    ensures forall j :: 0 <= j < n ==> Divide(buf, poly, i, n)[j] == 0
    decreases n - i
  {
    if i < n {
      var next := Step(buf, poly, i);
      assert forall j :: 0 <= j <= i ==> next[j] == 0;
      DivideClears(next, poly, i + 1, n);
    }
  }

  lemma XorBitsSelf(a: seq<Bit>)
    ensures XorBits(a, a) == ZeroBits(|a|)
  {
  }

  lemma ValuesAppend(a: seq<char>, b: seq<char>)
    ensures Values(a + b) == Values(a) + Values(b)
  {
  }

  /** XORing the CRC into the zeros behind the data writes it there. */
  lemma XorPattern(d: seq<Bit>, crc: seq<Bit>)
    ensures var k := |crc|;
      XorBits(d + ZeroBits(k) + ZeroBits(k), ZeroBits(|d|) + crc + ZeroBits(k)) == d + crc + ZeroBits(k)
  {
    var k := |crc|;
    var x, y := XorBits(d + ZeroBits(k) + ZeroBits(k), ZeroBits(|d|) + crc + ZeroBits(k)), d + crc + ZeroBits(k);
    forall j | 0 <= j < |y|
      ensures x[j] == y[j]
    {
      if j < |d| {
      } else if j < |d| + k {
      } else {
      }
    }
  }

  /** Once the first `m` steps leave only zeros, the remaining steps change nothing. */
  lemma DivideOnFromZeros(buf: seq<Bit>, poly: seq<Bit>, m: nat, n: nat)
    requires |poly| >= 1 && m <= n && n + |poly| <= |buf| + 1
    requires Divide(buf, poly, 0, m) == ZeroBits(|buf|)
    ensures Divide(buf, poly, 0, n) == ZeroBits(|buf|)
  {
    DivideSplit(buf, poly, 0, m, n);
    DivideZeros(|buf|, poly, m, n);
  }

  /** Dividing padded data clears the data positions; what stays behind them is the CRC. */
  lemma DividedPadded(d: seq<Bit>, poly: seq<Bit>)
    requires |poly| >= 2 && poly[0] == 1
    ensures var buf := Divide(d + ZeroBits(|poly| - 1), poly, 0, |d|);
      buf == ZeroBits(|d|) + buf[|d|..]
  {
    var padded := d + ZeroBits(|poly| - 1);
    var buf := Divide(padded, poly, 0, |d|);
    assert |buf| == |padded| == |d| + |poly| - 1;
    DivideClears(padded, poly, 0, |d|);
    assert buf == ZeroBits(|d|) + buf[|d|..];
  }

  /** Dividing the twice-padded data leaves zeros, then the CRC, then the second padding. */
  lemma DividedTwicePadded(d: seq<Bit>, poly: seq<Bit>, crc: seq<Bit>)
    requires |poly| >= 2 && poly[0] == 1
    requires crc == Divide(d + ZeroBits(|poly| - 1), poly, 0, |d|)[|d|..]
    ensures Divide(d + ZeroBits(|poly| - 1) + ZeroBits(|poly| - 1), poly, 0, |d|)
      == ZeroBits(|d|) + crc + ZeroBits(|poly| - 1)
  {
    var k := |poly| - 1;
    assert |crc| == k;
    DivideExtend(d + ZeroBits(k), ZeroBits(k), poly, 0, |d|);
    DividedPadded(d, poly);
  }

  /** Data followed by its CRC, padded again, divides down to nothing at all. */
  lemma DividedEncoded(d: seq<Bit>, poly: seq<Bit>, crc: seq<Bit>, encoded: seq<Bit>, m: nat)
    requires |poly| >= 2 && poly[0] == 1
    requires crc == Divide(d + ZeroBits(|poly| - 1), poly, 0, |d|)[|d|..]
    requires encoded == d + crc + ZeroBits(|poly| - 1) && m == |d| + |poly| - 1
    ensures Divide(encoded, poly, 0, m) == ZeroBits(|encoded|)
  {
    var n, k := |d|, |poly| - 1;
    var buf := d + ZeroBits(k) + ZeroBits(k);
    var delta := ZeroBits(n) + crc + ZeroBits(k);
    assert |crc| == k;
    assert |buf| == |delta| == |encoded| == n + 2 * k;
    assert Divide(buf, poly, 0, n) == delta by {
      DividedTwicePadded(d, poly, crc);
    }
    assert XorBits(buf, delta) == encoded by {
      XorPattern(d, crc);
    }
    assert Divide(encoded, poly, 0, n) == ZeroBits(|encoded|) by {
      DivideXor(buf, delta, poly, 0, n);
      XorBitsSelf(delta);
    }
    DivideOnFromZeros(encoded, poly, n, m);
  }

  /** The CRC characters, read back as numbers, are the tail of the divided buffer. */
  lemma RemainderValues(data: seq<char>, poly: seq<char>)
    requires IsBits(data) && IsBits(poly) && |poly| >= 2
    ensures Values(Remainder(data, poly))
      == Divide(Values(data) + ZeroBits(|poly| - 1), Values(poly), 0, |data|)[|data|..]
  {
    var k := |poly| - 1;
    var buf := Divide(Values(data) + ZeroBits(k), Values(poly), 0, |data|);
    assert |buf| - k == |data|;
    assert Remainder(data, poly) == Digits(buf[|data|..]);
    ValuesOfDigits(buf[|data|..]);
  }

  /** Zero bits are written out as '0' characters. */
  lemma DigitsOfZeros(n: nat)
    ensures AllZeros(Digits(ZeroBits(n)))
  {
  }

  /**
   * The CRC is the tail behind the data in the divided buffer, or with a
   * one-bit generator the whole buffer.
   */
  lemma RemainderOfDivided(data: seq<char>, poly: seq<char>, buf: seq<Bit>)
    requires IsBits(data) && IsBits(poly) && |poly| >= 1
    requires buf == Divide(Values(data) + ZeroBits(|poly| - 1), Values(poly), 0, |data|)
    ensures Remainder(data, poly) == Digits(if |poly| == 1 then buf else buf[|data|..])
  {
    assert |buf| == |data| + |poly| - 1;
  }

  /** A message whose padded division leaves only zeros passes the check. */
  lemma ZeroDivisionPasses(e: seq<char>, poly: seq<char>)
    requires IsBits(e) && IsBits(poly) && |poly| >= 2
    requires Remainder(e, poly) == Digits(ZeroBits(|e| + |poly| - 1)[|e|..])
    ensures CheckCrc(e, poly)
  {
    var k := |poly| - 1;
    assert ZeroBits(|e| + k)[|e|..] == ZeroBits(k);
    DigitsOfZeros(k);
  }

  /** The encoded message, read back as numbers and padded, divides down to zeros. */
  lemma EncodedDivides(data: seq<char>, poly: seq<char>)
    requires IsBits(data) && IsBits(poly) && |poly| >= 2 && poly[0] == '1'
    ensures var e := EncodeCrc(data, poly);
      Divide(Values(e) + ZeroBits(|poly| - 1), Values(poly), 0, |e|) == ZeroBits(|e| + |poly| - 1)
  {
    var e := EncodeCrc(data, poly);
    var d, p, k := Values(data), Values(poly), |poly| - 1;
    var crc := Values(Remainder(data, poly));
    assert |p| == k + 1 && |d| == |data| && |crc| == k && |e| == |d| + k;
    assert crc == Divide(d + ZeroBits(k), p, 0, |d|)[|d|..] by {
      RemainderValues(data, poly);
    }
    var padded := Values(e) + ZeroBits(k);
    assert padded == d + crc + ZeroBits(k) by {
      ValuesAppend(data, Remainder(data, poly));
    }
    DividedEncoded(d, p, crc, padded, |e|);
  }

  /**
   * Round trip: for a generator of at least two bits with a leading 1, a
   * freshly encoded message passes the check.
   */
  lemma CrcRoundTrip(data: seq<char>, poly: seq<char>)
    requires IsBits(data) && IsBits(poly) && |poly| >= 2 && poly[0] == '1'
    ensures CheckCrc(EncodeCrc(data, poly), poly)
  {
    var e := EncodeCrc(data, poly);
    EncodedDivides(data, poly);
    RemainderOfDivided(e, poly, ZeroBits(|e| + |poly| - 1));
    ZeroDivisionPasses(e, poly);
  }

  /** With the default generator "1011" every encoded binary message passes the check. */
  lemma DefaultCrcRoundTrip(data: seq<char>)
    requires IsBits(data)
    ensures |EncodeCrc(data, DefaultPolynomial)| == |data| + 3
    ensures CheckCrc(EncodeCrc(data, DefaultPolynomial), DefaultPolynomial)
  {
    CrcRoundTrip(data, DefaultPolynomial);
  }
}
