/**
 * Hamming(7,4) single-error-correcting code with the fixed layout
 * [p1, p2, d1, p3, d2, d3, d4] (positions 0..6).
 */
module Hamming {
  import opened Bits
  import opened Wrappers

  /** The two errors the codec throws on a wrongly sized input. */
  datatype HammingError =
    | DataNotFourBits       // encoding needs exactly 4 data bits
    | CodewordNotSevenBits  // decoding needs exactly 7 bits

  datatype DecodeResult = DecodeResult(data: seq<char>, corrected: bool, errorPosition: int)

  /** The data bits d1..d4 of a 7-bit word: positions 2, 4, 5 and 6. */
  function DataBits(w: seq<char>): (r: seq<char>)
    requires |w| == 7
    ensures |r| == 4 && r[0] == w[2] && r[1..] == w[4..]
  {
    [w[2], w[4], w[5], w[6]]
  }

  /** The mod-2 sum of the bits at four positions of a word. */
  function ParityCheck(w: seq<char>, a: int, b: int, c: int, d: int): Bit
    requires 0 <= a < |w| && 0 <= b < |w| && 0 <= c < |w| && 0 <= d < |w|
  {
    (Value(w[a]) as int + Value(w[b]) + Value(w[c]) + Value(w[d])) % 2
  }

  /** The three parity checks: p1 with the data bits it covers, p2 with its, p3 with its. */
  function S1(w: seq<char>): Bit requires |w| == 7 { ParityCheck(w, 0, 2, 4, 6) }
  function S2(w: seq<char>): Bit requires |w| == 7 { ParityCheck(w, 1, 2, 5, 6) }
  function S3(w: seq<char>): Bit requires |w| == 7 { ParityCheck(w, 3, 4, 5, 6) }

  /** The checks weighted 1, 2 and 4: zero for a codeword, else the one-based
      position of a single flipped bit. */
  function Syndrome(w: seq<char>): (s: int)
    requires |w| == 7
    ensures 0 <= s <= 7
  {
    S1(w) * 1 + S2(w) * 2 + S3(w) * 4
  }

  /**
   * Encodes four data bits. Fails unless the input has exactly 4 bits; on
   * success the data sits at positions 2, 4, 5, 6 and every parity check
   * of the codeword comes out zero.
   */
  function EncodeHamming(data: seq<char>): (r: Result<seq<char>, HammingError>)
    requires IsBits(data)
    ensures r.Failure? <==> |data| != 4
    ensures r.Success? ==>
      |r.value| == 7 && IsBits(r.value) && DataBits(r.value) == data && Syndrome(r.value) == 0
  {
    if |data| != 4 then Failure(DataNotFourBits)
    else
      var d1: int, d2: int, d3: int, d4: int := Value(data[0]), Value(data[1]), Value(data[2]), Value(data[3]);
      var p1 := (d1 + d2 + d4) % 2;
      var p2 := (d1 + d3 + d4) % 2;
      var p3 := (d2 + d3 + d4) % 2;
      Success(Digits([p1, p2, d1, p3, d2, d3, d4]))
  }

  /**
   * What decoding computes: a non-zero syndrome names (one-based) the bit
   * to flip before the data bits are read; a zero syndrome reads them as
   * received. Fails unless the input has exactly 7 bits.
   */
  function HammingDecoding(encoded: seq<char>): (r: Result<DecodeResult, HammingError>)
    requires IsBits(encoded)
    ensures r.Failure? <==> |encoded| != 7
    ensures r.Success? ==>
      && -1 <= r.value.errorPosition < 7
      && (r.value.corrected <==> r.value.errorPosition >= 0)
      && |r.value.data| == 4 && IsBits(r.value.data)
  {
    if |encoded| != 7 then Failure(CodewordNotSevenBits)
    else
      var syndrome := Syndrome(encoded);
      var errorPosition := if syndrome != 0 then syndrome - 1 else -1;
      var fixed := if syndrome != 0 then FlipAt(encoded, errorPosition) else encoded;
      Success(DecodeResult(DataBits(fixed), syndrome != 0, errorPosition))
  }

  /**
   * The decoder as the source runs it: the received bits become numbers,
   * a copy is made, and one element of the copy is flipped in place.
   */
  method DecodeHamming(encoded: seq<char>) returns (r: Result<DecodeResult, HammingError>)
    requires IsBits(encoded)
    ensures r == HammingDecoding(encoded)
  {
    if |encoded| != 7 {
      return Failure(CodewordNotSevenBits);
    }
    var bits := Values(encoded);
    var syndrome := Syndrome(encoded);

    var corrected := new Bit[7](i requires 0 <= i < 7 => bits[i]);
    var errorPosition := -1;
    ghost var fixed := encoded;
    if syndrome != 0 {
      errorPosition := syndrome - 1;
      if errorPosition >= 0 && errorPosition < 7 {
        corrected[errorPosition] := if corrected[errorPosition] == 0 then 1 else 0;
      }
      fixed := FlipAt(encoded, errorPosition);
    }
    assert forall k :: 0 <= k < 7 ==> corrected[k] == Value(fixed[k]);
    var correctedData := Digits([corrected[2], corrected[4], corrected[5], corrected[6]]);
    DataBitsOfValues(fixed, corrected[..]);
    r := Success(DecodeResult(correctedData, syndrome != 0, errorPosition));
  }

  /** Joining the parsed data bits of a word gives back its data characters. */
  lemma DataBitsOfValues(w: seq<char>, c: seq<Bit>)
    requires |w| == 7 && IsBits(w) && |c| == 7
    requires forall k :: 0 <= k < 7 ==> c[k] == Value(w[k])
    ensures Digits([c[2], c[4], c[5], c[6]]) == DataBits(w)
  {
    assert forall k :: 0 <= k < 7 ==> Digit(c[k]) == w[k];
  }

  /** `(a + b + c + d) % 2` of four numeric bits, checked case by case. */
  lemma SumMod2(a: Bit, b: Bit, c: Bit, d: Bit)
    ensures (a as int + b + c + d) % 2 == Xor(Xor(Xor(a, b), c), d)
  {
    if a == 0 {
      if b == 0 {
        if c == 0 { } else { }
      } else {
        if c == 0 { } else { }
      }
    } else {
      if b == 0 {
        if c == 0 { } else { }
      } else {
        if c == 0 { } else { }
      }
    }
  }

  /** A flip inside a check's four positions toggles it; one outside leaves it. */
  lemma ParityCheckOfFlip(w: seq<char>, i: int, a: int, b: int, c: int, d: int)
    requires IsBits(w) && 0 <= i < |w|
    requires 0 <= a < b < c < d < |w|
    ensures ParityCheck(FlipAt(w, i), a, b, c, d) ==
      if i == a || i == b || i == c || i == d then 1 - ParityCheck(w, a, b, c, d)
      else ParityCheck(w, a, b, c, d)
  {
    var v := FlipAt(w, i);
    SumMod2(Value(w[a]), Value(w[b]), Value(w[c]), Value(w[d]));
    SumMod2(Value(v[a]), Value(v[b]), Value(v[c]), Value(v[d]));
  }

  /** Flipping bit `i` toggles exactly the checks that cover position `i`. */
  lemma SyndromeOfFlip(w: seq<char>, i: int)
    requires |w| == 7 && IsBits(w) && 0 <= i < 7
    ensures S1(FlipAt(w, i)) == if i in {0, 2, 4, 6} then 1 - S1(w) else S1(w)
    ensures S2(FlipAt(w, i)) == if i in {1, 2, 5, 6} then 1 - S2(w) else S2(w)
    ensures S3(FlipAt(w, i)) == if i in {3, 4, 5, 6} then 1 - S3(w) else S3(w)
  {
    ParityCheckOfFlip(w, i, 0, 2, 4, 6);
    ParityCheckOfFlip(w, i, 1, 2, 5, 6);
    ParityCheckOfFlip(w, i, 3, 4, 5, 6);
  }

  /** Flipping the bit a non-zero syndrome names clears the syndrome. */
  lemma FlipAtSyndromeClears(w: seq<char>)
    requires |w| == 7 && IsBits(w) && Syndrome(w) != 0
    ensures Syndrome(FlipAt(w, Syndrome(w) - 1)) == 0
  {
    SyndromeOfFlip(w, Syndrome(w) - 1);
  }

  /** A word whose parity checks all vanish is the codeword of its own data bits. */
  lemma ZeroSyndromeIsCodeword(w: seq<char>)
    requires |w| == 7 && IsBits(w) && Syndrome(w) == 0
    ensures EncodeHamming(DataBits(w)) == Success(w)
  {
    var c := EncodeHamming(DataBits(w)).value;
    var v := Values(w);
    SumMod2(v[0], v[2], v[4], v[6]);
    SumMod2(v[1], v[2], v[5], v[6]);
    SumMod2(v[3], v[4], v[5], v[6]);
    SumMod2(v[2], v[4], v[6], 0);
    SumMod2(v[2], v[5], v[6], 0);
    SumMod2(v[4], v[5], v[6], 0);
    assert c[0] == w[0];
    assert c[1] == w[1];
    assert c[3] == w[3];
    assert c[2] == w[2];
    assert c[4] == w[4];
    assert c[5] == w[5];
    assert c[6] == w[6];
    assert c == w;
  }

  /** Decoding a codeword returns its data unchanged, with no correction. */
  lemma HammingRoundTrip(data: seq<char>)
    requires IsBits(data) && |data| == 4
    ensures HammingDecoding(EncodeHamming(data).value) == Success(DecodeResult(data, false, -1))
  {
  }

  /** Any single flipped bit of a codeword is found and repaired. */
  lemma HammingCorrectsSingleError(data: seq<char>, i: int)
    requires IsBits(data) && |data| == 4 && 0 <= i < 7
    ensures HammingDecoding(FlipAt(EncodeHamming(data).value, i)) == Success(DecodeResult(data, true, i))
  {
    var e := EncodeHamming(data).value;
    SyndromeOfFlip(e, i);
    assert Syndrome(FlipAt(e, i)) == i + 1;
    assert FlipAt(FlipAt(e, i), i) == e;
  }

  /**
   * Hamming(7,4) is perfect: whatever 7 bits arrive, the decoded data is that
   * of the codeword equal to the received word, or to the received word with
   * the reported position flipped.
   */
  lemma DecodingFindsNearestCodeword(w: seq<char>)
    requires IsBits(w) && |w| == 7
    ensures var res := HammingDecoding(w).value;
      EncodeHamming(res.data) == Success(if res.corrected then FlipAt(w, res.errorPosition) else w)
  {
    var s := Syndrome(w);
    if s == 0 {
      ZeroSyndromeIsCodeword(w);
    } else {
      FlipAtSyndromeClears(w);
      ZeroSyndromeIsCodeword(FlipAt(w, s - 1));
    }
  }

  /** Two distinct flips of a codeword leave a non-zero syndrome naming a third position. */
  lemma DoubleFlipSyndrome(w: seq<char>, i: int, j: int)
    requires |w| == 7 && IsBits(w) && Syndrome(w) == 0
    requires 0 <= i < 7 && 0 <= j < 7 && i != j
    ensures var s := Syndrome(FlipAt(FlipAt(w, i), j));
      s != 0 && s - 1 != i && s - 1 != j
  {
    SyndromeOfFlip(w, i);
    SyndromeOfFlip(FlipAt(w, i), j);
  }

  /**
   * Two flipped bits are never repaired: the decoder reports a correction,
   * at a third position, and returns data other than what was sent.
   */
  lemma DoubleErrorMiscorrected(data: seq<char>, i: int, j: int)
    requires IsBits(data) && |data| == 4 && 0 <= i < 7 && 0 <= j < 7 && i != j
    ensures var res := HammingDecoding(FlipAt(FlipAt(EncodeHamming(data).value, i), j)).value;
      res.corrected && res.errorPosition != i && res.errorPosition != j && res.data != data
  {
    var e := EncodeHamming(data).value;
    var w := FlipAt(FlipAt(e, i), j);
    DoubleFlipSyndrome(e, i, j);
    var res := HammingDecoding(w).value;
    DecodingFindsNearestCodeword(w);
    assert FlipAt(w, res.errorPosition)[i] != e[i];
  }

  /** The worked example: "1011" encodes to "0110011"; with bit 2 flipped
      ("0100011") the decoder repairs position 2 and returns "1011". */
  lemma WorkedExample()
    ensures EncodeHamming("1011") == Success("0110011")
    ensures FlipAt("0110011", 2) == "0100011"
    ensures HammingDecoding("0100011") == Success(DecodeResult("1011", true, 2))
  {
    assert EncodeHamming("1011").value == "0110011";
    assert FlipAt("0110011", 2) == "0100011";
    HammingCorrectsSingleError("1011", 2);
  }
}
