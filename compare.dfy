/**
 * The comparison page: every iteration takes one random payload, sends it
 * through each of the three codes over a noisy channel, and counts the
 * outcome per code as a detected, corrected or undetected error.
 *
 * `Math.random() < errorRate` becomes one boolean per transmitted bit, and
 * `generateRandomData` becomes the payload of each trial; both are given.
 */
module Compare {
  import opened Bits
  import opened Parity
  import opened Hamming
  import opened Crc

  /** The channel: every position whose draw succeeds is flipped. */
  function WithErrors(data: seq<char>, draws: seq<bool>): (r: seq<char>)
    requires |draws| == |data|
    ensures |r| == |data|
  {
    seq(|data|, i requires 0 <= i < |data| => if draws[i] then Flip(data[i]) else data[i])
  }

  /**
   * `applyRandomErrors`: the characters are copied into an array that is
   * flipped in place wherever the draw succeeds.
   */
  method ApplyRandomErrors(data: seq<char>, draws: seq<bool>) returns (r: seq<char>)
    requires |draws| == |data|
    ensures r == WithErrors(data, draws)
    ensures |r| == |data| && forall i :: 0 <= i < |data| ==> (r[i] != data[i] <==> draws[i])
  {
    var result := new char[|data|](i requires 0 <= i < |data| => data[i]);
    for i := 0 to |data|
      invariant forall k :: 0 <= k < |data| ==> result[k] == if k < i && draws[k] then Flip(data[k]) else data[k]
    {
      if draws[i] {
        result[i] := if result[i] == '0' then '1' else '0';
      }
    }
    r := result[..];
  }

  /**
   * Hamming(7,4) takes exactly four data bits: a longer payload is cut to
   * its first four, a shorter one is padded with '0' on the right.
   */
  function NormaliseForHamming(s: seq<char>): (r: seq<char>)
    ensures |r| == 4
    ensures forall i :: 0 <= i < 4 && i < |s| ==> r[i] == s[i]
    ensures forall i :: |s| <= i < 4 ==> r[i] == '0'
    ensures IsBits(s) ==> IsBits(r)
  {
    if |s| > 4 then s[..4]
    else if |s| < 4 then s + Zeros(4 - |s|)
    else s
  }

  /** One iteration's random inputs: the payload and one draw per bit sent by each code. */
  datatype Trial = Trial(payload: seq<char>, parityDraws: seq<bool>, hammingDraws: seq<bool>, crcDraws: seq<bool>)

  /** Bit payload, and as many draws as each code sends bits (the CRC adds three). */
  predicate WellFormed(t: Trial) {
    IsBits(t.payload)
    && |t.parityDraws| == |t.payload| + 1
    && |t.hammingDraws| == 7
    && |t.crcDraws| == |t.payload| + |DefaultPolynomial| - 1
  }

  /** Which counter of one code a trial increments, if any. */
  datatype Tally = Clean | Detected | Corrected | Undetected

  /** The parity block of the loop: corruption of the payload, judged by the parity check. */
  function ParityOutcome(t: Trial): (o: Tally)
    requires WellFormed(t)
    ensures o != Corrected
  {
    var received := WithErrors(AddParityBit(t.payload), t.parityDraws);
    var hasErrors := received[..|t.payload|] != t.payload;
    var ok := CheckParity(received);
    if !ok && hasErrors then Detected
    else if ok && hasErrors then Undetected
    else Clean
  }

  /** The codeword sent for a trial's payload. */
  function HammingSent(t: Trial): (w: seq<char>)
    requires WellFormed(t)
    ensures |w| == 7 && IsBits(w) && Syndrome(w) == 0
    ensures DataBits(w) == NormaliseForHamming(t.payload)
  {
    EncodeHamming(NormaliseForHamming(t.payload)).value
  }

  /**
   * The Hamming block of the loop: a correction that restores the data,
   * a correction that does not, or a corrupted payload with no correction.
   */
  function HammingOutcome(t: Trial): (o: Tally)
    requires WellFormed(t)
    ensures o == Corrected || o == Detected ==> HammingDecoding(WithErrors(HammingSent(t), t.hammingDraws)).value.corrected
  {
    var hammingData := NormaliseForHamming(t.payload);
    var received := WithErrors(HammingSent(t), t.hammingDraws);
    var hasErrors := received[2..3] + received[4..7] != hammingData;
    var result := HammingDecoding(received).value;
    if result.corrected && result.data == hammingData then Corrected
    else if result.corrected && result.data != hammingData then Detected
    else if hasErrors then Undetected
    else Clean
  }

  /** The CRC block of the loop: corruption of the payload, judged by the CRC check. */
  function CrcOutcome(t: Trial): (o: Tally)
    requires WellFormed(t)
    ensures o != Corrected
  {
    var received := WithErrors(EncodeCrc(t.payload, DefaultPolynomial), t.crcDraws);
    var hasErrors := received[..|t.payload|] != t.payload;
    var ok := CheckCrc(received, DefaultPolynomial);
    if !ok && hasErrors then Detected
    else if ok && hasErrors then Undetected
    else Clean
  }

  /** The three codes' outcomes for one trial. */
  datatype Outcomes = Outcomes(parity: Tally, hamming: Tally, crc: Tally)

  /** How one trial is counted: parity and CRC can detect, only Hamming can correct. */
  function Judge(t: Trial): (o: Outcomes)
    requires WellFormed(t)
    ensures o.parity != Corrected && o.crc != Corrected
  {
    Outcomes(ParityOutcome(t), HammingOutcome(t), CrcOutcome(t))
  }

  /** The outcomes of a run's trials, in order; parity and CRC never correct. */
  function JudgeAll(ts: seq<Trial>): (os: seq<Outcomes>)
    requires forall k :: 0 <= k < |ts| ==> WellFormed(ts[k])
    ensures |os| == |ts|
    ensures forall k :: 0 <= k < |os| ==> os[k].parity != Corrected && os[k].crc != Corrected
  {
    if |ts| == 0 then [] else JudgeAll(ts[..|ts| - 1]) + [Judge(ts[|ts| - 1])]
  }

  /** The three codes, named 'Parity', 'Hamming' and 'CRC' on the page. */
  datatype Code = ParityCode | HammingCode | CrcCode

  /** One code's counters (`method` in the source names the code). */
  datatype TestResult = TestResult(technique: Code, detected: nat, corrected: nat, undetected: nat)

  function Total(r: TestResult): nat {
    r.detected + r.corrected + r.undetected
  }

  /** The counters every run starts from. */
  function Initial(): (rs: seq<TestResult>)
    ensures |rs| == 3
    ensures forall k :: 0 <= k < 3 ==> rs[k].detected == 0 && rs[k].corrected == 0 && rs[k].undetected == 0
  {
    [TestResult(ParityCode, 0, 0, 0), TestResult(HammingCode, 0, 0, 0), TestResult(CrcCode, 0, 0, 0)]
  }

  /** `r` with the counter named by `o` incremented. */
  function Count(r: TestResult, o: Tally): (c: TestResult)
    ensures c.technique == r.technique
    ensures Total(c) == Total(r) + (if o == Clean then 0 else 1)
    ensures o != Corrected ==> c.corrected == r.corrected
  {
    match o
    case Clean => r
    case Detected => r.(detected := r.detected + 1)
    case Corrected => r.(corrected := r.corrected + 1)
    case Undetected => r.(undetected := r.undetected + 1)
  }

  /** The counters after one more trial: each code's counter for its outcome goes up by one. */
  function Record(before: seq<TestResult>, o: Outcomes): (after: seq<TestResult>)
    requires |before| == 3
    ensures |after| == 3
    ensures after[0].technique == before[0].technique && after[1].technique == before[1].technique
      && after[2].technique == before[2].technique
    ensures Total(after[0]) <= Total(before[0]) + 1 && Total(after[1]) <= Total(before[1]) + 1
      && Total(after[2]) <= Total(before[2]) + 1
    ensures o.parity != Corrected ==> after[0].corrected == before[0].corrected
    ensures o.crc != Corrected ==> after[2].corrected == before[2].corrected
  {
    [Count(before[0], o.parity), Count(before[1], o.hamming), Count(before[2], o.crc)]
  }

  /**
   * The counters after the given outcomes, in order. Each code's three
   * counters together never exceed the number of trials, and neither
   * parity nor CRC ever counts a correction.
   */
  function Totals(os: seq<Outcomes>): (rs: seq<TestResult>)
    ensures |rs| == 3
    ensures Total(rs[0]) <= |os| && Total(rs[1]) <= |os| && Total(rs[2]) <= |os|
    ensures (forall k :: 0 <= k < |os| ==> os[k].parity != Corrected && os[k].crc != Corrected)
      ==> rs[0].corrected == 0 && rs[2].corrected == 0
  {
    if |os| == 0 then Initial()
    else Record(Totals(os[..|os| - 1]), os[|os| - 1])
  }

  /** The counters keep the names of their codes, in the order Parity, Hamming, CRC. */
  lemma {:induction false} TotalsKeepNames(os: seq<Outcomes>)
    ensures var rs := Totals(os);
      rs[0].technique == ParityCode && rs[1].technique == HammingCode && rs[2].technique == CrcCode
  {
    if |os| > 0 {
      TotalsKeepNames(os[..|os| - 1]);
    }
  }

  /** The parity block of the trial loop. */
  method ParityTrial(t: Trial) returns (o: Tally)
    requires WellFormed(t)
    ensures o == ParityOutcome(t)
  {
    var originalData := t.payload;
    var parityEncoded := AddParityBit(originalData);
    var parityWithErrors := ApplyRandomErrors(parityEncoded, t.parityDraws);
    var hasParityErrors := parityWithErrors[..|originalData|] != originalData;
    var parityResult := CheckParity(parityWithErrors);
    o := Clean;
    if !parityResult && hasParityErrors {
      o := Detected;
    } else if parityResult && hasParityErrors {
      o := Undetected;
    }
  }

  /** The Hamming block of the trial loop. */
  method HammingTrial(t: Trial) returns (o: Tally)
    requires WellFormed(t)
    ensures o == HammingOutcome(t)
  {
    var hammingData := NormaliseForHamming(t.payload);
    var hammingEncoded := EncodeHamming(hammingData).value;
    var hammingWithErrors := ApplyRandomErrors(hammingEncoded, t.hammingDraws);
    var hasHammingErrors := hammingWithErrors[2..3] + hammingWithErrors[4..7] != hammingData;
    var decoded := DecodeHamming(hammingWithErrors);
    var hammingResult := decoded.value;
    o := Clean;
    if hammingResult.corrected && hammingResult.data == hammingData {
      o := Corrected;
    } else if hammingResult.corrected && hammingResult.data != hammingData {
      o := Detected;
    } else if hasHammingErrors {
      o := Undetected;
    }
  }

  /** The CRC block of the trial loop. */
  method CrcTrial(t: Trial) returns (o: Tally)
    requires WellFormed(t)
    ensures o == CrcOutcome(t)
  {
    var originalData := t.payload;
    var crcEncoded := EncodeCrc(originalData, DefaultPolynomial);
    var crcWithErrors := ApplyRandomErrors(crcEncoded, t.crcDraws);
    var hasCrcErrors := crcWithErrors[..|originalData|] != originalData;
    var crcResult := CheckCrc(crcWithErrors, DefaultPolynomial);
    o := Clean;
    if !crcResult && hasCrcErrors {
      o := Detected;
    } else if crcResult && hasCrcErrors {
      o := Undetected;
    }
  }

  /**
   * The body of the trial loop: encode the payload three ways, send each
   * codeword through the channel, and judge what arrives.
   */
  method RunTrial(t: Trial) returns (o: Outcomes)
    requires WellFormed(t)
    ensures o == Judge(t)
  {
    var parity := ParityTrial(t);
    var hamming := HammingTrial(t);
    var crc := CrcTrial(t);
    o := Outcomes(parity, hamming, crc);
  }

  /**
   * `runSimulation`: fresh counters, then one trial per iteration, each
   * adding its outcomes to the counters of `newResults`. A non-positive
   * iteration count runs no trial. Each code's counters together never
   * exceed the number of trials, and parity and CRC never count a
   * correction.
   */
  method RunSimulation(iterations: int, trials: seq<Trial>) returns (results: seq<TestResult>)
    requires iterations <= |trials|
    requires forall k :: 0 <= k < |trials| ==> WellFormed(trials[k])
    ensures results == Totals(JudgeAll(trials[..if iterations > 0 then iterations else 0]))
    ensures var n := if iterations > 0 then iterations else 0;
      Total(results[0]) <= n && Total(results[1]) <= n && Total(results[2]) <= n
    ensures results[0].corrected == 0 && results[2].corrected == 0
  {
    var newResults := Initial();
    ghost var n := if iterations > 0 then iterations else 0;
    var i := 0;
    while i < iterations
      invariant 0 <= i <= n
      invariant newResults == Totals(JudgeAll(trials[..i]))
    {
      ghost var os := JudgeAll(trials[..i]);
      var o := RunTrial(trials[i]);
      newResults := Record(newResults, o);
      JudgeAllStep(trials, i);
      TotalsAppend(os, o);
      i := i + 1;
    }
    assert i == n;
    results := newResults;
  }

  /** One more trial appends its outcomes. */
  lemma JudgeAllStep(ts: seq<Trial>, i: nat)
    requires i < |ts| && forall k :: 0 <= k < |ts| ==> WellFormed(ts[k])
    ensures JudgeAll(ts[..i + 1]) == JudgeAll(ts[..i]) + [Judge(ts[i])]
  {
    assert ts[..i + 1][..i] == ts[..i];
  }

  /** Counting one more outcome is recording it on the counters so far. */
  lemma TotalsAppend(os: seq<Outcomes>, o: Outcomes)
    ensures Totals(os + [o]) == Record(Totals(os), o)
  {
    assert (os + [o])[..|os|] == os;
  }

  /** The number of draws that succeed, i.e. of bits the channel flips. */
  function CountTrue(d: seq<bool>): (n: nat)
    ensures n <= |d|
  {
    if |d| == 0 then 0
    else CountTrue(d[..|d| - 1]) + (if d[|d| - 1] then 1 else 0)
  }

  /** No bit is flipped exactly when no draw succeeds. */
  lemma {:induction false} NoFlipsNoCount(d: seq<bool>)
    ensures CountTrue(d) == 0 <==> forall k :: 0 <= k < |d| ==> !d[k]
    decreases |d|
  {
    if |d| > 0 {
      var m := |d| - 1;
      NoFlipsNoCount(d[..m]);
      assert forall k :: 0 <= k < m ==> d[..m][k] == d[k];
    }
  }

  /** Every flip changes the number of ones by one: their parities add up. */
  lemma {:induction false} OnesAfterErrors(s: seq<char>, d: seq<bool>)
    requires IsBits(s) && |d| == |s|
    ensures (CountOnes(WithErrors(s, d)) + CountTrue(d)) % 2 == CountOnes(s) % 2
    decreases |s|
  {
    if |s| > 0 {
      var m := |s| - 1;
      var r := WithErrors(s, d);
      assert r[..m] == WithErrors(s[..m], d[..m]);
      OnesAfterErrors(s[..m], d[..m]);
      var dr, dd, ds := if r[m] == '1' then 1 else 0, if d[m] then 1 else 0, if s[m] == '1' then 1 else 0;
      assert (dr + dd) % 2 == ds % 2;
      SumsOfSameParity(CountOnes(r[..m]), CountTrue(d[..m]), CountOnes(s[..m]), dr, dd, ds);
    }
  }

  lemma SumsOfSameParity(a: int, b: int, c: int, x: int, y: int, z: int)
    requires (a + b) % 2 == c % 2 && (x + y) % 2 == z % 2
    ensures (a + x + (b + y)) % 2 == (c + z) % 2
  {
  }

  /**
   * The parity check passes after the channel exactly when it flipped an
   * even number of bits, none included: one flip is always caught, two
   * never are.
   */
  lemma ParityDetectsOddFlips(data: seq<char>, draws: seq<bool>)
    requires IsBits(data) && |draws| == |data| + 1
    ensures CheckParity(WithErrors(AddParityBit(data), draws)) <==> CountTrue(draws) % 2 == 0
  {
    var e := AddParityBit(data);
    var w := WithErrors(e, draws);
    OnesAfterErrors(e, draws);
    var a, b := CountOnes(w), CountTrue(draws);
    assert (a + b) % 2 == 0 by {
      assert CountOnes(e) % 2 == 0;
    }
    assert a % 2 == 0 <==> b % 2 == 0;
  }

  /** A codeword keeps its leading `p` exactly when no draw hits one of those positions. */
  lemma PrefixUntouched(s: seq<char>, d: seq<bool>, p: seq<char>)
    requires |d| == |s| && |p| <= |s| && s[..|p|] == p
    ensures WithErrors(s, d)[..|p|] == p <==> forall k :: 0 <= k < |p| ==> !d[k]
  {
    var r := WithErrors(s, d);
    if exists k :: 0 <= k < |p| && d[k] {
      var k :| 0 <= k < |p| && d[k];
      assert r[..|p|][k] != p[k] by {
        assert p[k] == s[..|p|][k];
      }
    } else {
      assert forall k :: 0 <= k < |p| ==> r[..|p|][k] == s[..|p|][k];
    }
  }

  /**
   * What the parity block counts: nothing unless a payload bit was hit,
   * then a detection for an odd number of flips and a miss for an even one.
   * A flip of the check bit alone is therefore never counted.
   */
  lemma ParityOutcomeByFlips(t: Trial)
    requires WellFormed(t)
    ensures ParityOutcome(t) ==
      if forall k :: 0 <= k < |t.payload| ==> !t.parityDraws[k] then Clean
      else if CountTrue(t.parityDraws) % 2 == 1 then Detected
      else Undetected
  {
    PrefixUntouched(AddParityBit(t.payload), t.parityDraws, t.payload);
    ParityDetectsOddFlips(t.payload, t.parityDraws);
  }

  /** Parity misses an error only when at least two bits were flipped. */
  lemma ParityMissNeedsTwoFlips(t: Trial)
    requires WellFormed(t)
    ensures ParityOutcome(t) == Undetected ==> CountTrue(t.parityDraws) >= 2
  {
    ParityOutcomeByFlips(t);
    NoFlipsNoCount(t.parityDraws);
  }

  /** What the CRC block counts: a detection or a miss exactly when a payload bit was hit. */
  lemma CrcCountsOnlyPayloadHits(t: Trial)
    requires WellFormed(t)
    ensures CrcOutcome(t) == Clean <==> forall k :: 0 <= k < |t.payload| ==> !t.crcDraws[k]
  {
    PrefixUntouched(EncodeCrc(t.payload, DefaultPolynomial), t.crcDraws, t.payload);
  }

  /** The `hasHammingErrors` slices are the data positions of the word. */
  lemma HammingSlicesAreData(w: seq<char>)
    requires |w| == 7
    ensures w[2..3] + w[4..7] == DataBits(w)
  {
    assert (w[2..3] + w[4..7])[1..] == w[4..];
  }

  /** One flipped bit of the Hamming codeword is always counted as corrected. */
  lemma HammingSingleFlipCorrected(t: Trial, i: int)
    requires WellFormed(t) && 0 <= i < 7
    requires forall k :: 0 <= k < 7 ==> (t.hammingDraws[k] <==> k == i)
    ensures HammingOutcome(t) == Corrected
  {
    var sent := HammingSent(t);
    assert WithErrors(sent, t.hammingDraws) == FlipAt(sent, i);
    HammingCorrectsSingleError(NormaliseForHamming(t.payload), i);
  }

  /**
   * Two flipped bits of the Hamming codeword are always counted as
   * detected: the decoder repairs a third bit and returns other data.
   */
  lemma HammingDoubleFlipMiscorrected(t: Trial, i: int, j: int)
    requires WellFormed(t) && 0 <= i < 7 && 0 <= j < 7 && i != j
    requires forall k :: 0 <= k < 7 ==> (t.hammingDraws[k] <==> k == i || k == j)
    ensures HammingOutcome(t) == Detected
  {
    var sent := HammingSent(t);
    assert WithErrors(sent, t.hammingDraws) == FlipAt(FlipAt(sent, i), j);
    DoubleErrorMiscorrected(NormaliseForHamming(t.payload), i, j);
  }

  /** A trial in which no draw succeeds, for any of the three codes. */
  predicate Quiet(t: Trial) {
    (forall k :: 0 <= k < |t.parityDraws| ==> !t.parityDraws[k])
    && (forall k :: 0 <= k < |t.hammingDraws| ==> !t.hammingDraws[k])
    && (forall k :: 0 <= k < |t.crcDraws| ==> !t.crcDraws[k])
  }

  /** A quiet trial is counted nowhere. */
  lemma QuietTrialCountsNothing(t: Trial)
    requires WellFormed(t) && Quiet(t)
    ensures Judge(t) == Outcomes(Clean, Clean, Clean)
  {
    ParityOutcomeByFlips(t);
    CrcCountsOnlyPayloadHits(t);
    var sent := HammingSent(t);
    assert WithErrors(sent, t.hammingDraws) == sent;
    HammingSlicesAreData(sent);
    HammingRoundTrip(NormaliseForHamming(t.payload));
  }

  /** A run in which no draw succeeds leaves all nine counters at zero. */
  lemma {:induction false} QuietRunCountsNothing(ts: seq<Trial>)
    requires forall k :: 0 <= k < |ts| ==> WellFormed(ts[k]) && Quiet(ts[k])
    ensures Totals(JudgeAll(ts)) == Initial()
    decreases |ts|
  {
    if |ts| > 0 {
      var m := |ts| - 1;
      QuietRunCountsNothing(ts[..m]);
      QuietTrialCountsNothing(ts[m]);
    }
  }
}
