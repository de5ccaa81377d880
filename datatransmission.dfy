/**
 * The transmission animation: a sender's codeword crosses a noisy channel
 * that never touches the protected (parity) positions, in three timed
 * steps, after which the receiver is told what arrived.
 *
 * `Math.random() < errorRate` becomes one boolean draw per position, and
 * each expiring `setTimeout` becomes one tick of an explicit step machine.
 */
module DataTransmission {
  import opened Wrappers
  import opened Bits

  /** Position `i` is flipped: its draw succeeds and it is not a parity position. */
  predicate Hit(parityBits: seq<int>, draws: seq<bool>, i: nat)
    requires i < |draws|
  {
    draws[i] && i !in parityBits
  }

  /** The word that arrives: every hit position flipped, every other one kept. */
  function Received(encodedData: seq<char>, parityBits: seq<int>, draws: seq<bool>): (r: seq<char>)
    requires |draws| == |encodedData|
    ensures |r| == |encodedData|
    ensures forall i :: 0 <= i < |r| ==> (r[i] != encodedData[i] <==> Hit(parityBits, draws, i))
    ensures forall i :: 0 <= i < |r| && i in parityBits ==> r[i] == encodedData[i]
  {
    seq(|encodedData|, i requires 0 <= i < |encodedData| =>
      if Hit(parityBits, draws, i) then Flip(encodedData[i]) else encodedData[i])
  }

  /**
   * The indices pushed onto `newErrors` by the first `n` iterations: in
   * range and strictly increasing.
   */
  function ErrorsUpTo(parityBits: seq<int>, draws: seq<bool>, n: nat): (errs: seq<nat>)
    requires n <= |draws|
    ensures forall a :: 0 <= a < |errs| ==> errs[a] < n
    ensures forall a, b :: 0 <= a < b < |errs| ==> errs[a] < errs[b]
  {
    if n == 0 then []
    else ErrorsUpTo(parityBits, draws, n - 1) + (if Hit(parityBits, draws, n - 1) then [n - 1] else [])
  }

  /** The recorded errors are exactly the hit positions. */
  lemma {:induction false} ErrorsAreHits(parityBits: seq<int>, draws: seq<bool>, n: nat)
    requires n <= |draws|
    ensures forall i :: i in ErrorsUpTo(parityBits, draws, n) <==> 0 <= i < n && Hit(parityBits, draws, i)
  {
    if n > 0 {
      ErrorsAreHits(parityBits, draws, n - 1);
    }
  }

  /** The recorded errors are exactly the positions where the received word differs. */
  lemma ErrorsAreChanges(encodedData: seq<char>, parityBits: seq<int>, draws: seq<bool>)
    requires |draws| == |encodedData|
    ensures var r := Received(encodedData, parityBits, draws);
      forall i :: i in ErrorsUpTo(parityBits, draws, |draws|) <==> 0 <= i < |r| && r[i] != encodedData[i]
  {
    ErrorsAreHits(parityBits, draws, |draws|);
  }

  /** With no successful draw the word arrives intact and no error is recorded. */
  lemma {:induction false} QuietChannel(encodedData: seq<char>, parityBits: seq<int>, draws: seq<bool>, n: nat)
    requires |draws| == |encodedData| && n <= |draws|
    requires forall i :: 0 <= i < |draws| ==> !draws[i]
    ensures Received(encodedData, parityBits, draws) == encodedData
    ensures ErrorsUpTo(parityBits, draws, n) == []
  {
    if n > 0 {
      QuietChannel(encodedData, parityBits, draws, n - 1);
    }
  }

  /**
   * The flip loop of the sending step: the codeword's characters are copied
   * into an array that is flipped in place at every hit position, whose
   * index is pushed onto `newErrors`.
   */
  method SimulateChannel(encodedData: seq<char>, parityBits: seq<int>, draws: seq<bool>)
    returns (received: seq<char>, newErrors: seq<nat>)
    requires |draws| == |encodedData|
    ensures received == Received(encodedData, parityBits, draws)
    ensures newErrors == ErrorsUpTo(parityBits, draws, |encodedData|)
  {
    var newData := new char[|encodedData|](i requires 0 <= i < |encodedData| => encodedData[i]);
    newErrors := [];
    for i := 0 to newData.Length
      invariant forall k :: 0 <= k < newData.Length ==>
        newData[k] == if k < i && Hit(parityBits, draws, k) then Flip(encodedData[k]) else encodedData[k]
      invariant newErrors == ErrorsUpTo(parityBits, draws, i)
    {
      if draws[i] && !(i in parityBits) {
        newData[i] := if newData[i] == '0' then '1' else '0';
        newErrors := newErrors + [i];
      }
    }
    received := newData[..];
  }

  datatype Status = Idle | Sending | Complete

  /**
   * The control state of the component: its status, its step, and whether
   * a timer is scheduled (the effect re-runs, and schedules one, whenever
   * a value it depends on changes).
   */
  datatype Phase = Phase(status: Status, step: nat, pending: bool)

  /** One timer expiry: the next phase, and whether `onTransmissionComplete` was called. */
  datatype Tick = Tick(next: Phase, fired: bool)

  /** `startTransmission`: sending from step 0; the fresh error list re-runs the effect. */
  function Start(): (p: Phase)
    ensures p.status == Sending && p.step == 0 && p.pending
  {
    Phase(Sending, 0, true)
  }

  /**
   * One timer expiry as the effect is written. Step 0 moves to 1, step 1
   * to 2; step 2 calls back and sets the status to complete. That change
   * of status re-runs the effect, which still sees step 2 and schedules
   * the call-back once more; setting an unchanged status then re-runs
   * nothing.
   */
  function TickAsWritten(p: Phase): (t: Tick)
    ensures t.fired <==> p.pending && p.status != Idle && p.step == 2
    ensures t.fired ==> t.next.status == Complete
  {
    if !p.pending || p.status == Idle || p.step > 2 then Tick(p.(pending := false), false)
    else if p.step < 2 then Tick(Phase(p.status, p.step + 1, true), false)
    else Tick(Phase(Complete, 2, p.status != Complete), true)
  }

  /**
   * One timer expiry with the effect limited to a transmission in
   * progress: once complete, nothing is scheduled and nothing fires.
   */
  function TickCorrected(p: Phase): (t: Tick)
    ensures t.fired <==> p.pending && p.status == Sending && p.step == 2
    ensures t.fired ==> t.next == Phase(Complete, 2, false)
  {
    if !p.pending || p.status != Sending || p.step > 2 then Tick(p.(pending := false), false)
    else if p.step < 2 then Tick(Phase(Sending, p.step + 1, true), false)
    else Tick(Phase(Complete, 2, false), true)
  }

  /** Where `n` expiries lead, and how many call-backs they made. */
  datatype Trace = Trace(last: Phase, calls: nat)

  function RunAsWritten(p: Phase, n: nat): (r: Trace)
    ensures r.calls <= n
    decreases n
  {
    if n == 0 then Trace(p, 0)
    else
      var t := TickAsWritten(p);
      var rest := RunAsWritten(t.next, n - 1);
      Trace(rest.last, rest.calls + (if t.fired then 1 else 0))
  }

  function RunCorrected(p: Phase, n: nat): (r: Trace)
    ensures r.calls <= n
    decreases n
  {
    if n == 0 then Trace(p, 0)
    else
      var t := TickCorrected(p);
      var rest := RunCorrected(t.next, n - 1);
      Trace(rest.last, rest.calls + (if t.fired then 1 else 0))
  }

  /** A phase with no timer scheduled stays put and calls nobody, in both machines. */
  lemma {:induction false} Quiescent(p: Phase, n: nat)
    requires !p.pending
    ensures RunAsWritten(p, n) == Trace(p, 0)
    ensures RunCorrected(p, n) == Trace(p, 0)
  {
    if n > 0 {
      Quiescent(p, n - 1);
    }
  }

  /**
   * As written, a transmission calls `onTransmissionComplete` twice: once
   * on leaving step 2 and once more after the status has become complete.
   */
  lemma RefiresAfterComplete(n: nat)
    requires n >= 4
    ensures RunAsWritten(Start(), n) == Trace(Phase(Complete, 2, false), 2)
  {
    var p1, p2 := Phase(Sending, 1, true), Phase(Sending, 2, true);
    var p3, p4 := Phase(Complete, 2, true), Phase(Complete, 2, false);
    Quiescent(p4, n - 4);
    assert RunAsWritten(p3, n - 3) == Trace(p4, 1);
    assert RunAsWritten(p2, n - 2) == Trace(p4, 2);
    assert RunAsWritten(p1, n - 1) == Trace(p4, 2);
  }

  /**
   * Corrected, the steps go 0, 1, 2 and then complete, and the call-back
   * fires exactly once, on the third expiry.
   */
  lemma FiresOnce(n: nat)
    ensures RunCorrected(Start(), n).calls == if n >= 3 then 1 else 0
    ensures n >= 3 ==> RunCorrected(Start(), n).last == Phase(Complete, 2, false)
    ensures n < 3 ==> RunCorrected(Start(), n).last == Phase(Sending, n, true)
  {
    if n > 0 {
      var p1 := Phase(Sending, 1, true);
      assert RunCorrected(Start(), n) == RunCorrected(p1, n - 1);
      if n > 1 {
        var p2 := Phase(Sending, 2, true);
        assert RunCorrected(p1, n - 1) == RunCorrected(p2, n - 2);
        if n > 2 {
          var p3 := Phase(Complete, 2, false);
          Quiescent(p3, n - 3);
          assert RunCorrected(p2, n - 2) == Trace(p3, 1);
        }
      }
    }
  }

  /** What the receiver is handed by `onTransmissionComplete`. */
  datatype Delivery = Delivery(receivedData: seq<char>, errorIndices: seq<nat>)

  /**
   * The component's state. The codeword and the protected positions are
   * its properties; status, step, received word and error list its state.
   */
  class Transmission {
    const encodedData: seq<char>
    const parityBits: seq<int>
    var status: Status
    var currentStep: nat
    var receivedData: seq<char>
    var transmissionErrors: seq<nat>
    var timerPending: bool

    ghost function PhaseOf(): Phase
      reads this
    {
      Phase(status, currentStep, timerPending)
    }

    /**
     * The received word has the codeword's length and agrees with it at
     * every protected position; the error list names, in increasing order,
     * exactly the positions where the two differ. Idle means step 0 with
     * nothing scheduled, complete means step 2 with nothing scheduled.
     */
    ghost predicate Valid()
      reads this
    {
      && currentStep <= 2
      && |receivedData| == |encodedData|
      && (forall i :: 0 <= i < |receivedData| && i in parityBits ==> receivedData[i] == encodedData[i])
      && (forall i :: i in transmissionErrors <==> 0 <= i < |receivedData| && receivedData[i] != encodedData[i])
      && (forall a, b :: 0 <= a < b < |transmissionErrors| ==> transmissionErrors[a] < transmissionErrors[b])
      && (status == Idle ==> currentStep == 0 && !timerPending)
      && (status == Complete ==> currentStep == 2 && !timerPending)
    }

    /** The component as first rendered: idle, showing the codeword as received. */
    constructor (encodedData: seq<char>, parityBits: seq<int>)
      ensures Valid()
      ensures this.encodedData == encodedData && this.parityBits == parityBits
      ensures status == Idle && currentStep == 0 && !timerPending
      ensures receivedData == encodedData && transmissionErrors == []
    {
      this.encodedData := encodedData;
      this.parityBits := parityBits;
      status := Idle;
      currentStep := 0;
      receivedData := encodedData;
      transmissionErrors := [];
      timerPending := false;
    }

    /** `startTransmission`: back to step 0 of a new transmission. */
    method StartTransmission()
      requires Valid()
      modifies this
      ensures Valid()
      ensures PhaseOf() == Start()
      ensures receivedData == encodedData && transmissionErrors == []
    {
      status := Sending;
      currentStep := 0;
      transmissionErrors := [];
      receivedData := encodedData;
      timerPending := true;
    }

    /**
     * One timer expiry of the corrected machine. Leaving step 1 installs
     * the word the channel delivered and its errors; leaving step 2 hands
     * them to the receiver.
     */
    method Expire(draws: seq<bool>) returns (delivered: Option<Delivery>)
      requires Valid() && |draws| == |encodedData|
      modifies this
      ensures Valid()
      ensures PhaseOf() == TickCorrected(old(PhaseOf())).next
      ensures delivered.Some? <==> TickCorrected(old(PhaseOf())).fired
      ensures delivered.Some? ==> delivered.value == Delivery(old(receivedData), old(transmissionErrors))
      ensures if old(timerPending) && old(status) == Sending && old(currentStep) == 1
        then receivedData == Received(encodedData, parityBits, draws)
          && transmissionErrors == ErrorsUpTo(parityBits, draws, |encodedData|)
        else receivedData == old(receivedData) && transmissionErrors == old(transmissionErrors)
    {
      delivered := None;
      if !timerPending || status != Sending {
        timerPending := false;
        return;
      }
      if currentStep == 0 {
        currentStep := 1;
      } else if currentStep == 1 {
        var newData, newErrors := SimulateChannel(encodedData, parityBits, draws);
        ErrorsAreChanges(encodedData, parityBits, draws);
        receivedData := newData;
        transmissionErrors := newErrors;
        currentStep := 2;
      } else {
        delivered := Some(Delivery(receivedData, transmissionErrors));
        status := Complete;
        timerPending := false;
      }
    }
  }
}
