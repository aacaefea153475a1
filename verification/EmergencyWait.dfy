/** Emergency dialling while the radio comes up: dialling threads wait until their slot is ready to call.

    Each control has its own lock and its own condition variable; the ready flags are shared by all controls. */
module EmergencyWait {
  import opened CallTypes

  // ----- before the wait

  /** What a dialling thread finds and what its activations return. */
  datatype Request = Request(
    isEcc: bool, isAirplaneModeOn: bool, isActivateSim: bool, isOtherActive: bool,
    radioRet: Ret, simRet: Ret, otherRet: Ret)

  /** What an emergency call needs before it may wait. */
  predicate Prepared(r: Request) {
    && r.isEcc
    && (r.isAirplaneModeOn ==> r.radioRet == Success)
    && (!r.isActivateSim ==> r.simRet == Success && (!r.isOtherActive ==> r.otherRet == Success))
  }

  /** The return of the activations: the first failure, in the order radio, SIM, other SIM. */
  function Outcome(r: Request): (ret: Ret)
    ensures ret == Success <==> Prepared(r)
  {
    if !r.isEcc then AirplaneModeOn
    else if r.isAirplaneModeOn && r.radioRet != Success then r.radioRet
    else if r.isActivateSim then Success
    else if r.simRet != Success || r.isOtherActive then r.simRet
    else r.otherRet
  }

  /** The returns of the activations that a request needs, in the order they are asked for. */
  function Activations(r: Request): seq<Ret> {
    (if r.isAirplaneModeOn then [r.radioRet] else [])
    + (if r.isActivateSim then [] else [r.simRet] + if r.isOtherActive then [] else [r.otherRet])
  }

  /** The outcome is the first activation that fails, or success; a call that is no emergency needs none and fails. */
  lemma OutcomeIsFirstFailure(r: Request)
    ensures !r.isEcc ==> Outcome(r) == AirplaneModeOn
    ensures r.isEcc && (forall ret | ret in Activations(r) :: ret == Success) ==> Outcome(r) == Success
    ensures forall i | r.isEcc && 0 <= i < |Activations(r)| && Activations(r)[i] != Success
                       && (forall j | 0 <= j < i :: Activations(r)[j] == Success) :: Outcome(r) == Activations(r)[i]
  {
    if !r.isActivateSim && !r.isOtherActive {
      assert Activations(r) == (if r.isAirplaneModeOn then [r.radioRet] else []) + [r.simRet, r.otherRet];
      assert r.otherRet in Activations(r);
    }
    if r.isAirplaneModeOn { assert Activations(r)[0] == r.radioRet && r.radioRet in Activations(r); }
    if !r.isActivateSim {
      assert Activations(r)[if r.isAirplaneModeOn then 1 else 0] == r.simRet && r.simRet in Activations(r);
    }
  }

  /** The activations, in order, up to the first failure. */
  method Prepare(r: Request) returns (ret: Ret)
    ensures ret == Outcome(r)
  {
    if !r.isEcc {
      return AirplaneModeOn;
    }
    if r.isAirplaneModeOn {
      ret := r.radioRet;
      if ret != Success {
        return ret;
      }
    }
    if !r.isActivateSim {
      ret := r.simRet;
      if ret != Success {
        return ret;
      }
      if !r.isOtherActive {
        ret := r.otherRet;
        if ret != Success {
          return ret;
        }
      }
    }
    return Success;
  }

  // ----- the wait, as a step model

  /** Where a thread is: preparing; waiting for the lock; past a test of the flag that failed, still holding the lock;
      asleep on the condition variable; notified; or returned. */
  datatype Phase = Preparing | Locking | Holding | Asleep | Notified | Returned(ret: Ret)

  datatype Thread = Thread(control: int, slot: int, request: Request, phase: Phase)

  /** `ready` are the slots whose flag is set; only slots 0 .. `slots` - 1 have a flag. */
  datatype State = State(slots: nat, ready: set<int>, threads: map<int, Thread>)

  predicate IsReady(s: State, slot: int) {
    0 <= slot < s.slots && slot in s.ready
  }

  function MoveTo(s: State, t: int, phase: Phase): State
    requires t in s.threads
  {
    s.(threads := s.threads[t := s.threads[t].(phase := phase)])
  }

  /** The lock of control `c` is free: nobody holds it between a test of the flag and the sleep. */
  predicate LockFree(s: State, c: int) {
    forall t | t in s.threads :: s.threads[t].control == c ==> s.threads[t].phase != Phase.Holding
  }

  datatype Action =
    | RadioOn(t: int)
    | EndPreparing(t: int)
    | Test(t: int)
    | Sleep(t: int)
    | Wake(t: int)
    | Timeout(t: int)
    | SetReadyToCall(control: int, slot: int, isReady: bool)

  predicate Enabled(s: State, a: Action) {
    match a
    case RadioOn(t) =>
      t in s.threads && s.threads[t].phase == Preparing
      && s.threads[t].request.isEcc && s.threads[t].request.isAirplaneModeOn
    case EndPreparing(t) => t in s.threads && s.threads[t].phase == Preparing
    case Test(t) =>
      t in s.threads && s.threads[t].phase == Locking && LockFree(s, s.threads[t].control)
    case Sleep(t) => t in s.threads && s.threads[t].phase == Phase.Holding
    case Wake(t) => t in s.threads && (s.threads[t].phase == Asleep || s.threads[t].phase == Notified)
    case Timeout(t) =>
      t in s.threads && (s.threads[t].phase == Asleep || s.threads[t].phase == Notified)
      && LockFree(s, s.threads[t].control)
    case SetReadyToCall(c, _, _) => LockFree(s, c)
  }

  /** Every sleeper of control `c` is notified. */
  function NotifyAll(threads: map<int, Thread>, c: int): map<int, Thread> {
    map t | t in threads ::
      if threads[t].control == c && threads[t].phase == Asleep then threads[t].(phase := Notified) else threads[t]
  }

  function SetReady(s: State, c: int, slot: int, isReady: bool): State {
    if !IsReady(s, slot) && isReady
    then s.(ready := if 0 <= slot < s.slots then s.ready + {slot} else s.ready, threads := NotifyAll(s.threads, c))
    else s
  }

  function Step(s: State, a: Action): State
    requires Enabled(s, a)
  {
    match a
    // turning the radio on clears the flag, without the lock
    case RadioOn(t) => s.(ready := s.ready - {s.threads[t].slot})
    case EndPreparing(t) =>
      var ret := Outcome(s.threads[t].request);
      MoveTo(s, t, if ret == Success then Locking else Returned(ret))
    // `while (!IsReadyToCall)`, with the lock taken
    case Test(t) => MoveTo(s, t, if IsReady(s, s.threads[t].slot) then Returned(Success) else Phase.Holding)
    case Sleep(t) => MoveTo(s, t, Asleep)
    case Wake(t) => MoveTo(s, t, Locking)
    case Timeout(t) => MoveTo(s, t, Returned(DialFailed))
    case SetReadyToCall(c, slot, isReady) => SetReady(s, c, slot, isReady)
  }

  /** A wake-up owed: a thread that found its slot not ready and has not been notified, while the slot is ready. */
  predicate Stranded(s: State, t: int) {
    && t in s.threads && IsReady(s, s.threads[t].slot)
    && (s.threads[t].phase == Phase.Holding || s.threads[t].phase == Asleep)
  }

  predicate NoneStranded(s: State) {
    forall t | t in s.threads :: !Stranded(s, t)
  }

  /** A thread past its preparations has what an emergency call needs. */
  predicate AllPrepared(s: State) {
    forall t | t in s.threads ::
      (s.threads[t].phase.Returned? ==> s.threads[t].phase.ret == Success ==> Prepared(s.threads[t].request))
      && (!s.threads[t].phase.Preparing? && !s.threads[t].phase.Returned? ==> Prepared(s.threads[t].request))
  }

  /** A return of success happens only with the flag set at that step, after every preparation succeeded. */
  lemma SuccessMeansReady(s: State, a: Action, t: int)
    requires AllPrepared(s) && Enabled(s, a) && t in s.threads
    requires s.threads[t].phase != Returned(Success)
    requires t in Step(s, a).threads && Step(s, a).threads[t].phase == Returned(Success)
    ensures a == Test(t) && IsReady(s, s.threads[t].slot) && Prepared(s.threads[t].request)
  {}

  /** Whatever a thread returns, it is told why: its preparations failed, it timed out, or its slot was ready. */
  lemma ReturnMeans(s: State, a: Action, t: int, ret: Ret)
    requires AllPrepared(s) && Enabled(s, a) && t in s.threads && !s.threads[t].phase.Returned?
    requires t in Step(s, a).threads && Step(s, a).threads[t].phase == Returned(ret)
    ensures match a
            case EndPreparing(u) => u == t && ret != Success && ret == Outcome(s.threads[t].request)
            case Timeout(u) => u == t && ret == DialFailed
            case Test(u) => u == t && ret == Success && IsReady(s, s.threads[t].slot)
            case _ => false
  {}

  /** Turning the radio on takes the readiness of the slot back, and of no other; a thread that tests then waits. */
  lemma RadioOnClears(s: State, t: int)
    requires Enabled(s, RadioOn(t))
    ensures var s' := Step(s, RadioOn(t));
            && s'.threads == s.threads && s'.slots == s.slots
            && forall slot :: IsReady(s', slot) <==> IsReady(s, slot) && slot != s.threads[t].slot
  {}

  /** The exact condition: setting a flag strands nobody iff it sets nothing, or no thread of another control has
      found that slot not ready and is unnotified. */
  predicate OthersUnaffected(s: State, c: int, slot: int, isReady: bool) {
    IsReady(s, slot) || !isReady || !(0 <= slot < s.slots)
    || forall t | t in s.threads ::
         s.threads[t].slot == slot && (s.threads[t].phase == Phase.Holding || s.threads[t].phase == Asleep)
         ==> s.threads[t].control == c
  }

  lemma SetReadyStrandsNobodyIff(s: State, c: int, slot: int, isReady: bool)
    requires NoneStranded(s) && LockFree(s, c)
    ensures NoneStranded(SetReady(s, c, slot, isReady)) <==> OthersUnaffected(s, c, slot, isReady)
  {
    var s' := SetReady(s, c, slot, isReady);
    if !OthersUnaffected(s, c, slot, isReady) {
      var t :| t in s.threads && s.threads[t].slot == slot && s.threads[t].control != c
               && (s.threads[t].phase == Phase.Holding || s.threads[t].phase == Asleep);
      assert t in s'.threads && Stranded(s', t);
    }
    if OthersUnaffected(s, c, slot, isReady) {
      forall t | t in s'.threads ensures !Stranded(s', t) {
        assert !Stranded(s, t);
      }
    }
  }

  lemma StepStrandsNobody(s: State, a: Action)
    requires NoneStranded(s) && Enabled(s, a)
    requires a.SetReadyToCall? ==> OthersUnaffected(s, a.control, a.slot, a.isReady)
    ensures NoneStranded(Step(s, a))
  {}

  lemma StepKeepsPrepared(s: State, a: Action)
    requires AllPrepared(s) && Enabled(s, a)
    ensures AllPrepared(Step(s, a))
  {}

  /** A run: each action is enabled when it happens. */
  ghost predicate Runs(s: State, run: seq<Action>)
    decreases run
  {
    run == [] || (Enabled(s, run[0]) && Runs(Step(s, run[0]), run[1..]))
  }

  function After(s: State, run: seq<Action>): State
    requires Runs(s, run)
    decreases run
  {
    if run == [] then s else After(Step(s, run[0]), run[1..])
  }

  /** Each slot belongs to one control: its waiting threads and the settings of its flag go through that control. */
  ghost predicate Owned(s: State, run: seq<Action>, owner: int -> int) {
    && (forall t | t in s.threads :: s.threads[t].control == owner(s.threads[t].slot))
    && forall i | 0 <= i < |run| :: run[i].SetReadyToCall? ==> run[i].control == owner(run[i].slot)
  }

  /** With a control per slot there is no lost wake-up in any run, however many slots and threads there are: the slot of
      an unnotified sleeper is never ready. */
  lemma {:induction false} NoLostWakeUp(s: State, run: seq<Action>, owner: int -> int)
    requires NoneStranded(s) && AllPrepared(s) && Runs(s, run) && Owned(s, run, owner)
    ensures NoneStranded(After(s, run)) && AllPrepared(After(s, run))
    decreases run
  {
    if run != [] {
      var s1 := Step(s, run[0]);
      StepStrandsNobody(s, run[0]);
      StepKeepsPrepared(s, run[0]);
      forall t | t in s1.threads ensures s1.threads[t].control == owner(s1.threads[t].slot) {
        assert t in s.threads;
        assert s1.threads[t].control == s.threads[t].control && s1.threads[t].slot == s.threads[t].slot;
      }
      NoLostWakeUp(s1, run[1..], owner);
    }
  }

  /** A prepared thread, alone, whose slot is not ready goes to sleep in three steps. */
  lemma FallsAsleep(s: State, t: int, later: seq<Action>)
    requires s.threads.Keys == {t} && s.threads[t].phase == Preparing
    requires Prepared(s.threads[t].request) && !IsReady(s, s.threads[t].slot)
    requires Runs(MoveTo(s, t, Asleep), later)
    ensures var run := [EndPreparing(t), Test(t), Sleep(t)] + later;
            Runs(s, run) && After(s, run) == After(MoveTo(s, t, Asleep), later)
  {
    var locking, holding, asleep := MoveTo(s, t, Locking), MoveTo(s, t, Phase.Holding), MoveTo(s, t, Asleep);
    var run := [EndPreparing(t), Test(t), Sleep(t)] + later;
    assert run[1..] == [Test(t), Sleep(t)] + later;
    assert run[2..] == run[1..][1..] == [Sleep(t)] + later;
    assert run[3..] == run[2..][1..] == later;
    assert Enabled(holding, run[2]) && Step(holding, run[2]) == asleep;
    assert Runs(holding, run[2..]) && After(holding, run[2..]) == After(asleep, later);
    assert Enabled(locking, run[1]) && Step(locking, run[1]) == holding;
    assert Runs(locking, run[1..]) && After(locking, run[1..]) == After(asleep, later);
    assert Enabled(s, run[0]) && Step(s, run[0]) == locking;
  }

  /** The settings of one flag through control 2 and then through control 1. */
  const SET_BOTH: seq<Action> := [SetReadyToCall(2, 0, true), SetReadyToCall(1, 0, true)]

  /** One thread, of control 1, waiting for slot 0 of two. */
  function OneThread(r: Request, phase: Phase, ready: set<int>): State {
    State(2, ready, map[7 := Thread(1, 0, r, phase)])
  }

  lemma BothMiss(r: Request)
    ensures Runs(OneThread(r, Asleep, {}), SET_BOTH)
    ensures After(OneThread(r, Asleep, {}), SET_BOTH) == OneThread(r, Asleep, {0})
  {
    var asleep, missed := OneThread(r, Asleep, {}), OneThread(r, Asleep, {0});
    assert Step(asleep, SET_BOTH[0]) == missed;
    var last := SET_BOTH[1..];
    assert Step(missed, last[0]) == missed;
    assert last[1..] == [] && Runs(missed, last);
    assert After(missed, last) == After(missed, last[1..]) == missed;
  }

  /** Two controls on one slot lose a wake-up: from its preparations on, the thread finds the slot not ready and sleeps;
      control 2 sets the flag and notifies its own sleepers only, and control 1 then finds the flag set and notifies
      nobody. */
  lemma TwoControlsLoseWakeUp(r: Request)
    requires Prepared(r)
    ensures var s := OneThread(r, Preparing, {});
            var run := [EndPreparing(7), Test(7), Sleep(7)] + SET_BOTH;
            NoneStranded(s) && AllPrepared(s) && Runs(s, run) && Stranded(After(s, run), 7)
  {
    var s := OneThread(r, Preparing, {});
    BothMiss(r);
    assert MoveTo(s, 7, Asleep) == OneThread(r, Asleep, {});
    FallsAsleep(s, 7, SET_BOTH);
  }

  /** The state before action `i` of a run. */
  function StateAt(s: State, run: seq<Action>, i: nat): State
    requires Runs(s, run) && i <= |run|
    decreases run
  {
    if i == 0 then s else StateAt(Step(s, run[0]), run[1..], i - 1)
  }

  /** A thread that has returned success by the end of a run did so at a test that found its flag set, with every
      activation it needed done. */
  lemma {:induction false} SuccessWasReady(s: State, run: seq<Action>, t: int) returns (i: nat)
    requires AllPrepared(s) && Runs(s, run) && t in s.threads && s.threads[t].phase != Returned(Success)
    requires t in After(s, run).threads && After(s, run).threads[t].phase == Returned(Success)
    ensures i < |run| && run[i] == Test(t)
    ensures IsReady(StateAt(s, run, i), s.threads[t].slot) && Prepared(s.threads[t].request)
    decreases run
  {
    var s1 := Step(s, run[0]);
    if s1.threads[t].phase == Returned(Success) {
      SuccessMeansReady(s, run[0], t);
      i := 0;
    } else {
      StepKeepsPrepared(s, run[0]);
      var j := SuccessWasReady(s1, run[1..], t);
      i := j + 1;
    }
  }

  /** Setting a clear flag wakes every sleeper of that control, and a thread that tests it next returns success. */
  lemma SetReadyReleases(s: State, c: int, slot: int, t: int)
    requires 0 <= slot < s.slots && !IsReady(s, slot) && LockFree(s, c)
    requires t in s.threads && s.threads[t].control == c && s.threads[t].slot == slot && s.threads[t].phase == Asleep
    ensures var s1 := Step(s, SetReadyToCall(c, slot, true));
            && Enabled(s1, Wake(t)) && s1.threads[t].phase == Notified
            && var s2 := Step(s1, Wake(t));
               Enabled(s2, Test(t)) && Step(s2, Test(t)).threads[t].phase == Returned(Success)
  {}
}
