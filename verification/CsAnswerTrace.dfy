/** The radio commands of answering a CS call. */
module CsAnswerTrace {
  import opened CallTypes
  import opened OrderedKeys
  import opened CallTable
  import opened CsSpec

  predicate IsRequest(e: Event, command: Command) {
    e.Request? && e.command == command
  }

  function Result(e: Event): Ret {
    if e.Request? then e.result else Success
  }

  /** A request to hang up the call of entry `c`. */
  ghost predicate HangsUp(e: Event, kind: Kind, c: Connection) {
    && e.Request? && e.command.HangUpCommand? && e.command.slot == c.report.accountId
    && e.command.phone == (if kind == Ims then c.report.details.accountNum else "")
    && e.command.index == (if kind == Ims then c.report.index else c.index)
  }

  /** `added` are the hang-ups of a prefix of `ks`, in order: all succeeded but possibly the last, whose failure is
      `ret`; when none failed, every key has been hung up. */
  ghost predicate HungUp(kind: Kind, t: Table, ks: seq<int>, added: seq<Event>, ret: Ret)
    requires forall i | 0 <= i < |ks| :: ks[i] in t
  {
    && |added| <= |ks|
    && (forall i | 0 <= i < |added| ::
          HangsUp(added[i], kind, t[ks[i]]))
    && (forall i | 0 <= i < |added| - 1 :: Result(added[i]) == Success)
    && if ret == Success then |added| == |ks| && forall i | 0 <= i < |added| :: Result(added[i]) == Success
       else added != [] && Result(added[|added| - 1]) == ret
  }

  lemma HungUpCons(kind: Kind, t: Table, ks: seq<int>, first: Event, later: seq<Event>, ret: Ret)
    requires ks != [] && forall i | 0 <= i < |ks| :: ks[i] in t
    requires HangsUp(first, kind, t[ks[0]]) && Result(first) == Success
    requires HungUp(kind, t, ks[1..], later, ret)
    ensures HungUp(kind, t, ks, [first] + later, ret)
  {}

  /** The hang-ups made for `ks`, with their results. */
  function HangUpEvents(kind: Kind, t: Table, ks: seq<int>, log: Log, env: Env): seq<Event>
    requires forall i | 0 <= i < |ks| :: ks[i] in t
  {
    if ks == [] then []
    else
      var first := Request(HeldHangUp(kind, t[ks[0]]), env.results(|log|));
      [first] + if env.results(|log|) != Success then [] else HangUpEvents(kind, t, ks[1..], log + [first], env)
  }

  lemma {:induction false} HangUpEachLog(kind: Kind, t: Table, ks: seq<int>, log: Log, env: Env)
    requires forall i | 0 <= i < |ks| :: ks[i] in t
    ensures HangUpEach(kind, t, ks, log, env).0 == log + HangUpEvents(kind, t, ks, log, env)
    decreases ks
  {
    if ks != [] && env.results(|log|) == Success {
      var first := Request(HeldHangUp(kind, t[ks[0]]), env.results(|log|));
      HangUpEachLog(kind, t, ks[1..], log + [first], env);
    }
  }

  lemma {:induction false} HangUpEachTrace(kind: Kind, t: Table, ks: seq<int>, log: Log, env: Env)
    requires forall i | 0 <= i < |ks| :: ks[i] in t
    ensures HungUp(kind, t, ks, HangUpEvents(kind, t, ks, log, env), HangUpEach(kind, t, ks, log, env).1)
    decreases ks
  {
    if ks != [] && env.results(|log|) == Success {
      var first := Request(HeldHangUp(kind, t[ks[0]]), env.results(|log|));
      HangUpEachTrace(kind, t, ks[1..], log + [first], env);
      HungUpCons(kind, t, ks, first, HangUpEvents(kind, t, ks[1..], log + [first], env),
                 HangUpEach(kind, t, ks, log, env).1);
    }
  }

  /** The keys of the held calls that an answer hangs up: all of them when a call is active too, else none. */
  function ToHangUp(t: Table): (ks: seq<int>)
    ensures forall i | 0 <= i < |ks| :: ks[i] in t
  {
    if (exists k :: k in t && t[k].report.state == Holding) && (exists k :: k in t && t[k].report.state == Active)
    then SortedKeys(set k | k in t && t[k].report.state == Holding) else []
  }

  /** The commands after the hang-ups. */
  function Pickup(t: Table, state: TelCallState, slot: int): seq<Command> {
    (if IsInState(t, Active) then [Swap(slot, 0)] else [])
    + if IsRinging(state) then [AnswerCommand(slot, "", 0, 0, false)] else []
  }

  /** `added` are requests for exactly `commands`. */
  ghost predicate Issued(added: seq<Event>, commands: seq<Command>) {
    |added| == |commands| && forall i | 0 <= i < |added| :: IsRequest(added[i], commands[i])
  }

  lemma ClearHoldingTrace(kind: Kind, t: Table, log: Log, env: Env) returns (hung: seq<Event>, failure: Ret)
    ensures ClearHolding(kind, t, log, env) == (log + hung, failure)
    ensures HungUp(kind, t, ToHangUp(t), hung, failure)
  {
    assert t.Keys * InStateKeys(t, Holding) == InStateKeys(t, Holding);
    failure := ClearHolding(kind, t, log, env).1;
    hung := HangUpEvents(kind, t, ToHangUp(t), log, env);
    HangUpEachLog(kind, t, ToHangUp(t), log, env);
    HangUpEachTrace(kind, t, ToHangUp(t), log, env);
  }

  lemma PickupTrace(t: Table, state: TelCallState, slot: int, log: Log, env: Env) returns (more: seq<Event>)
    ensures var log1 := if IsInState(t, Active) then Issue(log, Swap(slot, 0), env) else log;
            var log2 := if IsRinging(state) then Issue(log1, AnswerCommand(slot, "", 0, 0, false), env) else log1;
            && log2 == log + more && Issued(more, Pickup(t, state, slot))
            && (IsRinging(state) ==> Result(more[|more| - 1]) == env.results(|log1|))
  {
    var log1 := if IsInState(t, Active) then Issue(log, Swap(slot, 0), env) else log;
    more := if IsInState(t, Active) then [Request(Swap(slot, 0), env.results(|log|))] else [];
    if IsRinging(state) {
      more := more + [Request(AnswerCommand(slot, "", 0, 0, false), env.results(|log1|))];
    }
  }

  /** Answering call `k`: first the held calls are hung up in key order, if there is an active call as well, up to
      the first failure, which ends the answer; then comes one swap iff a call is active, and one answer iff `k` is
      ringing. Nothing but the log changes. */
  lemma AnswerCommands(s: Control, who: CallerInfo, env: Env, k: int)
    returns (hung: seq<Event>, failure: Ret, more: seq<Event>)
    requires FindByIndex(s.table, who.index) == Some(k)
    ensures Step(s, UserAnswer(who), env) == Answer(s, who, env).0
    ensures HungUp(Cs, s.table, ToHangUp(s.table), hung, failure)
    ensures Answer(s, who, env).0 == s.(log := s.log + hung + more)
    ensures var ret := Answer(s, who, env).1;
            var state := s.table[k].report.state;
            if failure != Success then more == [] && ret == failure
            else
              && Issued(more, Pickup(s.table, state, who.slotId))
              && ret == if IsRinging(state) then Result(more[|more| - 1]) else CallStateError
  {
    hung, failure := ClearHoldingTrace(Cs, s.table, s.log, env);
    more := [];
    if failure == Success {
      more := PickupTrace(s.table, s.table[k].report.state, who.slotId, s.log + hung, env);
    } else {
      assert s.log + hung + [] == s.log + hung;
    }
  }
}
