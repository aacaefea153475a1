/** What hanging up and rejecting an IMS call send and return, and what undoes a hold that does not come about. */
module ImsCommands {
  import opened CallTypes
  import opened OrderedKeys
  import opened CallTable
  import opened ImsSpec
  import opened TableTheorems
  import opened Observer
  import opened ImsTheorems

  /** The same entries, but for reason and message, and for the entry `ending`, which is marked as being hung up. */
  ghost predicate OnlyEndings(t: Table, t': Table, ending: Option<int>) {
    && t'.Keys == t.Keys
    && forall k | k in t ::
         t'[k] == t[k].(reason := t'[k].reason, message := t'[k].message,
                        dial := if ending == Some(k) then t[k].dial.(pendingHangup := true) else t[k].dial)
  }

  ghost predicate Sends(s: Control, s': Control, ending: Option<int>, added: Log) {
    s' == s.(table := s'.table, log := s.log + added) && OnlyEndings(s.table, s'.table, ending)
  }

  lemma HangUpOneCommands(s: Control, who: CallerInfo, env: Env)
    requires Coherent(s.table) && who.index in s.table
    ensures var (s', ret) := HangUp(s, who, TypeDefault, env);
            var later := env.results(|s.log| + 1);
            && ret == later
            && Sends(s, s', Some(who.index), [SingleReport(s.table[who.index].report.(state := Disconnecting)),
                                              Request(HangUpCommand(who.slotId, who.phoneNum, who.index), later)])
  {
    FindIsLookup(s.table, who.index);
  }

  lemma HangUpOtherCommands(s: Control, who: CallerInfo, kind: SupplementType, env: Env)
    requires Coherent(s.table) && kind != TypeDefault
    ensures var (s', ret) := HangUp(s, who, kind, env);
            var at := env.results(|s.log|);
            match kind
            case HangUpAll =>
              ret == at && Sends(s, s', None, [Request(RejectCommand(who.slotId, who.phoneNum, who.index), at)])
            case OtherType => s' == s && ret == ArgumentInvalid
            case _ => ret == at && Sends(s, s', None, [Request(Supplement(who.slotId, kind), at)])
  {
    FindIsLookup(s.table, who.callId);
  }

  /** Hanging up one call: it is reported as disconnecting and marked as being hung up, then its hang-up is requested.
      The other kinds are one request each: rejecting all calls, or the supplementary service. What is returned is the
      result. */
  lemma HangUpCommands(s: Control, who: CallerInfo, kind: SupplementType, env: Env)
    requires Coherent(s.table)
    ensures Step(s, UserHangUp(who, kind), env) == HangUp(s, who, kind, env).0
    ensures var (s', ret) := HangUp(s, who, kind, env);
            var at, later := env.results(|s.log|), env.results(|s.log| + 1);
            match kind
            case TypeDefault =>
              if who.index !in s.table then s' == s && ret == ConnectionNotExist
              else
                && ret == later
                && Sends(s, s', Some(who.index), [SingleReport(s.table[who.index].report.(state := Disconnecting)),
                                                  Request(HangUpCommand(who.slotId, who.phoneNum, who.index), later)])
            case HangUpAll =>
              ret == at && Sends(s, s', None, [Request(RejectCommand(who.slotId, who.phoneNum, who.index), at)])
            case OtherType => s' == s && ret == ArgumentInvalid
            case _ => ret == at && Sends(s, s', None, [Request(Supplement(who.slotId, kind), at)])
  {
    FindIsLookup(s.table, who.index);
    if kind != TypeDefault {
      HangUpOtherCommands(s, who, kind, env);
    } else if who.index in s.table {
      HangUpOneCommands(s, who, env);
    }
  }

  /** Rejecting a ringing call: it is reported as disconnecting, then the rejection is requested. Another call is left
      alone. */
  lemma RejectCommands(s: Control, who: CallerInfo, env: Env)
    requires Coherent(s.table)
    ensures Step(s, UserReject(who), env) == Reject(s, who, env).0
    ensures var (s', ret) := Reject(s, who, env);
            var later := env.results(|s.log| + 1);
            if who.index !in s.table then s' == s && ret == ConnectionNotExist
            else
              var c := s.table[who.index];
              if c.report.state == Incoming || c.report.state == Waiting || c.report.state == Alerting then
                && ret == later
                && Sends(s, s', None, [SingleReport(c.report.(state := Disconnecting)),
                                       Request(RejectCommand(who.slotId, who.phoneNum, who.index), later)])
              else s' == s && ret == CallStateError
  {
    FindIsLookup(s.table, who.index);
  }

  // ----- a hold that does not come about

  function PendingHolds(t: Table): set<int> {
    set k | k in t && t[k].report.isPendingHold
  }

  lemma RecoverFirst(s: Control, k: int)
    requires k in PendingHolds(s.table) && forall j | j in PendingHolds(s.table) :: k <= j
    ensures RecoverPendingHold(s) == s.(table := s.table[k := WithPendingHold(s.table[k], false)])
  {
    assert FirstKey(PendingHolds(s.table)) == Some(k);
  }

  lemma EndedHold(t: Table, k: int, c: Connection)
    requires k in t && !c.report.isPendingHold
    ensures PendingHolds(t[k := c]) == PendingHolds(t) - {k}
  {
    forall j ensures j in PendingHolds(t[k := c]) <==> j in PendingHolds(t) && j != k {}
  }

  /** Recovering ends the first pending hold and no other, and changes nothing else. */
  lemma RecoverEndsOne(s: Control, env: Env)
    ensures Step(s, SwapAnswered, env) == RecoverPendingHold(s)
    ensures var s' := RecoverPendingHold(s);
            && s' == s.(table := s'.table) && s'.table.Keys == s.table.Keys
            && (PendingHolds(s.table) == {} ==> s' == s)
            && forall k | k in PendingHolds(s.table) && (forall j | j in PendingHolds(s.table) :: k <= j) ::
                 && PendingHolds(s'.table) == PendingHolds(s.table) - {k}
                 && s'.table == s.table[k := s.table[k].(report := s.table[k].report.(isPendingHold := false))]
  {
    forall k | k in PendingHolds(s.table) && (forall j | j in PendingHolds(s.table) :: k <= j)
      ensures PendingHolds(RecoverPendingHold(s).table) == PendingHolds(s.table) - {k}
      ensures RecoverPendingHold(s).table
              == s.table[k := s.table[k].(report := s.table[k].report.(isPendingHold := false))]
    {
      RecoverFirst(s, k);
      EndedHold(s.table, k, WithPendingHold(s.table[k], false));
    }
    assert PendingHolds(s.table) == {} ==> FirstKey(PendingHolds(s.table)) == None;
  }

  /** It undoes a swap: when no other hold was pending, the table is as it was before the swap was asked. */
  lemma RecoverUndoesSwap(s: Control, k: int, slot: int, videoState: int, env: Env)
    requires k in s.table && PendingHolds(s.table) == {}
    ensures RecoverPendingHold(SwitchCall(s, k, slot, videoState, env).0).table == s.table
  {
    var s1 := SwitchCall(s, k, slot, videoState, env).0;
    assert k !in PendingHolds(s.table);
    assert forall j | j in s.table :: j !in PendingHolds(s.table);
    if env.results(|s.log|) == Success {
      forall j ensures j in PendingHolds(s1.table) <==> j == k {
        assert j in PendingHolds(s1.table) ==> j == k || j in PendingHolds(s.table);
      }
      RecoverEndsOne(s1, env);
      assert s1.table[k := s.table[k]] == s.table;
    } else {
      RecoverEndsOne(s1, env);
    }
  }

  // ----- a silent redial

  /** With the redial flag set, the closing list is not reported and clears the flag, so the next one is. */
  lemma SilentRedialHidesOne(s: Control, e: ImsEvent, env: Env)
    requires Closes(e)
    ensures var hidden := Step(Step(s, SilentCsRedial(true), env), e, env);
            && hidden.log == s.log && hidden.table == map[] && !hidden.silent && !hidden.ignored
            && |Step(hidden, e, env).log| == |s.log| + 1
    ensures Step(s, SilentCsRedial(false), env) == s.(silent := false)
  {}

  // ----- restoring

  /** Restoring adds an entry for each IMS call of the slot that is not there: of two with one index, for the first. */
  lemma {:induction false} RestoresExactly(t: Table, infos: seq<CallerInfo>, slot: int)
    requires Steady(t)
    ensures forall k :: k in RestoreConnection(t, infos, slot) <==>
                          k in t || exists i :: 0 <= i < |infos| && infos[i].callType == TypeIms
                                                && infos[i].slotId == slot && infos[i].index == k
    ensures forall k | k in RestoreConnection(t, infos, slot) && k !in t ::
              exists i :: 0 <= i < |infos| && infos[i].index == k && infos[i].callType == TypeIms
                          && RestoreConnection(t, infos, slot)[k]
                             == NEW_CONNECTION.(index := k, number := infos[i].phoneNum)
    ensures forall k | k in t :: RestoreConnection(t, infos, slot)[k] == t[k]
    decreases infos
  {
    if infos != [] {
      var info := infos[0];
      var t1 := if info.callType == TypeIms && info.slotId == slot && info.index !in t
                then t[info.index := NEW_CONNECTION.(index := info.index, number := info.phoneNum)] else t;
      var rest, t' := infos[1..], RestoreConnection(t, infos, slot);
      RestoresExactly(t1, rest, slot);
      forall k | k in t' && k !in t
        ensures exists i :: 0 <= i < |infos| && infos[i].index == k && infos[i].callType == TypeIms
                            && t'[k] == NEW_CONNECTION.(index := k, number := infos[i].phoneNum)
      {
        if k in t1 {
          assert infos[0].index == k;
        } else {
          var i :| 0 <= i < |rest| && rest[i].index == k && rest[i].callType == TypeIms
                   && t'[k] == NEW_CONNECTION.(index := k, number := rest[i].phoneNum);
          assert infos[i + 1] == rest[i];
        }
      }
      forall k
        ensures k in RestoreConnection(t, infos, slot) <==>
                  k in t || exists i :: 0 <= i < |infos| && infos[i].callType == TypeIms
                                        && infos[i].slotId == slot && infos[i].index == k
      {
        if i :| 0 <= i < |infos| && infos[i].callType == TypeIms && infos[i].slotId == slot && infos[i].index == k {
          if i > 0 { assert infos[1..][i - 1] == infos[i]; }
        }
        if i :| 0 <= i < |infos[1..]| && infos[1..][i].callType == TypeIms && infos[1..][i].slotId == slot
                && infos[1..][i].index == k {
          assert infos[i + 1] == infos[1..][i];
        }
      }
    }
  }
}
