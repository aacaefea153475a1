/** The IMS call control. */
module ImsControl {
  import opened CallTypes
  import opened OrderedKeys
  import opened PostDial
  import opened CallTable
  import opened ControlBase
  import opened Encapsulation
  import ImsSpec

  class IMSControl {
    var connectionMap: map<int, Connection>
    var pendingPhoneNumber: string
    var isIgnoredIncomingCall: bool
    var isSilentCsRedial: bool
    /** Everything sent out so far. */
    var log: Log

    function View(): Control
      reads this
    {
      Control(connectionMap, pendingPhoneNumber, isIgnoredIncomingCall, isSilentCsRedial, log)
    }

    constructor ()
      ensures View() == EMPTY_CONTROL
    {
      connectionMap, pendingPhoneNumber, log := map[], "", [];
      isIgnoredIncomingCall, isSilentCsRedial := false, false;
    }

    method Send(command: Command, env: Env) returns (ret: Ret)
      modifies this`log
      ensures log == Issue(old(log), command, env) && ret == env.results(|old(log)|)
    {
      ret := env.results(|log|);
      log := log + [Request(command, ret)];
    }

    // ----- call lists

    method ReportImsCallsData(slot: int, list: ImsCallList, isNeedQuery: bool, env: Env) returns (ret: Ret)
      modifies this
      ensures View() == ImsSpec.ReportImsCallsData(old(View()), slot, list, isNeedQuery, env)
      ensures ret == Success
    {
      if list.callSize <= 0 {
        if isNeedQuery {
          var _ := Send(QueryReason(slot), env);
          return Success;
        }
        ret := ReportHangUpInfo(slot);
      } else if connectionMap == map[] {
        ret := ReportIncomingInfo(slot, list, env);
      } else {
        if isNeedQuery {
          var _ := Send(QueryReason(slot), env);
          return Success;
        }
        ret := ReportUpdateInfo(slot, list, env);
      }
    }

    method HasEndCallWithoutReason(list: ImsCallList) returns (found: bool)
      ensures found == CallTable.HasEndCallWithoutReason(connectionMap, ImsSpec.ListedIndices(list))
    {
      var indices := seq(|list.calls|, i requires 0 <= i < |list.calls| => list.calls[i].index);
      assert (set i | i in indices) == ImsSpec.ListedIndices(list) by {
        forall call | call in list.calls ensures call.index in indices {
          var i :| 0 <= i < |list.calls| && list.calls[i] == call;
          assert indices[i] == call.index;
        }
      }
      found := EndCallWithoutReason(connectionMap, indices);
    }

    method ReportIncomingInfo(slot: int, list: ImsCallList, env: Env) returns (ret: Ret)
      modifies this
      ensures View() == FillEmpty(old(View()), slot, ImsListed(slot, list.calls), env)
      ensures ret == Success
    {
      var callVec := FillTable(slot, list);
      if !env.registered && |callVec| != 0 && callVec[0].state == Incoming {
        isIgnoredIncomingCall := true;
      } else {
        log := log + [CallsReport(slot, callVec)];
      }
      ret := Success;
    }

    /** Enters every listed call, and builds the report. */
    method FillTable(slot: int, list: ImsCallList) returns (callVec: seq<CallReport>)
      modifies this`connectionMap
      ensures connectionMap == InsertAll(old(connectionMap), ImsListed(slot, list.calls))
      ensures callVec == Reports(ImsListed(slot, list.calls))
    {
      ghost var calls := ImsListed(slot, list.calls);
      callVec := [];
      var i := 0;
      while i < |list.calls|
        invariant 0 <= i <= |list.calls|
        invariant InsertAll(connectionMap, calls[i..]) == InsertAll(old(connectionMap), calls)
        invariant callVec == Reports(calls[..i])
      {
        var call := list.calls[i];
        var report := ImsReport(slot, call);
        var connection := NEW_CONNECTION.(index := call.index, number := call.number, report := report);
        InsertNext(connectionMap, calls, i);
        SetConnectionData(call.index, connection);
        callVec := callVec + [report];
        i := i + 1;
      }
      assert calls[..|calls|] == calls && calls[|calls|..] == [];
    }

    /** Inserting keeps an entry that is already there. */
    method SetConnectionData(key: int, connection: Connection)
      modifies this`connectionMap
      ensures connectionMap == if key in old(connectionMap) then old(connectionMap)
                               else old(connectionMap)[key := connection]
    {
      if key !in connectionMap {
        connectionMap := connectionMap[key := connection];
      }
    }

    method ReportUpdateInfo(slot: int, list: ImsCallList, env: Env) returns (ret: Ret)
      modifies this
      ensures View() == Update(Ims, old(View()), slot, Promote(ImsListed(slot, list.calls)), env)
      ensures ret == Success
    {
      var callVec := MarkListedCalls(slot, list, env);
      callVec := DeleteConnection(callVec);
      if isIgnoredIncomingCall {
        isIgnoredIncomingCall := false;
      } else {
        log := log + [CallsReport(slot, callVec)];
      }
      ret := Success;
    }

    /** Marks every listed call, and builds their part of the report. */
    method MarkListedCalls(slot: int, list: ImsCallList, env: Env) returns (callVec: seq<CallReport>)
      modifies this
      ensures View() == MarkAll(old(View()), slot, Promote(ImsListed(slot, list.calls)), env)
      ensures callVec == Reports(Promote(ImsListed(slot, list.calls)))
    {
      ghost var calls := Promote(ImsListed(slot, list.calls));
      callVec := [];
      var i := 0;
      while i < |list.calls|
        invariant 0 <= i <= |list.calls| == |calls|
        invariant MarkAll(View(), slot, calls[i..], env) == MarkAll(old(View()), slot, calls, env)
        invariant callVec == Reports(calls[..i])
      {
        var call := list.calls[i];
        var report := ImsReport(slot, call);
        if |list.calls| == 1 && report.state == Waiting {
          report := report.(state := Incoming);
        }
        assert calls[i] == Listed(call.index, call.number, report);
        MarkNext(View(), slot, calls, i, env);
        MarkListedCall(slot, call, report, env);
        callVec := callVec + [report];
        i := i + 1;
      }
      assert calls[..|calls|] == calls && calls[|calls|..] == [];
    }

    method MarkListedCall(slot: int, call: ImsCall, report: CallReport, env: Env)
      modifies this
      ensures View() == MarkOne(old(View()), slot, Listed(call.index, call.number, report), env)
    {
      var key := FindConnectionByIndex(connectionMap, call.index);
      if key == None {
        var connection :=
          NEW_CONNECTION.(report := report, flag := true, index := call.index, number := call.number);
        SetConnectionData(call.index, connection);
      } else {
        var k := key.value;
        var preCallState := connectionMap[k].report.state;
        connectionMap := connectionMap[k := connectionMap[k].(flag := true)];
        connectionMap := connectionMap[k := connectionMap[k].(index := call.index)];
        connectionMap := connectionMap[k := connectionMap[k].(report := report)];
        connectionMap := connectionMap[k := connectionMap[k].(number := call.number)];
        ghost var c := old(connectionMap)[k].(
          flag := true, index := call.index, number := call.number, report := report);
        assert connectionMap == old(connectionMap)[k := c];
        if IsConnectedOut(preCallState, connectionMap[k].report.state) {
          var armed := new BaseConnection(k, connectionMap[k].postDial, log);
          armed.UpdateCallNumber(pendingPhoneNumber);
          connectionMap := connectionMap[k := connectionMap[k].(postDial := armed.View())];
          pendingPhoneNumber := "";
          assert connectionMap == old(connectionMap)[k := c.(postDial := Arm(c.postDial, old(pendingPhoneNumber)))];
          var _ := ExecutePostDial(slot, connectionMap[k].index, env);
        }
      }
    }

    method DeleteConnection(callVec: seq<CallReport>) returns (all: seq<CallReport>)
      modifies this`connectionMap
      ensures connectionMap == Swept(old(connectionMap))
      ensures all == callVec + GoneReports(Ims, old(connectionMap), old(connectionMap).Keys)
    {
      all := callVec;
      ghost var t, goal := connectionMap, callVec + GoneReports(Ims, connectionMap, connectionMap.Keys);
      var rest := connectionMap.Keys;
      SweepEnds(Ims, t, callVec);
      while rest != {}
        invariant rest <= t.Keys
        invariant connectionMap == PartlySwept(t, rest)
        invariant all + GoneReports(Ims, t, rest) == goal
      {
        var k := MinKey(rest);
        SweepStep(Ims, t, rest, all, goal);
        if !connectionMap[k].flag {
          var report := connectionMap[k].report.(state := Disconnected);
          report := report.(reason := connectionMap[k].reason);
          report := report.(message := connectionMap[k].message);
          all := all + [report];
          connectionMap := connectionMap - {k};
        } else {
          connectionMap := connectionMap[k := connectionMap[k].(flag := false)];
        }
        rest := rest - {k};
      }
      SweepEnds(Ims, t, all);
    }

    method ReportHangUpInfo(slot: int) returns (ret: Ret)
      modifies this
      ensures View() == HangUpAllCalls(Ims, old(View()), slot)
      ensures ret == Success
    {
      var callVec := DisconnectAll(slot);
      if connectionMap == map[] {
        callVec := callVec + [ZERO_REPORT.(state := Disconnected, accountId := slot)];
      }
      assert callVec == HangUpVector(Ims, connectionMap, slot);
      if isIgnoredIncomingCall || isSilentCsRedial {
        isIgnoredIncomingCall := false;
        isSilentCsRedial := false;
      } else {
        log := log + [CallsReport(slot, callVec)];
      }
      ReleaseAllConnection();
      ret := Success;
    }

    /** The report vector that declares every entry disconnected. */
    method DisconnectAll(slot: int) returns (callVec: seq<CallReport>)
      ensures callVec == HangUpReports(Ims, connectionMap, slot, connectionMap.Keys)
    {
      callVec := [];
      var rest := connectionMap.Keys;
      ghost var goal := HangUpReports(Ims, connectionMap, slot, rest);
      while rest != {}
        invariant rest <= connectionMap.Keys
        invariant callVec + HangUpReports(Ims, connectionMap, slot, rest) == goal
      {
        var k := MinKey(rest);
        HangUpSent(Ims, connectionMap, slot, rest, callVec, goal);
        callVec := callVec + [connectionMap[k].report.(
          state := Disconnected, accountId := slot, reason := connectionMap[k].reason,
          message := connectionMap[k].message)];
        rest := rest - {k};
      }
      assert HangUpReports(Ims, connectionMap, slot, {}) == [];
    }

    method ReleaseAllConnection()
      modifies this`connectionMap
      ensures connectionMap == map[]
    {
      connectionMap := map[];
    }

    /** After a restart of the service: the calls that the call manager knows are reported as gone. */
    method ReportHangUp(infos: seq<CallerInfo>, slot: int) returns (ret: Ret)
      modifies this
      ensures View() == CallTable.ReportHangUp(Ims, old(View()), infos, slot)
      ensures ret == Success
    {
      var callVec := [];
      var i := 0;
      while i < |infos|
        invariant 0 <= i <= |infos| && View() == old(View())
        invariant callVec + LostReports(Ims, infos[i..], slot) == LostReports(Ims, infos, slot)
      {
        var info := infos[i];
        var later := LostReports(Ims, infos[i + 1..], slot);
        assert infos[i..][1..] == infos[i + 1..];
        if info.callType == TypeIms && info.slotId == slot {
          var details := ZERO_DETAILS.(accountNum := info.phoneNum, callType := TypeIms, callMode := Video);
          var report := ZERO_REPORT.(index := info.index, accountId := info.slotId, state := Disconnected);
          assert callVec + ([report.(details := details)] + later) == callVec + [report.(details := details)] + later;
          callVec := callVec + [report.(details := details)];
        } else {
          assert [] + later == later;
        }
        i := i + 1;
      }
      assert infos[i..] == [] && callVec + [] == callVec;
      log := log + [CallsReport(slot, callVec)];
      ret := Success;
    }

    // ----- disconnect reasons

    /** Whether the list names the index. */
    static method IsListed(list: ImsCallList, index: int) returns (isFind: bool)
      ensures isFind <==> index in ImsSpec.ListedIndices(list)
    {
      isFind := false;
      var i := 0;
      while i < |list.calls| && !isFind
        invariant 0 <= i <= |list.calls|
        invariant isFind ==> index in ImsSpec.ListedIndices(list)
        invariant !isFind ==> forall j | 0 <= j < i :: index != list.calls[j].index
      {
        assert list.calls[i] in list.calls;
        isFind := index == list.calls[i].index;
        i := i + 1;
      }
    }

    method UpdateDisconnectedReason(list: ImsCallList, reason: Reason, message: string)
      modifies this`connectionMap
      ensures View() == ImsSpec.DisconnectReasonResponse(old(View()), list, reason, message)
    {
      ghost var t, listed := connectionMap, ImsSpec.ListedIndices(list);
      var rest := connectionMap.Keys;
      PartlyExplainedEnds(Ims, t, listed, reason, message);
      while rest != {}
        invariant rest <= t.Keys
        invariant connectionMap == PartlyExplained(Ims, t, listed, reason, message, rest)
      {
        var k := MinKey(rest);
        PartlyExplainedStep(Ims, t, listed, reason, message, rest);
        if connectionMap[k].reason == Invalid {
          var isFind := IsListed(list, connectionMap[k].index);
          if !isFind {
            connectionMap := connectionMap[k := connectionMap[k].(reason := reason, message := message)];
          }
        }
        rest := rest - {k};
      }
    }

    method UpdateCallDisconnectReason(callId: int, reason: Reason, message: string)
      modifies this`connectionMap
      ensures connectionMap == CallTable.UpdateCallDisconnectReason(Ims, old(connectionMap), callId, reason, message)
    {
      var key := FindConnectionByIndex(connectionMap, callId);
      if key.Some? {
        connectionMap := connectionMap[key.value :=
          connectionMap[key.value].(reason := reason, message := message)];
      }
    }

    // ----- user operations

    method HangUp(who: CallerInfo, kind: SupplementType, env: Env) returns (ret: Ret)
      modifies this
      ensures (View(), ret) == ImsSpec.HangUp(old(View()), who, kind, env)
    {
      var message := "";
      match kind {
        case TypeDefault =>
          var key := FindConnectionByIndex(connectionMap, who.index);
          if key == None {
            return ConnectionNotExist;
          }
          var k := key.value;
          connectionMap := connectionMap[k := connectionMap[k].(dial := connectionMap[k].dial.(pendingHangup := true))];
          log := log + [SingleReport(connectionMap[k].report.(state := Disconnecting))];
          connectionMap := connectionMap[k := connectionMap[k].(reason := UserTerminated)];
          connectionMap := connectionMap[k := connectionMap[k].(message := message)];
          assert connectionMap == old(connectionMap)[k := connectionMap[k]];
          ret := Send(HangUpCommand(who.slotId, who.phoneNum, who.index), env);
        case HangUpAll =>
          SetAllReasons(UserTerminated, message);
          ret := Send(RejectCommand(who.slotId, who.phoneNum, who.index), env);
        case OtherType =>
          return ArgumentInvalid;
        case _ =>
          UpdateCallDisconnectReason(who.callId, UserTerminated, message);
          ret := Send(Supplement(who.slotId, kind), env);
      }
    }

    method SetAllReasons(reason: Reason, message: string)
      modifies this`connectionMap
      ensures connectionMap == CallTable.SetAllReasons(Ims, old(connectionMap), reason, message)
    {
      var rest := connectionMap.Keys;
      while rest != {}
        invariant rest <= connectionMap.Keys == old(connectionMap).Keys
        invariant forall k | k in connectionMap :: connectionMap[k] ==
                    if k in rest then old(connectionMap)[k] else WithReason(Ims, old(connectionMap)[k], reason, message)
      {
        var k := MinKey(rest);
        connectionMap := connectionMap[k := connectionMap[k].(reason := reason, message := message)];
        rest := rest - {k};
      }
      ghost var updated := CallTable.SetAllReasons(Ims, old(connectionMap), reason, message);
      assert connectionMap.Keys == updated.Keys;
      assert forall k | k in updated :: connectionMap[k] == updated[k];
      assert connectionMap == updated;
    }

    /** Asks for a swap on behalf of entry `k`, which is marked as about to be held if that succeeds. */
    method SwitchCallRequest(k: int, slot: int, videoState: int, env: Env) returns (ret: Ret)
      requires k in connectionMap
      modifies this`connectionMap, this`log
      ensures (View(), ret) == ImsSpec.SwitchCall(old(View()), k, slot, videoState, env)
    {
      ret := Send(Swap(slot, videoState), env);
      if ret == Success {
        var report := connectionMap[k].report.(isPendingHold := true);
        connectionMap := connectionMap[k := connectionMap[k].(report := report)];
      }
    }

    method Answer(who: CallerInfo, env: Env) returns (ret: Ret)
      modifies this`connectionMap, this`log
      ensures (View(), ret) == ImsSpec.Answer(old(View()), who, env)
    {
      var key := FindConnectionByIndex(connectionMap, who.index);
      if key == None {
        return ConnectionNotExist;
      }
      var state := connectionMap[key.value].report.state;
      var anyHolding := IsAnyInState(connectionMap, Holding);
      var anyActive := IsAnyInState(connectionMap, Active);
      if anyHolding && anyActive {
        ret := CheckAndHangupHoldingCall(env);
        if ret != Success {
          return ret;
        }
      }
      var con := FindConnectionByState(connectionMap, Active);
      if con.Some? && !connectionMap[con.value].report.isPendingHold && state == Waiting {
        ret := SwitchCallRequest(con.value, who.slotId, who.videoState, env);
        return ret;
      }
      if state == Alerting || state == Incoming || state == Waiting {
        ret := Send(AnswerCommand(who.slotId, who.phoneNum, who.videoState, who.index, who.isRtt), env);
        return ret;
      }
      return CallStateError;
    }

    method CheckAndHangupHoldingCall(env: Env) returns (ret: Ret)
      modifies this`log
      ensures (log, ret) == HangUpHolding(Ims, connectionMap, connectionMap.Keys, old(log), env)
    {
      var rest := connectionMap.Keys;
      while rest != {}
        invariant rest <= connectionMap.Keys
        invariant HangUpHolding(Ims, connectionMap, rest, log, env)
                  == HangUpHolding(Ims, connectionMap, connectionMap.Keys, old(log), env)
      {
        var k := MinKey(rest);
        HangUpHoldingStep(Ims, connectionMap, rest, log, env);
        if connectionMap[k].report.state == Holding {
          var result := Send(
            HangUpCommand(connectionMap[k].report.accountId, connectionMap[k].report.details.accountNum,
                          connectionMap[k].report.index), env);
          if result != Success {
            return result;
          }
        }
        rest := rest - {k};
      }
      assert connectionMap.Keys * {} == {};
      ret := Success;
    }

    method Reject(who: CallerInfo, env: Env) returns (ret: Ret)
      modifies this
      ensures (View(), ret) == ImsSpec.Reject(old(View()), who, env)
    {
      var key := FindConnectionByIndex(connectionMap, who.index);
      if key == None {
        return ConnectionNotExist;
      }
      var k := key.value;
      if !IsRinging(connectionMap[k].report.state) {
        return CallStateError;
      }
      log := log + [SingleReport(connectionMap[k].report.(state := Disconnecting))];
      connectionMap := connectionMap[k := connectionMap[k].(reason := UserDecline)];
      ret := Send(RejectCommand(who.slotId, who.phoneNum, who.index), env);
    }

    // ----- hold, then dial

    method DialJudgment(slot: int, info: DialInfo, env: Env) returns (ret: Ret)
      modifies this
      ensures (View(), ret) == ImsSpec.DialJudgment(old(View()), slot, info, env)
    {
      if !CanCall(connectionMap) {
        return CountsExceedLimit;
      }
      pendingPhoneNumber := info.phoneNum;
      var key := FindToHold();
      if key.Some? {
        SetHoldToDialInfo(key.value, info);
        ret := SwitchCallRequest(key.value, slot, info.videoState, env);
        return ret;
      }
      ret := Send(DialCommand(slot, info), env);
    }

    /** The first active call that the user is not hanging up. */
    method FindToHold() returns (key: Option<int>)
      ensures key == ImsSpec.ToHold(connectionMap)
    {
      var rest := connectionMap.Keys;
      ghost var candidates := set k | k in connectionMap && connectionMap[k].report.state == Active
                                      && !connectionMap[k].dial.pendingHangup;
      while rest != {}
        invariant rest <= connectionMap.Keys
        invariant forall k | k in candidates :: k in rest
      {
        var k := MinKey(rest);
        if connectionMap[k].report.state == Active && !connectionMap[k].dial.pendingHangup {
          assert k in candidates && FirstKey(candidates) == Some(k);
          return Some(k);
        }
        rest := rest - {k};
      }
      assert forall k :: k !in candidates;
      return None;
    }

    /** Parks the dial on entry `k`. */
    method SetHoldToDialInfo(k: int, info: DialInfo)
      requires k in connectionMap
      modifies this`connectionMap
      ensures connectionMap == old(connectionMap)[k := ImsSpec.Park(
                old(connectionMap)[k], info.phoneNum, info.clirMode, info.videoState, info.emergency)]
    {
      var dial := connectionMap[k].dial;
      dial := dial.(holdToDial := dial.holdToDial.(phoneNum := info.phoneNum));
      dial := dial.(holdToDial := dial.holdToDial.(clirMode := info.clirMode));
      dial := dial.(holdToDial := dial.holdToDial.(videoState := info.videoState));
      dial := dial.(holdToDial := dial.holdToDial.(emergency := info.emergency));
      dial := dial.(needToDial := true);
      connectionMap := connectionMap[k := connectionMap[k].(dial := dial)];
    }

    method DialAfterHold(slot: int, env: Env)
      modifies this
      ensures View() == ImsSpec.DialAfterHold(old(View()), slot, env)
    {
      var rest := connectionMap.Keys;
      ghost var parked := ImsSpec.ParkedKeys(connectionMap);
      while rest != {}
        invariant rest <= connectionMap.Keys
        invariant View() == old(View())
        invariant forall k | k in parked :: k in rest
      {
        var k := MinKey(rest);
        if connectionMap[k].dial.needToDial {
          assert k in parked && FirstKey(parked) == Some(k);
          var _ := Send(DialCommand(slot, connectionMap[k].dial.holdToDial), env);
          connectionMap := connectionMap[k := connectionMap[k].(dial := connectionMap[k].dial.(needToDial := false))];
          return;
        }
        rest := rest - {k};
      }
      assert forall k :: k !in parked;
    }

    method RecoverPendingHold()
      modifies this
      ensures View() == ImsSpec.RecoverPendingHold(old(View()))
    {
      var rest := connectionMap.Keys;
      ghost var pending := set k | k in connectionMap && connectionMap[k].report.isPendingHold;
      while rest != {}
        invariant rest <= connectionMap.Keys
        invariant View() == old(View())
        invariant forall k | k in pending :: k in rest
      {
        var k := MinKey(rest);
        if connectionMap[k].report.isPendingHold {
          assert k in pending && FirstKey(pending) == Some(k);
          var report := connectionMap[k].report.(isPendingHold := false);
          connectionMap := connectionMap[k := connectionMap[k].(report := report)];
          return;
        }
        rest := rest - {k};
      }
      assert forall k :: k !in pending;
    }

    method RestoreConnection(infos: seq<CallerInfo>, slot: int) returns (ret: Ret)
      modifies this`connectionMap
      ensures connectionMap == ImsSpec.RestoreConnection(old(connectionMap), infos, slot)
      ensures ret == Success
    {
      var i := 0;
      while i < |infos|
        invariant 0 <= i <= |infos|
        invariant ImsSpec.RestoreConnection(connectionMap, infos[i..], slot)
                  == ImsSpec.RestoreConnection(old(connectionMap), infos, slot)
      {
        var info := infos[i];
        if info.callType == TypeIms && info.slotId == slot {
          SetConnectionData(info.index, NEW_CONNECTION.(index := info.index, number := info.phoneNum));
        }
        assert infos[i..][1..] == infos[i + 1..];
        i := i + 1;
      }
      ret := Success;
    }

    method SetSilentCsRedialFlag(isSilentCsRedial: bool)
      modifies this`isSilentCsRedial
      ensures View() == old(View()).(silent := isSilentCsRedial)
    {
      this.isSilentCsRedial := isSilentCsRedial;
    }

    // ----- post-dial

    method ExecutePostDial(slot: int, callId: int, env: Env) returns (ret: Ret)
      modifies this
      ensures View() == CallTable.ExecutePostDial(old(View()), slot, callId, env)
      ensures ret == if old(connectionMap) == map[] then TelephonyError
                     else if FindByIndex(old(connectionMap), callId).None? then LocalPtrNull else Success
    {
      if connectionMap == map[] {
        return TelephonyError;
      }
      var key := FindConnectionByIndex(connectionMap, callId);
      if key == None {
        return LocalPtrNull;
      }
      var k := key.value;
      var pd;
      pd, log := PlayNextChar(connectionMap[k], slot, env, log);
      connectionMap := connectionMap[k := connectionMap[k].(postDial := pd)];
      ret := Success;
    }

    method PostDialProceed(who: CallerInfo, proceed: bool, env: Env) returns (ret: Ret)
      modifies this
      ensures (View(), ret) == CallTable.PostDialProceed(old(View()), who, proceed, env)
    {
      var key := FindConnectionByIndex(connectionMap, who.index);
      if key == None {
        return LocalPtrNull;
      }
      var k := key.value;
      if proceed {
        var _ := ExecutePostDial(who.slotId, connectionMap[k].index, env);
      } else {
        var pd := connectionMap[k].postDial.(state := Canceled);
        connectionMap := connectionMap[k := connectionMap[k].(postDial := pd)];
      }
      ret := Success;
    }
  }
}
