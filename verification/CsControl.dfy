/** The circuit-switched call control. */
module CsControl {
  import opened CallTypes
  import opened OrderedKeys
  import opened PostDial
  import opened CallTable
  import opened ControlBase
  import opened Encapsulation
  import CsSpec

  class CSControl {
    var connectionMap: map<int, Connection>
    var pendingPhoneNumber: string
    var isIgnoredIncomingCall: bool
    /** Everything sent out so far. */
    var log: Log

    function View(): Control
      reads this
    {
      Control(connectionMap, pendingPhoneNumber, isIgnoredIncomingCall, false, log)
    }

    constructor ()
      ensures View() == EMPTY_CONTROL
    {
      connectionMap, pendingPhoneNumber, isIgnoredIncomingCall, log := map[], "", false, [];
    }

    method Send(command: Command, env: Env) returns (ret: Ret)
      modifies this`log
      ensures log == Issue(old(log), command, env) && ret == env.results(|old(log)|)
    {
      ret := env.results(|log|);
      log := log + [Request(command, ret)];
    }

    // ----- call lists

    method ReportCsCallsData(slot: int, list: CallInfoList, isNeedQuery: bool, env: Env) returns (ret: Ret)
      modifies this
      ensures View() == CsSpec.ReportCsCallsData(old(View()), slot, list, isNeedQuery, env)
      ensures ret == Success
    {
      if list.callSize <= 0 {
        if isNeedQuery {
          var unexplained := HasEndCallWithoutReason(list);
          if unexplained {
            var _ := Send(QueryReason(slot), env);
            return Success;
          }
        }
        ret := ReportHangUpInfo(slot);
      } else if connectionMap == map[] {
        ret := ReportIncomingInfo(slot, list, env);
      } else {
        if isNeedQuery {
          var unexplained := HasEndCallWithoutReason(list);
          if unexplained {
            var _ := Send(QueryReason(slot), env);
            return Success;
          }
        }
        ret := ReportUpdateInfo(slot, list, env);
      }
    }

    method HasEndCallWithoutReason(list: CallInfoList) returns (found: bool)
      ensures found == CallTable.HasEndCallWithoutReason(connectionMap, CsSpec.ListedIndices(list))
    {
      var indices := seq(|list.calls|, i requires 0 <= i < |list.calls| => list.calls[i].index);
      assert (set i | i in indices) == CsSpec.ListedIndices(list) by {
        forall call | call in list.calls ensures call.index in indices {
          var i :| 0 <= i < |list.calls| && list.calls[i] == call;
          assert indices[i] == call.index;
        }
      }
      found := EndCallWithoutReason(connectionMap, indices);
    }

    method ReportIncomingInfo(slot: int, list: CallInfoList, env: Env) returns (ret: Ret)
      modifies this
      ensures View() == FillEmpty(old(View()), slot, CsListed(slot, list.calls), env)
      ensures ret == Success
    {
      var callVec := FillTable(slot, list);
      if !env.registered && |callVec| != 0 && callVec[0].state == Incoming {
        isIgnoredIncomingCall := true;
      } else {
        log := log + [CallsReport(slot, callVec)];
      }
      ret := Success;
    }

    /** Enters every listed call, and builds the report. */
    method FillTable(slot: int, list: CallInfoList) returns (callVec: seq<CallReport>)
      modifies this`connectionMap
      ensures connectionMap == InsertAll(old(connectionMap), CsListed(slot, list.calls))
      ensures callVec == Reports(CsListed(slot, list.calls))
    {
      ghost var calls := CsListed(slot, list.calls);
      callVec := [];
      var i := 0;
      while i < |list.calls|
        invariant 0 <= i <= |list.calls|
        invariant InsertAll(connectionMap, calls[i..]) == InsertAll(old(connectionMap), calls)
        invariant callVec == Reports(calls[..i])
      {
        var call := list.calls[i];
        var report := CsReport(slot, call);
        var connection := NEW_CONNECTION.(index := call.index, number := call.number, report := report);
        InsertNext(connectionMap, calls, i);
        SetConnectionData(call.index, connection);
        callVec := callVec + [report];
        i := i + 1;
      }
      assert calls[..|calls|] == calls && calls[|calls|..] == [];
    }

    /** Inserting keeps an entry that is already there. */
    method SetConnectionData(key: int, connection: Connection)
      modifies this`connectionMap
      ensures connectionMap == if key in old(connectionMap) then old(connectionMap)
                               else old(connectionMap)[key := connection]
    {
      if key !in connectionMap {
        connectionMap := connectionMap[key := connection];
      }
    }

    method ReportUpdateInfo(slot: int, list: CallInfoList, env: Env) returns (ret: Ret)
      modifies this
      ensures View() == Update(Cs, old(View()), slot, Promote(CsListed(slot, list.calls)), env)
      ensures ret == Success
    {
      var callVec := MarkListedCalls(slot, list, env);
      callVec := DeleteConnection(callVec);
      if !isIgnoredIncomingCall {
        log := log + [CallsReport(slot, callVec)];
      }
      ret := Success;
    }

    /** Marks every listed call, and builds their part of the report. */
    method MarkListedCalls(slot: int, list: CallInfoList, env: Env) returns (callVec: seq<CallReport>)
      modifies this
      ensures View() == MarkAll(old(View()), slot, Promote(CsListed(slot, list.calls)), env)
      ensures callVec == Reports(Promote(CsListed(slot, list.calls)))
    {
      ghost var calls := Promote(CsListed(slot, list.calls));
      callVec := [];
      var i := 0;
      while i < |list.calls|
        invariant 0 <= i <= |list.calls| == |calls|
        invariant MarkAll(View(), slot, calls[i..], env) == MarkAll(old(View()), slot, calls, env)
        invariant callVec == Reports(calls[..i])
      {
        var call := list.calls[i];
        var report := CsReport(slot, call);
        if |list.calls| == 1 && report.state == Waiting {
          report := report.(state := Incoming);
        }
        assert calls[i] == Listed(call.index, call.number, report);
        MarkNext(View(), slot, calls, i, env);
        MarkListedCall(slot, call, report, env);
        callVec := callVec + [report];
        i := i + 1;
      }
      assert calls[..|calls|] == calls && calls[|calls|..] == [];
    }

    method MarkListedCall(slot: int, call: CallInfo, report: CallReport, env: Env)
      modifies this
      ensures View() == MarkOne(old(View()), slot, Listed(call.index, call.number, report), env)
    {
      var key := FindConnectionByIndex(connectionMap, call.index);
      if key == None {
        var connection :=
          NEW_CONNECTION.(report := report, flag := true, index := call.index, number := call.number);
        SetConnectionData(call.index, connection);
      } else {
        var k := key.value;
        var preCallState := connectionMap[k].report.state;
        connectionMap := connectionMap[k := connectionMap[k].(flag := true)];
        connectionMap := connectionMap[k := connectionMap[k].(index := call.index)];
        connectionMap := connectionMap[k := connectionMap[k].(report := report)];
        connectionMap := connectionMap[k := connectionMap[k].(number := call.number)];
        ghost var c := old(connectionMap)[k].(
          flag := true, index := call.index, number := call.number, report := report);
        assert connectionMap == old(connectionMap)[k := c];
        if IsConnectedOut(preCallState, connectionMap[k].report.state) {
          var armed := new BaseConnection(k, connectionMap[k].postDial, log);
          armed.UpdateCallNumber(pendingPhoneNumber);
          connectionMap := connectionMap[k := connectionMap[k].(postDial := armed.View())];
          pendingPhoneNumber := "";
          assert connectionMap == old(connectionMap)[k := c.(postDial := Arm(c.postDial, old(pendingPhoneNumber)))];
          var _ := ExecutePostDial(slot, connectionMap[k].index, env);
        }
      }
    }

    method DeleteConnection(callVec: seq<CallReport>) returns (all: seq<CallReport>)
      modifies this`connectionMap
      ensures connectionMap == Swept(old(connectionMap))
      ensures all == callVec + GoneReports(Cs, old(connectionMap), old(connectionMap).Keys)
    {
      all := callVec;
      ghost var t, goal := connectionMap, callVec + GoneReports(Cs, connectionMap, connectionMap.Keys);
      var rest := connectionMap.Keys;
      SweepEnds(Cs, t, callVec);
      while rest != {}
        invariant rest <= t.Keys
        invariant connectionMap == PartlySwept(t, rest)
        invariant all + GoneReports(Cs, t, rest) == goal
      {
        var k := MinKey(rest);
        SweepStep(Cs, t, rest, all, goal);
        if !connectionMap[k].flag {
          var report := connectionMap[k].report.(state := Disconnected);
          report := report.(reason := connectionMap[k].reason);
          all := all + [report];
          connectionMap := connectionMap - {k};
        } else {
          connectionMap := connectionMap[k := connectionMap[k].(flag := false)];
        }
        rest := rest - {k};
      }
      SweepEnds(Cs, t, all);
    }

    method ReportHangUpInfo(slot: int) returns (ret: Ret)
      modifies this
      ensures View() == HangUpAllCalls(Cs, old(View()), slot)
      ensures ret == Success
    {
      var callVec := DisconnectAll(slot);
      if connectionMap == map[] {
        callVec := callVec + [ZERO_REPORT.(state := Disconnected, accountId := slot)];
      }
      assert callVec == HangUpVector(Cs, connectionMap, slot);
      if isIgnoredIncomingCall {
        isIgnoredIncomingCall := false;
      } else {
        log := log + [CallsReport(slot, callVec)];
      }
      ReleaseAllConnection();
      ret := Success;
    }

    /** The report vector that declares every entry disconnected. */
    method DisconnectAll(slot: int) returns (callVec: seq<CallReport>)
      ensures callVec == HangUpReports(Cs, connectionMap, slot, connectionMap.Keys)
    {
      callVec := [];
      var rest := connectionMap.Keys;
      ghost var goal := HangUpReports(Cs, connectionMap, slot, rest);
      while rest != {}
        invariant rest <= connectionMap.Keys
        invariant callVec + HangUpReports(Cs, connectionMap, slot, rest) == goal
      {
        var k := MinKey(rest);
        HangUpSent(Cs, connectionMap, slot, rest, callVec, goal);
        callVec := callVec + [connectionMap[k].report.(
          state := Disconnected, accountId := slot, reason := connectionMap[k].reason)];
        rest := rest - {k};
      }
      assert HangUpReports(Cs, connectionMap, slot, {}) == [];
    }

    method ReleaseAllConnection()
      modifies this`connectionMap
      ensures connectionMap == map[]
    {
      connectionMap := map[];
    }

    /** After a restart of the service: the calls that the call manager knows are reported as gone. */
    method ReportHangUp(infos: seq<CallerInfo>, slot: int) returns (ret: Ret)
      modifies this
      ensures View() == CallTable.ReportHangUp(Cs, old(View()), infos, slot)
      ensures ret == Success
    {
      var callVec := [];
      var i := 0;
      while i < |infos|
        invariant 0 <= i <= |infos| && View() == old(View())
        invariant callVec + LostReports(Cs, infos[i..], slot) == LostReports(Cs, infos, slot)
      {
        var info := infos[i];
        var later := LostReports(Cs, infos[i + 1..], slot);
        assert infos[i..][1..] == infos[i + 1..];
        if info.callType == TypeCs && info.slotId == slot {
          var details := ZERO_DETAILS.(accountNum := info.phoneNum, callType := TypeCs, callMode := Voice);
          var report := ZERO_REPORT.(index := info.index, accountId := info.slotId, state := Disconnected);
          assert callVec + ([report.(details := details)] + later) == callVec + [report.(details := details)] + later;
          callVec := callVec + [report.(details := details)];
        } else {
          assert [] + later == later;
        }
        i := i + 1;
      }
      assert infos[i..] == [] && callVec + [] == callVec;
      log := log + [CallsReport(slot, callVec)];
      ReleaseAllConnection();
      ret := Success;
    }

    // ----- disconnect reasons

    /** Whether the list names the index. */
    static method IsListed(list: CallInfoList, index: int) returns (isFind: bool)
      ensures isFind <==> index in CsSpec.ListedIndices(list)
    {
      isFind := false;
      var i := 0;
      while i < |list.calls| && !isFind
        invariant 0 <= i <= |list.calls|
        invariant isFind ==> index in CsSpec.ListedIndices(list)
        invariant !isFind ==> forall j | 0 <= j < i :: index != list.calls[j].index
      {
        assert list.calls[i] in list.calls;
        isFind := index == list.calls[i].index;
        i := i + 1;
      }
    }

    method UpdateDisconnectedReason(list: CallInfoList, reason: Reason)
      modifies this`connectionMap
      ensures View() == CsSpec.DisconnectReasonResponse(old(View()), list, reason)
    {
      ghost var t, listed := connectionMap, CsSpec.ListedIndices(list);
      var rest := connectionMap.Keys;
      PartlyExplainedEnds(Cs, t, listed, reason, "");
      while rest != {}
        invariant rest <= t.Keys
        invariant connectionMap == PartlyExplained(Cs, t, listed, reason, "", rest)
      {
        var k := MinKey(rest);
        PartlyExplainedStep(Cs, t, listed, reason, "", rest);
        if connectionMap[k].reason == Invalid {
          var isFind := IsListed(list, connectionMap[k].index);
          if !isFind {
            connectionMap := connectionMap[k := connectionMap[k].(reason := reason)];
          }
        }
        rest := rest - {k};
      }
    }

    method UpdateCallDisconnectReason(callId: int, reason: Reason)
      modifies this`connectionMap
      ensures connectionMap == CallTable.UpdateCallDisconnectReason(Cs, old(connectionMap), callId, reason, "")
    {
      var key := FindConnectionByIndex(connectionMap, callId);
      if key.Some? {
        connectionMap := connectionMap[key.value := connectionMap[key.value].(reason := reason)];
      }
    }

    // ----- user operations

    method HangUp(who: CallerInfo, kind: SupplementType, env: Env) returns (ret: Ret)
      modifies this
      ensures (View(), ret) == CsSpec.HangUp(old(View()), who, kind, env)
    {
      match kind {
        case TypeDefault =>
          var key := FindConnectionByIndex(connectionMap, who.index);
          if key == None {
            return ConnectionNotExist;
          }
          var k := key.value;
          log := log + [SingleReport(connectionMap[k].report.(state := Disconnecting))];
          connectionMap := connectionMap[k := connectionMap[k].(reason := UserTerminated)];
          ret := Send(HangUpCommand(who.slotId, "", connectionMap[k].index), env);
        case HangUpAll =>
          SetAllReasons(UserTerminated);
          ret := Send(RejectCommand(who.slotId, "", 0), env);
        case OtherType =>
          return ArgumentInvalid;
        case _ =>
          UpdateCallDisconnectReason(who.callId, UserTerminated);
          ret := Send(Supplement(who.slotId, kind), env);
      }
    }

    method SetAllReasons(reason: Reason)
      modifies this`connectionMap
      ensures connectionMap == CallTable.SetAllReasons(Cs, old(connectionMap), reason, "")
    {
      var rest := connectionMap.Keys;
      while rest != {}
        invariant rest <= connectionMap.Keys == old(connectionMap).Keys
        invariant forall k | k in connectionMap :: connectionMap[k] ==
                    if k in rest then old(connectionMap)[k] else old(connectionMap)[k].(reason := reason)
      {
        var k := MinKey(rest);
        connectionMap := connectionMap[k := connectionMap[k].(reason := reason)];
        rest := rest - {k};
      }
      ghost var updated := CallTable.SetAllReasons(Cs, old(connectionMap), reason, "");
      assert connectionMap.Keys == updated.Keys;
      assert forall k | k in updated :: connectionMap[k] == updated[k];
      assert connectionMap == updated;
    }

    method Answer(who: CallerInfo, env: Env) returns (ret: Ret)
      modifies this`log
      ensures (View(), ret) == CsSpec.Answer(old(View()), who, env)
    {
      var key := FindConnectionByIndex(connectionMap, who.index);
      if key == None {
        return ConnectionNotExist;
      }
      var state := connectionMap[key.value].report.state;
      var anyHolding := IsAnyInState(connectionMap, Holding);
      var anyActive := IsAnyInState(connectionMap, Active);
      if anyHolding && anyActive {
        ret := CheckAndHangupHoldingCall(env);
        if ret != Success {
          return ret;
        }
      }
      if anyActive || state == Waiting {
        var con := FindConnectionByState(connectionMap, Active);
        StateSearchAgrees(connectionMap, Active);
        if con.Some? {
          var _ := Send(Swap(who.slotId, 0), env);
        }
      }
      if state == Incoming || state == Alerting || state == Waiting {
        ret := Send(AnswerCommand(who.slotId, "", 0, 0, false), env);
        return ret;
      }
      return CallStateError;
    }

    method CheckAndHangupHoldingCall(env: Env) returns (ret: Ret)
      modifies this`log
      ensures (log, ret) == HangUpHolding(Cs, connectionMap, connectionMap.Keys, old(log), env)
    {
      var rest := connectionMap.Keys;
      while rest != {}
        invariant rest <= connectionMap.Keys
        invariant HangUpHolding(Cs, connectionMap, rest, log, env)
                  == HangUpHolding(Cs, connectionMap, connectionMap.Keys, old(log), env)
      {
        var k := MinKey(rest);
        HangUpHoldingStep(Cs, connectionMap, rest, log, env);
        if connectionMap[k].report.state == Holding {
          var result := Send(HangUpCommand(connectionMap[k].report.accountId, "", connectionMap[k].index), env);
          if result != Success {
            return result;
          }
        }
        rest := rest - {k};
      }
      assert connectionMap.Keys * {} == {};
      ret := Success;
    }

    method Reject(who: CallerInfo, env: Env) returns (ret: Ret)
      modifies this
      ensures (View(), ret) == CsSpec.Reject(old(View()), who, env)
    {
      var key := FindConnectionByIndex(connectionMap, who.index);
      if key == None {
        return ConnectionNotExist;
      }
      var k := key.value;
      if !IsRinging(connectionMap[k].report.state) {
        return CallStateError;
      }
      log := log + [SingleReport(connectionMap[k].report.(state := Disconnecting))];
      connectionMap := connectionMap[k := connectionMap[k].(reason := UserDecline)];
      ret := Send(RejectCommand(who.slotId, "", 0), env);
    }

    method Dial(slot: int, phone: string, clir: ClirMode, cdma: bool, env: Env) returns (ret: Ret)
      modifies this
      ensures (View(), ret) == CsSpec.Dial(old(View()), slot, phone, clir, cdma, env)
    {
      if !CanCall(connectionMap) {
        return CountsExceedLimit;
      }
      var anyActive := IsAnyInState(connectionMap, Active);
      if anyActive {
        if cdma {
          return Success;
        }
        var _ := Send(Swap(slot, 0), env);
      }
      pendingPhoneNumber := phone;
      ret := Send(DialCommand(slot, DialInfo(phone, clir, 0, false, false)), env);
    }

    // ----- post-dial

    method ExecutePostDial(slot: int, callId: int, env: Env) returns (ret: Ret)
      modifies this
      ensures View() == CallTable.ExecutePostDial(old(View()), slot, callId, env)
      ensures ret == if old(connectionMap) == map[] then TelephonyError
                     else if FindByIndex(old(connectionMap), callId).None? then LocalPtrNull else Success
    {
      if connectionMap == map[] {
        return TelephonyError;
      }
      var key := FindConnectionByIndex(connectionMap, callId);
      if key == None {
        return LocalPtrNull;
      }
      var k := key.value;
      var pd;
      pd, log := PlayNextChar(connectionMap[k], slot, env, log);
      connectionMap := connectionMap[k := connectionMap[k].(postDial := pd)];
      ret := Success;
    }

    method PostDialProceed(who: CallerInfo, proceed: bool, env: Env) returns (ret: Ret)
      modifies this
      ensures (View(), ret) == CallTable.PostDialProceed(old(View()), who, proceed, env)
    {
      var key := FindConnectionByIndex(connectionMap, who.index);
      if key == None {
        return LocalPtrNull;
      }
      var k := key.value;
      if proceed {
        var _ := ExecutePostDial(who.slotId, connectionMap[k].index, env);
      } else {
        var pd := connectionMap[k].postDial.(state := Canceled);
        connectionMap := connectionMap[k := connectionMap[k].(postDial := pd)];
      }
      ret := Success;
    }
  }
}
