/** An IMS call list, as it is stored and reported. */
module ImsLists {
  import opened CallTypes
  import opened CallTable
  import opened Encapsulation
  import opened ImsSpec
  import opened TableTheorems
  import opened Observer
  import opened ImsTheorems
  import opened ListReports

  /** The modes of the call types 0..3; any other type counts as voice. */
  const MODES: seq<VideoStateType> := [Voice, SendOnly, ReceiveOnly, Video]

  /** The report of a listed call, field by field; `alone` tells whether a waiting call counts as incoming. */
  ghost predicate Mirrors(r: CallReport, slot: int, call: ImsCall, alone: bool)
    requires 0 <= call.state <= 5
  {
    && r.index == call.index && r.accountId == slot && r.state == StateOf(call.state, alone)
    && r.reason == Network(0) && r.message == "" && !r.isPendingHold
    && NumberShown(r.details.accountNum, call.number, call.toa)
    && r.details.name == (if call.number == "" then "" else call.name)
    && r.details.callType == TypeIms
    && r.details.callMode == MODES[if 0 <= call.callType <= 3 then call.callType else 0]
    && r.details.voiceDomain == call.voiceDomain && r.details.mpty == call.mpty
    && r.details.namePresentation == call.namePresentation && r.details.crsType == call.toneType
    && r.details.originalCallType == call.callInitialType && r.details.newCallUseBox == call.newCallUseBox
    && r.details.rttState == call.rttState && r.details.rttChannelId == call.rttChannelId
    && r.details.imsDomain == call.imsDomain
  }

  lemma ListedMirrors(slot: int, list: ImsCallList, i: nat)
    requires WellFormedIms(list) && i < |list.calls|
    ensures Mirrors(ImsListed(slot, list.calls)[i].report, slot, list.calls[i], false)
    ensures Mirrors(Promote(ImsListed(slot, list.calls))[i].report, slot, list.calls[i], |list.calls| == 1)
  {
    CodesOfStates(list.calls[i].state, 0);
  }

  /** After a list, the table and the reports `live` are exactly its calls. */
  ghost predicate ShowsList(t: Table, live: seq<CallReport>, slot: int, list: ImsCallList, alone: bool)
    requires WellFormedIms(list)
  {
    && t.Keys == ListedIndices(list) && |live| == |list.calls|
    && forall i | 0 <= i < |list.calls| ::
         && list.calls[i].index in t && t[list.calls[i].index].number == list.calls[i].number
         && Mirrors(t[list.calls[i].index].report, slot, list.calls[i], alone)
         && Mirrors(live[i], slot, list.calls[i], alone)
  }

  /** ... which they are when each entry and each report is that of its listed call. */
  lemma MirrorsShow(t: Table, slot: int, list: ImsCallList, calls: seq<Listed>, alone: bool)
    requires WellFormedIms(list) && t.Keys == Indices(calls)
    requires var listed := ImsListed(slot, list.calls);
             (calls == listed && !alone) || (calls == Promote(listed) && alone == (|listed| == 1))
    requires forall i | 0 <= i < |calls| :: t[calls[i].index].report == calls[i].report
                                            && t[calls[i].index].number == calls[i].number
    ensures ShowsList(t, Reports(calls), slot, list, alone)
  {
    ImsIndices(slot, list);
    PromoteIndices(ImsListed(slot, list.calls));
    forall i | 0 <= i < |list.calls|
      ensures calls[i].index == list.calls[i].index && calls[i].index in Indices(calls)
      ensures calls[i].number == list.calls[i].number
      ensures Mirrors(calls[i].report, slot, list.calls[i], alone)
    {
      ListedMirrors(slot, list, i);
    }
  }

  /** A list that is reconciled with calls stores and reports each of its calls in the state its code names, but for
      a waiting call that is the only one, which is incoming. */
  lemma UpdateShowsList(s: Control, e: ImsEvent, env: Env) returns (live: seq<CallReport>)
    requires Steady(s.table) && s.table != map[]
    requires e.Snapshot? && WellFormedIms(e.list) && e.list.callSize > 0 && !e.isNeedQuery
    ensures ShowsList(Step(s, e, env).table, live, e.slot, e.list, |e.list.calls| == 1)
    ensures if s.ignored then Continues(s.log, Step(s, e, env).log, IsPostDialEvent)
            else LastReports(Step(s, e, env).log, e.slot, live)
  {
    var listed := ImsListed(e.slot, e.list.calls);
    var calls := Promote(listed);
    live := Reports(calls);
    ImsListable(e.slot, e.list);
    PromoteListable(listed);
    UpdateShows(Ims, s, e.slot, calls, env);
    assert Step(s, e, env) == Update(Ims, s, e.slot, calls, env);
    MirrorsShow(Step(s, e, env).table, e.slot, e.list, calls, |e.list.calls| == 1);
  }

  lemma WithheldIff(slot: int, list: ImsCallList, env: Env)
    requires WellFormedIms(list) && list.calls != []
    ensures Withheld(ImsListed(slot, list.calls), env) <==> !env.registered && list.calls[0].state == 4
  {
    ListedMirrors(slot, list, 0);
  }

  lemma FillsEmpty(s: Control, e: ImsEvent, env: Env)
    requires s.table == map[] && e.Snapshot? && e.list.callSize > 0
    ensures Step(s, e, env) == FillEmpty(s, e.slot, ImsListed(e.slot, e.list.calls), env)
  {}

  /** A list that opens a session stores each of its calls in the state its code names, a single waiting call too, and
      reports them so, unless nobody is registered and the first one is incoming. */
  lemma FillShowsList(s: Control, e: ImsEvent, env: Env) returns (live: seq<CallReport>)
    requires s.table == map[] && e.Snapshot? && WellFormedIms(e.list) && e.list.callSize > 0
    ensures ShowsList(Step(s, e, env).table, live, e.slot, e.list, false)
    ensures Step(s, e, env).log == if !env.registered && e.list.calls[0].state == 4 then s.log
                                   else s.log + [CallsReport(e.slot, live)]
  {
    var calls := ImsListed(e.slot, e.list.calls);
    live := Reports(calls);
    ImsListable(e.slot, e.list);
    FillShows(s, e.slot, calls, env);
    FillsEmpty(s, e, env);
    WithheldIff(e.slot, e.list, env);
    MirrorsShow(Step(s, e, env).table, e.slot, e.list, calls, false);
  }
}
