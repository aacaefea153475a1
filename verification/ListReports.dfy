/** What a call list leaves in the table and in the report of it, entry by entry. */
module ListReports {
  import opened CallTypes
  import opened OrderedKeys
  import opened CallTable
  import opened TableTheorems
  import opened Observer

  /** The states of the codes 0..5 of section 7.18 (+CLCC) of 3GPP TS 27.007, in their order. */
  const STATES: seq<TelCallState> := [Active, Holding, Dialing, Alerting, Incoming, Waiting]

  const CODE_WAITING := 5
  const CODES_OUTGOING: set<int> := {2, 3}
  const CODES_RINGING: set<int> := {3, 4, 5}

  /** A call with this code, in a list that has it alone or beside others. */
  function StateOf(code: int, alone: bool): TelCallState
    requires 0 <= code <= 5
  {
    if alone && code == CODE_WAITING then Incoming else STATES[code]
  }

  /** In terms of the codes: ringing is 3, 4 or 5, and a call has connected when it goes from 2 or 3 to another. */
  lemma CodesOfStates(code: int, later: int)
    requires 0 <= code <= 5 && 0 <= later <= 5
    ensures ToTelCallState(code) == STATES[code]
    ensures IsRinging(STATES[code]) <==> code in CODES_RINGING
    ensures IsConnectedOut(STATES[code], STATES[later]) <==> code in CODES_OUTGOING && later !in CODES_OUTGOING
  {}

  /** Of the states that no list has, none is ringing or on its way out. */
  lemma OtherStates(state: TelCallState, other: TelCallState)
    requires state !in STATES
    ensures !IsRinging(state) && !IsConnectedOut(state, other)
  {}

  /** The number shown: an international one starts with '+'. */
  ghost predicate NumberShown(shown: string, number: string, toa: int) {
    if toa == 145 && number != "" && number[0] != '+' then shown == "+" + number else shown == number
  }

  /** The last thing sent is one call report of the slot: `live` reports, then disconnections only. */
  ghost predicate LastReports(log: Log, slot: int, live: seq<CallReport>) {
    && log != [] && log[|log| - 1].CallsReport? && log[|log| - 1].slot == slot
    && live <= log[|log| - 1].reports && AllGone(log[|log| - 1].reports[|live|..])
  }

  ghost predicate AllGone(rs: seq<CallReport>) {
    forall i | 0 <= i < |rs| :: rs[i].state == Disconnected
  }

  lemma UpdateShows(kind: Kind, s: Control, slot: int, calls: seq<Listed>, env: Env)
    requires Steady(s.table) && Distinct(calls)
    ensures var s' := Update(kind, s, slot, calls, env);
            && s'.table.Keys == Indices(calls)
            && (forall i | 0 <= i < |calls| :: s'.table[calls[i].index].report == calls[i].report
                                               && s'.table[calls[i].index].number == calls[i].number)
            && if s.ignored then Continues(s.log, s'.log, IsPostDialEvent)
               else LastReports(s'.log, slot, Reports(calls))
  {
    var s' := Update(kind, s, slot, calls, env);
    MarkAndSweepExact(kind, s, slot, calls, env);
    UpdateStoresReports(kind, s, slot, calls, env);
    var played :| UpdateSent(kind, s, s', slot, calls, played);
    if !s.ignored {
      VectorIsLast(kind, s.table, slot, calls, played);
    }
  }

  lemma VectorIsLast(kind: Kind, t: Table, slot: int, calls: seq<Listed>, played: Log)
    ensures LastReports(played + [CallsReport(slot, UpdateVector(kind, t, calls))], slot, Reports(calls))
  {
    var gone := Disconnections(kind, t, SortedKeys(t.Keys - Indices(calls)));
    assert UpdateVector(kind, t, calls)[|calls|..] == gone;
  }

  lemma FillShows(s: Control, slot: int, calls: seq<Listed>, env: Env)
    requires s.table == map[] && Distinct(calls)
    ensures var s' := FillEmpty(s, slot, calls, env);
            && s'.table.Keys == Indices(calls)
            && (forall i | 0 <= i < |calls| :: s'.table[calls[i].index] == NEW_CONNECTION.(
                  index := calls[i].index, number := calls[i].number, report := calls[i].report))
            && s'.log == if Withheld(calls, env) then s.log else s.log + [CallsReport(slot, Reports(calls))]
  {
    InsertAllEffect(s.table, calls);
    InsertedAreNew(s.table, calls);
    forall i | 0 <= i < |calls| ensures calls[i].index in Indices(calls) {}
  }

  /** Filling leaves what is there, and makes new entries for the other calls. */
  lemma {:induction false} InsertedAreNew(t: Table, calls: seq<Listed>)
    requires Distinct(calls)
    ensures forall k | k in t :: k in InsertAll(t, calls) && InsertAll(t, calls)[k] == t[k]
    ensures forall i | 0 <= i < |calls| && calls[i].index !in t :: calls[i].index in InsertAll(t, calls)
              && InsertAll(t, calls)[calls[i].index] == NEW_CONNECTION.(
                   index := calls[i].index, number := calls[i].number, report := calls[i].report)
    decreases calls
  {
    if calls != [] {
      var t1, rest := InsertOne(t, calls[0]), calls[1..];
      InsertedAreNew(t1, rest);
      forall i | 0 < i < |calls| && calls[i].index !in t
        ensures calls[i].index in InsertAll(t, calls)
        ensures InsertAll(t, calls)[calls[i].index] == NEW_CONNECTION.(
                  index := calls[i].index, number := calls[i].number, report := calls[i].report)
      {
        assert rest[i - 1] == calls[i] && calls[i].index !in t1;
      }
    }
  }

  // ----- queries for a reason

  predicate IsNoQuery(e: Event) {
    e.Request? ==> !e.command.QueryReason?
  }

  function CountQuery(n: nat, e: Event): nat {
    n + if e.Request? && e.command.QueryReason? then 1 else 0
  }

  /** The queries for a reason sent so far. */
  function QueryCount(log: Log): nat {
    Fold(log, 0, CountQuery)
  }

  /** One query is sent, and nothing else is done. */
  ghost predicate OnlyQueries(s: Control, s': Control, slot: int, env: Env) {
    s' == s.(log := s.log + [Request(QueryReason(slot), env.results(|s.log|))])
  }

  /** A query if `asks`, and no query otherwise. */
  ghost predicate QueriesIf(s: Control, s': Control, asks: bool, slot: int, env: Env) {
    if asks then OnlyQueries(s, s', slot, env) else Continues(s.log, s'.log, IsNoQuery)
  }

  lemma QueriesCounted(s: Control, s': Control, asks: bool, slot: int, env: Env)
    requires QueriesIf(s, s', asks, slot, env)
    ensures QueryCount(s'.log) == QueryCount(s.log) + if asks then 1 else 0
  {
    if !asks { FoldContinues(s.log, s'.log, IsNoQuery, 0, CountQuery); }
  }

  lemma UpdateQueriesNothing(kind: Kind, s: Control, slot: int, calls: seq<Listed>, env: Env)
    requires Steady(s.table)
    ensures Continues(s.log, Update(kind, s, slot, calls, env).log, IsNoQuery)
  {
    MarkAndSweepExact(kind, s, slot, calls, env);
    var played :| UpdateSent(kind, s, Update(kind, s, slot, calls, env), slot, calls, played);
    ContinuesWeaken(s.log, played, IsPostDialEvent, IsNoQuery);
    ContinuesWith(s.log, played, CallsReport(slot, UpdateVector(kind, s.table, calls)), IsNoQuery);
  }

  // ----- the closing list

  /** A closing list sends, unless it is suppressed, one report of the slot: every call in ascending key order as
      disconnected, under its own index where it has one; with no call at all, one disconnection of none. */
  ghost predicate ClosingReports(t: Table, rs: seq<CallReport>, slot: int, ks: seq<int>) {
    && Ascending(ks) && (forall k :: k in ks <==> k in t)
    && (forall i | 0 <= i < |rs| :: rs[i].state == Disconnected && rs[i].accountId == slot)
    && if t == map[] then |rs| == 1
       else |rs| == |ks| && forall i | 0 <= i < |rs| :: ks[i] in t && rs[i].index == t[ks[i]].report.index
                                                       && rs[i].reason == t[ks[i]].reason
  }

  lemma ClosingSends(kind: Kind, s: Control, slot: int) returns (ks: seq<int>)
    ensures var s' := HangUpAllCalls(kind, s, slot);
            && s'.table == map[] && !s'.ignored && !s'.silent && s'.pending == s.pending
            && if s.ignored || s.silent then s'.log == s.log
               else |s'.log| == |s.log| + 1 && s'.log[..|s.log|] == s.log
                    && s'.log[|s.log|].CallsReport? && s'.log[|s.log|].slot == slot
                    && ClosingReports(s.table, s'.log[|s.log|].reports, slot, ks)
  {
    ks := SortedKeys(s.table.Keys);
  }
}
