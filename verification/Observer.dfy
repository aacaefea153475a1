/** An observer that sees only the call reports a control sends, and rebuilds the state of every call from them. */
module Observer {
  import opened CallTypes
  import opened OrderedKeys
  import opened CallTable
  import opened TableTheorems

  type Observed = map<int, TelCallState>

  /** A disconnect report ends a call; any other report sets its state. */
  function See(obs: Observed, r: CallReport): Observed {
    if r.state == Disconnected then obs - {r.index} else obs[r.index := r.state]
  }

  function Replay(obs: Observed, rs: seq<CallReport>): Observed {
    if rs == [] then obs else See(Replay(obs, rs[..|rs| - 1]), rs[|rs| - 1])
  }

  function SeeEvent(obs: Observed, e: Event): Observed {
    if e.CallsReport? then Replay(obs, e.reports) else obs
  }

  function Observe(log: Log): Observed {
    Fold(log, map[], SeeEvent)
  }

  /** What the observer should know. */
  function States(t: Table): Observed {
    map k | k in t :: t[k].report.state
  }

  predicate IsSilent(e: Event) { !e.CallsReport? }

  lemma ObserveContinues(log: Log, log': Log)
    requires Continues(log, log', IsSilent)
    ensures Observe(log') == Observe(log)
  {
    FoldContinues(log, log', IsSilent, map[], SeeEvent);
  }

  lemma ObserveReport(log: Log, slot: int, rs: seq<CallReport>)
    ensures Observe(log + [CallsReport(slot, rs)]) == Replay(Observe(log), rs)
  {}

  lemma {:induction false} ReplayConcat(obs: Observed, a: seq<CallReport>, b: seq<CallReport>)
    ensures Replay(obs, a + b) == Replay(Replay(obs, a), b)
    decreases |b|
  {
    if b == [] {
      assert a + b == a;
    } else {
      var init := b[..|b| - 1];
      ReplayConcat(obs, a, init);
      assert (a + b)[..|a + b| - 1] == a + init;
    }
  }

  lemma ReplaySnoc(obs: Observed, rs: seq<CallReport>, r: CallReport)
    ensures Replay(obs, rs + [r]) == See(Replay(obs, rs), r)
  {
    assert (rs + [r])[..|rs|] == rs;
  }

  lemma IndicesSnoc(calls: seq<Listed>)
    requires calls != []
    ensures Indices(calls) == Indices(calls[..|calls| - 1]) + {calls[|calls| - 1].index}
  {}

  /** `seen` is `obs` with the state of every listed call set. */
  ghost predicate SetLive(obs: Observed, calls: seq<Listed>, seen: Observed) {
    && seen.Keys == obs.Keys + Indices(calls)
    && (forall i | 0 <= i < |calls| :: calls[i].index in seen && seen[calls[i].index] == calls[i].report.state)
    && forall k | k in obs && k !in Indices(calls) :: seen[k] == obs[k]
  }

  lemma SetLiveStep(obs: Observed, calls: seq<Listed>, seen: Observed)
    requires calls != [] && Distinct(calls) && SetLive(obs, calls[..|calls| - 1], seen)
    ensures var last := calls[|calls| - 1]; SetLive(obs, calls, seen[last.index := last.report.state])
  {
    var init := calls[..|calls| - 1];
    IndicesSnoc(calls);
    forall i | 0 <= i < |init|
      ensures calls[i].index in seen && seen[calls[i].index] == calls[i].report.state
    {
      assert init[i] == calls[i];
    }
  }

  /** Live reports with distinct indices set exactly their own calls. */
  lemma {:induction false} ReplayLive(obs: Observed, calls: seq<Listed>)
    requires Distinct(calls)
    requires forall i | 0 <= i < |calls| :: calls[i].report.index == calls[i].index
    requires forall i | 0 <= i < |calls| :: calls[i].report.state != Disconnected
    ensures SetLive(obs, calls, Replay(obs, Reports(calls)))
    decreases |calls|
  {
    if calls == [] {
      assert Indices(calls) == {};
    } else {
      var init, last := calls[..|calls| - 1], calls[|calls| - 1];
      assert Reports(calls) == Reports(init) + [last.report];
      ReplayLive(obs, init);
      ReplaySnoc(obs, Reports(init), last.report);
      SetLiveStep(obs, calls, Replay(obs, Reports(init)));
    }
  }

  /** The calls that the reports of the entries `ks` name. */
  function Named(t: Table, ks: set<int>): set<int> {
    set k | k in ks && k in t :: t[k].report.index
  }

  function Without(obs: Observed, gone: set<int>): Observed {
    map k | k in obs && k !in gone :: obs[k]
  }

  function Elements(ks: seq<int>): set<int> {
    set k | k in ks
  }

  lemma NamedSnoc(t: Table, ks: seq<int>)
    requires ks != [] && ks[|ks| - 1] in t
    ensures Named(t, Elements(ks)) == Named(t, Elements(ks[..|ks| - 1])) + {t[ks[|ks| - 1]].report.index}
  {
    var init, last := ks[..|ks| - 1], ks[|ks| - 1];
    assert ks == init + [last];
    assert Elements(ks) == Elements(init) + {last};
  }

  /** Disconnect reports remove exactly the calls they name. */
  lemma {:induction false} ReplayGone(kind: Kind, obs: Observed, t: Table, ks: seq<int>)
    requires forall i | 0 <= i < |ks| :: ks[i] in t
    ensures Replay(obs, Disconnections(kind, t, ks)) == Without(obs, Named(t, Elements(ks)))
    decreases |ks|
  {
    if ks == [] {
      assert Without(obs, Named(t, Elements(ks))) == obs;
    } else {
      var init := ks[..|ks| - 1];
      ReplayGone(kind, obs, t, init);
      assert Disconnections(kind, t, ks)[..|ks| - 1] == Disconnections(kind, t, init);
      NamedSnoc(t, ks);
    }
  }

  /** ... so those of all entries in `ks`, sent in key order, remove what `ks` names. */
  lemma ReplayGoneKeys(kind: Kind, obs: Observed, t: Table, ks: set<int>)
    requires ks <= t.Keys
    ensures Replay(obs, Disconnections(kind, t, SortedKeys(ks))) == Without(obs, Named(t, ks))
  {
    ReplayGone(kind, obs, t, SortedKeys(ks));
    assert Elements(SortedKeys(ks)) == ks;
  }

  lemma ReplayInSlot(slot: int, obs: Observed, rs: seq<CallReport>)
    ensures Replay(obs, InSlot(slot, rs)) == Replay(obs, rs)
    decreases |rs|
  {
    if rs != [] {
      ReplayInSlot(slot, obs, rs[..|rs| - 1]);
      assert InSlot(slot, rs)[..|rs| - 1] == InSlot(slot, rs[..|rs| - 1]);
    }
  }

  // ----- what the observer sees of each table report

  /** A table between operations: coherent, unmarked, and holding reports of live calls under their own index. */
  ghost predicate Idle(t: Table) {
    && Coherent(t) && AllUnmarked(t)
    && forall k | k in t :: t[k].report.index == k && t[k].report.state != Disconnected
  }

  /** Calls a modem may list: each index once, in reports of live calls under their own index. */
  ghost predicate Listable(calls: seq<Listed>) {
    && Distinct(calls)
    && forall i | 0 <= i < |calls| :: calls[i].report.index == calls[i].index && calls[i].report.state != Disconnected
  }

  lemma PromoteIndices(calls: seq<Listed>)
    ensures Indices(Promote(calls)) == Indices(calls)
  {
    assert |Promote(calls)| == |calls|;
    assert forall i | 0 <= i < |calls| :: Promote(calls)[i].index == calls[i].index;
  }

  lemma PromoteListable(calls: seq<Listed>)
    requires Listable(calls)
    ensures Listable(Promote(calls)) && Indices(Promote(calls)) == Indices(calls)
  {}

  /** A table whose entries are exactly the listed reports. */
  lemma StoredIsIdle(t: Table, calls: seq<Listed>)
    requires Listable(calls) && Coherent(t) && AllUnmarked(t) && t.Keys == Indices(calls)
    requires forall i | 0 <= i < |calls| :: t[calls[i].index].report == calls[i].report
    ensures Idle(t)
  {}

  lemma StoredStates(obs: Observed, t: Table, calls: seq<Listed>)
    requires Listable(calls) && t.Keys == Indices(calls)
    requires forall i | 0 <= i < |calls| :: t[calls[i].index].report == calls[i].report
    ensures forall k | k in t :: k in Replay(obs, Reports(calls)) && Replay(obs, Reports(calls))[k] == t[k].report.state
  {
    ReplayLive(obs, calls);
    forall k | k in t
      ensures k in Replay(obs, Reports(calls)) && Replay(obs, Reports(calls))[k] == t[k].report.state
    {
      var i :| 0 <= i < |calls| && calls[i].index == k;
    }
  }

  /** What the observer knows is in the table, under the index its report names. */
  ghost predicate Known(obs: Observed, t: Table) {
    forall k | k in obs :: k in t && t[k].report.index == k
  }

  /** The listed calls that a disconnect report of the same update names too. */
  function Blurred(t: Table, calls: seq<Listed>): set<int> {
    Named(t, t.Keys - Indices(calls)) * Indices(calls)
  }

  lemma IdleBlursNothing(t: Table, calls: seq<Listed>)
    requires Idle(t)
    ensures Blurred(t, calls) == {}
  {
    assert forall k | k in t.Keys - Indices(calls) :: t[k].report.index == k;
  }

  /** A reported update shows the observer the whole table, whatever it missed before, but for the calls that a
      vanished entry's report names as well. */
  lemma UpdateVectorObserved(kind: Kind, obs: Observed, t: Table, t': Table, calls: seq<Listed>)
    requires Known(obs, t) && Listable(calls) && t'.Keys == Indices(calls)
    requires forall i | 0 <= i < |calls| :: t'[calls[i].index].report == calls[i].report
    ensures Replay(obs, UpdateVector(kind, t, calls)) == Without(States(t'), Blurred(t, calls))
  {
    var gone := t.Keys - Indices(calls);
    var live := Replay(obs, Reports(calls));
    ReplayConcat(obs, Reports(calls), Disconnections(kind, t, SortedKeys(gone)));
    ReplayGoneKeys(kind, live, t, gone);
    ReplayLive(obs, calls);
    StoredStates(obs, t', calls);
    LiveThenGone(obs, live, t, t', calls);
  }

  lemma VectorShowsIff(kind: Kind, obs: Observed, t: Table, t': Table, calls: seq<Listed>)
    requires Listable(calls) && t'.Keys == Indices(calls)
    requires forall i | 0 <= i < |calls| :: t'[calls[i].index].report == calls[i].report
    ensures var gone := Named(t, t.Keys - Indices(calls));
            Replay(obs, UpdateVector(kind, t, calls)) == States(t')
            <==> gone !! Indices(calls) && obs.Keys <= Indices(calls) + gone
  {
    var dropped := t.Keys - Indices(calls);
    var live := Replay(obs, Reports(calls));
    ReplayConcat(obs, Reports(calls), Disconnections(kind, t, SortedKeys(dropped)));
    ReplayGoneKeys(kind, live, t, dropped);
    ReplayLive(obs, calls);
    StoredStates(obs, t', calls);
    LeftIff(obs, live, Named(t, dropped), t');
  }

  lemma LeftIff(obs: Observed, live: Observed, gone: set<int>, t: Table)
    requires live.Keys == obs.Keys + t.Keys && forall k | k in t :: k in live && live[k] == t[k].report.state
    ensures Without(live, gone) == States(t) <==> gone !! t.Keys && obs.Keys <= t.Keys + gone
  {
    var left := Without(live, gone);
    if gone !! t.Keys && obs.Keys <= t.Keys + gone {
      forall k ensures k in left <==> k in t {
        assert k in live ==> k in obs.Keys || k in t.Keys;
      }
      assert left.Keys == States(t).Keys;
      assert forall k | k in t :: left[k] == States(t)[k];
    }
    if left == States(t) {
      forall k | k in gone ensures k !in t.Keys {
        assert k !in left;
        assert k in t.Keys <==> k in States(t);
      }
      forall k | k in obs.Keys ensures k in t.Keys + gone {
        assert k in live.Keys;
        assert k !in gone ==> k in left && k in States(t);
      }
    }
  }

  lemma LiveThenGone(obs: Observed, live: Observed, t: Table, t': Table, calls: seq<Listed>)
    requires Known(obs, t) && t'.Keys == Indices(calls) && live.Keys == obs.Keys + Indices(calls)
    requires forall k | k in t' :: k in live && live[k] == t'[k].report.state
    ensures Without(live, Named(t, t.Keys - Indices(calls))) == Without(States(t'), Blurred(t, calls))
  {
    var gone := Named(t, t.Keys - Indices(calls));
    forall k | k in obs && k !in Indices(calls) ensures k in gone {
      assert k in t.Keys - Indices(calls) && t[k].report.index == k;
    }
    assert Without(live, gone).Keys == Without(States(t'), Blurred(t, calls)).Keys;
  }

  /** Nothing is hidden exactly if no listed call is blurred. */
  lemma WithoutNothing(t: Table, gone: set<int>)
    requires gone <= t.Keys
    ensures Without(States(t), gone) == States(t) <==> gone == {}
  {
    if gone != {} {
      assert (forall k :: k !in gone) ==> gone == {};
      var k :| k in gone;
      assert k in States(t) && k !in Without(States(t), gone);
    }
  }

  /** ... and everything is hidden exactly if all calls are. */
  lemma WithoutAll(t: Table, gone: set<int>)
    ensures Without(States(t), gone) == map[] <==> t.Keys <= gone
  {
    if Without(States(t), gone) == map[] {
      forall k | k in t.Keys ensures k in gone {
        assert k !in gone ==> k in Without(States(t), gone);
      }
    }
    if t.Keys <= gone {
      assert forall k :: k !in Without(States(t), gone);
    }
  }

  lemma PostDialIsSilent(log: Log, log': Log)
    requires Continues(log, log', IsPostDialEvent)
    ensures Observe(log') == Observe(log)
  {
    assert Continues(log, log', IsSilent);
    ObserveContinues(log, log');
  }

  /** What an update leaves in the table, and what any observer of its report makes of it. */
  lemma UpdateSeen(kind: Kind, s: Control, slot: int, calls: seq<Listed>, env: Env)
    requires Steady(s.table) && Listable(calls)
    ensures var s' := Update(kind, s, slot, calls, env);
            && Idle(s'.table) && s'.table.Keys == Indices(calls)
            && (forall i | 0 <= i < |calls| :: s'.table[calls[i].index].report == calls[i].report)
            && Observe(s'.log) == if s.ignored then Observe(s.log)
                                  else Replay(Observe(s.log), UpdateVector(kind, s.table, calls))
  {
    var s' := Update(kind, s, slot, calls, env);
    MarkAndSweepExact(kind, s, slot, calls, env);
    UpdateStoresReports(kind, s, slot, calls, env);
    StoredIsIdle(s'.table, calls);
    var played :| UpdateSent(kind, s, s', slot, calls, played);
    PostDialIsSilent(s.log, played);
    ObserveReport(played, slot, UpdateVector(kind, s.table, calls));
  }

  lemma UpdateObserved(kind: Kind, s: Control, slot: int, calls: seq<Listed>, env: Env)
    requires Steady(s.table) && Known(Observe(s.log), s.table) && Listable(calls)
    ensures var s' := Update(kind, s, slot, calls, env);
            && Idle(s'.table) && s'.table.Keys == Indices(calls)
            && Observe(s'.log) == if s.ignored then Observe(s.log)
                                  else Without(States(s'.table), Blurred(s.table, calls))
  {
    UpdateSeen(kind, s, slot, calls, env);
    UpdateVectorObserved(kind, Observe(s.log), s.table, Update(kind, s, slot, calls, env).table, calls);
  }

  /** Any observer at all: a reported update shows it the whole table exactly if the reports of the dropped entries name
      no listed call, and every call it knew is listed or named by them. */
  lemma UpdateShowsIff(kind: Kind, s: Control, slot: int, calls: seq<Listed>, env: Env)
    requires Steady(s.table) && Listable(calls) && !s.ignored
    ensures var s' := Update(kind, s, slot, calls, env);
            var gone := Named(s.table, s.table.Keys - Indices(calls));
            Observe(s'.log) == States(s'.table)
            <==> gone !! Indices(calls) && Observe(s.log).Keys <= Indices(calls) + gone
  {
    UpdateSeen(kind, s, slot, calls, env);
    VectorShowsIff(kind, Observe(s.log), s.table, Update(kind, s, slot, calls, env).table, calls);
  }

  /** Filling keeps what is there, and adds each other index from its first listing. */
  lemma {:induction false} InsertAllEffect(t: Table, calls: seq<Listed>)
    requires Coherent(t)
    ensures Coherent(InsertAll(t, calls)) && InsertAll(t, calls).Keys == t.Keys + Indices(calls)
    ensures forall k | k in t :: InsertAll(t, calls)[k] == t[k]
    ensures forall k | k in InsertAll(t, calls) && k !in t ::
              Carried(NEW_CONNECTION, InsertAll(t, calls)[k]) && !InsertAll(t, calls)[k].flag
    ensures Distinct(calls) ==> forall i | 0 <= i < |calls| && calls[i].index !in t ::
              InsertAll(t, calls)[calls[i].index].report == calls[i].report
    decreases calls
  {
    if calls == [] {
      assert Indices(calls) == {};
    } else {
      var call, rest := calls[0], calls[1..];
      var t1 := InsertOne(t, call);
      InsertAllEffect(t1, rest);
      IndicesCons(calls);
      if Distinct(calls) {
        assert Distinct(rest);
        forall i | 0 <= i < |calls| && calls[i].index !in t
          ensures InsertAll(t, calls)[calls[i].index].report == calls[i].report
        {
          if i > 0 { assert rest[i - 1] == calls[i] && calls[i].index !in t1; }
        }
      }
    }
  }

  lemma FillSteady(s: Control, slot: int, calls: seq<Listed>, env: Env)
    requires s.table == map[]
    ensures Steady(FillEmpty(s, slot, calls, env).table)
  {
    InsertAllEffect(s.table, calls);
  }

  /** The first report of a session is withheld when nobody is registered for an incoming call. */
  predicate Withheld(calls: seq<Listed>, env: Env) {
    !env.registered && calls != [] && calls[0].report.state == Incoming
  }

  lemma FillStores(calls: seq<Listed>)
    requires Listable(calls)
    ensures Idle(InsertAll(map[], calls)) && InsertAll(map[], calls).Keys == Indices(calls)
    ensures Replay(map[], Reports(calls)) == States(InsertAll(map[], calls))
  {
    var t := InsertAll(map[], calls);
    InsertAllEffect(map[], calls);
    assert forall i | 0 <= i < |calls| :: t[calls[i].index].report == calls[i].report;
    StoredIsIdle(t, calls);
    ReplayLive(map[], calls);
    StoredStates(map[], t, calls);
    assert Replay(map[], Reports(calls)).Keys == t.Keys;
  }

  lemma FillObserved(s: Control, slot: int, calls: seq<Listed>, env: Env)
    requires s.table == map[] && Listable(calls)
    requires Observe(s.log) == map[]
    ensures var s' := FillEmpty(s, slot, calls, env);
            && Idle(s'.table) && s'.table.Keys == Indices(calls)
            && Observe(s'.log) == if Withheld(calls, env) then map[] else States(s'.table)
  {
    var s' := FillEmpty(s, slot, calls, env);
    FillStores(calls);
    if !Withheld(calls, env) { ObserveReport(s.log, slot, Reports(calls)); }
  }

  lemma HangUpVectorObserved(kind: Kind, obs: Observed, t: Table, slot: int)
    requires Known(obs, t)
    ensures Replay(obs, HangUpVector(kind, t, slot)) == map[]
  {
    if t == map[] {
      assert HangUpVector(kind, t, slot)[..0] == [];
      assert forall k :: k !in obs;
    } else {
      ReplayInSlot(slot, obs, Disconnections(kind, t, SortedKeys(t.Keys)));
      ReplayGoneKeys(kind, obs, t, t.Keys);
      assert forall k | k in obs :: k in t.Keys && t[k].report.index == k;
      assert Without(obs, Named(t, t.Keys)).Keys == {};
    }
  }

  lemma HangUpObserved(kind: Kind, s: Control, slot: int)
    requires Known(Observe(s.log), s.table)
    ensures var s' := HangUpAllCalls(kind, s, slot);
            && s'.table == map[] && !s'.ignored && !s'.silent
            && Observe(s'.log) == if s.ignored || s.silent then Observe(s.log) else map[]
  {
    ObserveReport(s.log, slot, HangUpVector(kind, s.table, slot));
    HangUpVectorObserved(kind, Observe(s.log), s.table, slot);
  }

  function LostIndices(kind: Kind, infos: seq<CallerInfo>, slot: int): set<int> {
    set info | info in infos && info.slotId == slot && info.callType == (if kind == Ims then TypeIms else TypeCs)
      :: info.index
  }

  lemma LostIndicesCons(kind: Kind, infos: seq<CallerInfo>, slot: int)
    requires infos != []
    ensures LostIndices(kind, infos, slot)
            == (if IsOf(kind, infos[0], slot) then {infos[0].index} else {}) + LostIndices(kind, infos[1..], slot)
  {
    assert infos == [infos[0]] + infos[1..];
    assert forall info :: info in infos <==> info == infos[0] || info in infos[1..];
  }

  /** The reports after a restart remove exactly the calls they name. */
  lemma {:induction false} ReplayLost(kind: Kind, obs: Observed, infos: seq<CallerInfo>, slot: int)
    ensures Replay(obs, LostReports(kind, infos, slot)) == Without(obs, LostIndices(kind, infos, slot))
    decreases infos
  {
    if infos == [] {
      assert Without(obs, LostIndices(kind, infos, slot)) == obs;
    } else {
      var first := if IsOf(kind, infos[0], slot) then [LostReport(kind, infos[0])] else [];
      ReplayConcat(obs, first, LostReports(kind, infos[1..], slot));
      ReplayLost(kind, Replay(obs, first), infos[1..], slot);
      LostIndicesCons(kind, infos, slot);
      if first != [] { assert first[..0] == []; }
    }
  }

  /** The report of a call is among `rs`, with its number. */
  ghost predicate ReportedIn(info: CallerInfo, rs: seq<CallReport>) {
    exists r :: r in rs && r.index == info.index && r.details.accountNum == info.phoneNum
  }

  lemma ReportedInMore(info: CallerInfo, rs: seq<CallReport>, more: seq<CallReport>)
    requires ReportedIn(info, rs)
    ensures ReportedIn(info, more + rs)
  {
    var r :| r in rs && r.index == info.index && r.details.accountNum == info.phoneNum;
    assert r in more + rs;
  }

  lemma LostReportIs(kind: Kind, info: CallerInfo, slot: int)
    requires info.slotId == slot && info.callType == if kind == Ims then TypeIms else TypeCs
    ensures IsOf(kind, info, slot) && ReportedIn(info, [LostReport(kind, info)])
  {
    var r := LostReport(kind, info);
    assert r in [r];
  }

  lemma LostReportFits(kind: Kind, info: CallerInfo, slot: int)
    requires IsOf(kind, info, slot)
    ensures IsLost(LostReport(kind, info), kind, slot)
  {}

  lemma {:induction false} LostFit(kind: Kind, infos: seq<CallerInfo>, slot: int)
    ensures forall r | r in LostReports(kind, infos, slot) :: IsLost(r, kind, slot)
    decreases infos
  {
    if infos != [] {
      LostFit(kind, infos[1..], slot);
      if IsOf(kind, infos[0], slot) { LostReportFits(kind, infos[0], slot); }
    }
  }

  lemma {:induction false} LostIsReported(kind: Kind, infos: seq<CallerInfo>, slot: int, i: nat)
    requires i < |infos| && infos[i].slotId == slot && infos[i].callType == if kind == Ims then TypeIms else TypeCs
    ensures ReportedIn(infos[i], LostReports(kind, infos, slot))
    decreases infos
  {
    var rest := LostReports(kind, infos[1..], slot);
    if i == 0 {
      LostReportIs(kind, infos[0], slot);
      var r :| r in [LostReport(kind, infos[0])] && r.index == infos[0].index
               && r.details.accountNum == infos[0].phoneNum;
      assert r in LostReports(kind, infos, slot);
    } else {
      LostIsReported(kind, infos[1..], slot, i - 1);
      ReportedInMore(infos[i], rest, if IsOf(kind, infos[0], slot) then [LostReport(kind, infos[0])] else []);
    }
  }

  /** Each call of this kind and slot is reported, with its number, and every report is a disconnection of this kind and
      slot. */
  lemma LostAreReported(kind: Kind, infos: seq<CallerInfo>, slot: int)
    ensures forall r | r in LostReports(kind, infos, slot) :: IsLost(r, kind, slot)
    ensures forall info | info in infos && info.slotId == slot
                          && info.callType == (if kind == Ims then TypeIms else TypeCs) ::
              ReportedIn(info, LostReports(kind, infos, slot))
  {
    LostFit(kind, infos, slot);
    forall info | info in infos && info.slotId == slot && info.callType == (if kind == Ims then TypeIms else TypeCs)
      ensures ReportedIn(info, LostReports(kind, infos, slot))
    {
      var i :| 0 <= i < |infos| && infos[i] == info;
      LostIsReported(kind, infos, slot, i);
    }
  }

  ghost predicate IsLost(r: CallReport, kind: Kind, slot: int) {
    && r.state == Disconnected && r.accountId == slot
    && r.details.callType == (if kind == Ims then TypeIms else TypeCs)
    && r.details.callMode == (if kind == Ims then Video else Voice)
  }

  lemma LostObserved(kind: Kind, s: Control, infos: seq<CallerInfo>, slot: int)
    ensures Observe(ReportHangUp(kind, s, infos, slot).log) == Without(Observe(s.log), LostIndices(kind, infos, slot))
  {
    ObserveReport(s.log, slot, LostReports(kind, infos, slot));
    ReplayLost(kind, Observe(s.log), infos, slot);
  }

  // ----- everything else an operation may do

  ghost predicate SameCall(c: Connection, c': Connection) {
    && c'.flag == c.flag && c'.index == c.index
    && c'.report.index == c.report.index && c'.report.state == c.report.state
  }

  /** The same calls in the same states, with no call report sent. */
  ghost predicate SameCalls(s: Control, s': Control) {
    && s'.table.Keys == s.table.Keys
    && (forall k | k in s.table :: SameCall(s.table[k], s'.table[k]))
    && s'.ignored == s.ignored && s'.silent == s.silent
    && Continues(s.log, s'.log, IsSilent)
  }

  lemma SameCallsObserved(s: Control, s': Control)
    requires SameCalls(s, s')
    ensures Idle(s.table) ==> Idle(s'.table)
    ensures States(s'.table) == States(s.table) && Observe(s'.log) == Observe(s.log)
  {
    ObserveContinues(s.log, s'.log);
    assert States(s'.table).Keys == States(s.table).Keys;
    assert forall k | k in s.table :: States(s'.table)[k] == States(s.table)[k];
  }

  lemma ExecutePostDialSameCalls(s: Control, slot: int, id: int, env: Env)
    ensures SameCalls(s, ExecutePostDial(s, slot, id, env))
  {
    var key := FindByIndex(s.table, id);
    if key.Some? {
      var c := s.table[key.value];
      PlayContinues(c.postDial, slot, c.index, env, s.log);
    }
  }

  lemma ExecutePlaysOnly(s: Control, slot: int, id: int, env: Env)
    ensures Continues(s.log, ExecutePostDial(s, slot, id, env).log, IsPostDialEvent)
  {
    var key := FindByIndex(s.table, id);
    if key.Some? { PlayContinues(s.table[key.value].postDial, slot, s.table[key.value].index, env, s.log); }
  }

  lemma ProceedPlaysOnly(s: Control, who: CallerInfo, proceed: bool, env: Env)
    ensures Continues(s.log, PostDialProceed(s, who, proceed, env).0.log, IsPostDialEvent)
  {
    var key := FindByIndex(s.table, who.index);
    if key.Some? { ExecutePlaysOnly(s, who.slotId, s.table[key.value].index, env); }
  }

  lemma ProceedSameCalls(s: Control, who: CallerInfo, proceed: bool, env: Env)
    ensures SameCalls(s, PostDialProceed(s, who, proceed, env).0)
  {
    var key := FindByIndex(s.table, who.index);
    if key.Some? { ExecutePostDialSameCalls(s, who.slotId, s.table[key.value].index, env); }
  }

  /** Single reports, and requests other than DTMF keys and queries for a reason. */
  predicate IsUserEvent(e: Event) {
    match e
    case Request(command, _) => !command.SendDtmf? && !command.QueryReason?
    case SingleReport(_) => true
    case _ => false
  }

  /** A step that at most writes reasons and dial or hold data, and sends requests. */
  ghost predicate UserStep(s: Control, s': Control) {
    && SameFacts(s.table, s'.table)
    && s'.ignored == s.ignored && s'.silent == s.silent
    && Continues(s.log, s'.log, IsUserEvent)
  }

  ghost predicate SameFacts(t: Table, t': Table) {
    && t'.Keys == t.Keys
    && forall k | k in t :: SameCall(t[k], t'[k]) && t'[k].postDial == t[k].postDial
  }

  lemma UserStepSameCalls(s: Control, s': Control)
    requires UserStep(s, s')
    ensures SameCalls(s, s')
  {}

  /** Sending alone. */
  lemma LogUserStep(s: Control, log: Log)
    requires Continues(s.log, log, IsUserEvent)
    ensures UserStep(s, s.(log := log))
  {}

  lemma IssueSends(a: Log, b: Log, command: Command, env: Env)
    requires Continues(a, b, IsUserEvent) && !command.SendDtmf? && !command.QueryReason?
    ensures Continues(a, Issue(b, command, env), IsUserEvent)
  {}

  lemma SingleReportSends(log: Log, report: CallReport)
    ensures Continues(log, log + [SingleReport(report.(state := Disconnecting))], IsUserEvent)
  {}

  lemma {:induction false} HangUpEachSends(kind: Kind, t: Table, ks: seq<int>, log: Log, env: Env)
    requires forall i | 0 <= i < |ks| :: ks[i] in t
    ensures Continues(log, HangUpEach(kind, t, ks, log, env).0, IsUserEvent)
    decreases ks
  {
    if ks != [] {
      var log1 := Issue(log, HeldHangUp(kind, t[ks[0]]), env);
      HangUpEachSends(kind, t, ks[1..], log1, env);
      ContinuesTransitive(log, log1, HangUpEach(kind, t, ks[1..], log1, env).0, IsUserEvent);
    }
  }

  lemma ClearHoldingSends(kind: Kind, t: Table, log: Log, env: Env)
    ensures Continues(log, ClearHolding(kind, t, log, env).0, IsUserEvent)
  {
    HangUpEachSends(kind, t, SortedKeys(t.Keys * InStateKeys(t, Holding)), log, env);
  }
}
