/** What marking and sweeping a coherent table achieves, and what an observer of the reports sees. */
module TableTheorems {
  import opened CallTypes
  import opened OrderedKeys
  import opened PostDial
  import opened CallTable

  // ----- coherence

  /** Every entry knows the key it is stored under. */
  ghost predicate Coherent(t: Table) {
    forall k | k in t :: t[k].index == k
  }

  /** On a coherent table the linear search is the map lookup. */
  lemma FindIsLookup(t: Table, index: int)
    requires Coherent(t)
    ensures FindByIndex(t, index) == if index in t then Some(index) else None
  {
    var hits := set k | k in t && t[k].index == index;
    assert forall k | k in hits :: k in t && t[k].index == index;
    if index in t {
      assert index in hits;
    }
  }

  lemma FindNone(t: Table, index: int)
    requires forall k | k in t :: t[k].index != index
    ensures FindByIndex(t, index) == None
  {}

  /** What an entry keeps whatever the modem lists. */
  ghost predicate Carried(c: Connection, c': Connection) {
    c'.reason == c.reason && c'.message == c.message && c'.dial == c.dial
  }

  /** The entry at `k`, or the connection that a listed call with that index would start from. */
  function Before(t: Table, k: int): Connection {
    if k in t then t[k] else NEW_CONNECTION
  }

  predicate IsPostDialEvent(e: Event) {
    match e
    case Request(command, _) => command.SendDtmf?
    case PauseTimer(_) => true
    case PostDialChar(_) => true
    case PostDialDelay(_) => true
    case _ => false
  }

  lemma PlayContinues(pd: PostDial, slot: int, index: int, env: Env, log: Log)
    ensures Continues(log, Play(pd, slot, index, env, log), IsPostDialEvent)
  {}

  /** Marking one call touches the entry with its index and nothing else. */
  ghost predicate MarkedOne(s: Control, s': Control, call: Listed) {
    && s'.table.Keys == s.table.Keys + {call.index}
    && Coherent(s'.table)
    && s'.table[call.index].flag && s'.table[call.index].report == call.report
    && s'.table[call.index].number == call.number
    && Carried(Before(s.table, call.index), s'.table[call.index])
    && (forall k | k in s.table && k != call.index :: s'.table[k] == s.table[k])
    && s'.ignored == s.ignored && s'.silent == s.silent
    && Continues(s.log, s'.log, IsPostDialEvent)
  }

  lemma MarkOneEffect(s: Control, slot: int, call: Listed, env: Env)
    requires Coherent(s.table)
    ensures MarkedOne(s, MarkOne(s, slot, call, env), call)
  {
    FindIsLookup(s.table, call.index);
    if call.index in s.table {
      var k := call.index;
      var c := s.table[k].(flag := true, index := k, number := call.number, report := call.report);
      if IsConnectedOut(s.table[k].report.state, call.report.state) {
        var armed := s.(table := s.table[k := c.(postDial := Arm(c.postDial, s.pending))], pending := "");
        FindIsLookup(armed.table, k);
        PlayContinues(armed.table[k].postDial, slot, k, env, armed.log);
      }
    }
  }

  ghost predicate MarkedAll(s: Control, s': Control, calls: seq<Listed>) {
    && s'.table.Keys == s.table.Keys + Indices(calls)
    && Coherent(s'.table)
    && (forall k | k in Indices(calls) :: s'.table[k].flag)
    && (forall k | k in s'.table :: Carried(Before(s.table, k), s'.table[k]))
    && (forall k | k in s.table && k !in Indices(calls) :: s'.table[k] == s.table[k])
    && s'.ignored == s.ignored && s'.silent == s.silent
    && Continues(s.log, s'.log, IsPostDialEvent)
  }

  lemma IndicesCons(calls: seq<Listed>)
    requires calls != []
    ensures Indices(calls) == {calls[0].index} + Indices(calls[1..])
  {}

  lemma MarkedCons(s: Control, m: Control, s': Control, calls: seq<Listed>)
    requires calls != [] && MarkedOne(s, m, calls[0]) && MarkedAll(m, s', calls[1..])
    ensures MarkedAll(s, s', calls)
  {
    IndicesCons(calls);
    ContinuesTransitive(s.log, m.log, s'.log, IsPostDialEvent);
    forall k | k in s'.table ensures Carried(Before(s.table, k), s'.table[k]) {
      assert Carried(Before(m.table, k), s'.table[k]);
    }
    forall k | k in Indices(calls) ensures s'.table[k].flag {
      if k !in Indices(calls[1..]) { assert s'.table[k] == m.table[k]; }
    }
  }

  lemma {:induction false} MarkAllEffect(s: Control, slot: int, calls: seq<Listed>, env: Env)
    requires Coherent(s.table)
    ensures MarkedAll(s, MarkAll(s, slot, calls, env), calls)
    decreases calls
  {
    if calls != [] {
      var m := MarkOne(s, slot, calls[0], env);
      MarkOneEffect(s, slot, calls[0], env);
      MarkAllEffect(m, slot, calls[1..], env);
      MarkedCons(s, m, MarkAll(m, slot, calls[1..], env), calls);
    }
  }

  ghost predicate Distinct(calls: seq<Listed>) {
    forall i, j | 0 <= i < j < |calls| :: calls[i].index != calls[j].index
  }

  /** With each index listed once, every listed call ends up as the report of its entry. */
  lemma {:induction false} MarkAllReports(s: Control, slot: int, calls: seq<Listed>, env: Env)
    requires Coherent(s.table) && Distinct(calls)
    ensures MarkAll(s, slot, calls, env).table.Keys == s.table.Keys + Indices(calls)
    ensures forall i | 0 <= i < |calls| ::
              MarkAll(s, slot, calls, env).table[calls[i].index].report == calls[i].report
              && MarkAll(s, slot, calls, env).table[calls[i].index].number == calls[i].number
    decreases calls
  {
    MarkAllEffect(s, slot, calls, env);
    if calls != [] {
      var m, rest := MarkOne(s, slot, calls[0], env), calls[1..];
      MarkOneEffect(s, slot, calls[0], env);
      MarkAllReports(m, slot, rest, env);
      MarkAllEffect(m, slot, rest, env);
      var t := MarkAll(m, slot, rest, env).table;
      assert calls[0].index !in Indices(rest);
      assert t[calls[0].index] == m.table[calls[0].index];
      forall i | 0 < i < |calls|
        ensures t[calls[i].index].report == calls[i].report && t[calls[i].index].number == calls[i].number
      {
        assert calls[i] == rest[i - 1];
      }
    }
  }

  // ----- mark and sweep

  ghost predicate AllUnmarked(t: Table) {
    forall k | k in t :: !t[k].flag
  }

  /** A table between operations, whatever lists it was reconciled with. */
  ghost predicate Steady(t: Table) {
    Coherent(t) && AllUnmarked(t)
  }

  /** The vector an update reports: the listed calls in list order, then one disconnect report for each vanished
      entry in ascending key order. */
  function UpdateVector(kind: Kind, t: Table, calls: seq<Listed>): seq<CallReport> {
    Reports(calls) + Disconnections(kind, t, SortedKeys(t.Keys - Indices(calls)))
  }

  /** After marking, the unmarked entries are the vanished ones, and they are untouched. */
  lemma GoneAreVanished(kind: Kind, s: Control, m: Control, calls: seq<Listed>)
    requires AllUnmarked(s.table) && MarkedAll(s, m, calls)
    ensures GoneReports(kind, m.table, m.table.Keys)
            == Disconnections(kind, s.table, SortedKeys(s.table.Keys - Indices(calls)))
    ensures Swept(m.table).Keys == Indices(calls)
  {
    var vanished := s.table.Keys - Indices(calls);
    forall k | k in m.table ensures m.table[k].flag <==> k in Indices(calls) {
      if k !in Indices(calls) { assert k in s.table && m.table[k] == s.table[k]; }
    }
    assert forall k | k in Unmarked(m.table) :: k in m.table && !m.table[k].flag;
    assert m.table.Keys * Unmarked(m.table) == vanished;
    var ks := SortedKeys(vanished);
    forall i | 0 <= i < |ks| ensures m.table[ks[i]] == s.table[ks[i]] {}
    assert Disconnections(kind, m.table, ks) == Disconnections(kind, s.table, ks);
    assert forall k :: k in Swept(m.table) <==> k in m.table && m.table[k].flag;
  }

  /** What an update leaves in the table. */
  ghost predicate Reconciled(s: Control, s': Control, calls: seq<Listed>) {
    && s'.table.Keys == Indices(calls)
    && AllUnmarked(s'.table) && Coherent(s'.table)
    && (forall k | k in s'.table :: Carried(Before(s.table, k), s'.table[k]))
    && s'.silent == s.silent
  }

  /** What an update sends: post-dial events, then one report unless suppressed. */
  ghost predicate UpdateSent(kind: Kind, s: Control, s': Control, slot: int, calls: seq<Listed>, played: Log) {
    && Continues(s.log, played, IsPostDialEvent)
    && s'.log == if s.ignored then played else played + [CallsReport(slot, UpdateVector(kind, s.table, calls))]
  }

  /** Mark and sweep is exact: the keys become the listed indices, all marks are gone again, surviving entries keep
      their reason and dial data, and the one report sent, unless suppressed, is `UpdateVector`. */
  lemma MarkAndSweepExact(kind: Kind, s: Control, slot: int, calls: seq<Listed>, env: Env)
    requires Coherent(s.table) && AllUnmarked(s.table)
    ensures var s' := Update(kind, s, slot, calls, env);
            && Reconciled(s, s', calls)
            && s'.ignored == (s.ignored && kind == Cs)
            && exists played :: UpdateSent(kind, s, s', slot, calls, played)
  {
    var m := MarkAll(s, slot, calls, env);
    var s' := Update(kind, s, slot, calls, env);
    MarkAllEffect(s, slot, calls, env);
    GoneAreVanished(kind, s, m, calls);
    assert s'.table == Swept(m.table);
    assert UpdateSent(kind, s, s', slot, calls, m.log);
  }

  /** With each index listed once, every surviving entry holds the report and number of its listed call. */
  lemma UpdateStoresReports(kind: Kind, s: Control, slot: int, calls: seq<Listed>, env: Env)
    requires Coherent(s.table) && AllUnmarked(s.table) && Distinct(calls)
    ensures var s' := Update(kind, s, slot, calls, env);
            s'.table.Keys == Indices(calls)
            && forall i | 0 <= i < |calls| :: s'.table[calls[i].index].report == calls[i].report
                                              && s'.table[calls[i].index].number == calls[i].number
  {
    var m := MarkAll(s, slot, calls, env);
    MarkAllEffect(s, slot, calls, env);
    GoneAreVanished(kind, s, m, calls);
    MarkAllReports(s, slot, calls, env);
    forall i | 0 <= i < |calls|
      ensures Update(kind, s, slot, calls, env).table[calls[i].index].report == calls[i].report
      ensures Update(kind, s, slot, calls, env).table[calls[i].index].number == calls[i].number
    {
      assert calls[i].index in Indices(calls);
    }
  }
}
