/** The number dialled last waits until a call connects; its post-dial part then goes to that call alone. */
module PendingNumber {
  import opened CallTypes
  import opened PostDial
  import opened CallTable
  import opened TableTheorems

  /** The listed call leaves its set-up phase. */
  predicate Connects(t: Table, call: Listed) {
    call.index in t && IsConnectedOut(t[call.index].report.state, call.report.state)
  }

  predicate AnyConnects(t: Table, calls: seq<Listed>) {
    exists i :: 0 <= i < |calls| && Connects(t, calls[i])
  }

  lemma ArmWithNothing(pd: PostDial)
    ensures Arm(pd, "") == pd
  {}

  lemma MarkOnePending(s: Control, slot: int, call: Listed, env: Env)
    requires Coherent(s.table)
    ensures var s' := MarkOne(s, slot, call, env);
            && s'.pending == (if Connects(s.table, call) then "" else s.pending)
            && (call.index in s.table ==>
                  && call.index in s'.table
                  && s'.table[call.index].postDial
                     == if Connects(s.table, call) then Advance(Arm(s.table[call.index].postDial, s.pending))
                        else s.table[call.index].postDial)
  {
    FindIsLookup(s.table, call.index);
    if Connects(s.table, call) {
      var c := s.table[call.index].(flag := true, index := call.index, number := call.number, report := call.report);
      FindIsLookup(s.table[call.index := c.(postDial := Arm(c.postDial, s.pending))], call.index);
    }
  }

  /** The post-dial data of a listed call after a list that has it at position `i`: armed with the pending number if it
      is the first to connect, only advanced if it connects later, else untouched. */
  function PlayedInList(t: Table, calls: seq<Listed>, pending: string, i: nat): PostDial
    requires i < |calls| && calls[i].index in t
  {
    var pd := t[calls[i].index].postDial;
    if !Connects(t, calls[i]) then pd
    else if AnyConnects(t, calls[..i]) then Advance(pd)
    else Advance(Arm(pd, pending))
  }

  /** The facts for the tail of a list, seen from the whole list. */
  lemma TailConnects(s: Control, m: Control, calls: seq<Listed>, i: nat)
    requires 0 < i < |calls| && Distinct(calls) && MarkedOne(s, m, calls[0])
    requires m.pending == if Connects(s.table, calls[0]) then "" else s.pending
    requires calls[i].index in s.table
    ensures calls[i].index in m.table
    ensures PlayedInList(m.table, calls[1..], m.pending, i - 1) == PlayedInList(s.table, calls, s.pending, i)
  {
    var rest := calls[1..];
    assert rest[i - 1] == calls[i];
    assert m.table[calls[i].index] == s.table[calls[i].index];
    TailAny(s, m, calls, i);
    ArmWithNothing(s.table[calls[i].index].postDial);
  }

  lemma TailAny(s: Control, m: Control, calls: seq<Listed>, i: nat)
    requires 0 < i <= |calls| && Distinct(calls) && MarkedOne(s, m, calls[0])
    ensures AnyConnects(s.table, calls[..i])
            <==> Connects(s.table, calls[0]) || AnyConnects(m.table, calls[1..][..i - 1])
  {
    var head, tail := calls[..i], calls[1..][..i - 1];
    forall j | 0 < j < i
      ensures tail[j - 1] == head[j] && (Connects(m.table, head[j]) <==> Connects(s.table, head[j]))
    {
      assert head[j] == calls[j] && calls[0].index != calls[j].index;
      assert head[j].index in m.table <==> head[j].index in s.table;
    }
    if AnyConnects(s.table, head) && !Connects(s.table, calls[0]) {
      var j :| 0 <= j < |head| && Connects(s.table, head[j]);
      assert head[0] == calls[0];
      assert Connects(m.table, tail[j - 1]);
    }
    if AnyConnects(m.table, tail) {
      var j :| 0 <= j < |tail| && Connects(m.table, tail[j]);
      assert tail[j] == head[j + 1];
      assert Connects(s.table, head[j + 1]);
    }
    if Connects(s.table, calls[0]) { assert head[0] == calls[0]; }
  }

  /** From `s` to `s'` the pending number went to the first of `calls` that connects, and is then used up. */
  ghost predicate WentToFirst(s: Control, s': Control, calls: seq<Listed>) {
    && s'.pending == (if AnyConnects(s.table, calls) then "" else s.pending)
    && forall i | 0 <= i < |calls| && calls[i].index in s.table ::
         && calls[i].index in s'.table
         && s'.table[calls[i].index].postDial == PlayedInList(s.table, calls, s.pending, i)
  }

  lemma WentToFirstCons(s: Control, m: Control, s': Control, calls: seq<Listed>)
    requires calls != [] && Distinct(calls) && MarkedOne(s, m, calls[0])
    requires m.pending == if Connects(s.table, calls[0]) then "" else s.pending
    requires calls[0].index in s.table ==>
               m.table[calls[0].index].postDial == PlayedInList(s.table, calls, s.pending, 0)
    requires calls[0].index in s'.table && s'.table[calls[0].index].postDial == m.table[calls[0].index].postDial
    requires WentToFirst(m, s', calls[1..])
    ensures WentToFirst(s, s', calls)
  {
    var rest := calls[1..];
    TailAny(s, m, calls, |calls|);
    assert calls[..|calls|] == calls && rest[..|calls| - 1] == rest;
    forall i | 0 < i < |calls| && calls[i].index in s.table
      ensures calls[i].index in s'.table
      ensures s'.table[calls[i].index].postDial == PlayedInList(s.table, calls, s.pending, i)
    {
      assert rest[i - 1] == calls[i];
      TailConnects(s, m, calls, i);
    }
  }

  lemma {:induction false} PendingGoesToFirst(s: Control, slot: int, calls: seq<Listed>, env: Env)
    requires Coherent(s.table) && Distinct(calls)
    ensures WentToFirst(s, MarkAll(s, slot, calls, env), calls)
    decreases calls
  {
    if calls != [] {
      var m, rest := MarkOne(s, slot, calls[0], env), calls[1..];
      MarkOneEffect(s, slot, calls[0], env);
      MarkOnePending(s, slot, calls[0], env);
      MarkAllEffect(m, slot, rest, env);
      PendingGoesToFirst(m, slot, rest, env);
      assert calls[0].index !in Indices(rest);
      WentToFirstCons(s, m, MarkAll(m, slot, rest, env), calls);
    }
  }

  /** Reconciling a list gives the pending number to the first listed call that connects, and uses it up. */
  lemma UpdateArmsFirst(kind: Kind, s: Control, slot: int, calls: seq<Listed>, env: Env)
    requires Coherent(s.table) && AllUnmarked(s.table) && Distinct(calls)
    ensures WentToFirst(s, Update(kind, s, slot, calls, env), calls)
  {
    var m := MarkAll(s, slot, calls, env);
    MarkAllEffect(s, slot, calls, env);
    GoneAreVanished(kind, s, m, calls);
    PendingGoesToFirst(s, slot, calls, env);
    forall i | 0 <= i < |calls| ensures calls[i].index in Indices(calls) {}
  }
}
