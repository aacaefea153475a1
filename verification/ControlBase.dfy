/** The searches and the post-dial driver that both controls use on their table. */
module ControlBase {
  import opened CallTypes
  import opened OrderedKeys
  import opened PostDial
  import opened CallTable

  const MAXIMUM_CALLS := 6

  predicate CanCall(t: Table) {
    |t| <= MAXIMUM_CALLS
  }

  method FindConnectionByIndex(t: Table, index: int) returns (key: Option<int>)
    ensures key == FindByIndex(t, index)
  {
    var rest := t.Keys;
    while rest != {}
      invariant rest <= t.Keys
      invariant forall k | k in t :: k in rest || t[k].index != index
    {
      var k := MinKey(rest);
      if t[k].index == index {
        ghost var hits := set j | j in t && t[j].index == index;
        assert k in hits;
        assert forall j | j in hits :: j in t;
        assert forall j | j in hits :: j in rest;
        return Some(k);
      }
      rest := rest - {k};
    }
    return None;
  }

  method FindConnectionByState(t: Table, state: TelCallState) returns (key: Option<int>)
    ensures key == FindByState(t, state)
  {
    var rest := t.Keys;
    while rest != {}
      invariant rest <= t.Keys
      invariant forall k | k in t :: k in rest || t[k].report.state != state
    {
      var k := MinKey(rest);
      if t[k].report.state == state {
        ghost var hits := set j | j in t && t[j].report.state == state;
        assert k in hits;
        assert forall j | j in hits :: j in t;
        assert forall j | j in hits :: j in rest;
        return Some(k);
      }
      rest := rest - {k};
    }
    return None;
  }

  /** The two state searches agree. */
  lemma StateSearchAgrees(t: Table, state: TelCallState)
    ensures IsInState(t, state) <==> FindByState(t, state).Some?
  {
    var hits := set k | k in t && t[k].report.state == state;
    if IsInState(t, state) {
      var k :| k in t && t[k].report.state == state;
      assert k in hits;
    } else {
      assert forall k | k in hits :: k in t;
    }
  }

  method IsAnyInState(t: Table, state: TelCallState) returns (found: bool)
    ensures found == IsInState(t, state)
  {
    var rest := t.Keys;
    while rest != {}
      invariant rest <= t.Keys
      invariant forall k | k in t :: k in rest || t[k].report.state != state
    {
      var k := MinKey(rest);
      if t[k].report.state == state {
        return true;
      }
      rest := rest - {k};
    }
    return false;
  }

  /** Whether some ended call still has no disconnect reason; `listed` are the indices of the call list. */
  method EndCallWithoutReason(t: Table, listed: seq<int>) returns (found: bool)
    ensures found == HasEndCallWithoutReason(t, set i | i in listed)
  {
    var rest := t.Keys;
    while rest != {}
      invariant rest <= t.Keys
      invariant forall k | k in t :: k in rest || !EndedWithoutReason(t[k], set i | i in listed)
    {
      var k := MinKey(rest);
      if t[k].reason == Invalid {
        var isFind := false;
        var i := 0;
        while i < |listed| && !isFind
          invariant 0 <= i <= |listed|
          invariant isFind <==> t[k].index in listed[..i]
        {
          isFind := t[k].index == listed[i];
          i := i + 1;
        }
        if !isFind {
          assert EndedWithoutReason(t[k], set i | i in listed);
          return true;
        }
      }
      rest := rest - {k};
    }
    return false;
  }

  /** Takes one post-dial step on a connection found in the table, and tells the call manager. */
  method PlayNextChar(c: Connection, slot: int, env: Env, log: Log) returns (pd: PostDial, log': Log)
    ensures pd == Advance(c.postDial)
    ensures log' == Play(c.postDial, slot, c.index, env, log)
  {
    var connection := new BaseConnection(c.index, c.postDial, log);
    var state, taken := connection.ProcessNextChar(slot, env);
    pd, log' := connection.View(), connection.log;
    if state == Started {
      log' := log' + [PostDialChar(taken.value)];
    } else if state == Delay {
      var left := connection.GetLeftPostDialCallString();
      log' := log' + [PostDialDelay(left)];
    }
  }
}
