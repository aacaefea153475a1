/** Walking an ordered map: the source iterates `std::map<int32_t, ...>` in ascending key order. */
module OrderedKeys {
  datatype Option<+T> = None | Some(value: T)

  predicate Ascending(ks: seq<int>) {
    forall i, j | 0 <= i < j < |ks| :: ks[i] < ks[j]
  }

  lemma {:induction false} MinExists(s: set<int>)
    requires s != {}
    ensures exists k :: k in s && forall j | j in s :: k <= j
    decreases s
  {
    assert (forall x :: x !in s) ==> s == {};
    var x :| x in s;
    var rest := s - {x};
    if rest == {} {
      assert s == {x};
    } else {
      MinExists(rest);
      var m :| m in rest && forall j | j in rest :: m <= j;
      var k := if x < m then x else m;
      assert forall j | j in s :: j == x || j in rest;
      assert k in s && forall j | j in s :: k <= j;
    }
  }

  /** `begin()`: the least key. */
  function MinKey(s: set<int>): (k: int)
    requires s != {}
    ensures k in s && forall j | j in s :: k <= j
  {
    MinExists(s);
    var k :| k in s && forall j | j in s :: k <= j;
    k
  }

  /** The least key of `s`, if there is one: what a search that stops at its first hit returns. */
  function FirstKey(s: set<int>): (k: Option<int>)
    ensures k.None? <==> s == {}
    ensures k.Some? ==> k.value in s && forall j | j in s :: k.value <= j
  {
    if s == {} then None else Some(MinKey(s))
  }

  /** All keys in iteration order. */
  function SortedKeys(s: set<int>): (ks: seq<int>)
    ensures Ascending(ks)
    ensures forall k :: k in ks <==> k in s
    ensures forall i | 0 <= i < |ks| :: ks[i] in s
  {
    if s == {} then [] else
      var k := MinKey(s);
      [k] + SortedKeys(s - {k})
  }

  lemma MinKeyIs(s: set<int>, k: int)
    requires k in s && forall j | j in s :: k <= j
    ensures MinKey(s) == k
  {}

  /** One step of a walk over `rest` that keeps only the keys in `kept`. */
  lemma SortedStep(rest: set<int>, kept: set<int>)
    requires rest != {}
    ensures var k := MinKey(rest);
            SortedKeys(rest * kept) == (if k in kept then [k] else []) + SortedKeys((rest - {k}) * kept)
  {
    var k := MinKey(rest);
    var now, later := rest * kept, (rest - {k}) * kept;
    if k in kept {
      MinKeyIs(now, k);
      assert now - {k} == later;
      assert SortedKeys(now) == [k] + SortedKeys(now - {k});
    } else {
      assert now == later;
      assert [] + SortedKeys(later) == SortedKeys(later);
    }
  }
}
