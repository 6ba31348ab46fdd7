/**
  `Object.myEntries` and `Object.myFromEntries`: an object to its list of
  `[key, value]` entries, and such a list back to a plain object.

  A plain object's keys carry no order here, so `MyEntries` may list them in
  any order; everything it promises holds whatever the order.
 */
module ObjectMethods {
  import opened Values

  /** A `[key, value]` entry. */
  type Entry = (string, Value)

  /** `pool` lists every key of `props` exactly once, each with its value, and nothing else. */
  ghost predicate IsEntriesOf(pool: seq<Entry>, props: map<string, Value>) {
    && (forall j :: 0 <= j < |pool| ==> pool[j].0 in props && pool[j].1 == props[pool[j].0])
    && (forall k :: k in props ==> exists j :: 0 <= j < |pool| && pool[j].0 == k)
    && (forall j, l :: 0 <= j < l < |pool| ==> pool[j].0 != pool[l].0)
  }

  /**
    `myEntries`: an empty list unless the argument's tag is `[object Object]`
    (so arrays and primitives give `[]`); for a plain object, one entry per
    own key, holding that key's value.
   */
  method MyEntries(o: Value) returns (pool: seq<Entry>)
    ensures !o.Obj? ==> pool == []
    ensures o.Obj? ==> IsEntriesOf(pool, o.props)
  {
    pool := [];
    if ToStringTag(o) == "[object Object]" {
      var props := o.props;
      var rest := props.Keys;
      ghost var seen: set<string> := {};
      while rest != {}
        invariant rest !! seen && rest + seen == props.Keys
        invariant forall j :: 0 <= j < |pool| ==> pool[j].0 in seen && pool[j].1 == props[pool[j].0]
        invariant forall k :: k in seen ==> exists j :: 0 <= j < |pool| && pool[j].0 == k
        invariant forall j, l :: 0 <= j < l < |pool| ==> pool[j].0 != pool[l].0
        decreases rest
      {
        var k :| k in rest;
        ghost var before := pool;
        pool := pool + [(k, props[k])];
        assert forall j :: 0 <= j < |before| ==> pool[j] == before[j];
        assert pool[|before|].0 == k;
        rest := rest - {k};
        seen := seen + {k};
      }
    }
  }

  /** A list of an object's entries has exactly one entry per own key. */
  lemma {:induction false} EntriesCount(pool: seq<Entry>, props: map<string, Value>)
    requires IsEntriesOf(pool, props)
    ensures |pool| == |props.Keys|
  {
    if pool == [] {
      assert props.Keys == {};
    } else {
      var n := |pool| - 1;
      var key := pool[n].0;
      var front := pool[..n];
      var smaller := props - {key};
      assert smaller.Keys == props.Keys - {key};
      forall k | k in smaller ensures exists j :: 0 <= j < |front| && front[j].0 == k {
        var j :| 0 <= j < |pool| && pool[j].0 == k;
        assert j != n && front[j] == pool[j];
      }
      forall j | 0 <= j < |front| ensures front[j].0 in smaller && front[j].1 == smaller[front[j].0] {
        assert front[j] == pool[j] && pool[j].0 != pool[n].0;
      }
      EntriesCount(front, smaller);
    }
  }

  /** The index of the last of the first `n` entries whose key is `k`, or -1 if there is none. */
  function LastIndexBefore(ps: seq<Entry>, k: string, n: nat): (r: int)
    requires n <= |ps|
    ensures -1 <= r < n
    ensures r >= 0 ==> ps[r].0 == k
    ensures forall j :: r < j < n ==> ps[j].0 != k
  {
    if n == 0 then -1
    else if ps[n - 1].0 == k then n - 1
    else LastIndexBefore(ps, k, n - 1)
  }

  /**
    `props` is what assigning the first `n` entries in turn gives: it has a
    key iff some of those entries has it, and under each key the value of
    the last entry with that key.
   */
  ghost predicate LastWriteWins(ps: seq<Entry>, n: nat, props: map<string, Value>)
    requires n <= |ps|
  {
    && (forall k :: k in props <==> exists j :: 0 <= j < n && ps[j].0 == k)
    && (forall k :: k in props ==> LastIndexBefore(ps, k, n) >= 0 && props[k] == ps[LastIndexBefore(ps, k, n)].1)
  }

  /** `myFromEntries`: a new plain object, assigning `_o[k] = v` for each entry in order. */
  method MyFromEntries(ps: seq<Entry>) returns (o: Value)
    ensures o.Obj? && LastWriteWins(ps, |ps|, o.props)
  {
    var props: map<string, Value> := map[];
    for i := 0 to |ps|
      invariant LastWriteWins(ps, i, props)
    {
      var (k, v) := ps[i];
      props := props[k := v];
    }
    o := Obj(props);
  }

  /** An entry that no later entry overrides decides the value under its key. */
  lemma LaterEntryOverwrites(ps: seq<Entry>, props: map<string, Value>, i: nat)
    requires LastWriteWins(ps, |ps|, props)
    requires i < |ps| && forall j :: i < j < |ps| ==> ps[j].0 != ps[i].0
    ensures ps[i].0 in props && props[ps[i].0] == ps[i].1
  {
  }

  /** The object built from a list of entries is determined by the list. */
  lemma LastWriteWinsUnique(ps: seq<Entry>, a: map<string, Value>, b: map<string, Value>)
    requires LastWriteWins(ps, |ps|, a) && LastWriteWins(ps, |ps|, b)
    ensures a == b
  {
  }

  /**
    Round trip: rebuilding an object from a list of its entries gives back
    the same keys and values, whatever order the entries come in.
   */
  lemma EntriesRoundTrip(props: map<string, Value>, pool: seq<Entry>, rebuilt: map<string, Value>)
    requires IsEntriesOf(pool, props)
    requires LastWriteWins(pool, |pool|, rebuilt)
    ensures rebuilt == props
  {
  }
}
