/**
 * src/core.rs: the scheduled event, the `hash!` map-building macro and the
 * `Updatable` default.
 *
 * The boxed closure of a `ScheduledEvent` can change whatever it captured
 * and write to the console; that is modelled by making the closure a
 * transformer of a world `W` holding everything it can reach, so calling
 * the event once is applying the closure once.
 */
module Core {
  import opened Base

  /** `ScheduledEvent<Args>`: the time it is due at and the closure to run. */
  datatype ScheduledEvent<!Args, !W> = ScheduledEvent(runTime: Clock, func: (Args, W) -> W)
  {
    /** `get_scheduled`. */
    function GetScheduled(): Clock
    {
      runTime
    }

    /** `call_event`: the closure applied once to `args`. */
    function CallEvent(args: Args, w: W): W
    {
      func(args, w)
    }
  }

  /** `ScheduledEvent::new`: the event is due at `callAbs` and runs `func`. */
  function NewScheduledEvent<Args(!new), W(!new)>(func: (Args, W) -> W, callAbs: Clock): (r: ScheduledEvent<Args, W>)
    ensures r.GetScheduled() == callAbs
    ensures forall args, w :: r.CallEvent(args, w) == func(args, w)
  {
    ScheduledEvent(callAbs, func)
  }

  /** Calling an event twice runs its closure twice, in call order, and leaves the event due when it was. */
  lemma CallEventTwice<Args, W>(e: ScheduledEvent<Args, W>, a1: Args, a2: Args, w: W)
    ensures e.CallEvent(a2, e.CallEvent(a1, w)) == e.func(a2, e.func(a1, w))
    ensures e.GetScheduled() == e.runTime
  {
  }

  /** The map `hash![(k1, v1), …, (kn, vn)]` builds: the pairs inserted left to right. */
  function HashOf<K, V>(pairs: seq<(K, V)>): map<K, V>
    decreases |pairs|
  {
    if pairs == [] then map[]
    else HashOf(pairs[..|pairs| - 1])[pairs[|pairs| - 1].0 := pairs[|pairs| - 1].1]
  }

  /** `hash!`: an empty map, then one `insert` per pair. */
  method Hash<K, V>(pairs: seq<(K, V)>) returns (m: map<K, V>)
    ensures m == HashOf(pairs)
  {
    m := map[];
    var i := 0;
    while i < |pairs|
      invariant 0 <= i <= |pairs|
      invariant m == HashOf(pairs[..i])
    {
      assert pairs[..i + 1][..i] == pairs[..i];
      m := m[pairs[i].0 := pairs[i].1];
      i := i + 1;
    }
    assert pairs[..|pairs|] == pairs;
  }

  /** The keys of `hash!` are exactly the keys of the pairs. */
  lemma {:induction false} HashKeys<K, V>(pairs: seq<(K, V)>)
    ensures forall k :: k in HashOf(pairs) <==> exists i :: 0 <= i < |pairs| && pairs[i].0 == k
    decreases |pairs|
  {
    if pairs != [] {
      var n := |pairs| - 1;
      var init := pairs[..n];
      HashKeys(init);
      forall k
        ensures k in HashOf(pairs) <==> exists i :: 0 <= i < |pairs| && pairs[i].0 == k
      {
        if k == pairs[n].0 {
          assert pairs[n].0 == k;
        } else if k in HashOf(pairs) {
          assert k in HashOf(init);
          var i :| 0 <= i < |init| && init[i].0 == k;
          assert pairs[i].0 == k;
        }
      }
    }
  }

  /** A key maps to the value of the last pair that has it. */
  lemma {:induction false} HashLastValue<K, V>(pairs: seq<(K, V)>)
    ensures forall i :: 0 <= i < |pairs| && (forall j :: i < j < |pairs| ==> pairs[j].0 != pairs[i].0) ==>
      pairs[i].0 in HashOf(pairs) && HashOf(pairs)[pairs[i].0] == pairs[i].1
    decreases |pairs|
  {
    if pairs != [] {
      var n := |pairs| - 1;
      var init := pairs[..n];
      HashLastValue(init);
      forall i | 0 <= i < n && (forall j :: i < j < |pairs| ==> pairs[j].0 != pairs[i].0)
        ensures pairs[i].0 in HashOf(pairs) && HashOf(pairs)[pairs[i].0] == pairs[i].1
      {
        assert init[i] == pairs[i];
        assert forall j :: i < j < |init| ==> init[j].0 != init[i].0;
        assert pairs[n].0 != pairs[i].0;
      }
    }
  }

  /**
   * The keys of `hash!` are exactly the keys of the pairs, and each key maps
   * to the value of its last pair: for a repeated key the last value wins.
   */
  lemma HashLastWins<K, V>(pairs: seq<(K, V)>)
    ensures forall k :: k in HashOf(pairs) <==> exists i :: 0 <= i < |pairs| && pairs[i].0 == k
    ensures forall i :: 0 <= i < |pairs| && (forall j :: i < j < |pairs| ==> pairs[j].0 != pairs[i].0) ==>
      pairs[i].0 in HashOf(pairs) && HashOf(pairs)[pairs[i].0] == pairs[i].1
  {
    HashKeys(pairs);
    HashLastValue(pairs);
  }

  /** A later pair with a key overrides an earlier one: `hash![(k, a), (k, b)]` maps `k` to `b`. */
  lemma DuplicateKeyKeepsLast<K, V>(k: K, a: V, b: V)
    ensures HashOf([(k, a), (k, b)]) == map[k := b]
  {
    assert [(k, a), (k, b)][..1] == [(k, a)];
    assert [(k, a)][..0] == [];
    assert HashOf([(k, a)]) == map[k := a];
    assert map[k := a][k := b] == map[k := b];
  }

  /** The default `Updatable::update`: the updated value is the value itself. */
  function DefaultUpdate<S>(s: S, t: Clock): (r: S)
    ensures r == s
  {
    s
  }

  /** Any number of default updates, at any times, change nothing. */
  lemma {:induction false} DefaultUpdatesChangeNothing<S>(s: S, ts: seq<Clock>)
    ensures UpdateAll(s, ts) == s
    decreases |ts|
  {
    if ts != [] {
      DefaultUpdatesChangeNothing(s, ts[..|ts| - 1]);
    }
  }

  /** The default `update` at each of `ts` in turn. */
  function UpdateAll<S>(s: S, ts: seq<Clock>): S
    decreases |ts|
  {
    if ts == [] then s else DefaultUpdate(UpdateAll(s, ts[..|ts| - 1]), ts[|ts| - 1])
  }
}
