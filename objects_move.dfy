/** `move_object` and `move_keys`: a move is a copy followed by the deletion of
    the source, and `move_keys` moves its pairs one by one in input order,
    stopping at the first exception, as `copy_keys` does. */
module ObjectsMove {
  import opened Wrappers
  import opened Errors
  import opened PurePath
  import opened Store
  import ObjectsCopy
  import ObjectsDelete

  /** `move_object(source_bucket, source_key, destination_bucket, destination_key)`
      as calls on the store's state: the copy, and only when it succeeded, the delete. */
  function MoveStep(s: State, sb: string, sk: PathLike, db: string, dk: PathLike): (r: Result<State, Error>)
    ensures r.Success? ==> r.value.buckets.Keys == s.buckets.Keys && !Has(r.value, sb, AsPosix(sk))
  {
    var copied := ObjectsCopy.CopyStep(s, sb, sk, db, dk);
    if copied.Failure? then copied else ObjectsDelete.DeleteStep(copied.value, sb, sk)
  }

  /** The pairs moved one after the other, stopping at the first exception. */
  function MoveRun(s: State, sb: string, db: string, pairs: seq<(PathLike, PathLike)>): (r: Run)
    ensures r.state.buckets.Keys == s.buckets.Keys
    decreases |pairs|
  {
    if pairs == [] then Run(s, None)
    else
      var r := MoveStep(s, sb, pairs[0].0, db, pairs[0].1);
      if r.Failure? then Run(s, Some(r.error)) else MoveRun(r.value, sb, db, pairs[1..])
  }

  /** `move_keys(source_bucket, source_keys, destination_bucket, destination_keys)` */
  function MoveKeysRun(s: State, sb: string, sources: seq<PathLike>, db: string, dests: seq<PathLike>): Run {
    var e := ObjectsCopy.KeyListError(|sources|, |dests|);
    if e.Some? then Run(s, e) else MoveRun(s, sb, db, ObjectsCopy.Zip(sources, dests))
  }

  /** `move_object(source_bucket, source_key, destination_bucket, destination_key)` */
  method MoveObject(store: ObjectStore, sb: string, sk: PathLike, db: string, dk: PathLike) returns (err: Option<Error>)
    modifies store
    ensures store.Snapshot() == After(old(store.Snapshot()), MoveStep(old(store.Snapshot()), sb, sk, db, dk))
    ensures err == ErrorOf(MoveStep(old(store.Snapshot()), sb, sk, db, dk))
  {
    err := store.CopyObject(sb, AsPosix(sk), db, AsPosix(dk));
    if err.Some? {
      return;
    }
    err := ObjectsDelete.DeleteObject(store, sb, sk);
  }

  /** `move_keys(source_bucket, source_keys, destination_bucket, destination_keys)`:
      the new state and the exception raised, if any. */
  method MoveKeys(store: ObjectStore, sb: string, sources: seq<PathLike>, db: string, dests: seq<PathLike>)
    returns (err: Option<Error>)
    modifies store
    ensures Run(store.Snapshot(), err) == MoveKeysRun(old(store.Snapshot()), sb, sources, db, dests)
  {
    err := ObjectsCopy.KeyListError(|sources|, |dests|);
    if err.Some? {
      return;
    }
    var pairs := ObjectsCopy.Zip(sources, dests);
    ghost var goal := MoveRun(store.Snapshot(), sb, db, pairs);
    var i := 0;
    while i < |pairs|
      invariant 0 <= i <= |pairs|
      invariant MoveRun(store.Snapshot(), sb, db, pairs[i..]) == goal
      invariant err.None?
    {
      assert pairs[i..][0] == pairs[i] && pairs[i..][1..] == pairs[i + 1..];
      ghost var before := store.Snapshot();
      err := MoveObject(store, sb, pairs[i].0, db, pairs[i].1);
      if err.Some? {
        assert goal == MoveRun(before, sb, db, pairs[i..]) == Run(before, err);
        return;
      }
      i := i + 1;
    }
    assert pairs[i..] == [];
  }

  /** A move fails exactly when its copy fails, and then raises the copy's exception
      and deletes nothing. A move that succeeds leaves the source's object under the
      destination, removes the source, and keeps every other object as it was. */
  lemma MoveStepMeaning(s: State, sb: string, sk: PathLike, db: string, dk: PathLike)
    ensures MoveStep(s, sb, sk, db, dk).Success? <==> ObjectsCopy.CopyStep(s, sb, sk, db, dk).Success?
    ensures MoveStep(s, sb, sk, db, dk).Failure? ==>
              MoveStep(s, sb, sk, db, dk) == ObjectsCopy.CopyStep(s, sb, sk, db, dk)
    ensures MoveStep(s, sb, sk, db, dk).Success? ==>
              var t := MoveStep(s, sb, sk, db, dk).value;
              var src, dst := AsPosix(sk), AsPosix(dk);
              Has(t, db, dst) && t.buckets[db].data[dst] == s.buckets[sb].data[src]
              && !Has(t, sb, src)
              && (forall c, j :: (c, j) != (sb, src) && (c, j) != (db, dst) ==> (Has(t, c, j) <==> Has(s, c, j)))
              && (forall c, j :: (c, j) != (sb, src) && (c, j) != (db, dst) && Has(s, c, j) ==>
                    t.buckets[c].data[j] == s.buckets[c].data[j])
  {
  }

  /** Objects that no pair names as a source survive a batch of moves. */
  lemma {:induction false} MoveRunKeeps(s: State, sb: string, db: string, pairs: seq<(PathLike, PathLike)>, c: string, j: string)
    requires Has(s, c, j)
    requires forall k :: 0 <= k < |pairs| ==> (c, j) != (sb, AsPosix(pairs[k].0))
    ensures Has(MoveRun(s, sb, db, pairs).state, c, j)
    decreases |pairs|
  {
    if pairs != [] {
      var r := MoveStep(s, sb, pairs[0].0, db, pairs[0].1);
      if r.Success? {
        MoveStepMeaning(s, sb, pairs[0].0, db, pairs[0].1);
        MoveRunKeeps(r.value, sb, db, pairs[1..], c, j);
      }
    }
  }

  /** Objects that are missing and that no pair names as a destination stay missing. */
  lemma {:induction false} MoveRunAbsent(s: State, sb: string, db: string, pairs: seq<(PathLike, PathLike)>, c: string, j: string)
    requires !Has(s, c, j)
    requires forall k :: 0 <= k < |pairs| ==> (c, j) != (db, AsPosix(pairs[k].1))
    ensures !Has(MoveRun(s, sb, db, pairs).state, c, j)
    decreases |pairs|
  {
    if pairs != [] {
      var r := MoveStep(s, sb, pairs[0].0, db, pairs[0].1);
      if r.Success? {
        MoveStepMeaning(s, sb, pairs[0].0, db, pairs[0].1);
        MoveRunAbsent(r.value, sb, db, pairs[1..], c, j);
      }
    }
  }

  /** Running two lists of pairs is running the first, then, unless it raised, the second. */
  lemma {:induction false} MoveRunAppend(s: State, sb: string, db: string, a: seq<(PathLike, PathLike)>, b: seq<(PathLike, PathLike)>)
    ensures var r := MoveRun(s, sb, db, a);
            MoveRun(s, sb, db, a + b) == if r.error.Some? then r else MoveRun(r.state, sb, db, b)
    decreases |a|
  {
    if a != [] {
      assert (a + b)[0] == a[0] && (a + b)[1..] == a[1..] + b;
      var r := MoveStep(s, sb, a[0].0, db, a[0].1);
      if r.Success? {
        MoveRunAppend(r.value, sb, db, a[1..], b);
      }
    } else {
      assert a + b == b;
    }
  }

  /** When no source is also a destination, a batch that raised nothing leaves every
      source gone and every destination present. */
  lemma MoveStepMoves(s: State, sb: string, sk: PathLike, db: string, dk: PathLike)
    requires MoveStep(s, sb, sk, db, dk).Success?
    ensures Has(MoveStep(s, sb, sk, db, dk).value, db, AsPosix(dk))
    ensures (sb, AsPosix(sk)) != (db, AsPosix(dk)) ==> !Has(MoveStep(s, sb, sk, db, dk).value, sb, AsPosix(sk))
  {
    MoveStepMeaning(s, sb, sk, db, dk);
  }

  /** No source key of the batch is also one of its destination keys. */
  predicate Disjoint(sb: string, db: string, pairs: seq<(PathLike, PathLike)>) {
    forall i, k :: 0 <= i < |pairs| && 0 <= k < |pairs| ==> (sb, AsPosix(pairs[i].0)) != (db, AsPosix(pairs[k].1))
  }

  lemma DisjointRest(sb: string, db: string, pairs: seq<(PathLike, PathLike)>)
    requires pairs != [] && Disjoint(sb, db, pairs)
    ensures Disjoint(sb, db, pairs[1..])
    ensures forall k :: 0 <= k < |pairs[1..]| ==> (db, AsPosix(pairs[0].1)) != (sb, AsPosix(pairs[1..][k].0))
    ensures forall k :: 0 <= k < |pairs[1..]| ==> (sb, AsPosix(pairs[0].0)) != (db, AsPosix(pairs[1..][k].1))
    ensures (sb, AsPosix(pairs[0].0)) != (db, AsPosix(pairs[0].1))
  {
    var rest := pairs[1..];
    assert forall k :: 0 <= k < |rest| ==> rest[k] == pairs[k + 1];
  }

  /** A batch whose first move succeeds goes on from the state that move left. */
  lemma MoveRunFirst(s: State, sb: string, db: string, pairs: seq<(PathLike, PathLike)>)
    requires pairs != [] && MoveRun(s, sb, db, pairs).error.None?
    ensures MoveStep(s, sb, pairs[0].0, db, pairs[0].1).Success?
    ensures MoveRun(s, sb, db, pairs) == MoveRun(MoveStep(s, sb, pairs[0].0, db, pairs[0].1).value, sb, db, pairs[1..])
  {
  }

  lemma {:induction false} MoveRunSuccess(s: State, sb: string, db: string, pairs: seq<(PathLike, PathLike)>)
    requires Disjoint(sb, db, pairs)
    requires MoveRun(s, sb, db, pairs).error.None?
    ensures forall i :: 0 <= i < |pairs| ==>
              !Has(MoveRun(s, sb, db, pairs).state, sb, AsPosix(pairs[i].0))
              && Has(MoveRun(s, sb, db, pairs).state, db, AsPosix(pairs[i].1))
    decreases |pairs|
  {
    if pairs != [] {
      MoveRunFirst(s, sb, db, pairs);
      var r := MoveStep(s, sb, pairs[0].0, db, pairs[0].1);
      var rest := pairs[1..];
      var t := MoveRun(s, sb, db, pairs).state;
      DisjointRest(sb, db, pairs);
      MoveStepMoves(s, sb, pairs[0].0, db, pairs[0].1);
      MoveRunSuccess(r.value, sb, db, rest);
      MoveRunKeeps(r.value, sb, db, rest, db, AsPosix(pairs[0].1));
      MoveRunAbsent(r.value, sb, db, rest, sb, AsPosix(pairs[0].0));
      forall i | 0 < i < |pairs|
        ensures !Has(t, sb, AsPosix(pairs[i].0)) && Has(t, db, AsPosix(pairs[i].1))
      {
        assert pairs[i] == rest[i - 1];
      }
    }
  }

  /** The checks come before any move: a batch they refuse leaves the store as it was. */
  lemma MoveKeysChecksFirst(s: State, sb: string, sources: seq<PathLike>, db: string, dests: seq<PathLike>)
    requires |sources| != |dests| || |sources| == 0
    ensures MoveKeysRun(s, sb, sources, db, dests).state == s
    ensures MoveKeysRun(s, sb, sources, db, dests).error.value.cls == if |sources| != |dests| then "IndexError" else "ValueError"
  {
  }
}
