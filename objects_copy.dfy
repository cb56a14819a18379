/** `copy_object`, `copy_keys` and `copy_prefix`.

    `copy_keys` submits its copies through a generator that the loop consumes
    one `ex.result()` at a time, so each copy is submitted only after the one
    before it has finished: the pairs are copied one by one in input order and
    the first exception stops the batch. */
module ObjectsCopy {
  import opened Wrappers
  import opened Errors
  import opened PyStr
  import opened PurePath
  import opened Glob
  import opened Store
  import ObjectsList

  /** `zip(xs, ys)` */
  function Zip<X, Y>(xs: seq<X>, ys: seq<Y>): (r: seq<(X, Y)>)
    ensures |r| == if |xs| < |ys| then |xs| else |ys|
    ensures forall i :: 0 <= i < |r| ==> r[i] == (xs[i], ys[i])
  {
    if xs == [] || ys == [] then [] else [(xs[0], ys[0])] + Zip(xs[1..], ys[1..])
  }

  /** The checks `copy_keys` and `move_keys` make before any request: unequal
      lengths are an `IndexError`, and only then is an empty list a `ValueError`. */
  function KeyListError(n: nat, m: nat): (e: Option<Error>)
    ensures e.None? <==> n == m && n > 0
    ensures n != m ==> e == Some(Builtin("IndexError", "Key lists must have the same length"))
    ensures n == m == 0 ==> e == Some(Builtin("ValueError", "Key list length must be greater than zero"))
  {
    if n != m then Some(Builtin("IndexError", "Key lists must have the same length"))
    else if n == 0 then Some(Builtin("ValueError", "Key list length must be greater than zero"))
    else None
  }

  /** `copy_object(source_bucket, source_key, destination_bucket, destination_key)`
      as a call on the store's state. */
  function CopyStep(s: State, sb: string, sk: PathLike, db: string, dk: PathLike): (r: Result<State, Error>)
    ensures r.Success? ==> r.value.buckets.Keys == s.buckets.Keys && Has(s, sb, AsPosix(sk)) && Has(r.value, db, AsPosix(dk))
                           && r.value.buckets[db].data[AsPosix(dk)] == s.buckets[sb].data[AsPosix(sk)]
  {
    CopyCall(s, sb, AsPosix(sk), db, AsPosix(dk))
  }

  /** The pairs copied one after the other, stopping at the first exception. */
  function CopyRun(s: State, sb: string, db: string, pairs: seq<(PathLike, PathLike)>): (r: Run)
    ensures r.state.buckets.Keys == s.buckets.Keys
    decreases |pairs|
  {
    if pairs == [] then Run(s, None)
    else
      var r := CopyStep(s, sb, pairs[0].0, db, pairs[0].1);
      if r.Failure? then Run(s, Some(r.error)) else CopyRun(r.value, sb, db, pairs[1..])
  }

  /** `copy_keys(source_bucket, source_keys, destination_bucket, destination_keys)` */
  function CopyKeysRun(s: State, sb: string, sources: seq<PathLike>, db: string, dests: seq<PathLike>): Run {
    var e := KeyListError(|sources|, |dests|);
    if e.Some? then Run(s, e) else CopyRun(s, sb, db, Zip(sources, dests))
  }

  /** `copy_object(source_bucket, source_key, destination_bucket, destination_key)` */
  method CopyObject(store: ObjectStore, sb: string, sk: PathLike, db: string, dk: PathLike) returns (err: Option<Error>)
    modifies store
    ensures store.Snapshot() == After(old(store.Snapshot()), CopyStep(old(store.Snapshot()), sb, sk, db, dk))
    ensures err == ErrorOf(CopyStep(old(store.Snapshot()), sb, sk, db, dk))
  {
    err := store.CopyObject(sb, AsPosix(sk), db, AsPosix(dk));
  }

  /** `copy_keys(source_bucket, source_keys, destination_bucket, destination_keys)`:
      the new state and the exception raised, if any. */
  method CopyKeys(store: ObjectStore, sb: string, sources: seq<PathLike>, db: string, dests: seq<PathLike>)
    returns (err: Option<Error>)
    modifies store
    ensures Run(store.Snapshot(), err) == CopyKeysRun(old(store.Snapshot()), sb, sources, db, dests)
  {
    err := KeyListError(|sources|, |dests|);
    if err.Some? {
      return;
    }
    var pairs := Zip(sources, dests);
    ghost var goal := CopyRun(store.Snapshot(), sb, db, pairs);
    var i := 0;
    while i < |pairs|
      invariant 0 <= i <= |pairs|
      invariant CopyRun(store.Snapshot(), sb, db, pairs[i..]) == goal
      invariant err.None?
    {
      assert pairs[i..][0] == pairs[i] && pairs[i..][1..] == pairs[i + 1..];
      ghost var before := store.Snapshot();
      err := CopyObject(store, sb, pairs[i].0, db, pairs[i].1);
      if err.Some? {
        assert goal == CopyRun(before, sb, db, pairs[i..]) == Run(before, err);
        return;
      }
      i := i + 1;
    }
    assert pairs[i..] == [];
  }

  /** Running two lists of pairs is running the first, then, unless it raised, the second
      from where the first left the store: pairs run in order and the first failure ends the batch. */
  lemma {:induction false} CopyRunAppend(s: State, sb: string, db: string, a: seq<(PathLike, PathLike)>, b: seq<(PathLike, PathLike)>)
    ensures var r := CopyRun(s, sb, db, a);
            CopyRun(s, sb, db, a + b) == if r.error.Some? then r else CopyRun(r.state, sb, db, b)
    decreases |a|
  {
    if a != [] {
      assert (a + b)[0] == a[0] && (a + b)[1..] == a[1..] + b;
      var r := CopyStep(s, sb, a[0].0, db, a[0].1);
      if r.Success? {
        CopyRunAppend(r.value, sb, db, a[1..], b);
      }
    } else {
      assert a + b == b;
    }
  }

  /** Pair `i` is where the batch stopped: the pairs before it raised nothing, it
      raised, and the batch ends with its exception in the state the pairs before left. */
  ghost predicate StopsAt(s: State, sb: string, db: string, pairs: seq<(PathLike, PathLike)>, i: nat) {
    i < |pairs|
    && var before := CopyRun(s, sb, db, pairs[..i]);
       var step := CopyStep(before.state, sb, pairs[i].0, db, pairs[i].1);
       before.error.None? && step.Failure? && CopyRun(s, sb, db, pairs) == Run(before.state, Some(step.error))
  }

  /** A pair that raises after the pairs before it raised nothing is where the batch stopped. */
  lemma StopsAtParts(s: State, sb: string, db: string, pairs: seq<(PathLike, PathLike)>, i: nat)
    requires i < |pairs|
    requires CopyRun(s, sb, db, pairs[..i]).error.None?
    requires CopyStep(CopyRun(s, sb, db, pairs[..i]).state, sb, pairs[i].0, db, pairs[i].1).Failure?
    ensures StopsAt(s, sb, db, pairs, i)
  {
    CopyRunAppend(s, sb, db, pairs[..i], pairs[i..]);
    assert pairs[..i] + pairs[i..] == pairs;
    assert pairs[i..][0] == pairs[i];
  }

  lemma PrefixOfPrefix<T>(xs: seq<T>, n: nat, i: nat)
    requires i < n <= |xs|
    ensures xs[..n][..i] == xs[..i] && xs[..n][i] == xs[i]
  {
  }

  /** A batch of one pair raises exactly when that pair does. */
  lemma CopyRunOne(s: State, sb: string, db: string, x: (PathLike, PathLike))
    ensures CopyRun(s, sb, db, [x]).error.Some? <==> CopyStep(s, sb, x.0, db, x.1).Failure?
  {
    assert [x][1..] == [];
  }

  /** When a batch raises, it is the exception of one pair, raised from the state the
      pairs before it left; no later pair has touched the store. */
  lemma {:induction false} CopyRunStops(s: State, sb: string, db: string, pairs: seq<(PathLike, PathLike)>)
    requires CopyRun(s, sb, db, pairs).error.Some?
    ensures exists i: nat :: StopsAt(s, sb, db, pairs, i)
    decreases |pairs|
  {
    assert pairs != [];
    var n := |pairs|;
    var pre := pairs[..n - 1];
    var last := pairs[n - 1];
    assert pre + [last] == pairs;
    if CopyRun(s, sb, db, pre).error.Some? {
      CopyRunStops(s, sb, db, pre);
      var i: nat :| StopsAt(s, sb, db, pre, i);
      PrefixOfPrefix(pairs, n - 1, i);
      StopsAtParts(s, sb, db, pairs, i);
    } else {
      var before := CopyRun(s, sb, db, pre);
      assert CopyRun(before.state, sb, db, [last]).error.Some? by {
        CopyRunAppend(s, sb, db, pre, [last]);
      }
      CopyRunOne(before.state, sb, db, last);
      StopsAtParts(s, sb, db, pairs, n - 1);
    }
  }

  /** Copies only add objects: whatever existed before a batch exists after it. */
  lemma {:induction false} CopyRunKeeps(s: State, sb: string, db: string, pairs: seq<(PathLike, PathLike)>, c: string, j: string)
    requires Has(s, c, j)
    ensures Has(CopyRun(s, sb, db, pairs).state, c, j)
    decreases |pairs|
  {
    if pairs != [] {
      var r := CopyStep(s, sb, pairs[0].0, db, pairs[0].1);
      if r.Success? {
        CopyRunKeeps(r.value, sb, db, pairs[1..], c, j);
      }
    }
  }

  /** After a batch that raised nothing, every source is still there and every destination exists. */
  lemma {:induction false} CopyRunSuccess(s: State, sb: string, db: string, pairs: seq<(PathLike, PathLike)>)
    requires CopyRun(s, sb, db, pairs).error.None?
    ensures forall i :: 0 <= i < |pairs| ==>
              Has(CopyRun(s, sb, db, pairs).state, sb, AsPosix(pairs[i].0))
              && Has(CopyRun(s, sb, db, pairs).state, db, AsPosix(pairs[i].1))
    decreases |pairs|
  {
    if pairs != [] {
      var r := CopyStep(s, sb, pairs[0].0, db, pairs[0].1);
      var t := CopyRun(s, sb, db, pairs).state;
      CopyRunSuccess(r.value, sb, db, pairs[1..]);
      CopyRunKeeps(r.value, sb, db, pairs[1..], sb, AsPosix(pairs[0].0));
      CopyRunKeeps(r.value, sb, db, pairs[1..], db, AsPosix(pairs[0].1));
      forall i | 0 < i < |pairs|
        ensures Has(t, sb, AsPosix(pairs[i].0)) && Has(t, db, AsPosix(pairs[i].1))
      {
        assert pairs[i] == pairs[1..][i - 1];
      }
    }
  }

  /** The checks come before any copy: a batch they refuse leaves the store as it was. */
  lemma CopyKeysChecksFirst(s: State, sb: string, sources: seq<PathLike>, db: string, dests: seq<PathLike>)
    requires |sources| != |dests| || |sources| == 0
    ensures CopyKeysRun(s, sb, sources, db, dests).state == s
    ensures CopyKeysRun(s, sb, sources, db, dests).error.value.cls == if |sources| != |dests| then "IndexError" else "ValueError"
  {
  }

  /** The destination keys of `copy_prefix`: the listed keys themselves, or each
      `Path(key).as_posix()` with every occurrence of `Path(old).as_posix()` replaced
      by `Path(new).as_posix()`. */
  function DestinationKeys(keys: seq<PathLike>, changePrefix: Option<(PathLike, PathLike)>): (r: seq<PathLike>)
    ensures |r| == |keys|
  {
    if changePrefix.None? then keys
    else seq(|keys|, i requires 0 <= i < |keys| =>
               Str(Replace(AsPosix(keys[i]), AsPosix(changePrefix.value.0), AsPosix(changePrefix.value.1))))
  }

  /** `copy_prefix(source_bucket, source_prefix, destination_bucket, change_prefix, filter_keys)` */
  function CopyPrefixRun(s: State, sb: string, sourcePrefix: PathLike, db: string,
                         changePrefix: Option<(PathLike, PathLike)>, filterKeys: Option<string>): Run {
    var listed := ObjectsList.ListResult(s, sb, sourcePrefix, filterKeys, MaxPage, false);
    if listed.Failure? then Run(s, Some(listed.error))
    else CopyKeysRun(s, sb, listed.value, db, DestinationKeys(listed.value, changePrefix))
  }

  /** `copy_prefix(source_bucket, source_prefix, destination_bucket, change_prefix, filter_keys)` */
  method CopyPrefix(store: ObjectStore, sb: string, sourcePrefix: PathLike, db: string,
                    changePrefix: Option<(PathLike, PathLike)>, filterKeys: Option<string>) returns (err: Option<Error>)
    modifies store
    ensures Run(store.Snapshot(), err) == CopyPrefixRun(old(store.Snapshot()), sb, sourcePrefix, db, changePrefix, filterKeys)
  {
    var listed, requests, pages := ObjectsList.ListObjects(store, sb, sourcePrefix, filterKeys, MaxPage, false);
    if listed.Failure? {
      return Some(listed.error);
    }
    var dests := DestinationKeys(listed.value, changePrefix);
    err := CopyKeys(store, sb, listed.value, db, dests);
  }

  /** `copy_prefix` hands `copy_keys` lists of the same length, so it never raises
      `IndexError`; it raises `ValueError` when nothing is listed, and otherwise copies
      each listed key to its destination. */
  lemma CopyPrefixShape(s: State, sb: string, sourcePrefix: PathLike, db: string,
                        changePrefix: Option<(PathLike, PathLike)>, filterKeys: Option<string>)
    requires ObjectsList.ListResult(s, sb, sourcePrefix, filterKeys, MaxPage, false).Success?
    ensures var keys := ObjectsList.ListResult(s, sb, sourcePrefix, filterKeys, MaxPage, false).value;
            var r := CopyPrefixRun(s, sb, sourcePrefix, db, changePrefix, filterKeys);
            (r.error.Some? ==> r.error.value.cls != "IndexError")
            && (keys == [] ==> r == Run(s, Some(Builtin("ValueError", "Key list length must be greater than zero"))))
            && (keys != [] ==> r == CopyRun(s, sb, db, Zip(keys, DestinationKeys(keys, changePrefix))))
  {
    var keys := ObjectsList.ListResult(s, sb, sourcePrefix, filterKeys, MaxPage, false).value;
    if keys != [] {
      CopyRunErrors(s, sb, db, Zip(keys, DestinationKeys(keys, changePrefix)));
    }
  }

  /** The exceptions a batch of copies raises are those of the store's calls. */
  lemma {:induction false} CopyRunErrors(s: State, sb: string, db: string, pairs: seq<(PathLike, PathLike)>)
    ensures var r := CopyRun(s, sb, db, pairs);
            r.error.Some? ==> r.error.value.cls == "ClientError" || r.error.value.cls == "ParamValidationError"
    decreases |pairs|
  {
    if pairs != [] {
      var r := CopyStep(s, sb, pairs[0].0, db, pairs[0].1);
      if r.Success? {
        CopyRunErrors(r.value, sb, db, pairs[1..]);
      }
    }
  }

  /** A listed key made of `Path(old).as_posix()` followed by text that does not contain
      it again is copied to `Path(new).as_posix()` followed by that text. */
  lemma DestinationSwapsPrefix(rest: string, oldPrefix: PathLike, newPrefix: PathLike)
    requires !Occurs(rest, AsPosix(oldPrefix))
    requires AsPosix(Str(AsPosix(oldPrefix) + rest)) == AsPosix(oldPrefix) + rest
    ensures DestinationKeys([Str(AsPosix(oldPrefix) + rest)], Some((oldPrefix, newPrefix)))
            == [Str(AsPosix(newPrefix) + rest)]
  {
    ReplaceLeading(AsPosix(oldPrefix), rest, AsPosix(newPrefix));
  }

  /** Without `change_prefix` every object is copied under its own key. */
  lemma SameKeysWithoutChange(s: State, sb: string, sourcePrefix: PathLike, db: string, filterKeys: Option<string>)
    requires ObjectsList.ListResult(s, sb, sourcePrefix, filterKeys, MaxPage, false).Success?
    requires CopyPrefixRun(s, sb, sourcePrefix, db, None, filterKeys).error.None?
    ensures var keys := ObjectsList.ListResult(s, sb, sourcePrefix, filterKeys, MaxPage, false).value;
            forall i :: 0 <= i < |keys| ==> Has(CopyPrefixRun(s, sb, sourcePrefix, db, None, filterKeys).state, db, AsPosix(keys[i]))
  {
    var keys := ObjectsList.ListResult(s, sb, sourcePrefix, filterKeys, MaxPage, false).value;
    var pairs := Zip(keys, keys);
    CopyPrefixShape(s, sb, sourcePrefix, db, None, filterKeys);
    CopyRunSuccess(s, sb, db, pairs);
    forall i | 0 <= i < |keys| ensures Has(CopyRun(s, sb, db, pairs).state, db, AsPosix(keys[i])) {
      assert pairs[i].1 == keys[i];
    }
  }

  /** `filter_keys="*text*"` with a literal text copies exactly the listed keys that contain it. */
  lemma FilterSelectsContaining(s: State, sb: string, sourcePrefix: PathLike, t: string)
    requires Valid(s) && IsLiteral(t)
    requires ObjectsList.ListKeys(s, sb, sourcePrefix, Some("*" + t + "*"), MaxPage).Success?
    ensures forall k :: k in ObjectsList.ListKeys(s, sb, sourcePrefix, Some("*" + t + "*"), MaxPage).value <==>
              Has(s, sb, k) && StartsWith(k, AsPosix(sourcePrefix)) && Occurs(k, t)
  {
    ObjectsList.ListedKeysMatch(s, sb, sourcePrefix, Some("*" + t + "*"), MaxPage);
    forall k ensures Match("*" + t + "*", k) <==> Occurs(k, t) {
      ContainsMatches(t, k);
    }
  }
}
