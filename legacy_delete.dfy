/** The older top-level `delete_object`, `delete_prefix` and `delete_keys`. Unlike
    the newer ones, they send each key exactly as given, so every listed key is
    deleted, a folder marker `d/` included. */
module LegacyDelete {
  import opened Wrappers
  import opened Errors
  import opened PyStr
  import opened PurePath
  import opened Store
  import ObjectsList
  import ObjectsDelete

  /** The keys `list_objects(bucket, prefix)` returns, or the exception it raises. */
  function Listed(s: State, bucket: string, prefix: string): Result<seq<string>, Error> {
    ObjectsList.ListKeys(s, bucket, Str(prefix), None, MaxPage)
  }

  /** `delete_keys(bucket, keys, dry_run)`: a dry run sends nothing. */
  function DeleteKeysRun(s: State, bucket: string, keys: seq<string>, dryRun: bool): Run {
    if dryRun then Run(s, None) else ObjectsDelete.DeleteRun(s, bucket, keys)
  }

  /** `delete_prefix(bucket, prefix, dry_run)`: how the store ends up, and what it
      returns — the listed keys for a dry run, `None` otherwise. */
  function DeletePrefixRun(s: State, bucket: string, prefix: string, dryRun: bool): (Run, Option<seq<string>>) {
    var listed := Listed(s, bucket, prefix);
    if listed.Failure? then (Run(s, Some(listed.error)), None)
    else if dryRun then (Run(s, None), Some(listed.value))
    else (ObjectsDelete.DeleteRun(s, bucket, listed.value), None)
  }

  /** `delete_object(bucket, key)` */
  method DeleteObject(store: ObjectStore, bucket: string, key: string) returns (err: Option<Error>)
    modifies store
    ensures store.Snapshot() == After(old(store.Snapshot()), DeleteCall(old(store.Snapshot()), bucket, key))
    ensures err == ErrorOf(DeleteCall(old(store.Snapshot()), bucket, key))
  {
    err := store.DeleteObject(bucket, key);
  }

  /** The loop `for key in keys: delete_object(bucket, key)`. */
  method DeleteEach(store: ObjectStore, bucket: string, keys: seq<string>) returns (err: Option<Error>)
    modifies store
    ensures Run(store.Snapshot(), err) == ObjectsDelete.DeleteRun(old(store.Snapshot()), bucket, keys)
  {
    ghost var goal := ObjectsDelete.DeleteRun(store.Snapshot(), bucket, keys);
    err := None;
    var i := 0;
    while i < |keys|
      invariant 0 <= i <= |keys|
      invariant ObjectsDelete.DeleteRun(store.Snapshot(), bucket, keys[i..]) == goal
      invariant err.None?
    {
      assert keys[i..][0] == keys[i] && keys[i..][1..] == keys[i + 1..];
      ghost var before := store.Snapshot();
      err := DeleteObject(store, bucket, keys[i]);
      if err.Some? {
        assert goal == ObjectsDelete.DeleteRun(before, bucket, keys[i..]) == Run(before, err);
        return;
      }
      i := i + 1;
    }
    assert keys[i..] == [];
  }

  /** `delete_keys(bucket, keys, dry_run)` */
  method DeleteKeys(store: ObjectStore, bucket: string, keys: seq<string>, dryRun: bool) returns (err: Option<Error>)
    modifies store
    ensures Run(store.Snapshot(), err) == DeleteKeysRun(old(store.Snapshot()), bucket, keys, dryRun)
  {
    if dryRun {
      return None;
    }
    err := DeleteEach(store, bucket, keys);
  }

  /** `delete_prefix(bucket, prefix, dry_run)`: the keys it would delete, `None`, or the exception raised. */
  method DeletePrefix(store: ObjectStore, bucket: string, prefix: string, dryRun: bool)
    returns (r: Result<Option<seq<string>>, Error>)
    modifies store
    ensures var (run, returned) := DeletePrefixRun(old(store.Snapshot()), bucket, prefix, dryRun);
            store.Snapshot() == run.state
            && r == if run.error.Some? then Failure(run.error.value) else Success(returned)
  {
    var listed, requests, pages := ObjectsList.ListObjects(store, bucket, Str(prefix), None, MaxPage, false);
    if listed.Failure? {
      return Failure(listed.error);
    }
    ObjectsList.TextsOfStrings(ObjectsList.ListKeys(store.Snapshot(), bucket, Str(prefix), None, MaxPage).value);
    var keys := ObjectsList.Texts(listed.value);
    if dryRun {
      return Success(Some(keys));
    }
    var err := DeleteEach(store, bucket, keys);
    r := if err.Some? then Failure(err.value) else Success(None);
  }

  /** A dry run changes nothing; a real one, in an existing bucket, deletes exactly the
      given non-empty keys and keeps every other object as it was. */
  lemma DeleteKeysMeaning(s: State, bucket: string, keys: seq<string>)
    ensures DeleteKeysRun(s, bucket, keys, true) == Run(s, None)
    ensures bucket != "" && bucket in s.buckets && (forall i :: 0 <= i < |keys| ==> keys[i] != "") ==>
              var t := DeleteKeysRun(s, bucket, keys, false);
              t.error.None?
              && (forall c, j :: Has(t.state, c, j) <==> Has(s, c, j) && !(c == bucket && j in keys))
              && (forall c, j :: Has(t.state, c, j) ==> t.state.buckets[c].data[j] == s.buckets[c].data[j])
  {
    if bucket != "" && bucket in s.buckets && (forall i :: 0 <= i < |keys| ==> keys[i] != "") {
      ObjectsDelete.DeleteRunRemoves(s, bucket, keys);
    }
  }

  /** A dry run (the default) returns the listed keys and changes nothing; a real one
      leaves no object under the prefix, keeps every other object, and returns `None`. */
  lemma DeletePrefixEmptiesPrefix(s: State, bucket: string, prefix: string)
    requires Valid(s) && Listed(s, bucket, prefix).Success?
    ensures DeletePrefixRun(s, bucket, prefix, true) == (Run(s, None), Some(Listed(s, bucket, prefix).value))
    ensures var (run, returned) := DeletePrefixRun(s, bucket, prefix, false);
            run.error.None? && returned.None?
            && (forall k :: StartsWith(k, Norm(prefix)) ==> !Has(run.state, bucket, k))
            && (forall c, j :: Has(run.state, c, j) <==> Has(s, c, j) && !(c == bucket && StartsWith(j, Norm(prefix))))
  {
    var keys := Listed(s, bucket, prefix).value;
    ObjectsList.ListedKeysMatch(s, bucket, Str(prefix), None, MaxPage);
    assert bucket != "" && bucket in s.buckets by {
      assert ListCall(s, bucket, Norm(prefix), MaxPage, None).Success?;
    }
    forall i | 0 <= i < |keys| ensures keys[i] != "" {
      assert keys[i] in keys;
    }
    ObjectsDelete.DeleteRunRemoves(s, bucket, keys);
  }
}
