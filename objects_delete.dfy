/** `delete_object`, `delete_prefix` and `delete_keys`. Each key is sent as
    `Path(key).as_posix()`, and the deletes run one after the other, the first
    exception ending the loop. */
module ObjectsDelete {
  import opened Wrappers
  import opened Errors
  import opened PyStr
  import opened PurePath
  import opened Store
  import ObjectsList

  /** `Path(key).as_posix()` for each key, in order. */
  function Posix(keys: seq<PathLike>): (r: seq<string>)
    ensures |r| == |keys| && forall i :: 0 <= i < |keys| ==> r[i] == AsPosix(keys[i]) && r[i] != ""
  {
    seq(|keys|, i requires 0 <= i < |keys| => AsPosix(keys[i]))
  }

  /** `delete_object(bucket, key)` as a call on the store's state. */
  function DeleteStep(s: State, bucket: string, key: PathLike): (r: Result<State, Error>)
    ensures r.Success? ==> r.value.buckets.Keys == s.buckets.Keys && !Has(r.value, bucket, AsPosix(key))
  {
    DeleteCall(s, bucket, AsPosix(key))
  }

  /** `delete_object` for each key as given, in order, stopping at the first exception. */
  function DeleteRun(s: State, bucket: string, keys: seq<string>): (r: Run)
    ensures r.state.buckets.Keys == s.buckets.Keys
    decreases |keys|
  {
    if keys == [] then Run(s, None)
    else
      var r := DeleteCall(s, bucket, keys[0]);
      if r.Failure? then Run(s, Some(r.error)) else DeleteRun(r.value, bucket, keys[1..])
  }

  /** `delete_keys(bucket, keys, dry_run)`: a dry run sends nothing. */
  function DeleteKeysRun(s: State, bucket: string, keys: seq<PathLike>, dryRun: bool): Run {
    if dryRun then Run(s, None) else DeleteRun(s, bucket, Posix(keys))
  }

  /** `delete_prefix(bucket, prefix, dry_run)`: how the store ends up, and what it
      returns — the listed keys for a dry run, `None` otherwise. */
  function DeletePrefixRun(s: State, bucket: string, prefix: PathLike, dryRun: bool): (Run, Option<seq<PathLike>>) {
    var listed := ObjectsList.ListResult(s, bucket, prefix, None, MaxPage, false);
    if listed.Failure? then (Run(s, Some(listed.error)), None)
    else if dryRun then (Run(s, None), Some(listed.value))
    else (DeleteRun(s, bucket, Posix(listed.value)), None)
  }

  /** `delete_object(bucket, key)` */
  method DeleteObject(store: ObjectStore, bucket: string, key: PathLike) returns (err: Option<Error>)
    modifies store
    ensures store.Snapshot() == After(old(store.Snapshot()), DeleteStep(old(store.Snapshot()), bucket, key))
    ensures err == ErrorOf(DeleteStep(old(store.Snapshot()), bucket, key))
  {
    err := store.DeleteObject(bucket, AsPosix(key));
  }

  /** The loop `for key in keys: delete_object(bucket, key)`. */
  method DeleteEach(store: ObjectStore, bucket: string, keys: seq<PathLike>) returns (err: Option<Error>)
    modifies store
    ensures Run(store.Snapshot(), err) == DeleteRun(old(store.Snapshot()), bucket, Posix(keys))
  {
    ghost var goal := DeleteRun(store.Snapshot(), bucket, Posix(keys));
    err := None;
    var i := 0;
    while i < |keys|
      invariant 0 <= i <= |keys|
      invariant DeleteRun(store.Snapshot(), bucket, Posix(keys)[i..]) == goal
      invariant err.None?
    {
      assert Posix(keys)[i..][0] == AsPosix(keys[i]) && Posix(keys)[i..][1..] == Posix(keys)[i + 1..];
      ghost var before := store.Snapshot();
      err := DeleteObject(store, bucket, keys[i]);
      if err.Some? {
        assert goal == DeleteRun(before, bucket, Posix(keys)[i..]) == Run(before, err);
        return;
      }
      i := i + 1;
    }
    assert Posix(keys)[i..] == [];
  }

  /** `delete_keys(bucket, keys, dry_run)` */
  method DeleteKeys(store: ObjectStore, bucket: string, keys: seq<PathLike>, dryRun: bool) returns (err: Option<Error>)
    modifies store
    ensures Run(store.Snapshot(), err) == DeleteKeysRun(old(store.Snapshot()), bucket, keys, dryRun)
  {
    if dryRun {
      return None;
    }
    err := DeleteEach(store, bucket, keys);
  }

  /** `delete_prefix(bucket, prefix, dry_run)`: the keys it would delete, `None`, or the exception raised. */
  method DeletePrefix(store: ObjectStore, bucket: string, prefix: PathLike, dryRun: bool)
    returns (r: Result<Option<seq<PathLike>>, Error>)
    modifies store
    ensures var (run, returned) := DeletePrefixRun(old(store.Snapshot()), bucket, prefix, dryRun);
            store.Snapshot() == run.state
            && r == if run.error.Some? then Failure(run.error.value) else Success(returned)
  {
    var listed, requests, pages := ObjectsList.ListObjects(store, bucket, prefix, None, MaxPage, false);
    if listed.Failure? {
      return Failure(listed.error);
    }
    if dryRun {
      return Success(Some(listed.value));
    }
    var err := DeleteEach(store, bucket, listed.value);
    r := if err.Some? then Failure(err.value) else Success(None);
  }

  lemma {:induction false} WithoutAbsent(xs: seq<string>, k: string)
    requires k !in xs
    ensures Without(xs, k) == xs
  {
    if xs != [] {
      WithoutAbsent(xs[1..], k);
      assert xs == [xs[0]] + xs[1..];
    }
  }

  /** Deleting a key that is not there succeeds and changes nothing. */
  lemma DeleteAbsentNoop(s: State, bucket: string, key: string)
    requires Valid(s) && bucket != "" && key != "" && bucket in s.buckets && !Has(s, bucket, key)
    ensures DeleteCall(s, bucket, key) == Success(s)
  {
    var bk := s.buckets[bucket];
    WithoutAbsent(bk.keys, key);
    assert bk.data - {key} == bk.data;
    assert Bucket(Without(bk.keys, key), bk.data - {key}) == bk;
    assert s.buckets[bucket := bk] == s.buckets;
  }

  /** Deleting twice is deleting once. */
  lemma DeleteIdempotent(s: State, bucket: string, key: string)
    requires Valid(s) && DeleteCall(s, bucket, key).Success?
    ensures var t := DeleteCall(s, bucket, key).value;
            Valid(t) && DeleteCall(t, bucket, key) == Success(t)
  {
    var t := DeleteCall(s, bucket, key).value;
    RemoveKeepsValid(s, bucket, key);
    DeleteAbsentNoop(t, bucket, key);
  }

  /** `"key"`, `Path("key")` and `Path("key/")` delete the same object. */
  lemma SameObjectDeleted(s: State, bucket: string, x: string)
    requires x != ""
    ensures DeleteStep(s, bucket, PathOf(x + "/")) == DeleteStep(s, bucket, PathOf(x)) == DeleteStep(s, bucket, Str(x))
  {
    TrailingSlashIgnored(x);
  }

  /** In an existing bucket, deleting non-empty keys removes exactly those keys and
      keeps every other object as it was. */
  lemma {:induction false} DeleteRunRemoves(s: State, bucket: string, keys: seq<string>)
    requires bucket != "" && bucket in s.buckets
    requires forall i :: 0 <= i < |keys| ==> keys[i] != ""
    ensures var t := DeleteRun(s, bucket, keys);
            t.error.None? && t.state.buckets.Keys == s.buckets.Keys
            && (forall c, j :: Has(t.state, c, j) <==> Has(s, c, j) && !(c == bucket && j in keys))
            && (forall c, j :: Has(t.state, c, j) ==> t.state.buckets[c].data[j] == s.buckets[c].data[j])
    decreases |keys|
  {
    if keys != [] {
      var r := DeleteCall(s, bucket, keys[0]).value;
      DeleteRunRemoves(r, bucket, keys[1..]);
      assert forall j :: j in keys <==> j == keys[0] || j in keys[1..];
    }
  }

  /** Valid stores keep what deleting does to them well formed. */
  lemma {:induction false} DeleteRunKeepsValid(s: State, bucket: string, keys: seq<string>)
    requires Valid(s)
    ensures Valid(DeleteRun(s, bucket, keys).state)
    decreases |keys|
  {
    if keys != [] {
      var r := DeleteCall(s, bucket, keys[0]);
      CallsKeepValid(s, bucket, keys[0], [], bucket, keys[0]);
      if r.Success? {
        DeleteRunKeepsValid(r.value, bucket, keys[1..]);
      }
    }
  }

  /** A dry run (the default) returns the listed keys in listing order and changes
      nothing; a real one deletes `Path(key).as_posix()` of each listed key, leaves
      every other object, and returns `None`. */
  lemma DeletePrefixMeaning(s: State, bucket: string, prefix: PathLike)
    requires ObjectsList.ListResult(s, bucket, prefix, None, MaxPage, false).Success?
    ensures var listed := ObjectsList.ListResult(s, bucket, prefix, None, MaxPage, false).value;
            DeletePrefixRun(s, bucket, prefix, true) == (Run(s, None), Some(listed))
    ensures var listed := ObjectsList.ListResult(s, bucket, prefix, None, MaxPage, false).value;
            var (run, returned) := DeletePrefixRun(s, bucket, prefix, false);
            run.error.None? && returned.None?
            && forall c, j :: Has(run.state, c, j) <==> Has(s, c, j) && !(c == bucket && j in Posix(listed))
  {
    var listed := ObjectsList.ListResult(s, bucket, prefix, None, MaxPage, false).value;
    DeleteRunRemoves(s, bucket, Posix(listed));
  }

  /** Each listed key whose text is already its `Path(key).as_posix()` is gone after a
      real `delete_prefix`. */
  lemma DeletePrefixRemovesPlainKeys(s: State, bucket: string, prefix: PathLike)
    requires ObjectsList.ListResult(s, bucket, prefix, None, MaxPage, false).Success?
    ensures var listed := ObjectsList.ListResult(s, bucket, prefix, None, MaxPage, false).value;
            var run := DeletePrefixRun(s, bucket, prefix, false).0;
            forall i :: 0 <= i < |listed| && Norm(listed[i].text) == listed[i].text ==> !Has(run.state, bucket, listed[i].text)
  {
    DeletePrefixMeaning(s, bucket, prefix);
    var listed := ObjectsList.ListResult(s, bucket, prefix, None, MaxPage, false).value;
    forall i | 0 <= i < |listed| && Norm(listed[i].text) == listed[i].text
      ensures listed[i].text in Posix(listed)
    {
      assert Posix(listed)[i] == listed[i].text;
    }
  }

  /** A key `d/` (the marker S3 consoles create for a folder) is listed under `d` but
      survives a real `delete_prefix`: the request deletes `Path("d/").as_posix()`,
      which is `d`. */
  lemma FolderMarkerSurvives()
    ensures var s := State(map["b" := Bucket(["d/"], map["d/" := []])], ["b"]);
            ObjectsList.ListResult(s, "b", Str("d"), None, MaxPage, false) == Success([Str("d/")])
            && DeletePrefixRun(s, "b", Str("d"), false).0 == Run(s, None)
  {
    var s := State(map["b" := Bucket(["d/"], map["d/" := []])], ["b"]);
    NormComponent("d");
    TrailingSlashIgnored("d");
    assert Norm("d/") == "d";
    assert StartsWith("d/", "d");
    assert WithPrefix(["d/"], "d") == ["d/"];
    assert Listing(s, "b", "d") == ["d/"];
    assert ListCall(s, "b", "d", MaxPage, None).Success?;
    assert ObjectsList.ListKeys(s, "b", Str("d"), None, MaxPage) == Success(["d/"]);
    assert ObjectsList.Present(["d/"], false) == [Str("d/")];
    assert Posix([Str("d/")]) == ["d"];
    assert !Has(s, "b", "d");
    DeleteAbsentNoopRaw(s);
  }

  lemma DeleteAbsentNoopRaw(s: State)
    requires s == State(map["b" := Bucket(["d/"], map["d/" := []])], ["b"])
    ensures DeleteRun(s, "b", ["d"]) == Run(s, None)
  {
    var bk := s.buckets["b"];
    assert Without(["d/"], "d") == ["d/"];
    assert bk.data - {"d"} == bk.data;
    assert Remove(s, "b", "d") == s;
    assert ["d"][1..] == [];
  }
}
