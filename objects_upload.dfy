/** `upload_file_to_key`, `upload_files_to_keys` and `upload_folder_to_prefix`.

    Each upload reads one local file and stores it under one key; the batch
    reports, for each `(local path, key)` pair, the pair and the object's URL or
    the `repr` of what the upload raised, in the order the uploads finish. The
    uploads here run one after the other in input order; the finishing order is
    any rearrangement of the pairs. */
module ObjectsUpload {
  import opened Wrappers
  import opened Errors
  import opened PyStr
  import opened PurePath
  import opened Store
  import opened Utils
  import opened Batch

  /** One reported upload: the local path, the S3 key and the captured outcome. */
  type Row = Report<string>

  /** `boto3.exceptions.S3UploadFailedError`, which `upload_file` raises in place of a `ClientError`. */
  function UploadFailed(filename: string, bucket: string, key: string, cause: Error): (e: Error)
    ensures e.cls == "S3UploadFailedError" && e.isException && !IsClientError(e)
  {
    Builtin("S3UploadFailedError", "Failed to upload " + filename + " to " + bucket + "/" + key + ": " + Render(cause.message))
  }

  /** The error reading a local file that is not there. */
  function FileNotFound(filename: string): (e: Error)
    ensures e.cls == "FileNotFoundError" && e.isException && !IsClientError(e)
  {
    Builtin("FileNotFoundError", "No such file or directory: '" + filename + "'")
  }

  /** `"{endpoint_url}/{bucket}/{key}"` */
  function ObjectUrl(endpoint: string, bucket: string, key: string): (r: string)
    ensures StartsWith(r, endpoint + "/" + bucket + "/") && r[|endpoint| + |bucket| + 2..] == key
  {
    endpoint + "/" + bucket + "/" + key
  }

  /** `upload_file_to_key(bucket, key, local_filename)` on the store `s` and the local
      files `files`: what it returns or raises, and the store it leaves behind. The
      local file is read before any request; a `ClientError` from the request is
      raised as `S3UploadFailedError`, any other error as it is. */
  function UploadCall(s: State, files: map<string, Bytes>, endpoint: string, bucket: string, key: string, localFilename: string)
    : (r: (Outcome<string>, State))
    ensures r.0.Raised? ==> r.0.error.isException && r.1 == s
    ensures r.1.buckets.Keys == s.buckets.Keys
  {
    if Norm(localFilename) !in files then (Raised(FileNotFound(localFilename)), s)
    else
      var put := PutCall(s, bucket, key, files[Norm(localFilename)]);
      if put.Failure? then
        (Raised(if IsClientError(put.error) then UploadFailed(localFilename, bucket, key, put.error) else put.error), s)
      else (Returned(ObjectUrl(endpoint, bucket, key)), put.value)
  }

  /** The uploads of `pathsKeys`, one after the other in input order: each outcome and the final store. */
  function UploadRun(s: State, files: map<string, Bytes>, endpoint: string, bucket: string, pathsKeys: seq<(string, string)>)
    : (r: (seq<Outcome<string>>, State))
    ensures |r.0| == |pathsKeys|
    ensures r.1.buckets.Keys == s.buckets.Keys
    decreases |pathsKeys|
  {
    if pathsKeys == [] then ([], s)
    else
      var before := UploadRun(s, files, endpoint, bucket, pathsKeys[..|pathsKeys| - 1]);
      var (filename, key) := pathsKeys[|pathsKeys| - 1];
      var step := UploadCall(before.1, files, endpoint, bucket, key, filename);
      (before.0 + [step.0], step.1)
  }

  /** The outcome each pair's upload has on its own, against the store `s`. */
  function Outcomes(s: State, files: map<string, Bytes>, endpoint: string, bucket: string, pathsKeys: seq<(string, string)>)
    : (os: seq<Outcome<string>>)
    ensures |os| == |pathsKeys|
  {
    seq(|pathsKeys|, i requires 0 <= i < |pathsKeys| => UploadCall(s, files, endpoint, bucket, pathsKeys[i].1, pathsKeys[i].0).0)
  }

  /** The report of each pair, in input order: the local path, the key and
      `_get_future_output` of its upload. */
  function Report(s: State, files: map<string, Bytes>, endpoint: string, bucket: string, pathsKeys: seq<(string, string)>)
    : (rows: seq<Row>)
    ensures |rows| == |pathsKeys|
  {
    seq(|pathsKeys|, i requires 0 <= i < |pathsKeys| =>
          (pathsKeys[i].0, pathsKeys[i].1, Capture(UploadCall(s, files, endpoint, bucket, pathsKeys[i].1, pathsKeys[i].0).0)))
  }

  /** An upload returns the object's URL exactly when the local file exists, the bucket and
      key are not empty and the bucket exists, and then it stores the file's bytes under the
      key; a missing file raises `FileNotFoundError` and a missing bucket `S3UploadFailedError`. */
  lemma UploadCallMeaning(s: State, files: map<string, Bytes>, endpoint: string, bucket: string, key: string, localFilename: string)
    ensures var (o, t) := UploadCall(s, files, endpoint, bucket, key, localFilename);
            (o.Returned? <==> Norm(localFilename) in files && bucket != "" && key != "" && bucket in s.buckets)
            && (o.Returned? ==>
                  o.value == ObjectUrl(endpoint, bucket, key)
                  && Has(t, bucket, key) && t.buckets[bucket].data[key] == files[Norm(localFilename)]
                  && forall c, j :: (c, j) != (bucket, key) ==>
                       (Has(t, c, j) <==> Has(s, c, j)) && (Has(s, c, j) ==> t.buckets[c].data[j] == s.buckets[c].data[j]))
            && (Norm(localFilename) !in files ==> o.Raised? && o.error.cls == "FileNotFoundError")
            && (Norm(localFilename) in files && bucket != "" && key != "" && bucket !in s.buckets ==>
                  o.Raised? && o.error.cls == "S3UploadFailedError")
  {
  }

  /** Different keys give different URLs, so the URLs of a batch name its objects. */
  lemma ObjectUrlInjective(endpoint: string, bucket: string, k1: string, k2: string)
    ensures ObjectUrl(endpoint, bucket, k1) == ObjectUrl(endpoint, bucket, k2) <==> k1 == k2
  {
    var head := endpoint + "/" + bucket + "/";
    assert ObjectUrl(endpoint, bucket, k1) == head + k1;
    assert ObjectUrl(endpoint, bucket, k2) == head + k2;
    if head + k1 == head + k2 {
      assert k1 == (head + k1)[|head|..];
      assert k2 == (head + k2)[|head|..];
    }
  }

  /** An upload's outcome depends on the store only through which buckets exist. */
  lemma OutcomeDependsOnBuckets(s: State, t: State, files: map<string, Bytes>, endpoint: string, bucket: string, key: string, localFilename: string)
    requires s.buckets.Keys == t.buckets.Keys
    ensures UploadCall(s, files, endpoint, bucket, key, localFilename).0 == UploadCall(t, files, endpoint, bucket, key, localFilename).0
  {
    assert bucket in s.buckets <==> bucket in t.buckets;
  }

  /** Uploads do not create or remove buckets, so each upload of a run has the outcome it
      has on its own against the initial store: the order the pool runs them in changes
      no outcome. */
  lemma {:induction false} RunOutcomesIndependent(s: State, files: map<string, Bytes>, endpoint: string, bucket: string, pathsKeys: seq<(string, string)>)
    ensures UploadRun(s, files, endpoint, bucket, pathsKeys).0 == Outcomes(s, files, endpoint, bucket, pathsKeys)
    ensures UploadRun(s, files, endpoint, bucket, pathsKeys).1.buckets.Keys == s.buckets.Keys
    decreases |pathsKeys|
  {
    if pathsKeys != [] {
      var n := |pathsKeys| - 1;
      var init := pathsKeys[..n];
      RunOutcomesIndependent(s, files, endpoint, bucket, init);
      var before := UploadRun(s, files, endpoint, bucket, init);
      var last := pathsKeys[n];
      var step := UploadCall(before.1, files, endpoint, bucket, last.1, last.0);
      assert UploadRun(s, files, endpoint, bucket, pathsKeys) == (before.0 + [step.0], step.1);
      OutcomeDependsOnBuckets(before.1, s, files, endpoint, bucket, last.1, last.0);
      OutcomesAppend(s, files, endpoint, bucket, pathsKeys);
    }
  }

  lemma OutcomesAppend(s: State, files: map<string, Bytes>, endpoint: string, bucket: string, pathsKeys: seq<(string, string)>)
    requires pathsKeys != []
    ensures var n := |pathsKeys| - 1;
            Outcomes(s, files, endpoint, bucket, pathsKeys)
            == Outcomes(s, files, endpoint, bucket, pathsKeys[..n]) + [UploadCall(s, files, endpoint, bucket, pathsKeys[n].1, pathsKeys[n].0).0]
  {
    var n := |pathsKeys| - 1;
    var os := Outcomes(s, files, endpoint, bucket, pathsKeys);
    assert Outcomes(s, files, endpoint, bucket, pathsKeys[..n]) == os[..n];
    assert os == os[..n] + [os[n]];
  }

  /** The keys of the pairs. */
  function Keys(pathsKeys: seq<(string, string)>): (r: seq<string>)
    ensures |r| == |pathsKeys| && forall i :: 0 <= i < |pathsKeys| ==> r[i] == pathsKeys[i].1
  {
    seq(|pathsKeys|, i requires 0 <= i < |pathsKeys| => pathsKeys[i].1)
  }

  /** After a run of uploads to distinct keys, every upload that returned left its file's
      bytes under its key, and every object that was there before is still there. */
  lemma {:induction false} RunStoresFiles(s: State, files: map<string, Bytes>, endpoint: string, bucket: string, pathsKeys: seq<(string, string)>)
    requires Distinct(Keys(pathsKeys))
    ensures var (os, t) := UploadRun(s, files, endpoint, bucket, pathsKeys);
            (forall i :: 0 <= i < |pathsKeys| && os[i].Returned? ==>
               Norm(pathsKeys[i].0) in files && Has(t, bucket, pathsKeys[i].1)
               && t.buckets[bucket].data[pathsKeys[i].1] == files[Norm(pathsKeys[i].0)])
            && (forall c, j :: Has(s, c, j) ==> Has(t, c, j))
    decreases |pathsKeys|
  {
    if pathsKeys != [] {
      var n := |pathsKeys| - 1;
      var init := pathsKeys[..n];
      assert Keys(init) == Keys(pathsKeys)[..n];
      RunStoresFiles(s, files, endpoint, bucket, init);
      var before := UploadRun(s, files, endpoint, bucket, init);
      var (filename, key) := pathsKeys[n];
      UploadCallMeaning(before.1, files, endpoint, bucket, key, filename);
      var (os, t) := UploadRun(s, files, endpoint, bucket, pathsKeys);
      forall i | 0 <= i < |pathsKeys| && os[i].Returned?
        ensures Norm(pathsKeys[i].0) in files && Has(t, bucket, pathsKeys[i].1)
                && t.buckets[bucket].data[pathsKeys[i].1] == files[Norm(pathsKeys[i].0)]
      {
        if i < n {
          assert os[i] == before.0[i];
          assert Keys(pathsKeys)[i] != Keys(pathsKeys)[n];
        }
      }
    }
  }

  /** Uploads keep the store well formed. */
  lemma {:induction false} RunKeepsValid(s: State, files: map<string, Bytes>, endpoint: string, bucket: string, pathsKeys: seq<(string, string)>)
    requires Valid(s)
    ensures Valid(UploadRun(s, files, endpoint, bucket, pathsKeys).1)
    decreases |pathsKeys|
  {
    if pathsKeys != [] {
      var n := |pathsKeys| - 1;
      RunKeepsValid(s, files, endpoint, bucket, pathsKeys[..n]);
      var before := UploadRun(s, files, endpoint, bucket, pathsKeys[..n]).1;
      if bucket in before.buckets && pathsKeys[n].1 != "" && Norm(pathsKeys[n].0) in files {
        PutKeepsValid(before, bucket, pathsKeys[n].1, files[Norm(pathsKeys[n].0)]);
      }
    }
  }

  /** `upload_file_to_key(bucket, key, local_filename, progress)`: the progress is advanced
      only when the upload returned. */
  method UploadFileToKey(store: ObjectStore, disk: LocalDisk, endpoint: string, bucket: string, key: string, localFilename: string,
                         progress: Progress?)
    returns (o: Outcome<string>)
    modifies store, progress
    ensures (o, store.Snapshot()) == UploadCall(old(store.Snapshot()), disk.files, endpoint, bucket, key, localFilename)
    ensures progress != null ==>
              progress.total == old(progress.total)
              && progress.completed == old(progress.completed) + if o.Returned? then 1 else 0
  {
    if !disk.Exists(localFilename) {
      return Raised(FileNotFound(localFilename));
    }
    ghost var put := PutCall(store.Snapshot(), bucket, key, disk.files[Norm(localFilename)]);
    var err := store.PutObject(bucket, key, disk.files[Norm(localFilename)]);
    if err.Some? {
      var e := err.value;
      return Raised(if IsClientError(e) then UploadFailed(localFilename, bucket, key, e) else e);
    }
    ghost var after := store.Snapshot();
    assert after == put.value;
    if progress != null {
      progress.Advance();
    }
    assert store.Snapshot() == after;
    o := Returned(ObjectUrl(endpoint, bucket, key));
  }

  /** The uploads of the batch, one after the other in input order, each with its outcome. */
  method UploadEach(store: ObjectStore, disk: LocalDisk, endpoint: string, bucket: string, pathsKeys: seq<(string, string)>,
                    progress: Progress?)
    returns (outcomes: seq<Outcome<string>>)
    modifies store, progress
    ensures (outcomes, store.Snapshot()) == UploadRun(old(store.Snapshot()), disk.files, endpoint, bucket, pathsKeys)
    ensures progress != null ==>
              progress.total == old(progress.total)
              && progress.completed == old(progress.completed) + Count(Succeeded(outcomes))
  {
    ghost var s := store.Snapshot();
    outcomes := [];
    var i := 0;
    while i < |pathsKeys|
      invariant 0 <= i <= |pathsKeys|
      invariant (outcomes, store.Snapshot()) == UploadRun(s, disk.files, endpoint, bucket, pathsKeys[..i])
      invariant progress != null ==>
                  progress.total == old(progress.total)
                  && progress.completed == old(progress.completed) + Count(Succeeded(outcomes))
    {
      var o := UploadFileToKey(store, disk, endpoint, bucket, pathsKeys[i].1, pathsKeys[i].0, progress);
      assert pathsKeys[..i + 1][..i] == pathsKeys[..i];
      CountStep(outcomes, o);
      outcomes := outcomes + [o];
      i := i + 1;
    }
    assert pathsKeys[..i] == pathsKeys;
  }

  /** `upload_files_to_keys(bucket, paths_keys, show_progress=show_progress)`: the rows in the
      order the uploads finished, each with the outcome its upload has on its own, and the
      progress task when one is shown. */
  method UploadFilesToKeys(store: ObjectStore, disk: LocalDisk, endpoint: string, bucket: string, pathsKeys: seq<(string, string)>,
                           showProgress: bool)
    returns (output: seq<Row>, progress: Progress?, ghost completion: seq<nat>)
    modifies store
    ensures IsCompletionOrder(completion, |pathsKeys|) && InRange(completion, |pathsKeys|)
    ensures output == Reorder(Report(old(store.Snapshot()), disk.files, endpoint, bucket, pathsKeys), completion)
    ensures store.Snapshot() == UploadRun(old(store.Snapshot()), disk.files, endpoint, bucket, pathsKeys).1
    ensures (progress != null) == showProgress
    ensures progress != null ==>
              fresh(progress) && progress.total == |pathsKeys|
              && progress.completed == Count(Succeeded(Outcomes(old(store.Snapshot()), disk.files, endpoint, bucket, pathsKeys)))
  {
    ghost var s := store.Snapshot();
    progress := null;
    if showProgress {
      progress := new Progress(|pathsKeys|);
    }
    var outcomes := UploadEach(store, disk, endpoint, bucket, pathsKeys, progress);
    RunOutcomesIndependent(s, disk.files, endpoint, bucket, pathsKeys);
    var rows := seq(|pathsKeys|, i requires 0 <= i < |pathsKeys| =>
                      (pathsKeys[i].0, pathsKeys[i].1, Capture(outcomes[i])));
    assert rows == Report(s, disk.files, endpoint, bucket, pathsKeys);
    assert IsCompletionOrder(Indices(|pathsKeys|), |pathsKeys|);
    var order: seq<nat> :| IsCompletionOrder(order, |pathsKeys|);
    ReorderPermutes(rows, order);
    output := Reorder(rows, order);
    completion := order;
  }

  /** The report keeps each pair with its own upload's outcome: the URL exactly when the
      upload stored the file, the `repr` of the exception otherwise. */
  lemma ReportMeaning(s: State, files: map<string, Bytes>, endpoint: string, bucket: string, pathsKeys: seq<(string, string)>)
    ensures forall i :: 0 <= i < |pathsKeys| ==>
              var row := Report(s, files, endpoint, bucket, pathsKeys)[i];
              var (filename, key) := pathsKeys[i];
              var stored := Norm(filename) in files && bucket != "" && key != "" && bucket in s.buckets;
              row.0 == filename && row.1 == key
              && (row.2.Value? <==> stored)
              && (stored ==> row.2 == Value(ObjectUrl(endpoint, bucket, key)))
              && (!stored ==> row.2 == Description(Repr(UploadCall(s, files, endpoint, bucket, key, filename).0.error)))
  {
    forall i | 0 <= i < |pathsKeys| {
      UploadCallMeaning(s, files, endpoint, bucket, pathsKeys[i].1, pathsKeys[i].0);
    }
  }

  /** The output holds one row per input pair, whatever the finishing order. */
  lemma OutputPairsAreInput(s: State, files: map<string, Bytes>, endpoint: string, bucket: string, pathsKeys: seq<(string, string)>,
                            order: seq<nat>)
    requires IsCompletionOrder(order, |pathsKeys|)
    ensures InRange(order, |pathsKeys|)
    ensures multiset(Pairs(Reorder(Report(s, files, endpoint, bucket, pathsKeys), order))) == multiset(pathsKeys)
  {
    var rows := Report(s, files, endpoint, bucket, pathsKeys);
    ReorderPermutes(pathsKeys, order);
    CompletionBounded(order, |pathsKeys|);
    assert Pairs(rows) == pathsKeys;
    assert Pairs(Reorder(rows, order)) == Reorder(pathsKeys, order);
  }

  /** The progress task ends at the number of rows that report a URL. */
  lemma ProgressCountsDelivered(s: State, files: map<string, Bytes>, endpoint: string, bucket: string, pathsKeys: seq<(string, string)>,
                                order: seq<nat>)
    requires IsCompletionOrder(order, |pathsKeys|)
    ensures InRange(order, |pathsKeys|)
    ensures Count(Delivered(Reorder(Report(s, files, endpoint, bucket, pathsKeys), order)))
            == Count(Succeeded(Outcomes(s, files, endpoint, bucket, pathsKeys)))
  {
    var rows := Report(s, files, endpoint, bucket, pathsKeys);
    var os := Outcomes(s, files, endpoint, bucket, pathsKeys);
    DeliveredReorder(rows, order);
    forall i | 0 <= i < |os|
      ensures rows[i].2 == Capture(os[i])
      ensures os[i].Raised? ==> os[i].error.isException
    {
      assert os[i] == UploadCall(s, files, endpoint, bucket, pathsKeys[i].1, pathsKeys[i].0).0;
    }
    DeliveredSucceeded(rows, os);
  }

  /** The relative paths of the entries that are files, in order. */
  function FilesOf(entries: seq<(string, bool)>): seq<string> {
    if entries == [] then []
    else (if entries[0].1 then [entries[0].0] else []) + FilesOf(entries[1..])
  }

  /** The `paths_keys` of `upload_folder_to_prefix`: for each file found under `folder`, at
      the relative path `rel`, the pair `(Path(folder)/rel, Path(prefix)/rel)` in POSIX form. */
  function PathsKeys(folder: string, prefix: string, entries: seq<(string, bool)>): (r: seq<(string, string)>)
    ensures |r| == |FilesOf(entries)|
  {
    var rels := FilesOf(entries);
    seq(|rels|, i requires 0 <= i < |rels| => (JoinPath(folder, rels[i]), JoinPath(prefix, rels[i])))
  }

  /** Only the entries that are files are uploaded, each once for each time it was found. */
  lemma {:induction false} FilesOfMeaning(entries: seq<(string, bool)>)
    ensures forall rel :: multiset(FilesOf(entries))[rel] == multiset(entries)[(rel, true)]
  {
    if entries != [] {
      FilesOfMeaning(entries[1..]);
      assert entries == [entries[0]] + entries[1..];
    }
  }

  /** The folder's structure is replicated under the prefix: the `i`-th uploaded file lies at
      some relative path under the folder, and its key has the components of the prefix
      followed by those same components. */
  lemma PathsKeysMeaning(folder: string, prefix: string, entries: seq<(string, bool)>)
    ensures var pk := PathsKeys(folder, prefix, entries);
            forall i :: 0 <= i < |pk| ==>
              (FilesOf(entries)[i], true) in entries
              && Parts(pk[i].0) == Parts(folder) + Parts(FilesOf(entries)[i])
              && Parts(pk[i].1) == Parts(prefix) + Parts(FilesOf(entries)[i])
              && Root(pk[i].1) == Root(prefix)
  {
    var rels := FilesOf(entries);
    FilesOfMeaning(entries);
    forall i | 0 <= i < |rels|
      ensures (rels[i], true) in entries
      ensures Parts(JoinPath(folder, rels[i])) == Parts(folder) + Parts(rels[i])
      ensures Parts(JoinPath(prefix, rels[i])) == Parts(prefix) + Parts(rels[i]) && Root(JoinPath(prefix, rels[i])) == Root(prefix)
    {
      assert rels[i] in multiset(rels);
      JoinPathParts(folder, rels[i]);
      JoinPathParts(prefix, rels[i]);
    }
  }

  /** With the prefix `""` (which `Path` reads as `.`), a relative file is uploaded under
      its relative path itself, with no `./` in front. */
  lemma EmptyPrefixKeepsRelative(rel: string)
    requires Root(rel) == ""
    ensures JoinPath("", rel) == Norm(rel)
  {
    var y := Norm("") + "/" + rel;
    var j := JoinPath("", rel);
    assert j == Norm(y);
    JoinPathParts("", rel);
    assert Parts("") == [] by { assert Split("") == [""]; }
    assert Parts(j) == Parts(rel);
    assert Root(j) == "";
    NormShape(j);
    NormShape(rel);
    assert Norm(j) == Norm(rel);
    NormIdempotent(y);
  }

  /** `upload_folder_to_prefix(bucket, prefix, folder, search_str, show_progress=...)`, where
      `entries` are the relative paths `Path(folder).rglob(search_str)` yields, each with
      whether it is a file. */
  method UploadFolderToPrefix(store: ObjectStore, disk: LocalDisk, endpoint: string, bucket: string, prefix: string, folder: string,
                              entries: seq<(string, bool)>, showProgress: bool)
    returns (output: seq<Row>, progress: Progress?, ghost completion: seq<nat>)
    modifies store
    ensures var pk := PathsKeys(folder, prefix, entries);
            IsCompletionOrder(completion, |pk|) && InRange(completion, |pk|)
            && output == Reorder(Report(old(store.Snapshot()), disk.files, endpoint, bucket, pk), completion)
            && store.Snapshot() == UploadRun(old(store.Snapshot()), disk.files, endpoint, bucket, pk).1
            && (progress != null) == showProgress
            && (progress != null ==>
                  fresh(progress) && progress.total == |pk|
                  && progress.completed == Count(Succeeded(Outcomes(old(store.Snapshot()), disk.files, endpoint, bucket, pk))))
  {
    var pathsKeys := PathsKeys(folder, prefix, entries);
    output, progress, completion := UploadFilesToKeys(store, disk, endpoint, bucket, pathsKeys, showProgress);
  }
}
