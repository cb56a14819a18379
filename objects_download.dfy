/** `download_key_to_file`, `download_keys_to_files` and `download_prefix_to_folder`.

    The batch submits one download per `(key, path)` pair and reports, for each,
    the pair and what the download returned or the `repr` of what it raised, in
    the order the downloads finish. The downloads here run one after the other
    in input order; the finishing order is any rearrangement of the pairs. */
module ObjectsDownload {
  import opened Wrappers
  import opened Errors
  import opened PyStr
  import opened PurePath
  import opened Store
  import opened Utils
  import opened Batch
  import ObjectsList
  import Glob

  /** One reported download: the S3 key, the local path and the captured outcome. */
  type Row = Report<bool>

  /** What `download_key_to_file(bucket, key, local_filename)` returns or raises: once
      the object is fetched and written, the file exists, so it returns `True`. */
  function DownloadOutcome(s: State, bucket: string, key: string): (o: Outcome<bool>)
    ensures o.Raised? ==> o.error.isException
  {
    var data := FetchCall(s, bucket, key);
    if data.Failure? then Raised(data.error) else Returned(true)
  }

  /** The outcome of each pair's download. Downloads only read the store, so each
      outcome is the one its download has on its own. */
  function Outcomes(s: State, bucket: string, keysPaths: seq<(string, string)>): (os: seq<Outcome<bool>>)
    ensures |os| == |keysPaths|
  {
    seq(|keysPaths|, i requires 0 <= i < |keysPaths| => DownloadOutcome(s, bucket, keysPaths[i].0))
  }

  /** The report of each pair, in input order: the key, the path and `_get_future_output`
      of its download. */
  function Report(s: State, bucket: string, keysPaths: seq<(string, string)>): (rows: seq<Row>)
    ensures |rows| == |keysPaths|
  {
    seq(|keysPaths|, i requires 0 <= i < |keysPaths| =>
          (keysPaths[i].0, keysPaths[i].1, Capture(DownloadOutcome(s, bucket, keysPaths[i].0))))
  }

  /** The local files after the downloads of `keysPaths`, in order, starting from `files`. */
  function Written(files: map<string, Bytes>, s: State, bucket: string, keysPaths: seq<(string, string)>): map<string, Bytes>
    decreases |keysPaths|
  {
    if keysPaths == [] then files
    else
      var before := Written(files, s, bucket, keysPaths[..|keysPaths| - 1]);
      var (key, path) := keysPaths[|keysPaths| - 1];
      var data := FetchCall(s, bucket, key);
      if data.Success? then before[Norm(path) := data.value] else before
  }

  /** `download_key_to_file(bucket, key, local_filename, progress)`: the file is written
      and the progress advanced only when the object was fetched. */
  method DownloadKeyToFile(store: ObjectStore, disk: LocalDisk, bucket: string, key: string, localFilename: string, progress: Progress?)
    returns (o: Outcome<bool>)
    modifies disk, progress
    ensures o == DownloadOutcome(store.Snapshot(), bucket, key)
    ensures disk.files == if o.Returned? then old(disk.files)[Norm(localFilename) := store.Snapshot().buckets[bucket].data[key]]
                          else old(disk.files)
    ensures progress != null ==>
              progress.total == old(progress.total)
              && progress.completed == old(progress.completed) + if o.Returned? then 1 else 0
  {
    var data := FetchCall(store.Snapshot(), bucket, key);
    if data.Failure? {
      return Raised(data.error);
    }
    disk.Write(localFilename, data.value);
    if progress != null {
      progress.Advance();
    }
    o := Returned(disk.Exists(localFilename));
  }

  /** The downloads of the batch, one after the other in input order, each with its outcome. */
  method DownloadEach(store: ObjectStore, disk: LocalDisk, bucket: string, keysPaths: seq<(string, string)>, progress: Progress?)
    returns (outcomes: seq<Outcome<bool>>)
    modifies disk, progress
    ensures outcomes == Outcomes(store.Snapshot(), bucket, keysPaths)
    ensures disk.files == Written(old(disk.files), store.Snapshot(), bucket, keysPaths)
    ensures progress != null ==>
              progress.total == old(progress.total)
              && progress.completed == old(progress.completed) + Count(Succeeded(outcomes))
  {
    var s := store.Snapshot();
    outcomes := [];
    var i := 0;
    while i < |keysPaths|
      invariant 0 <= i <= |keysPaths|
      invariant outcomes == Outcomes(s, bucket, keysPaths[..i])
      invariant disk.files == Written(old(disk.files), s, bucket, keysPaths[..i])
      invariant progress != null ==>
                  progress.total == old(progress.total)
                  && progress.completed == old(progress.completed) + Count(Succeeded(outcomes))
    {
      var o := DownloadKeyToFile(store, disk, bucket, keysPaths[i].0, keysPaths[i].1, progress);
      DownloadStep(old(disk.files), s, bucket, keysPaths, i);
      CountStep(outcomes, o);
      outcomes := outcomes + [o];
      i := i + 1;
    }
    assert keysPaths[..i] == keysPaths;
  }

  /** One more download extends the outcomes by its own and writes its file when it fetched the object. */
  lemma DownloadStep(files: map<string, Bytes>, s: State, bucket: string, keysPaths: seq<(string, string)>, i: nat)
    requires i < |keysPaths|
    ensures Outcomes(s, bucket, keysPaths[..i + 1]) == Outcomes(s, bucket, keysPaths[..i]) + [DownloadOutcome(s, bucket, keysPaths[i].0)]
    ensures var data := FetchCall(s, bucket, keysPaths[i].0);
            var before := Written(files, s, bucket, keysPaths[..i]);
            Written(files, s, bucket, keysPaths[..i + 1]) == if data.Success? then before[Norm(keysPaths[i].1) := data.value] else before
  {
    assert keysPaths[..i + 1][..i] == keysPaths[..i];
  }

  /** `download_keys_to_files(bucket, keys_paths, show_progress=show_progress)`: the rows in
      the order the downloads finished, and the progress task when one is shown. */
  method DownloadKeysToFiles(store: ObjectStore, disk: LocalDisk, bucket: string, keysPaths: seq<(string, string)>, showProgress: bool)
    returns (output: seq<Row>, progress: Progress?, ghost completion: seq<nat>)
    modifies disk
    ensures IsCompletionOrder(completion, |keysPaths|) && InRange(completion, |keysPaths|)
    ensures output == Reorder(Report(store.Snapshot(), bucket, keysPaths), completion)
    ensures disk.files == Written(old(disk.files), store.Snapshot(), bucket, keysPaths)
    ensures (progress != null) == showProgress
    ensures progress != null ==>
              fresh(progress) && progress.total == |keysPaths|
              && progress.completed == Count(Succeeded(Outcomes(store.Snapshot(), bucket, keysPaths)))
  {
    progress := null;
    if showProgress {
      progress := new Progress(|keysPaths|);
    }
    var outcomes := DownloadEach(store, disk, bucket, keysPaths, progress);
    var rows := seq(|keysPaths|, i requires 0 <= i < |keysPaths| =>
                      (keysPaths[i].0, keysPaths[i].1, Capture(outcomes[i])));
    assert rows == Report(store.Snapshot(), bucket, keysPaths);
    assert IsCompletionOrder(Indices(|keysPaths|), |keysPaths|);
    var order: seq<nat> :| IsCompletionOrder(order, |keysPaths|);
    ReorderPermutes(rows, order);
    output := Reorder(rows, order);
    completion := order;
  }

  /** The report keeps each pair with its own download's outcome: `True` exactly when
      the object was there to fetch, the `repr` of the exception otherwise. One failed
      download does not change the others' outcomes. */
  lemma ReportMeaning(s: State, bucket: string, keysPaths: seq<(string, string)>)
    ensures forall i :: 0 <= i < |keysPaths| ==>
              var row := Report(s, bucket, keysPaths)[i];
              var (key, path) := keysPaths[i];
              row.0 == key && row.1 == path
              && (row.2 == Value(true) <==> bucket != "" && key != "" && Has(s, bucket, key))
              && (!(bucket != "" && key != "" && Has(s, bucket, key)) ==>
                    row.2 == Description(Repr(FetchCall(s, bucket, key).error)))
  {
  }

  /** The output holds one row per input pair: its `(key, path)` pairs are the input
      pairs, each as often as in the input, whatever the finishing order. */
  lemma OutputPairsAreInput(s: State, bucket: string, keysPaths: seq<(string, string)>, order: seq<nat>)
    requires IsCompletionOrder(order, |keysPaths|)
    ensures InRange(order, |keysPaths|)
    ensures multiset(Pairs(Reorder(Report(s, bucket, keysPaths), order))) == multiset(keysPaths)
  {
    var rows := Report(s, bucket, keysPaths);
    ReorderPermutes(keysPaths, order);
    CompletionBounded(order, |keysPaths|);
    assert Pairs(rows) == keysPaths;
    assert Pairs(Reorder(rows, order)) == Reorder(keysPaths, order);
  }

  /** The progress task ends at the number of rows that report a value, which is the
      number of objects fetched, not the number of pairs. */
  lemma ProgressCountsDelivered(s: State, bucket: string, keysPaths: seq<(string, string)>, order: seq<nat>)
    requires IsCompletionOrder(order, |keysPaths|)
    ensures InRange(order, |keysPaths|)
    ensures Count(Delivered(Reorder(Report(s, bucket, keysPaths), order))) == Count(Succeeded(Outcomes(s, bucket, keysPaths)))
  {
    var rows := Report(s, bucket, keysPaths);
    var os := Outcomes(s, bucket, keysPaths);
    DeliveredReorder(rows, order);
    forall i | 0 <= i < |os|
      ensures rows[i].2 == Capture(os[i])
      ensures os[i].Raised? ==> os[i].error.isException
    {
      assert os[i] == DownloadOutcome(s, bucket, keysPaths[i].0);
    }
    DeliveredSucceeded(rows, os);
  }

  /** An empty batch reports nothing: there is no length check, unlike copy and move. */
  lemma EmptyBatchReportsNothing(s: State, bucket: string, order: seq<nat>)
    requires IsCompletionOrder(order, 0)
    ensures InRange(order, 0) && Reorder(Report(s, bucket, []), order) == []
  {
    CompletionBounded(order, 0);
  }

  /** `"{folder}/{path}"` where the path is the key with every occurrence of `prefix`
      removed and its first character dropped, or the key itself. */
  function LocalPath(folder: string, prefix: string, key: string, removePrefix: bool): (r: string)
    ensures StartsWith(r, folder + "/")
    ensures |r| <= |folder| + 1 + |key|
  {
    folder + "/" + (if removePrefix then DropFirst(Replace(key, prefix, "")) else key)
  }

  /** The `keys_paths` of `download_prefix_to_folder`. */
  function KeysPaths(folder: string, prefix: string, keys: seq<string>, removePrefix: bool): (r: seq<(string, string)>)
    ensures |r| == |keys| && forall i :: 0 <= i < |keys| ==> r[i].0 == keys[i]
  {
    seq(|keys|, i requires 0 <= i < |keys| => (keys[i], LocalPath(folder, prefix, keys[i], removePrefix)))
  }

  /** The pairs `download_prefix_to_folder` downloads, or the exception listing raised. */
  function PrefixKeysPaths(s: State, bucket: string, prefix: string, folder: string, searchStr: Option<string>, removePrefix: bool)
    : Result<seq<(string, string)>, Error>
  {
    var listed := ObjectsList.ListResult(s, bucket, Str(prefix), searchStr, MaxPage, false);
    if listed.Failure? then Failure(listed.error)
    else Success(KeysPaths(folder, prefix, ObjectsList.Texts(listed.value), removePrefix))
  }

  /** `download_prefix_to_folder(bucket, prefix, folder, search_str, remove_prefix, show_progress=...)` */
  method DownloadPrefixToFolder(store: ObjectStore, disk: LocalDisk, bucket: string, prefix: string, folder: string,
                                searchStr: Option<string>, removePrefix: bool, showProgress: bool)
    returns (r: Result<seq<Row>, Error>, progress: Progress?, ghost completion: seq<nat>)
    modifies disk
    ensures var kp := PrefixKeysPaths(store.Snapshot(), bucket, prefix, folder, searchStr, removePrefix);
            (kp.Failure? ==> r == Failure(kp.error) && disk.files == old(disk.files) && progress == null)
            && (kp.Success? ==>
                  IsCompletionOrder(completion, |kp.value|) && InRange(completion, |kp.value|)
                  && r == Success(Reorder(Report(store.Snapshot(), bucket, kp.value), completion))
                  && disk.files == Written(old(disk.files), store.Snapshot(), bucket, kp.value)
                  && (progress != null) == showProgress
                  && (progress != null ==>
                        fresh(progress) && progress.total == |kp.value|
                        && progress.completed == Count(Succeeded(Outcomes(store.Snapshot(), bucket, kp.value)))))
  {
    var listed, requests, pages := ObjectsList.ListObjects(store, bucket, Str(prefix), searchStr, MaxPage, false);
    if listed.Failure? {
      return Failure(listed.error), null, [];
    }
    var keysPaths := KeysPaths(folder, prefix, ObjectsList.Texts(listed.value), removePrefix);
    var output;
    output, progress, completion := DownloadKeysToFiles(store, disk, bucket, keysPaths, showProgress);
    r := Success(output);
  }

  /** With `remove_prefix`, a key made of the prefix, `/` and a rest that does not contain
      the prefix again lands at `folder/rest`; without it, at `folder/key`. */
  lemma LocalPathStripsPrefix(folder: string, prefix: string, rest: string)
    requires prefix != "" && !Occurs("/" + rest, prefix)
    ensures LocalPath(folder, prefix, prefix + "/" + rest, true) == folder + "/" + rest
    ensures LocalPath(folder, prefix, prefix + "/" + rest, false) == folder + "/" + prefix + "/" + rest
  {
    assert prefix + "/" + rest == prefix + ("/" + rest);
    ReplaceLeading(prefix, "/" + rest, "");
    assert "" + ("/" + rest) == "/" + rest;
  }

  /** Every downloaded key is a listed key: stored under the prefix and matching the search string. */
  lemma PrefixDownloadsListedKeys(s: State, bucket: string, prefix: string, folder: string, searchStr: Option<string>, removePrefix: bool)
    requires Valid(s) && PrefixKeysPaths(s, bucket, prefix, folder, searchStr, removePrefix).Success?
    ensures var kp := PrefixKeysPaths(s, bucket, prefix, folder, searchStr, removePrefix).value;
            forall i :: 0 <= i < |kp| ==>
              Has(s, bucket, kp[i].0) && StartsWith(kp[i].0, Norm(prefix))
              && (searchStr.Some? ==> Glob.Match(searchStr.value, kp[i].0))
  {
    ObjectsList.ListedKeysMatch(s, bucket, Str(prefix), searchStr, MaxPage);
    var keys := ObjectsList.ListKeys(s, bucket, Str(prefix), searchStr, MaxPage).value;
    ObjectsList.TextsOfStrings(keys);
    var kp := PrefixKeysPaths(s, bucket, prefix, folder, searchStr, removePrefix).value;
    forall i | 0 <= i < |kp| ensures kp[i].0 in keys {
      assert kp[i].0 == keys[i];
    }
  }

  /** `str.replace` removes the prefix wherever it occurs, not only in front:
      with prefix `data`, the key `data/x_data.csv` lands at `folder/x_.csv`. */
  lemma InnerPrefixRemoved(folder: string, t: string, key: string)
    requires t == "data" && key == "data/x_data.csv"
    ensures LocalPath(folder, t, key, true) == folder + "/x_.csv"
  {
    var r4 := ['.', 'c', 's', 'v'];
    var r5 := t + r4;
    var r6 := ['_'] + r5;
    var r7 := ['x'] + r6;
    var r8 := ['/'] + r7;
    var stripped := ['/'] + (['x'] + (['_'] + r4));
    assert Replace(key, t, "") == stripped by {
      assert key == t + r8;
      ReplaceHit(t, r8);
      ReplaceStep('/', r7, t);
      ReplaceStep('x', r6, t);
      ReplaceStep('_', r5, t);
      ReplaceHit(t, r4);
      ExtensionKept(t);
    }
    assert DropFirst(stripped) == "x_.csv" by {
      assert stripped == "/x_.csv";
    }
  }

  lemma ExtensionKept(t: string)
    requires t != "" && t[0] == 'd'
    ensures Replace(['.', 'c', 's', 'v'], t, "") == ['.', 'c', 's', 'v']
  {
    var r0 := "";
    assert Replace(r0, t, "") == "";
    var r1 := ['v'] + r0;
    ReplaceStep('v', r0, t);
    var r2 := ['s'] + r1;
    ReplaceStep('s', r1, t);
    var r3 := ['c'] + r2;
    ReplaceStep('c', r2, t);
    ReplaceStep('.', r3, t);
    assert ['.'] + r3 == ['.', 'c', 's', 'v'];
  }

  /** A character that does not start an occurrence of `t` is kept. */
  lemma ReplaceStep(c: char, rest: string, t: string)
    requires t != "" && c != t[0]
    ensures Replace([c] + rest, t, "") == [c] + Replace(rest, t, "")
  {
    var s := [c] + rest;
    assert s[0] == c && s[1..] == rest;
    assert !StartsWith(s, t);
  }

  /** An occurrence of `t` in front is removed. */
  lemma ReplaceHit(t: string, rest: string)
    requires t != ""
    ensures Replace(t + rest, t, "") == Replace(rest, t, "")
  {
    var s := t + rest;
    assert s[..|t|] == t && s[|t|..] == rest;
  }

  /** Stripping only a leading prefix: the path the documentation of `remove_prefix` describes. */
  function LeadingLocalPath(folder: string, prefix: string, key: string, removePrefix: bool): (r: string)
    ensures StartsWith(r, folder + "/")
    ensures !removePrefix || !StartsWith(key, prefix) ==> r == LocalPath(folder, prefix, key, false)
  {
    folder + "/" + (if removePrefix && StartsWith(key, prefix) then DropFirst(key[|prefix|..]) else key)
  }

  /** With the leading prefix stripped, every key `prefix/rest` lands at `folder/rest`,
      whatever `rest` contains. */
  lemma LeadingLocalPathStrips(folder: string, prefix: string, rest: string)
    ensures LeadingLocalPath(folder, prefix, prefix + "/" + rest, true) == folder + "/" + rest
    ensures !Occurs("/" + rest, prefix) && prefix != "" ==>
              LeadingLocalPath(folder, prefix, prefix + "/" + rest, true) == LocalPath(folder, prefix, prefix + "/" + rest, true)
  {
    var key := prefix + "/" + rest;
    assert key[..|prefix|] == prefix;
    assert key[|prefix|..] == "/" + rest;
    if !Occurs("/" + rest, prefix) && prefix != "" {
      LocalPathStripsPrefix(folder, prefix, rest);
    }
  }
}
