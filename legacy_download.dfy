/** The older top-level `download_key_to_file`, `download_keys_to_files` and
    `download_prefix_to_folder`: the same downloads and the same report, without a
    progress bar. */
module LegacyDownload {
  import opened Wrappers
  import opened PyStr
  import opened PurePath
  import opened Store
  import opened Utils
  import opened Batch
  import ObjectsDownload

  /** `download_key_to_file(bucket, key, local_filename)`: the key is sent as given. */
  method DownloadKeyToFile(store: ObjectStore, disk: LocalDisk, bucket: string, key: string, localFilename: string)
    returns (o: Outcome<bool>)
    modifies disk
    ensures o == ObjectsDownload.DownloadOutcome(store.Snapshot(), bucket, key)
    ensures disk.files == if o.Returned? then old(disk.files)[Norm(localFilename) := store.Snapshot().buckets[bucket].data[key]]
                          else old(disk.files)
  {
    o := ObjectsDownload.DownloadKeyToFile(store, disk, bucket, key, localFilename, null);
  }

  /** `download_keys_to_files(bucket, keys_paths)`: one row per pair, in the order the downloads finished. */
  method DownloadKeysToFiles(store: ObjectStore, disk: LocalDisk, bucket: string, keysPaths: seq<(string, string)>)
    returns (output: seq<ObjectsDownload.Row>, ghost completion: seq<nat>)
    modifies disk
    ensures IsCompletionOrder(completion, |keysPaths|) && InRange(completion, |keysPaths|)
    ensures output == Reorder(ObjectsDownload.Report(store.Snapshot(), bucket, keysPaths), completion)
    ensures disk.files == ObjectsDownload.Written(old(disk.files), store.Snapshot(), bucket, keysPaths)
  {
    var progress;
    output, progress, completion := ObjectsDownload.DownloadKeysToFiles(store, disk, bucket, keysPaths, false);
  }

  /** `download_prefix_to_folder(bucket, prefix, folder, search_str, remove_prefix)` */
  method DownloadPrefixToFolder(store: ObjectStore, disk: LocalDisk, bucket: string, prefix: string, folder: string,
                                searchStr: Option<string>, removePrefix: bool)
    returns (r: Result<seq<ObjectsDownload.Row>, Errors.Error>, ghost completion: seq<nat>)
    modifies disk
    ensures var kp := ObjectsDownload.PrefixKeysPaths(store.Snapshot(), bucket, prefix, folder, searchStr, removePrefix);
            (kp.Failure? ==> r == Failure(kp.error) && disk.files == old(disk.files))
            && (kp.Success? ==>
                  IsCompletionOrder(completion, |kp.value|) && InRange(completion, |kp.value|)
                  && r == Success(Reorder(ObjectsDownload.Report(store.Snapshot(), bucket, kp.value), completion))
                  && disk.files == ObjectsDownload.Written(old(disk.files), store.Snapshot(), bucket, kp.value))
  {
    var progress;
    r, progress, completion := ObjectsDownload.DownloadPrefixToFolder(store, disk, bucket, prefix, folder, searchStr, removePrefix, false);
  }

  /** The key is not normalised: `key/` does not name the object stored under `key`. */
  lemma RawKeyNotNormalised(s: State, bucket: string, key: string)
    requires Valid(s) && bucket != "" && key != "" && Has(s, bucket, key) && !Has(s, bucket, key + "/")
    ensures ObjectsDownload.DownloadOutcome(s, bucket, key).Returned?
    ensures ObjectsDownload.DownloadOutcome(s, bucket, key + "/") == Outcome.Raised(Store.NotFound("HeadObject"))
  {
  }
}
