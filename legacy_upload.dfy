/** The older top-level `upload_file_to_key`, `upload_files_to_keys` and
    `upload_folder_to_prefix`: the same uploads and the same report, without a
    progress bar. */
module LegacyUpload {
  import opened Store
  import opened Utils
  import opened Batch
  import ObjectsUpload

  /** `upload_file_to_key(bucket, key, local_filename)` */
  method UploadFileToKey(store: ObjectStore, disk: LocalDisk, endpoint: string, bucket: string, key: string, localFilename: string)
    returns (o: Outcome<string>)
    modifies store
    ensures (o, store.Snapshot()) == ObjectsUpload.UploadCall(old(store.Snapshot()), disk.files, endpoint, bucket, key, localFilename)
  {
    o := ObjectsUpload.UploadFileToKey(store, disk, endpoint, bucket, key, localFilename, null);
  }

  /** `upload_files_to_keys(bucket, paths_keys)`: one row per pair, in the order the uploads finished. */
  method UploadFilesToKeys(store: ObjectStore, disk: LocalDisk, endpoint: string, bucket: string, pathsKeys: seq<(string, string)>)
    returns (output: seq<ObjectsUpload.Row>, ghost completion: seq<nat>)
    modifies store
    ensures IsCompletionOrder(completion, |pathsKeys|) && InRange(completion, |pathsKeys|)
    ensures output == Reorder(ObjectsUpload.Report(old(store.Snapshot()), disk.files, endpoint, bucket, pathsKeys), completion)
    ensures store.Snapshot() == ObjectsUpload.UploadRun(old(store.Snapshot()), disk.files, endpoint, bucket, pathsKeys).1
  {
    var progress;
    output, progress, completion := ObjectsUpload.UploadFilesToKeys(store, disk, endpoint, bucket, pathsKeys, false);
  }

  /** `upload_folder_to_prefix(bucket, prefix, folder, search_str)`, where `entries` are the
      relative paths `Path(folder).rglob(search_str)` yields, each with whether it is a file. */
  method UploadFolderToPrefix(store: ObjectStore, disk: LocalDisk, endpoint: string, bucket: string, prefix: string, folder: string,
                              entries: seq<(string, bool)>)
    returns (output: seq<ObjectsUpload.Row>, ghost completion: seq<nat>)
    modifies store
    ensures var pk := ObjectsUpload.PathsKeys(folder, prefix, entries);
            IsCompletionOrder(completion, |pk|) && InRange(completion, |pk|)
            && output == Reorder(ObjectsUpload.Report(old(store.Snapshot()), disk.files, endpoint, bucket, pk), completion)
            && store.Snapshot() == ObjectsUpload.UploadRun(old(store.Snapshot()), disk.files, endpoint, bucket, pk).1
  {
    var progress;
    output, progress, completion := ObjectsUpload.UploadFolderToPrefix(store, disk, endpoint, bucket, prefix, folder, entries, false);
  }
}
