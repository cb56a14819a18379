# aws-s3-tools, modelled in Dafny

`s3_tools` is a small Python library of helpers over boto3. It can:

- list the keys of a bucket under a prefix, optionally filtered with a shell-style pattern;
- check whether an object or a bucket exists;
- copy, move and delete objects one by one, by key list or by prefix;
- download and upload batches of files in a thread pool, reporting per file what happened;
- list and delete buckets.

This project models the part of the library that decides which keys are touched, in what order, and what comes back. It also models the older top-level `download`, `upload` and `delete` modules.

The S3 service is an in-memory store. `Store.State` holds the buckets and their keys in a fixed listing order. `Store.ObjectStore` is the object whose state the library's calls change. Each boto3 call the library makes is a function from the state to the response, or to the exception raised:

- `ParamValidationError` for an empty bucket name or key, with botocore's report: the bucket-name check for `Bucket`, the length check for `Key`;
- `ClientError` with code `404` for a `HEAD` request (`head_object`, `head_bucket`) that finds no object or no bucket;
- `ClientError` with code `NoSuchBucket`, `BucketNotEmpty`, `InvalidRequest` or `InvalidArgument` for the other requests.

A `ClientError`'s message reads `An error occurred (<code>) when calling the <operation> operation: <service message>`, with S3's usual service message for each code.

Listing is paged with continuation tokens. Python exceptions are values (`Errors.Error`) that carry their class, message and code, and whether they derive from `Exception`. `Errors.Repr` renders one as Python's `repr` does, choosing the quote and escaping the message.

Modules follow the source files:

- `ObjectsList`, `ObjectsCheck`, `ObjectsCopy`, `ObjectsMove`, `ObjectsDelete`, `ObjectsDownload` and `ObjectsUpload` model `s3_tools/objects/*`.
- `BucketsList`, `BucketsCheck` and `BucketsDelete` model `s3_tools/buckets/*`.
- `Utils` models `s3_tools/utils.py`.
- `LegacyDownload`, `LegacyUpload` and `LegacyDelete` model the top-level `s3_tools/download.py`, `upload.py` and `delete.py`.

Four modules carry what the library borrows from Python:

- `PyStr` covers `str.replace`, `[1:]` and `startswith`.
- `PurePath` covers `Path(x).as_posix()` as `Norm` and `joinpath`.
- `Glob` covers `fnmatch.filter`, as a recursive matcher.
- `Batch` covers the completion order of a thread pool, the progress counter and the local disk.

How the concurrency is modelled:

- `copy_keys` and `move_keys` submit each pair from a generator expression, and wait on its result before the next pair is submitted. So they are loops that run the pairs in input order and stop at the first exception.
- The download and upload batches run their units one after the other in input order. Each unit's outcome is the one it has on its own, because downloads only read and uploads never create or remove buckets. The report is then rearranged by a completion order, which is any permutation of the units (`Batch.IsCompletionOrder`).

Where the code and its documentation differ, the model follows the code:

- The progress bar advances only after a unit succeeds, so it ends at the number of successes, not at the number of units.
- An empty prefix is sent as `Path("").as_posix()`, which is `"."`. It does not list the whole bucket.
- The newer `delete_prefix` deletes `Path(key).as_posix()` of each listed key, not the key itself.
- `list_buckets` treats a search string `""` as no filter. `list_objects` treats it as a pattern.

## Model

| member | source | states |
|---|---|---|
| Utils.GetFutureOutput | s3_tools/utils.py:20-23 | a returned unit gives its value; an `Exception` gives `repr(e)` and no exception; only a non-`Exception` propagates |
| Utils.CapturedDescribes | s3_tools/utils.py:22-23 | a captured exception is a description (never a value) that starts with the exception's class name |
| Utils.ZeroDivisionReported | s3_tools/utils.py:22-23 | a unit raising `1 / 0` is reported as `ZeroDivisionError('division by zero')` |
| Utils.PlainReported | s3_tools/utils.py:22-23 | an exception whose message has no quote, backslash or line break is reported as `Class('message')` |
| Errors.QuotePlain | s3_tools/utils.py:23 | `repr` puts a message without a quote, backslash or line break between single quotes as it is |
| Errors.EscapeAppend | s3_tools/utils.py:23 | escaping works character by character: escaping two texts joined is joining their escapes |
| Errors.UnescapeEscape | s3_tools/utils.py:23 | escaping loses nothing: the text between the quotes reads back as the message |
| Utils.Capture | s3_tools/utils.py:20-23 | the row a unit gets reports a value exactly when the unit returned |
| Utils.CountStep | s3_tools/objects/download.py:70-71 | one more unit adds one to the number of successes exactly when it returned |
| Utils.DeliveredSucceeded | s3_tools/objects/download.py:150-153 | rows that capture the units' outcomes report a value exactly where a unit returned |
| Utils.DeliveredReorder | s3_tools/objects/download.py:150-153 | rearranging the rows in completion order keeps the number that report a value |
| Store.ListCall | s3_tools/objects/list.py:73-81 | one `list_objects_v2` page is answered exactly when the bucket name is non-empty and names a bucket, `MaxKeys` is not negative and any token points within the listing |
| Store.PageCovers | s3_tools/objects/list.py:72-88 | a page continues the listing exactly where its request's token points, and its token points just past it |
| Store.TokenRoundTrip | s3_tools/objects/list.py:78-79 | a continuation token decodes to the position it was issued for |
| Store.HeadObjectCall | s3_tools/objects/check.py:46 | `head_object` succeeds exactly for a stored object, with its length |
| Store.HeadBucketCall | s3_tools/buckets/check.py:38 | `head_bucket` succeeds exactly for an existing bucket with a non-empty name |
| Store.FetchCall | s3_tools/objects/download.py:69 | `download_file` obtains the stored bytes exactly when the object exists; every failure is an `Exception` |
| Store.PutCall | s3_tools/objects/upload.py:66 | `upload_file`'s request succeeds exactly for a non-empty key in an existing bucket and keeps the set of buckets |
| Store.CopyCall | s3_tools/objects/copy.py:56-60 | the managed copy succeeds exactly when the source exists, the destination bucket exists and differs from the source object |
| Store.DeleteCall | s3_tools/objects/delete.py:36 | `delete_object` succeeds for any non-empty key of an existing bucket, present or not |
| Store.DeleteBucketCall | s3_tools/buckets/delete.py:39 | `delete_bucket` succeeds exactly for an existing empty bucket, answers status 204 and removes only that bucket |
| Store.PutKeepsValid | s3_tools/objects/upload.py:66 | storing an object keeps every bucket's listing order a duplicate-free listing of its keys |
| Store.CallsKeepValid | s3_tools/objects/copy.py:56-60 | the put, delete and copy calls keep the store well formed |
| Store.ObjectStore.PutObject | s3_tools/objects/upload.py:66 | the store becomes the call's new state, or stays as it was when the call raised |
| Store.ObjectStore.DeleteObject | s3_tools/objects/delete.py:36 | the store becomes the call's new state, or stays as it was when the call raised |
| Store.ObjectStore.CopyObject | s3_tools/objects/copy.py:56-60 | the store becomes the call's new state, or stays as it was when the call raised |
| Store.ObjectStore.DeleteBucket | s3_tools/buckets/delete.py:39 | the bucket is gone and the status code returned, or nothing changed and the error returned |
| PyStr.Replace | s3_tools/objects/copy.py:187-193 | replacing with `""` never lengthens the text; a non-empty target replaced by text of its length keeps the length |
| PyStr.ReplaceAbsent | s3_tools/objects/copy.py:187-193 | replacing a target that does not occur changes nothing |
| PyStr.ReplaceLeading | s3_tools/objects/copy.py:187-193 | a leading target followed by text without it has exactly that target swapped |
| PyStr.ReplaceSelf | s3_tools/objects/copy.py:187-193 | `change_prefix=(p, p)` leaves every key as it is |
| PurePath.Norm | s3_tools/objects/list.py:75 | `as_posix` is never empty: an empty path is `.` |
| PurePath.JoinPath | s3_tools/objects/upload.py:224 | `joinpath(...).as_posix()` is non-empty and already in normal form |
| PurePath.NormIdempotent | s3_tools/objects/list.py:75 | `Path(Path(x))` names what `Path(x)` names |
| PurePath.TrailingSlashIgnored | s3_tools/objects/check.py:46 | `Path("prefix/key.csv/")` names `prefix/key.csv` |
| PurePath.JoinPathParts | s3_tools/objects/upload.py:224 | `Path(prefix).joinpath(rel)` has the components of `prefix` followed by those of `rel`, and the root of `prefix` |
| PurePath.NormComponent | s3_tools/objects/delete.py:36 | a single plain component is its own normal form |
| Glob.Match | s3_tools/objects/list.py:90-91 | a pattern without `*` matches no name longer than itself |
| Glob.Filter | s3_tools/objects/list.py:90-91 | keeps at most the given names, each kept name given and matching |
| Glob.MatchLiteral | s3_tools/objects/list.py:90-91 | a pattern without wildcards matches exactly itself |
| Glob.StarMatchesAll | s3_tools/objects/list.py:90-91 | `*` matches every key, `/` included |
| Glob.StarMatches | s3_tools/objects/list.py:90-91 | a leading `*` matches a name exactly when the rest of the pattern matches some suffix of it |
| Glob.LiteralStarMatches | s3_tools/objects/list.py:90-91 | `text*` matches exactly the names starting with `text` |
| Glob.ContainsMatches | s3_tools/objects/copy.py:180-185 | `*text*` matches exactly the names containing `text` |
| Glob.FilterCounts | s3_tools/objects/list.py:90-91 | the filter keeps each matching name as often as it occurs and drops every other name |
| Glob.FilterMembership | s3_tools/objects/list.py:90-91 | every kept name matches and no matching name is dropped |
| Glob.FilterAppend | s3_tools/objects/list.py:90-91 | filtering a concatenation gives the filtered parts in the same order |
| Glob.FilterAllMatch | s3_tools/objects/list.py:90-91 | when every name matches, the filter returns the names unchanged |
| Glob.FilterNoneMatch | s3_tools/objects/list.py:90-91 | when no name matches, the filter returns nothing |
| Glob.EmptyPatternKeepsEmpty | s3_tools/objects/list.py:90 | the pattern `""` keeps only empty names |
| Batch.ReorderPermutes | s3_tools/objects/download.py:150-153 | rearranging the units in completion order loses and duplicates none of them |
| Batch.ReorderIndices | s3_tools/objects/download.py:137-148 | taking the units in submission order gives them exactly as submitted |
| Batch.CountReorder | s3_tools/objects/download.py:150-153 | rearranging success flags keeps their count |
| Batch.CountIsMultiplicity | s3_tools/objects/download.py:150-153 | the count of successes is how often success occurs |
| Batch.Progress.Advance | s3_tools/objects/download.py:70-71 | one advance adds one completed unit and keeps the total |
| Batch.LocalDisk.Write | s3_tools/objects/download.py:69 | writing a file sets its contents and keeps every other file |
| ObjectsList.ListKeys | s3_tools/objects/list.py:72-91 | the error of the first request, or keys of the listing under the prefix, no more of them than the listing holds, each matching the search string |
| ObjectsList.ListResult | s3_tools/objects/list.py:72-93 | raises exactly when the listing does; otherwise one returned key per listed key, each naming that key's object |
| ObjectsList.ListObjects | s3_tools/objects/list.py:72-93 | the first request has no token and each later one carries the previous page's token; it stops at the first page without a token; the result is the filtered listing, or the first request's error |
| ObjectsList.NextPage | s3_tools/objects/list.py:82-88 | each page extends the keys gathered so far by exactly the next keys of the listing |
| ObjectsList.NextToken | s3_tools/objects/list.py:85-88 | a page's token is non-empty, follows a non-empty page, and resumes the listing right after that page's keys |
| ObjectsList.FetchPage | s3_tools/objects/list.py:73-88 | one pass of the loop: a failed request ends it (only the first request can fail); otherwise the page's keys extend the gathered prefix of the listing, and the loop goes on exactly when the page hands back a non-empty token |
| ObjectsList.FetchKeys | s3_tools/objects/list.py:72-88 | the loop ends with the first request's exception, or with every key of the listing (none for `MaxKeys` 0), having sent the first request without a token and each later one with the previous page's token |
| ObjectsList.ListedKeysMatch | s3_tools/objects/list.py:90-91 | a key is returned iff it is stored, starts with `Path(prefix).as_posix()` and matches the search string |
| ObjectsList.PageSizeIrrelevant | s3_tools/objects/list.py:72-88 | every page size from 1 up returns the same keys |
| ObjectsList.EmptyBucketListsNothing | s3_tools/objects/list.py:82-86 | an empty bucket lists nothing |
| ObjectsList.PathPrefixSame | s3_tools/objects/list.py:75 | a `str` prefix and a `Path` prefix list the same keys |
| ObjectsList.AsPathsSameKeys | s3_tools/objects/list.py:93 | `as_paths` keeps the number and order of keys and names the same objects |
| ObjectsList.TextsOfStrings | s3_tools/objects/list.py:93 | without `as_paths` the keys are returned as they are |
| ObjectsList.EmptySearchKeepsNothing | s3_tools/objects/list.py:90 | the search string `""` filters, keeping only a key equal to `""` |
| ObjectsCheck.NotFoundAsTranslates | s3_tools/objects/check.py:47-51 | a `404` becomes the absent value; a success and every other error come out unchanged |
| ObjectsCheck.ObjectExists | s3_tools/objects/check.py:45-53 | `True` only for a stored object; never raises a `ClientError`, since `head_object` reports a missing bucket or key as `404` |
| ObjectsCheck.ObjectMetadata | s3_tools/objects/check.py:96-102 | a response is returned only for a stored object, with its length; never raises a `ClientError` |
| ObjectsCheck.ObjectExistsMeaning | s3_tools/objects/check.py:45-53 | `True` iff the object is stored, `False` iff the bucket name is non-empty and the object is not stored (missing bucket included), and the `ParamValidationError` of an empty bucket name otherwise |
| ObjectsCheck.MetadataAgreesWithExists | s3_tools/objects/check.py:96-102 | the metadata is the head response exactly when the object exists, `{}` exactly when `object_exists` is `False`, and the same error otherwise |
| ObjectsCheck.TrailingSlashSameObject | s3_tools/objects/check.py:46 | `Path("key/")` and `"key"` name the same object for both checks |
| BucketsCheck.BucketExists | s3_tools/buckets/check.py:37-45 | `True` only for an existing bucket; never raises a `ClientError`, since `head_bucket` reports a missing bucket as `404` |
| BucketsCheck.BucketExistsMeaning | s3_tools/buckets/check.py:37-45 | a named bucket gives whether it exists; only the empty name raises, with `ParamValidationError` |
| BucketsList.ListBuckets | s3_tools/buckets/list.py:42-46 | returns at most the existing bucket names, and only those |
| BucketsList.ListBucketsMeaning | s3_tools/buckets/list.py:42-46 | each name is returned once, and a name is returned iff the bucket exists and matches a non-empty search string |
| BucketsList.FilterDistinct | s3_tools/buckets/list.py:46 | filtering distinct names gives distinct names |
| BucketsList.EmptySearchListsAll | s3_tools/buckets/list.py:46 | `""` returns every bucket name, where the same search on keys returns none |
| BucketsDelete.DeleteBucketResult | s3_tools/buckets/delete.py:38-46 | `True` only when the call succeeded; a raised error is the call's own and never `NoSuchBucket` |
| BucketsDelete.DeleteBucket | s3_tools/buckets/delete.py:38-46 | returns the translated response and leaves the store as the call left it |
| BucketsDelete.DeleteBucketMeaning | s3_tools/buckets/delete.py:38-46 | `True` iff the bucket existed and was empty; `False` iff it is missing; an empty name raises `ParamValidationError`; a non-empty bucket raises `BucketNotEmpty` |
| ObjectsCopy.KeyListError | s3_tools/objects/copy.py:117-121 | unequal lengths give `IndexError` before empty lists give `ValueError`; equal non-empty lists pass |
| ObjectsCopy.Zip | s3_tools/objects/copy.py:126 | the pairs are the keys at equal positions |
| ObjectsCopy.CopyStep | s3_tools/objects/copy.py:56-60 | a successful copy needs the source object, keeps the set of buckets and leaves the destination holding the source's bytes |
| ObjectsCopy.CopyRun | s3_tools/objects/copy.py:123-130 | a batch of copies never creates or removes a bucket |
| ObjectsCopy.CopyObject | s3_tools/objects/copy.py:56-60 | copies `Path(source).as_posix()` to `Path(destination).as_posix()`, or raises and changes nothing |
| ObjectsCopy.CopyKeys | s3_tools/objects/copy.py:117-130 | checks the lists, then copies the pairs in order, stopping at the first exception |
| ObjectsCopy.CopyKeysChecksFirst | s3_tools/objects/copy.py:117-121 | a failed length check raises the right class and leaves the store unchanged |
| ObjectsCopy.CopyRunAppend | s3_tools/objects/copy.py:123-130 | a batch is its first part followed, if no exception was raised, by the rest |
| ObjectsCopy.CopyRunStops | s3_tools/objects/copy.py:123-130 | an exception comes from one pair, raised on the state its predecessors left; no later pair ran |
| ObjectsCopy.CopyRunKeeps | s3_tools/objects/copy.py:123-130 | copying never removes an object |
| ObjectsCopy.CopyRunSuccess | s3_tools/objects/copy.py:123-130 | after a successful batch every source and every destination exists |
| ObjectsCopy.CopyRunErrors | s3_tools/objects/copy.py:123-130 | a batch raises only the copy's own `ClientError` or `ParamValidationError` |
| ObjectsCopy.DestinationKeys | s3_tools/objects/copy.py:187-193 | one destination per listed key |
| ObjectsCopy.CopyPrefix | s3_tools/objects/copy.py:180-202 | lists with `filter_keys`, derives the destinations, then runs `copy_keys` |
| ObjectsCopy.CopyPrefixShape | s3_tools/objects/copy.py:180-202 | never raises `IndexError`; nothing listed raises `ValueError` with the store unchanged; otherwise it is the copy of the listed pairs |
| ObjectsCopy.DestinationSwapsPrefix | s3_tools/objects/copy.py:187-193 | a key `old + rest`, with `old` not occurring in `rest`, is copied to `new + rest` |
| ObjectsCopy.SameKeysWithoutChange | s3_tools/objects/copy.py:187 | after a prefix copy without `change_prefix` that raised nothing, every listed key exists in the destination bucket |
| ObjectsCopy.FilterSelectsContaining | s3_tools/objects/copy.py:180-185 | `filter_keys="*text*"` (such as `*02*`) selects exactly the stored keys under the prefix that contain `text` |
| ObjectsMove.MoveStep | s3_tools/objects/move.py:54-60 | a successful move keeps the set of buckets and leaves the source gone |
| ObjectsMove.MoveRun | s3_tools/objects/move.py:123-130 | a batch of moves never creates or removes a bucket |
| ObjectsMove.MoveObject | s3_tools/objects/move.py:54-60 | copies then deletes the source, or raises the copy's exception and changes nothing |
| ObjectsMove.MoveKeys | s3_tools/objects/move.py:117-130 | checks the lists, then moves the pairs in order, stopping at the first exception |
| ObjectsMove.MoveStepMeaning | s3_tools/objects/move.py:54-60 | a move succeeds iff its copy does; the destination then holds the source's bytes, the source is gone, and no other object changes |
| ObjectsMove.MoveKeysChecksFirst | s3_tools/objects/move.py:117-121 | a failed length check raises the right class before any move |
| ObjectsMove.MoveRunAppend | s3_tools/objects/move.py:123-130 | a batch is its first part followed, if no exception was raised, by the rest |
| ObjectsMove.MoveRunKeeps | s3_tools/objects/move.py:123-130 | an object that is no pair's source survives the batch |
| ObjectsMove.MoveRunAbsent | s3_tools/objects/move.py:123-130 | an absent object that is no pair's destination stays absent |
| ObjectsMove.MoveRunSuccess | s3_tools/objects/move.py:123-130 | after a successful batch with sources disjoint from destinations, every source is absent and every destination present |
| ObjectsDelete.DeleteStep | s3_tools/objects/delete.py:36 | a successful delete keeps the set of buckets and leaves no object under `Path(key).as_posix()` |
| ObjectsDelete.DeleteRun | s3_tools/objects/delete.py:120-121 | a batch of deletes never creates or removes a bucket |
| ObjectsDelete.Posix | s3_tools/objects/delete.py:36 | each key is sent as its non-empty `Path(key).as_posix()` |
| ObjectsDelete.DeleteObject | s3_tools/objects/delete.py:36 | deletes `Path(key).as_posix()`, or raises and changes nothing |
| ObjectsDelete.DeleteEach | s3_tools/objects/delete.py:120-121 | deletes the keys in order, stopping at the first exception |
| ObjectsDelete.DeleteKeys | s3_tools/objects/delete.py:117-121 | a dry run changes nothing; otherwise each key is deleted in turn |
| ObjectsDelete.DeletePrefix | s3_tools/objects/delete.py:77-85 | returns the listed keys for a dry run, `None` after deleting them, or the exception raised |
| ObjectsDelete.DeleteAbsentNoop | s3_tools/objects/delete.py:36 | deleting an absent key in an existing bucket succeeds and changes nothing |
| ObjectsDelete.DeleteIdempotent | s3_tools/objects/delete.py:36 | deleting twice is deleting once |
| ObjectsDelete.SameObjectDeleted | s3_tools/objects/delete.py:36 | `"key"`, `Path("key")` and `Path("key/")` delete the same object |
| ObjectsDelete.DeleteRunRemoves | s3_tools/objects/delete.py:120-121 | in an existing bucket, deleting non-empty keys removes exactly those keys and keeps every other object's bytes |
| ObjectsDelete.DeleteRunKeepsValid | s3_tools/objects/delete.py:82-83 | deleting keeps the store well formed |
| ObjectsDelete.DeletePrefixMeaning | s3_tools/objects/delete.py:77-85 | a dry run returns the listed keys in order and changes nothing; a real one removes exactly the normalised listed keys and returns `None` |
| ObjectsDelete.DeletePrefixRemovesPlainKeys | s3_tools/objects/delete.py:82-83 | every listed key that is already in normal form is gone afterwards |
| ObjectsDelete.FolderMarkerSurvives | s3_tools/objects/delete.py:82-83 | with only `d/` in the bucket, prefix `d` lists `d/`, yet a real `delete_prefix` raises nothing and leaves the store unchanged |
| ObjectsDownload.DownloadOutcome | s3_tools/objects/download.py:66-72 | a failed download always raises an `Exception`, so the batch captures it |
| ObjectsDownload.DownloadKeyToFile | s3_tools/objects/download.py:66-72 | writes the object's bytes to the file and advances the progress only on success; returns `True` then |
| ObjectsDownload.DownloadEach | s3_tools/objects/download.py:134-153 | every pair is downloaded and the progress advances once per success |
| ObjectsDownload.DownloadKeysToFiles | s3_tools/objects/download.py:127-158 | the rows are the per-pair reports in a completion order; the progress total is the number of pairs and ends at the number of successes |
| ObjectsDownload.ReportMeaning | s3_tools/objects/download.py:150-153 | each row keeps its pair; its outcome is `True` iff the object was there, otherwise the `repr` of its own exception |
| ObjectsDownload.OutputPairsAreInput | s3_tools/objects/download.py:134-153 | the output's `(key, path)` pairs are the input pairs, each as often as given |
| ObjectsDownload.ProgressCountsDelivered | s3_tools/objects/download.py:127-153 | the progress count equals the number of rows reporting a value |
| ObjectsDownload.EmptyBatchReportsNothing | s3_tools/objects/download.py:134-153 | an empty batch reports nothing and raises nothing |
| ObjectsDownload.KeysPaths | s3_tools/objects/download.py:226-229 | one pair per listed key, keeping the key |
| ObjectsDownload.DownloadPrefixToFolder | s3_tools/objects/download.py:224-231 | lists with the search string, derives the paths, then runs the batch; a listing error is raised with nothing written; the progress total is the number of pairs and ends at the number of successes |
| ObjectsDownload.LocalPath | s3_tools/objects/download.py:228 | every file lands inside `folder/`, at a path no longer than `folder/` plus the key |
| ObjectsDownload.LocalPathStripsPrefix | s3_tools/objects/download.py:228 | `prefix/rest` lands at `folder/rest` with `remove_prefix` when `rest` does not contain the prefix, and at `folder/prefix/rest` without it |
| ObjectsDownload.PrefixDownloadsListedKeys | s3_tools/objects/download.py:224 | every downloaded key is stored, under the prefix and matching the search string |
| ObjectsDownload.InnerPrefixRemoved | s3_tools/objects/download.py:228 | with prefix `data`, the key `data/x_data.csv` lands at `folder/x_.csv` |
| ObjectsDownload.LeadingLocalPath | s3_tools/objects/download.py:228 | every file lands inside `folder/`; without `remove_prefix`, or for a key not starting with the prefix, at the same path as the code's derivation |
| ObjectsDownload.LeadingLocalPathStrips | s3_tools/objects/download.py:228 | stripping only the leading prefix puts every `prefix/rest` at `folder/rest`, and agrees with the code when `rest` lacks the prefix |
| ObjectsUpload.UploadCall | s3_tools/objects/upload.py:64-69 | a failed upload raises an `Exception` and changes nothing; no upload creates or removes a bucket |
| ObjectsUpload.UploadCallMeaning | s3_tools/objects/upload.py:64-69 | returns the URL iff the file exists, the names are non-empty and the bucket exists, storing exactly the file's bytes under the key; a missing file raises `FileNotFoundError`, a missing bucket `S3UploadFailedError` |
| ObjectsUpload.ObjectUrl | s3_tools/objects/upload.py:69 | the URL starts with the endpoint and the bucket, each followed by `/`, and ends with exactly the key |
| ObjectsUpload.UploadRun | s3_tools/objects/upload.py:131-150 | one outcome per pair; a batch of uploads never creates or removes a bucket |
| ObjectsUpload.ObjectUrlInjective | s3_tools/objects/upload.py:69 | two keys give the same URL iff they are equal |
| ObjectsUpload.RunOutcomesIndependent | s3_tools/objects/upload.py:131-150 | each upload of a batch has the outcome it has on its own against the initial store, whatever the order |
| ObjectsUpload.RunStoresFiles | s3_tools/objects/upload.py:131-150 | with distinct keys, every successful upload leaves its file's bytes under its key, and no object is lost |
| ObjectsUpload.RunKeepsValid | s3_tools/objects/upload.py:66 | uploads keep the store well formed |
| ObjectsUpload.UploadFileToKey | s3_tools/objects/upload.py:64-69 | the store and the outcome are the upload's; the progress advances only on success |
| ObjectsUpload.UploadEach | s3_tools/objects/upload.py:131-150 | every pair is uploaded in turn and the progress advances once per success |
| ObjectsUpload.UploadFilesToKeys | s3_tools/objects/upload.py:124-155 | the rows are the per-pair reports in a completion order; the progress total is the number of pairs and ends at the number of successes |
| ObjectsUpload.ReportMeaning | s3_tools/objects/upload.py:147-150 | each row keeps its pair; its outcome is the URL iff the file was stored, otherwise the `repr` of its own exception |
| ObjectsUpload.OutputPairsAreInput | s3_tools/objects/upload.py:134-150 | the output's `(path, key)` pairs are the input pairs, each as often as given |
| ObjectsUpload.ProgressCountsDelivered | s3_tools/objects/upload.py:124-150 | the progress count equals the number of rows reporting a URL |
| ObjectsUpload.PathsKeys | s3_tools/objects/upload.py:221-227 | one pair per file found |
| ObjectsUpload.FilesOfMeaning | s3_tools/objects/upload.py:219 | only entries that are files are uploaded, each as often as found |
| ObjectsUpload.PathsKeysMeaning | s3_tools/objects/upload.py:219-227 | each key has the prefix's components followed by the file's path relative to the folder, and the local path has the folder's |
| ObjectsUpload.EmptyPrefixKeepsRelative | s3_tools/objects/upload.py:224 | with prefix `""` a file is stored under its relative path, without `./` |
| ObjectsUpload.UploadFolderToPrefix | s3_tools/objects/upload.py:219-229 | uploads exactly the derived pairs, with their reports in a completion order; the progress total is the number of pairs and ends at the number of successes |
| LegacyDownload.DownloadKeyToFile | s3_tools/download.py:46-50 | writes the object's bytes to the file on success and returns `True`; otherwise raises |
| LegacyDownload.DownloadKeysToFiles | s3_tools/download.py:96-107 | the rows are the per-pair reports in a completion order |
| LegacyDownload.DownloadPrefixToFolder | s3_tools/download.py:164-171 | lists with the search string, derives `folder/` plus the key with the prefix replaced and its first character dropped, then runs the batch |
| LegacyDownload.RawKeyNotNormalised | s3_tools/download.py:49 | the key is sent as given: `key/` does not fetch the object `key` |
| LegacyUpload.UploadFileToKey | s3_tools/upload.py:44-47 | the store and the outcome are the upload's; the URL on success |
| LegacyUpload.UploadFilesToKeys | s3_tools/upload.py:93-104 | the rows are the per-pair reports in a completion order |
| LegacyUpload.UploadFolderToPrefix | s3_tools/upload.py:159-169 | uploads exactly the pairs derived from the files found |
| LegacyDelete.DeleteObject | s3_tools/delete.py:28-30 | deletes the key exactly as given |
| LegacyDelete.DeleteEach | s3_tools/delete.py:104-105 | deletes the raw keys in order, stopping at the first exception |
| LegacyDelete.DeleteKeys | s3_tools/delete.py:101-105 | a dry run changes nothing; otherwise each raw key is deleted in turn |
| LegacyDelete.DeletePrefix | s3_tools/delete.py:63-71 | returns the listed keys for a dry run, `None` after deleting them, or the exception raised |
| LegacyDelete.DeleteKeysMeaning | s3_tools/delete.py:101-105 | a dry run changes nothing; in an existing bucket a real one removes exactly the given non-empty keys and keeps every other object's bytes |
| LegacyDelete.DeletePrefixEmptiesPrefix | s3_tools/delete.py:63-71 | a dry run returns the listed keys; a real one leaves no object under the prefix and keeps every other object |

## Left out

- Threads, `ThreadPoolExecutor` and `as_completed`: units run one after the other; the finishing order is any permutation.
- boto3 sessions, clients, `aws_auth` and credentials: the store stands for the service. Wire behaviour and retries are not modelled.
- The real order of S3 listings (UTF-8 byte order) and the real token format: each bucket has a fixed key order, and a token is the decimal position it resumes at.
- The service's full error set: only the codes the library reacts to or propagates are modelled.
- The endpoint URL of the client: it is a parameter.
- The rich progress bar: it is a counter with a total. `_create_progress_bar` does not appear in `s3_tools/utils.py` and is not part of this model.
- The local filesystem:
  - files are a map from the normalised path to bytes;
  - `mkdir` of the parent folders is not modelled;
  - `rglob(search_str)` and `is_file` are an input list of relative paths, each flagged as a file or not.
- Which file wins when a batch writes two pairs to the same local path or key: the batch runs them in input order, whereas the pool may finish them in any order.
- The `FileNotFoundError` of a missing local file is rendered with the one-argument `repr`, whereas Python shows `FileNotFoundError(2, ...)`.
- `Errors.Repr`: escapes the chosen quote, backslashes, `\n`, `\t` and `\r` as Python does; other non-printable characters, which Python shows as `\x..` or `\u....`, are kept as they are.
- `Errors.ClientError`: the service message after the colon is S3's usual text for each code, not one read from a response.
- `Errors.ParamValidationError`: the ARN part of botocore's bucket-name report is that of current botocore releases.
- `Store.Missing`: only the empty bucket name is refused by the bucket-name check; any other name is sent, and a name that does not exist is a missing bucket.
- `Glob.Match`: ranges and negation inside `[...]` are modelled, but the escaping corner cases of `fnmatch.translate` are not.
- `PurePath.Norm`: POSIX paths only, with no `..` handling and no double leading slash. `PurePath.JoinPath` treats its second argument as relative, which the relative paths it receives always are.
- `s3_tools/list.py`, which the top-level modules call, is not part of this model. They are modelled with the listing of `s3_tools/objects/list.py`, at its default page size and without a search string for `delete_prefix`.
- `s3_tools/objects/presigned_url.py`, `read.py` and `write.py`, `s3_tools/read.py` and `s3_tools/buckets/create.py`: thin wrappers around boto3 and the codecs.
- `list_objects`: a negative `max_keys` is treated as an `InvalidArgument` error of the service.

## Findings

| source | as written | input that shows it | evidently intended | confidence | as-written member | corrected member |
|---|---|---|---|---|---|---|
| s3_tools/objects/delete.py:82-83 | each listed key is deleted as `Path(key).as_posix()` | bucket `b` holds only `d/`; `delete_prefix("b", "d", dry_run=False)` lists `d/` and deletes `d`, so `d/` remains | every listed key under the prefix is deleted, as the top-level `delete_prefix` does by sending the key itself | not executed | ObjectsDelete.FolderMarkerSurvives | LegacyDelete.DeletePrefixEmptiesPrefix |
| s3_tools/objects/download.py:228 | `key.replace(prefix, "")[1:]` removes every occurrence of the prefix | prefix `data`, key `data/x_data.csv`: the file is written to `folder/x_.csv` | only the leading prefix is removed: `folder/x_data.csv` | not executed | ObjectsDownload.InnerPrefixRemoved | ObjectsDownload.LeadingLocalPathStrips |

The operations above model the code as written. For the first finding, the corrected behaviour is the one the top-level `delete_prefix` already has. For the second, `ObjectsDownload.LeadingLocalPath` is the corrected derivation, with its property proved beside the as-written `ObjectsDownload.LocalPath`.
