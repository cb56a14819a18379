/** `object_exists` and `object_metadata`: `head_object` with "not found"
    turned into an answer and every other error raised again. */
module ObjectsCheck {
  import opened Wrappers
  import opened Errors
  import opened PurePath
  import opened Store

  /** The response `object_metadata` returns: the `head_object` response, or `{}` for a missing key. */
  datatype Metadata = Metadata(contentLength: nat) | EmptyDict

  /** The `except Exception` clause of both checks: a `ClientError` with code `404`
      becomes `absent`, anything else is raised again unchanged. */
  function NotFoundAs<T>(r: Result<T, Error>, absent: T): Result<T, Error> {
    if r.Success? then r
    else if HasCode(r.error, "404") then Success(absent)
    else Failure(r.error)
  }

  /** `object_exists(bucket, key)` */
  function ObjectExists(s: State, bucket: string, key: PathLike): (r: Result<bool, Error>)
    ensures r == Success(true) ==> Has(s, bucket, AsPosix(key))
    ensures r.Failure? ==> !IsClientError(r.error)
  {
    var head := HeadObjectCall(s, bucket, AsPosix(key));
    NotFoundAs(if head.Success? then Success(true) else Failure(head.error), false)
  }

  /** `object_metadata(bucket, key)` */
  function ObjectMetadata(s: State, bucket: string, key: PathLike): (r: Result<Metadata, Error>)
    ensures r.Success? && r.value.Metadata? ==>
              Has(s, bucket, AsPosix(key)) && r.value.contentLength == |s.buckets[bucket].data[AsPosix(key)]|
    ensures r.Failure? ==> !IsClientError(r.error)
  {
    var head := HeadObjectCall(s, bucket, AsPosix(key));
    NotFoundAs(if head.Success? then Success(Metadata(head.value)) else Failure(head.error), EmptyDict)
  }

  /** Only a `404` is translated; every other error comes out as it went in. */
  lemma NotFoundAsTranslates<T>(r: Result<T, Error>, absent: T)
    ensures r.Success? ==> NotFoundAs(r, absent) == r
    ensures r.Failure? && HasCode(r.error, "404") ==> NotFoundAs(r, absent) == Success(absent)
    ensures r.Failure? && !HasCode(r.error, "404") ==> NotFoundAs(r, absent) == r
  {
  }

  /** The object exists exactly when it is stored under the normalised key. A missing key
      and a missing bucket are both `False`, since `head_object` reports either as `404`;
      only an empty bucket name raises. */
  lemma ObjectExistsMeaning(s: State, bucket: string, key: PathLike)
    ensures ObjectExists(s, bucket, key) == Success(true) <==> bucket != "" && Has(s, bucket, AsPosix(key))
    ensures ObjectExists(s, bucket, key) == Success(false) <==> bucket != "" && !Has(s, bucket, AsPosix(key))
    ensures ObjectExists(s, bucket, key).Failure? <==> bucket == ""
    ensures bucket == "" ==> ObjectExists(s, bucket, key) == Failure(Missing("Bucket"))
  {
    assert AsPosix(key) != "";
  }

  /** The metadata is the stored object's length when `object_exists` says `True`, `{}` when it
      says `False`, and the same error when it raises. */
  lemma MetadataAgreesWithExists(s: State, bucket: string, key: PathLike)
    ensures ObjectMetadata(s, bucket, key).Success? <==> ObjectExists(s, bucket, key).Success?
    ensures ObjectMetadata(s, bucket, key) == Success(EmptyDict) <==> ObjectExists(s, bucket, key) == Success(false)
    ensures ObjectExists(s, bucket, key) == Success(true) ==>
              ObjectMetadata(s, bucket, key) == Success(Metadata(|s.buckets[bucket].data[AsPosix(key)]|))
    ensures ObjectExists(s, bucket, key).Failure? ==> ObjectMetadata(s, bucket, key).error == ObjectExists(s, bucket, key).error
  {
    ObjectExistsMeaning(s, bucket, key);
  }

  /** `Path("prefix/key.csv/")` and `"prefix/key.csv"` name the same object. */
  lemma TrailingSlashSameObject(s: State, bucket: string, x: string)
    requires x != ""
    ensures ObjectExists(s, bucket, PathOf(x + "/")) == ObjectExists(s, bucket, Str(x))
    ensures ObjectMetadata(s, bucket, PathOf(x + "/")) == ObjectMetadata(s, bucket, Str(x))
  {
    TrailingSlashIgnored(x);
  }
}
