/** `bucket_exists`: `head_bucket` with "not found" turned into `False`. */
module BucketsCheck {
  import opened Wrappers
  import opened Errors
  import opened Store
  import ObjectsCheck

  /** `bucket_exists(bucket)`; it only queries, so the store is never changed. */
  function BucketExists(s: State, bucket: string): (r: Result<bool, Error>)
    ensures r == Success(true) ==> bucket in s.buckets
    ensures r.Failure? ==> !IsClientError(r.error)
  {
    var head := HeadBucketCall(s, bucket);
    ObjectsCheck.NotFoundAs(if head.None? then Success(true) else Failure(head.value), false)
  }

  /** A named bucket exists or not; only an empty name raises, and it raises `ParamValidationError`. */
  lemma BucketExistsMeaning(s: State, bucket: string)
    ensures bucket != "" ==> BucketExists(s, bucket) == Success(bucket in s.buckets)
    ensures bucket == "" ==> BucketExists(s, bucket).Failure? && BucketExists(s, bucket).error.cls == "ParamValidationError"
  {
  }
}
