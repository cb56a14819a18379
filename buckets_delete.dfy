/** `delete_bucket`: removes an empty bucket; a missing bucket is `False`, any other error is raised. */
module BucketsDelete {
  import opened Wrappers
  import opened Errors
  import opened Store

  /** What `delete_bucket(name)` returns, or the error it raises, given the `delete_bucket` call's outcome. */
  function DeleteBucketResult(call: Result<(State, nat), Error>): (r: Result<bool, Error>)
    ensures r == Success(true) ==> call.Success?
    ensures r.Failure? ==> call.Failure? && r.error == call.error && !HasCode(r.error, "NoSuchBucket")
  {
    if call.Success? then Success(call.value.1 == 204)
    else if HasCode(call.error, "NoSuchBucket") then Success(false)
    else Failure(call.error)
  }

  /** `delete_bucket(name)` */
  method DeleteBucket(store: ObjectStore, name: string) returns (r: Result<bool, Error>)
    modifies store
    ensures r == DeleteBucketResult(DeleteBucketCall(old(store.Snapshot()), name))
    ensures store.Snapshot() == After(old(store.Snapshot()), if DeleteBucketCall(old(store.Snapshot()), name).Success?
                                                              then Success(DeleteBucketCall(old(store.Snapshot()), name).value.0)
                                                              else Failure(Missing("Bucket")))
  {
    var response := store.DeleteBucket(name);
    if response.Failure? {
      if HasCode(response.error, "NoSuchBucket") {
        return Success(false);
      } else {
        return Failure(response.error);
      }
    }
    r := Success(response.value == 204);
  }

  /** `True` exactly when the empty bucket was there and is now gone; `False` for a
      bucket that does not exist; an empty name or a bucket with objects raises. */
  lemma DeleteBucketMeaning(s: State, name: string)
    requires Valid(s)
    ensures var r := DeleteBucketResult(DeleteBucketCall(s, name));
            (r == Success(true) <==> name != "" && name in s.buckets && s.buckets[name].keys == [])
            && (r == Success(false) <==> name != "" && name !in s.buckets)
            && (name == "" ==> r.Failure? && r.error.cls == "ParamValidationError")
            && (name != "" && name in s.buckets && s.buckets[name].keys != [] ==> r == Failure(ClientError("BucketNotEmpty", "DeleteBucket")))
    ensures DeleteBucketCall(s, name).Success? ==>
              var t := DeleteBucketCall(s, name).value.0;
              Valid(t) && t.buckets.Keys == s.buckets.Keys - {name}
  {
    if DeleteBucketCall(s, name).Success? {
      WithoutDistinct(s.names, name);
    }
  }
}
