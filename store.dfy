/** The S3 service the library talks to, as an in-memory store.

    A bucket holds objects under keys; a listing returns the keys of a bucket
    that start with a prefix, in the bucket's fixed key order, one page at a
    time. Each boto3 call the library makes is a function from the store's
    state to the call's response or the exception the call raises:
    - an empty bucket name or key is refused by botocore itself with a
      `ParamValidationError`, before any request;
    - a bucket that does not exist gives a `ClientError` with code
      `NoSuchBucket`, except for a `HEAD` request (`head_bucket`,
      `head_object`), whose error response has no body, so that botocore
      reports the status: code `404`, message `Not Found`;
    - a key that does not exist gives `404` from `head_object`;
    - copying an object onto itself is refused with `InvalidRequest`. */
module Store {
  import opened Wrappers
  import opened Errors
  import opened PyStr

  type Bytes = seq<bv8>

  /** One bucket: its keys in listing order and the object stored under each key. */
  datatype Bucket = Bucket(keys: seq<string>, data: map<string, Bytes>)

  /** The whole service: the buckets by name, and the bucket names in listing order. */
  datatype State = State(buckets: map<string, Bucket>, names: seq<string>)

  /** One page of `list_objects_v2`: `Contents` is absent when the page holds no key. */
  datatype Page = Page(contents: Option<seq<string>>, nextToken: Option<string>)

  /** Where a run of calls that stops at the first exception ends: the state it
      leaves behind and the exception it raised, if any. */
  datatype Run = Run(state: State, error: Option<Error>)

  /** The most keys S3 returns in one page, whatever `MaxKeys` asks for. */
  const MaxPage: nat := 1000

  predicate Distinct<T(==)>(xs: seq<T>) {
    forall i, j :: 0 <= i < j < |xs| ==> xs[i] != xs[j]
  }

  ghost predicate BucketValid(bk: Bucket) {
    Distinct(bk.keys) && "" !in bk.data && forall k :: k in bk.data <==> k in bk.keys
  }

  /** Each key and each bucket name is listed once, exactly the stored ones are
      listed, and no object is stored under the empty key, which S3 refuses. */
  ghost predicate Valid(s: State) {
    Distinct(s.names)
    && (forall b :: b in s.buckets <==> b in s.names)
    && forall b :: b in s.buckets ==> BucketValid(s.buckets[b])
  }

  /** Bucket `b` holds an object under key `k`. */
  predicate Has(s: State, b: string, k: string) {
    b in s.buckets && k in s.buckets[b].data
  }

  /** The error botocore raises for an empty `Bucket` or `Key` parameter: its bucket-name
      check runs before the parameters are validated against the operation's model. */
  function Missing(param: string): Error {
    ParamValidationError(if param == "Bucket" then BadBucketName("") else TooShort(param))
  }

  /** The `ClientError` of a `HEAD` request that found nothing. */
  function NotFound(operation: string): Error {
    ClientError("404", operation)
  }

  /** The `ClientError` of a request to a bucket that does not exist. */
  function NoSuchBucket(operation: string): Error {
    ClientError("NoSuchBucket", operation)
  }

  /** The state a call leaves behind: the new state when it succeeded, the old one when it raised. */
  function After(s: State, r: Result<State, Error>): State {
    if r.Success? then r.value else s
  }

  function ErrorOf<T>(r: Result<T, Error>): Option<Error> {
    if r.Failure? then Some(r.error) else None
  }

  /** `xs` without `k`. */
  function Without(xs: seq<string>, k: string): (r: seq<string>)
    ensures forall x :: x in r <==> x in xs && x != k
  {
    if xs == [] then []
    else if xs[0] == k then Without(xs[1..], k)
    else [xs[0]] + Without(xs[1..], k)
  }

  /** The keys of `keys` that start with `prefix`, in order. */
  function WithPrefix(keys: seq<string>, prefix: string): (r: seq<string>)
    ensures forall x :: x in r <==> x in keys && StartsWith(x, prefix)
  {
    if keys == [] then []
    else if StartsWith(keys[0], prefix) then [keys[0]] + WithPrefix(keys[1..], prefix)
    else WithPrefix(keys[1..], prefix)
  }

  /** Stores `data` under `k` in the existing bucket `b`; a new key goes last in the order. */
  function Put(s: State, b: string, k: string, data: Bytes): (r: State)
    requires b in s.buckets
    ensures r.buckets.Keys == s.buckets.Keys && r.names == s.names
    ensures Has(r, b, k) && r.buckets[b].data[k] == data
    ensures forall c, j :: (c, j) != (b, k) ==> (Has(r, c, j) <==> Has(s, c, j))
    ensures forall c, j :: (c, j) != (b, k) && Has(s, c, j) ==> Has(r, c, j) && r.buckets[c].data[j] == s.buckets[c].data[j]
  {
    var bk := s.buckets[b];
    var keys := if k in bk.data then bk.keys else bk.keys + [k];
    s.(buckets := s.buckets[b := Bucket(keys, bk.data[k := data])])
  }

  /** Removes `k` from the existing bucket `b`, if it is there. */
  function Remove(s: State, b: string, k: string): (r: State)
    requires b in s.buckets
    ensures r.buckets.Keys == s.buckets.Keys && r.names == s.names
    ensures !Has(r, b, k)
    ensures forall c, j :: (c, j) != (b, k) ==> (Has(r, c, j) <==> Has(s, c, j))
    ensures forall c, j :: (c, j) != (b, k) && Has(s, c, j) ==> Has(r, c, j) && r.buckets[c].data[j] == s.buckets[c].data[j]
  {
    var bk := s.buckets[b];
    s.(buckets := s.buckets[b := Bucket(Without(bk.keys, k), bk.data - {k})])
  }

  /** `head_bucket(Bucket=b)`: the error it raises, if any. */
  function HeadBucketCall(s: State, b: string): (r: Option<Error>)
    ensures r == None <==> b != "" && b in s.buckets
  {
    if b == "" then Some(Missing("Bucket"))
    else if b !in s.buckets then Some(NotFound("HeadBucket"))
    else None
  }

  /** The failure shared by the calls that address one object, if any. */
  function ObjectError(s: State, b: string, k: string, operation: string): (r: Option<Error>)
    ensures r == None <==> b != "" && k != "" && Has(s, b, k)
    ensures r.Some? ==> r.value.isException
  {
    if b == "" then Some(Missing("Bucket"))
    else if k == "" then Some(Missing("Key"))
    else if b !in s.buckets || k !in s.buckets[b].data then Some(NotFound(operation))
    else None
  }

  /** `head_object(Bucket=b, Key=k)`: the object's `ContentLength`. */
  function HeadObjectCall(s: State, b: string, k: string): (r: Result<nat, Error>)
    ensures r.Success? <==> b != "" && k != "" && Has(s, b, k)
    ensures r.Success? ==> r.value == |s.buckets[b].data[k]|
  {
    var e := ObjectError(s, b, k, "HeadObject");
    if e.Some? then Failure(e.value) else Success(|s.buckets[b].data[k]|)
  }

  /** The bytes `download_file(Bucket=b, Key=k, ...)` transfers; it asks `head_object` first. */
  function FetchCall(s: State, b: string, k: string): (r: Result<Bytes, Error>)
    ensures r.Success? <==> b != "" && k != "" && Has(s, b, k)
    ensures r.Success? ==> r.value == s.buckets[b].data[k]
    ensures r.Failure? ==> r.error.isException
  {
    var e := ObjectError(s, b, k, "HeadObject");
    if e.Some? then Failure(e.value) else Success(s.buckets[b].data[k])
  }

  /** `put_object(Bucket=b, Key=k, Body=data)`, which `upload_file` performs. */
  function PutCall(s: State, b: string, k: string, data: Bytes): (r: Result<State, Error>)
    ensures r.Success? <==> b != "" && k != "" && b in s.buckets
    ensures r.Success? ==> r.value.buckets.Keys == s.buckets.Keys
    ensures r.Failure? ==> r.error.isException
  {
    if b == "" then Failure(Missing("Bucket"))
    else if k == "" then Failure(Missing("Key"))
    else if b !in s.buckets then Failure(NoSuchBucket("PutObject"))
    else Success(Put(s, b, k, data))
  }

  /** `delete_object(Bucket=b, Key=k)`: S3 answers success whether or not the key exists. */
  function DeleteCall(s: State, b: string, k: string): (r: Result<State, Error>)
    ensures r.Success? <==> b != "" && k != "" && b in s.buckets
  {
    if b == "" then Failure(Missing("Bucket"))
    else if k == "" then Failure(Missing("Key"))
    else if b !in s.buckets then Failure(NoSuchBucket("DeleteObject"))
    else Success(Remove(s, b, k))
  }

  /** The managed `copy(CopySource={sb, sk}, Bucket=db, Key=dk)`: the source is
      asked for first, then the object is written under the destination. */
  function CopyCall(s: State, sb: string, sk: string, db: string, dk: string): (r: Result<State, Error>)
    ensures r.Success? <==> sb != "" && sk != "" && Has(s, sb, sk) && db != "" && dk != ""
                            && db in s.buckets && (sb, sk) != (db, dk)
  {
    var e := ObjectError(s, sb, sk, "HeadObject");
    if e.Some? then Failure(e.value)
    else if db == "" then Failure(Missing("Bucket"))
    else if dk == "" then Failure(Missing("Key"))
    else if db !in s.buckets then Failure(NoSuchBucket("CopyObject"))
    else if sb == db && sk == dk then Failure(ClientError("InvalidRequest", "CopyObject"))
    else Success(Put(s, db, dk, s.buckets[sb].data[sk]))
  }

  /** `delete_bucket(Bucket=b)`: the new state and the response's HTTP status code. */
  function DeleteBucketCall(s: State, b: string): (r: Result<(State, nat), Error>)
    ensures r.Success? <==> b != "" && b in s.buckets && s.buckets[b].keys == []
    ensures r.Success? ==> r.value.1 == 204 && r.value.0.buckets == s.buckets - {b}
  {
    if b == "" then Failure(Missing("Bucket"))
    else if b !in s.buckets then Failure(NoSuchBucket("DeleteBucket"))
    else if s.buckets[b].keys != [] then Failure(ClientError("BucketNotEmpty", "DeleteBucket"))
    else Success((State(s.buckets - {b}, Without(s.names, b)), 204))
  }

  /** Every key of bucket `b` that starts with `prefix`, in the bucket's order. */
  function Listing(s: State, b: string, prefix: string): (r: seq<string>)
    ensures Valid(s) ==> forall k :: k in r <==> Has(s, b, k) && StartsWith(k, prefix)
  {
    if b in s.buckets then WithPrefix(s.buckets[b].keys, prefix) else []
  }

  function DigitChar(d: nat): char
    requires d < 10
  {
    (48 + d) as char
  }

  /** The continuation token for a page starting at the `n`-th key: `n` in decimal. */
  function EncodeToken(n: nat): (t: string)
    ensures t != ""
  {
    if n < 10 then [DigitChar(n)] else EncodeToken(n / 10) + [DigitChar(n % 10)]
  }

  /** The position a continuation token stands for; `None` for a token S3 never issued. */
  function DecodeToken(t: string): Option<nat>
    decreases |t|
  {
    if t == "" || !('0' <= t[|t| - 1] <= '9') then None
    else
      var d := (t[|t| - 1] as int) - 48;
      if |t| == 1 then Some(d)
      else
        var front := DecodeToken(t[..|t| - 1]);
        if front.None? then None else Some(front.value * 10 + d)
  }

  /** Decoding the token of a page gives back the page's position. */
  lemma {:induction false} TokenRoundTrip(n: nat)
    ensures DecodeToken(EncodeToken(n)) == Some(n)
  {
    if n >= 10 {
      TokenRoundTrip(n / 10);
      var t := EncodeToken(n);
      assert t[..|t| - 1] == EncodeToken(n / 10);
    }
  }

  /** Where a listing request starts, or the error it raises.

      `list_objects_v2` refuses a negative `MaxKeys` and a token it did not issue. */
  function PageStart(s: State, b: string, prefix: string, maxKeys: int, token: Option<string>): (r: Result<nat, Error>)
    ensures r.Success? ==> r.value <= |Listing(s, b, prefix)|
    ensures r.Success? <==>
              (b != "" && b in s.buckets && maxKeys >= 0 &&
               (token.Some? ==> DecodeToken(token.value).Some? && DecodeToken(token.value).value <= |Listing(s, b, prefix)|))
  {
    if b == "" then Failure(Missing("Bucket"))
    else if b !in s.buckets then Failure(NoSuchBucket("ListObjectsV2"))
    else if maxKeys < 0 then Failure(InvalidArgument("ListObjectsV2", "max-keys"))
    else if token.None? then Success(0)
    else
      var start := DecodeToken(token.value);
      if start.None? || start.value > |Listing(s, b, prefix)| then Failure(InvalidArgument("ListObjectsV2", "continuation-token"))
      else Success(start.value)
  }

  /** A token that decodes to a position within the listing resumes there. */
  lemma PageStartAt(s: State, b: string, prefix: string, maxKeys: int, t: string, n: nat)
    requires b != "" && b in s.buckets && maxKeys >= 0
    requires DecodeToken(t) == Some(n) && n <= |Listing(s, b, prefix)|
    ensures PageStart(s, b, prefix, maxKeys, Some(t)) == Success(n)
  {
  }

  /** `list_objects_v2(Bucket=b, Prefix=prefix, MaxKeys=maxKeys, ContinuationToken=token)`:
      the next at most `min(maxKeys, 1000)` keys of the listing from the token's
      position, and a token for the rest when keys remain. */
  function ListCall(s: State, b: string, prefix: string, maxKeys: int, token: Option<string>): (r: Result<Page, Error>)
    ensures r.Success? <==> PageStart(s, b, prefix, maxKeys, token).Success?
  {
    var start := PageStart(s, b, prefix, maxKeys, token);
    if start.Failure? then Failure(start.error)
    else
      var all := Listing(s, b, prefix);
      var size := if maxKeys < MaxPage then maxKeys else MaxPage;
      var end := if start.value + size < |all| then start.value + size else |all|;
      Success(Page(
        if start.value < end then Some(all[start.value..end]) else None,
        if 0 < size && end < |all| then Some(EncodeToken(end)) else None))
  }

  /** A page covers the listing from its start, and its token, if any, points just past it. */
  lemma PageCovers(s: State, b: string, prefix: string, maxKeys: int, token: Option<string>)
    requires PageStart(s, b, prefix, maxKeys, token).Success?
    ensures var start := PageStart(s, b, prefix, maxKeys, token).value;
            var page := ListCall(s, b, prefix, maxKeys, token).value;
            var all := Listing(s, b, prefix);
            var got := if page.contents.Some? then page.contents.value else [];
            start + |got| <= |all| && got == all[start..start + |got|]
            && (maxKeys >= 1 && start < |all| ==> |got| > 0)
            && (maxKeys == 0 ==> |got| == 0)
            && (page.nextToken.None? ==> maxKeys == 0 || start + |got| == |all|)
            && (page.nextToken.Some? ==>
                  (page.nextToken.value != "" && DecodeToken(page.nextToken.value) == Some(start + |got|)
                   && start + |got| < |all|))
  {
    var start := PageStart(s, b, prefix, maxKeys, token).value;
    var all := Listing(s, b, prefix);
    var size := if maxKeys < MaxPage then maxKeys else MaxPage;
    var end := if start + size < |all| then start + size else |all|;
    TokenRoundTrip(end);
  }

  /** Storing an object keeps every bucket's order a listing of exactly its keys. */
  lemma PutKeepsValid(s: State, b: string, k: string, data: Bytes)
    requires Valid(s) && b in s.buckets && k != ""
    ensures Valid(Put(s, b, k, data))
  {
    var r := Put(s, b, k, data);
    var bk := s.buckets[b];
    if k !in bk.data {
      assert k !in bk.keys;
      var keys := bk.keys + [k];
      forall i, j | 0 <= i < j < |keys| ensures keys[i] != keys[j] {
        if j == |keys| - 1 {
          assert keys[i] in bk.keys;
        }
      }
    }
  }

  lemma {:induction false} WithoutDistinct(xs: seq<string>, k: string)
    requires Distinct(xs)
    ensures Distinct(Without(xs, k))
  {
    if xs != [] {
      WithoutDistinct(xs[1..], k);
      var rest := Without(xs[1..], k);
      if xs[0] != k {
        assert xs[0] !in xs[1..];
        var r := [xs[0]] + rest;
        forall i, j | 0 <= i < j < |r| ensures r[i] != r[j] {
          if i == 0 {
            assert r[j] in rest;
          }
        }
      }
    }
  }

  /** Removing an object keeps every bucket's order a listing of exactly its keys. */
  lemma RemoveKeepsValid(s: State, b: string, k: string)
    requires Valid(s) && b in s.buckets
    ensures Valid(Remove(s, b, k))
  {
    WithoutDistinct(s.buckets[b].keys, k);
  }

  /** The store's successful calls keep it well formed. */
  lemma CallsKeepValid(s: State, b: string, k: string, data: Bytes, sb: string, sk: string)
    requires Valid(s)
    ensures Valid(After(s, PutCall(s, b, k, data)))
    ensures Valid(After(s, DeleteCall(s, b, k)))
    ensures Valid(After(s, CopyCall(s, sb, sk, b, k)))
  {
    assert Valid(After(s, PutCall(s, b, k, data))) by {
      if PutCall(s, b, k, data).Success? {
        PutKeepsValid(s, b, k, data);
      }
    }
    assert Valid(After(s, DeleteCall(s, b, k))) by {
      if DeleteCall(s, b, k).Success? {
        RemoveKeepsValid(s, b, k);
      }
    }
    assert Valid(After(s, CopyCall(s, sb, sk, b, k))) by {
      if CopyCall(s, sb, sk, b, k).Success? {
        PutKeepsValid(s, b, k, s.buckets[sb].data[sk]);
      }
    }
  }

  /** The S3 service as the library's calls see it: one object whose state the calls change. */
  class ObjectStore {
    var buckets: map<string, Bucket>
    var names: seq<string>

    constructor (s: State)
      ensures Snapshot() == s
    {
      buckets := s.buckets;
      names := s.names;
    }

    /** The state of the service. */
    function Snapshot(): State
      reads this
    {
      State(buckets, names)
    }

    method Commit(r: Result<State, Error>) returns (err: Option<Error>)
      modifies this
      ensures Snapshot() == After(old(Snapshot()), r) && err == ErrorOf(r)
    {
      if r.Success? {
        buckets := r.value.buckets;
        names := r.value.names;
        err := None;
      } else {
        err := Some(r.error);
      }
    }

    /** `put_object`: the new state, or the raised error and nothing changed. */
    method PutObject(b: string, k: string, data: Bytes) returns (err: Option<Error>)
      modifies this
      ensures Snapshot() == After(old(Snapshot()), PutCall(old(Snapshot()), b, k, data))
      ensures err == ErrorOf(PutCall(old(Snapshot()), b, k, data))
    {
      err := Commit(PutCall(Snapshot(), b, k, data));
    }

    /** `delete_object`: the new state, or the raised error and nothing changed. */
    method DeleteObject(b: string, k: string) returns (err: Option<Error>)
      modifies this
      ensures Snapshot() == After(old(Snapshot()), DeleteCall(old(Snapshot()), b, k))
      ensures err == ErrorOf(DeleteCall(old(Snapshot()), b, k))
    {
      err := Commit(DeleteCall(Snapshot(), b, k));
    }

    /** The managed `copy`: the new state, or the raised error and nothing changed. */
    method CopyObject(sb: string, sk: string, db: string, dk: string) returns (err: Option<Error>)
      modifies this
      ensures Snapshot() == After(old(Snapshot()), CopyCall(old(Snapshot()), sb, sk, db, dk))
      ensures err == ErrorOf(CopyCall(old(Snapshot()), sb, sk, db, dk))
    {
      err := Commit(CopyCall(Snapshot(), sb, sk, db, dk));
    }

    /** `delete_bucket`: the response status code, or the raised error and nothing changed. */
    method DeleteBucket(b: string) returns (r: Result<nat, Error>)
      modifies this
      ensures var call := DeleteBucketCall(old(Snapshot()), b);
              (call.Success? ==> Snapshot() == call.value.0 && r == Success(call.value.1))
              && (call.Failure? ==> Snapshot() == old(Snapshot()) && r == Failure(call.error))
    {
      var call := DeleteBucketCall(Snapshot(), b);
      if call.Success? {
        buckets := call.value.0.buckets;
        names := call.value.0.names;
        r := Success(call.value.1);
      } else {
        r := Failure(call.error);
      }
    }
  }
}
