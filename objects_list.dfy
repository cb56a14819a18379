/** `list_objects`: every key of a bucket under a prefix, gathered page by page
    with continuation tokens, then optionally filtered with a shell-style
    pattern and optionally turned into `Path` objects. */
module ObjectsList {
  import opened Wrappers
  import opened Errors
  import opened PyStr
  import opened PurePath
  import opened Glob
  import opened Store

  /** The keys a page carries; a page without `Contents` carries none. */
  function PageKeys(page: Page): seq<string> {
    if page.contents.Some? then page.contents.value else []
  }

  /** The keys of the pages, page after page. */
  function PagesKeys(pages: seq<Page>): seq<string> {
    if pages == [] then [] else PagesKeys(pages[..|pages| - 1]) + PageKeys(pages[|pages| - 1])
  }

  /** `fnmatch.filter(keys, search_str)` when `search_str` is a string, and the keys as they are for `None`. */
  function Select(keys: seq<string>, searchStr: Option<string>): seq<string> {
    if searchStr.Some? then Filter(keys, searchStr.value) else keys
  }

  /** The keys as returned: strings, or `Path(key)` for each key when `as_paths` is set. */
  function Present(keys: seq<string>, asPaths: bool): (r: seq<PathLike>)
    ensures |r| == |keys|
  {
    if asPaths then seq(|keys|, i requires 0 <= i < |keys| => MakePath(keys[i]))
    else seq(|keys|, i requires 0 <= i < |keys| => Str(keys[i]))
  }

  /** The texts of the keys `list_objects` returns as strings. */
  function Texts(ps: seq<PathLike>): (r: seq<string>)
    ensures |r| == |ps|
  {
    seq(|ps|, i requires 0 <= i < |ps| => ps[i].text)
  }

  /** The keys `list_objects` gathers before turning them into paths, or the
      error of its first request. */
  function ListKeys(s: State, bucket: string, prefix: PathLike, searchStr: Option<string>, maxKeys: int): (r: Result<seq<string>, Error>)
    ensures r.Failure? ==>
              var first := ListCall(s, bucket, AsPosix(prefix), maxKeys, None);
              first.Failure? && r.error == first.error
    ensures r.Success? ==> |r.value| <= |Listing(s, bucket, AsPosix(prefix))|
    ensures r.Success? ==> forall k :: k in r.value ==>
              k in Listing(s, bucket, AsPosix(prefix)) && (searchStr.Some? ==> Match(searchStr.value, k))
  {
    var first := ListCall(s, bucket, AsPosix(prefix), maxKeys, None);
    if first.Failure? then Failure(first.error)
    else Success(Select(if maxKeys == 0 then [] else Listing(s, bucket, AsPosix(prefix)), searchStr))
  }

  /** What `list_objects` returns, or the error it raises. */
  function ListResult(s: State, bucket: string, prefix: PathLike, searchStr: Option<string>, maxKeys: int, asPaths: bool)
    : (r: Result<seq<PathLike>, Error>)
    ensures r.Success? <==> ListKeys(s, bucket, prefix, searchStr, maxKeys).Success?
    ensures r.Success? ==>
              var keys := ListKeys(s, bucket, prefix, searchStr, maxKeys).value;
              |r.value| == |keys| && forall i :: 0 <= i < |keys| ==> AsPosix(r.value[i]) == Norm(keys[i])
  {
    var keys := ListKeys(s, bucket, prefix, searchStr, maxKeys);
    if keys.Failure? then Failure(keys.error) else Success(Present(keys.value, asPaths))
  }

  lemma {:induction false} PagesKeysAppend(pages: seq<Page>, page: Page)
    ensures PagesKeys(pages + [page]) == PagesKeys(pages) + PageKeys(page)
  {
    assert (pages + [page])[..|pages|] == pages;
  }

  /** The requests so far: the first without a token, each later one with the
      token of the page before it, and each answered with its page. */
  ghost predicate Chained(s: State, bucket: string, p: string, maxKeys: int, requests: seq<Option<string>>, pages: seq<Page>) {
    |requests| == |pages|
    && (requests != [] ==> requests[0] == None)
    && (forall i :: 0 <= i < |pages| ==> ListCall(s, bucket, p, maxKeys, requests[i]) == Success(pages[i]))
    && (forall i :: 0 < i < |pages| ==> requests[i] == pages[i - 1].nextToken)
  }

  /** Every page but possibly the last handed back a token to go on with. */
  ghost predicate Continued(pages: seq<Page>) {
    forall i :: 0 <= i < |pages| ==> pages[i].nextToken.Some? && pages[i].nextToken.value != ""
  }

  lemma ChainExtend(s: State, bucket: string, p: string, maxKeys: int, requests: seq<Option<string>>, pages: seq<Page>,
                    sent: Option<string>, page: Page)
    requires Chained(s, bucket, p, maxKeys, requests, pages)
    requires requests == [] ==> sent == None
    requires requests != [] ==> sent == pages[|pages| - 1].nextToken
    requires ListCall(s, bucket, p, maxKeys, sent) == Success(page)
    ensures Chained(s, bucket, p, maxKeys, requests + [sent], pages + [page])
  {
  }

  /** A page read from position `offset` continues the keys gathered so far; an empty
      page size, or no token, means nothing is left to read. */
  lemma NextPage(s: State, bucket: string, p: string, maxKeys: int, sent: Option<string>, offset: nat, page: Page)
    requires PageStart(s, bucket, p, maxKeys, sent) == Success(offset)
    requires ListCall(s, bucket, p, maxKeys, sent) == Success(page)
    ensures var all := Listing(s, bucket, p);
            var next := offset + |PageKeys(page)|;
            next <= |all| && all[..offset] + PageKeys(page) == all[..next]
            && (maxKeys == 0 ==> next == offset && page.nextToken.None?)
            && (page.nextToken.None? ==> maxKeys == 0 || next == |all|)
  {
    PageCovers(s, bucket, p, maxKeys, sent);
    var all := Listing(s, bucket, p);
    var next := offset + |PageKeys(page)|;
    assert PageKeys(page) == all[offset..next];
    SliceJoin(all, offset, next);
  }

  /** A page's token, if any, is the request for the position just after the page. */
  lemma NextToken(s: State, bucket: string, p: string, maxKeys: int, sent: Option<string>, offset: nat, page: Page)
    requires PageStart(s, bucket, p, maxKeys, sent) == Success(offset)
    requires ListCall(s, bucket, p, maxKeys, sent) == Success(page)
    requires page.nextToken.Some?
    ensures page.nextToken.value != "" && |PageKeys(page)| > 0 && maxKeys >= 1
    ensures PageStart(s, bucket, p, maxKeys, page.nextToken) == Success(offset + |PageKeys(page)|)
  {
    PageCovers(s, bucket, p, maxKeys, sent);
    PageStartAt(s, bucket, p, maxKeys, page.nextToken.value, offset + |PageKeys(page)|);
  }

  lemma SliceJoin<T>(xs: seq<T>, i: nat, j: nat)
    requires i <= j <= |xs|
    ensures xs[..i] + xs[i..j] == xs[..j]
  {
  }

  /** Whether a page hands back a token to go on with. */
  predicate Continues(page: Page) {
    page.nextToken.Some? && page.nextToken.value != ""
  }

  /** The state of the paging loop before a request: the keys gathered are the
      first `offset` keys of the listing, and `token` resumes right after them. */
  ghost predicate Gathered(s: State, bucket: string, p: string, maxKeys: int, requests: seq<Option<string>>, pages: seq<Page>,
                           token: Option<string>, offset: nat, keys: seq<string>) {
    var all := Listing(s, bucket, p);
    offset <= |all| && keys == all[..offset] && PagesKeys(pages) == keys
    && Chained(s, bucket, p, maxKeys, requests, pages) && Continued(pages)
    && (requests == [] ==> offset == 0 && token.None?)
    && (requests != [] ==> token.Some? && token.value != "" && token == pages[|pages| - 1].nextToken
                           && maxKeys >= 1 && PageStart(s, bucket, p, maxKeys, token) == Success(offset))
  }

  /** The state of the paging loop after its last page. */
  ghost predicate Finished(s: State, bucket: string, p: string, maxKeys: int, requests: seq<Option<string>>, pages: seq<Page>,
                           keys: seq<string>) {
    Chained(s, bucket, p, maxKeys, requests, pages)
    && |requests| >= 1 && requests[0] == None
    && |pages| >= 1 && Continued(pages[..|pages| - 1]) && !Continues(pages[|pages| - 1])
    && PagesKeys(pages) == keys
    && keys == (if maxKeys == 0 then [] else Listing(s, bucket, p))
  }

  /** Only the first request can fail: every later token points within the listing. */
  lemma GatherFails(s: State, bucket: string, p: string, maxKeys: int, requests: seq<Option<string>>, pages: seq<Page>,
                    token: Option<string>, offset: nat, keys: seq<string>)
    requires Gathered(s, bucket, p, maxKeys, requests, pages, token, offset, keys)
    requires ListCall(s, bucket, p, maxKeys, token).Failure?
    ensures requests == [] && pages == [] && token == None
  {
  }

  /** One round of the paging loop: the page answering `token` extends the
      requests, the pages and the keys gathered in step. */
  lemma GatherExtend(s: State, bucket: string, p: string, maxKeys: int, requests: seq<Option<string>>, pages: seq<Page>,
                     token: Option<string>, offset: nat, keys: seq<string>, page: Page)
    requires Gathered(s, bucket, p, maxKeys, requests, pages, token, offset, keys)
    requires ListCall(s, bucket, p, maxKeys, token) == Success(page)
    ensures var next := offset + |PageKeys(page)|;
            var all := Listing(s, bucket, p);
            next <= |all| && keys + PageKeys(page) == all[..next]
            && PagesKeys(pages + [page]) == keys + PageKeys(page)
            && Chained(s, bucket, p, maxKeys, requests + [token], pages + [page])
            && (pages + [page])[..|pages|] == pages
            && (maxKeys == 0 ==> next == offset && !Continues(page))
            && (!Continues(page) ==> maxKeys == 0 || next == |all|)
            && (Continues(page) ==> next > offset && maxKeys >= 1 && PageStart(s, bucket, p, maxKeys, page.nextToken) == Success(next))
  {
    assert PageStart(s, bucket, p, maxKeys, token) == Success(offset) by {
      if requests == [] {
        assert token == None && offset == 0;
      }
    }
    NextPage(s, bucket, p, maxKeys, token, offset, page);
    if page.nextToken.Some? {
      NextToken(s, bucket, p, maxKeys, token, offset, page);
    }
    ChainExtend(s, bucket, p, maxKeys, requests, pages, token, page);
    PagesKeysAppend(pages, page);
  }

  /** A page with a token leaves the loop in a state to go on from, further along the listing. */
  lemma GatherContinue(s: State, bucket: string, p: string, maxKeys: int, requests: seq<Option<string>>, pages: seq<Page>,
                       token: Option<string>, offset: nat, keys: seq<string>, page: Page)
    requires Gathered(s, bucket, p, maxKeys, requests, pages, token, offset, keys)
    requires ListCall(s, bucket, p, maxKeys, token) == Success(page) && Continues(page)
    ensures offset + |PageKeys(page)| > offset
    ensures Gathered(s, bucket, p, maxKeys, requests + [token], pages + [page], page.nextToken,
                     offset + |PageKeys(page)|, keys + PageKeys(page))
  {
    GatherExtend(s, bucket, p, maxKeys, requests, pages, token, offset, keys, page);
    var pages' := pages + [page];
    assert Continued(pages') by {
      forall i | 0 <= i < |pages'| ensures Continues(pages'[i]) {
        if i < |pages| { assert pages'[i] == pages[i]; }
      }
    }
  }

  /** A page without a token ends the loop with the whole listing gathered. */
  lemma GatherFinish(s: State, bucket: string, p: string, maxKeys: int, requests: seq<Option<string>>, pages: seq<Page>,
                     token: Option<string>, offset: nat, keys: seq<string>, page: Page)
    requires Gathered(s, bucket, p, maxKeys, requests, pages, token, offset, keys)
    requires ListCall(s, bucket, p, maxKeys, token) == Success(page) && !Continues(page)
    ensures Finished(s, bucket, p, maxKeys, requests + [token], pages + [page], keys + PageKeys(page))
  {
    GatherExtend(s, bucket, p, maxKeys, requests, pages, token, offset, keys, page);
    var all := Listing(s, bucket, p);
    assert all[..|all|] == all;
  }

  /** One round of the paging loop: a `list_objects_v2` request, carrying the
      token when there is one, and the page's keys added to those gathered. */
  method FetchPage(s: State, bucket: string, p: string, maxKeys: int, token: Option<string>, keys: seq<string>,
                   ghost requests: seq<Option<string>>, ghost pages: seq<Page>, ghost offset: nat)
    returns (err: Option<Error>, next: Option<string>, keys': seq<string>,
             ghost requests': seq<Option<string>>, ghost pages': seq<Page>, ghost offset': nat)
    requires Gathered(s, bucket, p, maxKeys, requests, pages, token, offset, keys)
    ensures err.Some? ==>
              requests' == [None] && pages' == [] && ListCall(s, bucket, p, maxKeys, None) == Failure(err.value)
    ensures err.None? && next.Some? ==>
              offset' > offset && Gathered(s, bucket, p, maxKeys, requests', pages', next, offset', keys')
    ensures err.None? && next.None? ==> Finished(s, bucket, p, maxKeys, requests', pages', keys')
  {
    var sent := if token.Some? && token.value != "" then token else None;
    assert sent == token;
    var response := ListCall(s, bucket, p, maxKeys, sent);
    if response.Failure? {
      GatherFails(s, bucket, p, maxKeys, requests, pages, token, offset, keys);
      return Some(response.error), None, keys, requests + [sent], pages, offset;
    }
    var page := response.value;
    if page.nextToken.None? || page.nextToken.value == "" {
      GatherFinish(s, bucket, p, maxKeys, requests, pages, token, offset, keys, page);
      next := None;
    } else {
      GatherContinue(s, bucket, p, maxKeys, requests, pages, token, offset, keys, page);
      next := page.nextToken;
    }
    err := None;
    requests', pages' := requests + [sent], pages + [page];
    keys' := keys;
    if page.contents.Some? {
      keys' := keys + page.contents.value;
    }
    assert keys' == keys + PageKeys(page);
    offset' := offset + |PageKeys(page)|;
  }

  /** The paging loop of `list_objects`: the first request carries no token and
      every later one carries the token of the page before it; the loop stops at
      the first page without a token. The keys gathered are the pages' keys in
      page order, which is the whole listing under `p` whatever the page size. */
  method FetchKeys(s: State, bucket: string, p: string, maxKeys: int)
    returns (err: Option<Error>, keys: seq<string>, ghost requests: seq<Option<string>>, ghost pages: seq<Page>)
    ensures err.Some? ==> requests == [None] && pages == [] && ListCall(s, bucket, p, maxKeys, None) == Failure(err.value)
    ensures err.None? ==> Finished(s, bucket, p, maxKeys, requests, pages, keys)
  {
    ghost var all := Listing(s, bucket, p);
    var token: Option<string> := None;
    keys := [];
    ghost var offset: nat := 0;
    requests, pages := [], [];
    while true
      invariant Gathered(s, bucket, p, maxKeys, requests, pages, token, offset, keys)
      decreases |all| - offset + (if requests == [] then 1 else 0)
    {
      var next;
      err, next, keys, requests, pages, offset := FetchPage(s, bucket, p, maxKeys, token, keys, requests, pages, offset);
      if err.Some? || next.None? {
        return;
      }
      token := next;
    }
  }

  /** `list_objects(bucket, prefix, search_str, max_keys, as_paths=as_paths)`:
      the keys gathered page by page, filtered and presented. */
  method ListObjects(store: ObjectStore, bucket: string, prefix: PathLike, searchStr: Option<string>, maxKeys: int, asPaths: bool)
    returns (r: Result<seq<PathLike>, Error>, ghost requests: seq<Option<string>>, ghost pages: seq<Page>)
    ensures r == ListResult(store.Snapshot(), bucket, prefix, searchStr, maxKeys, asPaths)
    ensures |requests| >= 1 && requests[0] == None
    ensures r.Failure? ==>
              requests == [None] && pages == []
              && ListCall(store.Snapshot(), bucket, AsPosix(prefix), maxKeys, None) == Failure(r.error)
    ensures r.Success? ==>
              Chained(store.Snapshot(), bucket, AsPosix(prefix), maxKeys, requests, pages)
              && |pages| >= 1 && Continued(pages[..|pages| - 1])
              && (pages[|pages| - 1].nextToken.None? || pages[|pages| - 1].nextToken.value == "")
              && Select(PagesKeys(pages), searchStr) == ListKeys(store.Snapshot(), bucket, prefix, searchStr, maxKeys).value
  {
    var s := store.Snapshot();
    var err, keys;
    err, keys, requests, pages := FetchKeys(s, bucket, AsPosix(prefix), maxKeys);
    if err.Some? {
      r := Failure(err.value);
    } else {
      assert ListCall(s, bucket, AsPosix(prefix), maxKeys, requests[0]) == Success(pages[0]);
      assert pages[|pages| - 1].nextToken.None? || pages[|pages| - 1].nextToken.value == "";
      r := Success(Present(Select(keys, searchStr), asPaths));
    }
  }

  /** The filter keeps exactly the listed keys that match, in listing order;
      without a pattern every listed key is kept. */
  lemma ListedKeysMatch(s: State, bucket: string, prefix: PathLike, searchStr: Option<string>, maxKeys: int)
    requires Valid(s) && maxKeys >= 1 && ListKeys(s, bucket, prefix, searchStr, maxKeys).Success?
    ensures var keys := ListKeys(s, bucket, prefix, searchStr, maxKeys).value;
            forall k :: k in keys <==>
              Has(s, bucket, k) && StartsWith(k, AsPosix(prefix)) && (searchStr.Some? ==> Match(searchStr.value, k))
  {
    var all := Listing(s, bucket, AsPosix(prefix));
    if searchStr.Some? {
      FilterMembership(all, searchStr.value);
    }
  }

  /** Any page size lists the same keys: ten keys read three at a time are all ten keys. */
  lemma PageSizeIrrelevant(s: State, bucket: string, prefix: PathLike, searchStr: Option<string>, m: int, n: int)
    requires m >= 1 && n >= 1
    ensures ListKeys(s, bucket, prefix, searchStr, m) == ListKeys(s, bucket, prefix, searchStr, n)
  {
  }

  /** A bucket without objects lists nothing. */
  lemma EmptyBucketListsNothing(s: State, bucket: string, prefix: PathLike, searchStr: Option<string>, maxKeys: int)
    requires bucket != "" && bucket in s.buckets && s.buckets[bucket].keys == [] && maxKeys >= 0
    ensures ListKeys(s, bucket, prefix, searchStr, maxKeys) == Success([])
  {
    assert Listing(s, bucket, AsPosix(prefix)) == [];
    if searchStr.Some? {
      assert Filter([], searchStr.value) == [];
    }
  }

  /** A string prefix and a `Path` prefix, even one built from a `Path`, list the same keys. */
  lemma PathPrefixSame(s: State, bucket: string, x: string, searchStr: Option<string>, maxKeys: int)
    ensures ListKeys(s, bucket, MakePath(x), searchStr, maxKeys) == ListKeys(s, bucket, Str(x), searchStr, maxKeys)
    ensures ListKeys(s, bucket, PathOf(x), searchStr, maxKeys) == ListKeys(s, bucket, Str(x), searchStr, maxKeys)
  {
    NormIdempotent(x);
  }

  /** `as_paths` changes only the representation: the same number of keys, in the
      same order, naming the same objects. */
  lemma AsPathsSameKeys(keys: seq<string>)
    ensures |Present(keys, true)| == |Present(keys, false)| == |keys|
    ensures forall i :: 0 <= i < |keys| ==>
              Present(keys, true)[i].PathOf? && AsPosix(Present(keys, true)[i]) == AsPosix(Present(keys, false)[i])
  {
  }

  /** The keys returned as strings are the gathered keys themselves. */
  lemma TextsOfStrings(keys: seq<string>)
    ensures Texts(Present(keys, false)) == keys
  {
  }

  /** A search string `""` is a pattern too: it keeps only a key equal to `""`, which S3 never stores. */
  lemma EmptySearchKeepsNothing(s: State, bucket: string, prefix: PathLike, maxKeys: int)
    requires ListKeys(s, bucket, prefix, Some(""), maxKeys).Success?
    ensures forall k :: k in ListKeys(s, bucket, prefix, Some(""), maxKeys).value ==> k == ""
  {
    var all := if maxKeys == 0 then [] else Listing(s, bucket, AsPosix(prefix));
    EmptyPatternKeepsEmpty(all);
  }
}
