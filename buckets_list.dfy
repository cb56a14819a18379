/** `list_buckets`: the names of the buckets, optionally filtered with a shell-style pattern. */
module BucketsList {
  import opened Wrappers
  import opened Glob
  import opened Store
  import ObjectsList

  /** `list_buckets(search_str)`: the bucket names in listing order, filtered by
      `search_str` unless it is falsy (`None` or `""`). */
  function ListBuckets(s: State, searchStr: Option<string>): (r: seq<string>)
    ensures |r| <= |s.names| && forall b :: b in r ==> b in s.names
  {
    if searchStr.None? || searchStr.value == "" then s.names else Filter(s.names, searchStr.value)
  }

  /** The names returned are exactly the buckets whose name the pattern matches, each once. */
  lemma ListBucketsMeaning(s: State, searchStr: Option<string>)
    requires Valid(s)
    ensures Distinct(ListBuckets(s, searchStr))
    ensures forall b :: b in ListBuckets(s, searchStr) <==>
              b in s.buckets && (searchStr.Some? && searchStr.value != "" ==> Match(searchStr.value, b))
  {
    if searchStr.Some? && searchStr.value != "" {
      FilterMembership(s.names, searchStr.value);
      FilterDistinct(s.names, searchStr.value);
    }
  }

  /** Filtering a list without repeats gives a list without repeats. */
  lemma {:induction false} FilterDistinct(names: seq<string>, p: string)
    requires Distinct(names)
    ensures Distinct(Filter(names, p))
  {
    if names != [] {
      FilterDistinct(names[1..], p);
      var rest := Filter(names[1..], p);
      if Match(p, names[0]) {
        FilterMembership(names[1..], p);
        assert names[0] !in names[1..];
        var r := [names[0]] + rest;
        forall i, j | 0 <= i < j < |r| ensures r[i] != r[j] {
          if i == 0 {
            assert r[j] in rest;
          }
        }
      }
    }
  }

  /** An empty search string lists every bucket, while `list_objects` treats `""`
      as a pattern that matches no stored key. */
  lemma EmptySearchListsAll(s: State)
    ensures ListBuckets(s, Some("")) == ListBuckets(s, None) == s.names
    ensures forall keys: seq<string> | forall i :: 0 <= i < |keys| ==> keys[i] != "" ::
              ObjectsList.Select(keys, Some("")) == []
  {
    forall keys: seq<string> | forall i :: 0 <= i < |keys| ==> keys[i] != ""
      ensures ObjectsList.Select(keys, Some("")) == []
    {
      FilterNoneMatch(keys, "");
    }
  }
}
