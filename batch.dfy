/** What the download and upload batches share: the order in which a thread
    pool hands back finished units, the progress counter, and the local disk. */
module Batch {
  import opened Store
  import opened PurePath

  /** `[0, 1, ..., n - 1]`: the units in the order they were submitted. */
  function Indices(n: nat): (r: seq<nat>)
    ensures |r| == n && forall i :: 0 <= i < n ==> r[i] == i
  {
    if n == 0 then [] else Indices(n - 1) + [n - 1]
  }

  /** `futures.as_completed` yields every submitted unit exactly once, in an order
      the scheduler picks: a rearrangement of the submission order. */
  predicate IsCompletionOrder(order: seq<nat>, n: nat) {
    multiset(order) == multiset(Indices(n))
  }

  /** Every index in `order` is below `n`. */
  predicate InRange(order: seq<nat>, n: nat) {
    forall i :: 0 <= i < |order| ==> order[i] < n
  }

  /** The items of `xs` in the order `order` names them. */
  function Reorder<T>(xs: seq<T>, order: seq<nat>): (r: seq<T>)
    requires InRange(order, |xs|)
    ensures |r| == |order| && forall i :: 0 <= i < |order| ==> r[i] == xs[order[i]]
  {
    if order == [] then [] else [xs[order[0]]] + Reorder(xs, order[1..])
  }

  lemma CompletionBounded(order: seq<nat>, n: nat)
    requires IsCompletionOrder(order, n)
    ensures |order| == n && forall i :: 0 <= i < |order| ==> order[i] < n
  {
    assert |order| == |multiset(order)| == |multiset(Indices(n))| == n;
    forall i | 0 <= i < |order| ensures order[i] < n {
      assert order[i] in multiset(order);
      assert order[i] in multiset(Indices(n));
    }
  }

  lemma {:induction false} ReorderAppend<T>(xs: seq<T>, a: seq<nat>, b: seq<nat>)
    requires InRange(a, |xs|)
    requires InRange(b, |xs|)
    ensures Reorder(xs, a + b) == Reorder(xs, a) + Reorder(xs, b)
  {
    if a == [] {
      assert a + b == b;
    } else {
      assert (a + b)[1..] == a[1..] + b;
      ReorderAppend(xs, a[1..], b);
    }
  }

  lemma RemoveAt(b: seq<nat>, j: nat)
    requires j < |b|
    ensures multiset(b) == multiset{b[j]} + multiset(b[..j] + b[j + 1..])
  {
    assert b == b[..j] + [b[j]] + b[j + 1..];
  }

  lemma ReorderMultisetAppend<T>(xs: seq<T>, a: seq<nat>, b: seq<nat>)
    requires InRange(a, |xs|)
    requires InRange(b, |xs|)
    ensures InRange(a + b, |xs|)
    ensures multiset(Reorder(xs, a + b)) == multiset(Reorder(xs, a)) + multiset(Reorder(xs, b))
  {
    ReorderAppend(xs, a, b);
  }

  lemma ReorderSplit<T>(xs: seq<T>, p: seq<nat>, x: nat, q: seq<nat>)
    requires InRange(p, |xs|) && InRange(q, |xs|) && x < |xs|
    ensures InRange(p + [x] + q, |xs|)
    ensures multiset(Reorder(xs, p + [x] + q)) == multiset{xs[x]} + multiset(Reorder(xs, p + q))
  {
    assert InRange([x], |xs|);
    ReorderMultisetAppend(xs, p, [x]);
    ReorderMultisetAppend(xs, p + [x], q);
    ReorderMultisetAppend(xs, p, q);
    assert Reorder(xs, [x]) == [xs[x]];
  }

  lemma InRangeParts(b: seq<nat>, j: nat, n: nat)
    requires j < |b| && InRange(b, n)
    ensures InRange(b[..j], n) && InRange(b[j + 1..], n) && b[j] < n
    ensures b == b[..j] + [b[j]] + b[j + 1..]
  {
    var head, tail := b[..j], b[j + 1..];
    forall i | 0 <= i < |head| ensures head[i] < n { assert head[i] == b[i]; }
    forall i | 0 <= i < |tail| ensures tail[i] < n { assert tail[i] == b[j + 1 + i]; }
  }

  lemma ReorderRemoveAt<T>(xs: seq<T>, b: seq<nat>, j: nat)
    requires j < |b| && InRange(b, |xs|)
    ensures multiset(Reorder(xs, b)) == multiset{xs[b[j]]} + multiset(Reorder(xs, b[..j] + b[j + 1..]))
  {
    InRangeParts(b, j, |xs|);
    ReorderSplit(xs, b[..j], b[j], b[j + 1..]);
  }

  lemma CancelFirst(a: seq<nat>, b: seq<nat>, j: nat)
    requires a != [] && j < |b| && b[j] == a[0] && multiset(a) == multiset(b)
    ensures multiset(a[1..]) == multiset(b[..j] + b[j + 1..])
  {
    var rest := b[..j] + b[j + 1..];
    RemoveAt(b, j);
    RemoveAt(a, 0);
    assert a[..0] + a[1..] == a[1..];
    forall x ensures multiset(a[1..])[x] == multiset(rest)[x] {
      assert multiset(a)[x] == multiset{a[0]}[x] + multiset(a[1..])[x];
      assert multiset(b)[x] == multiset{b[j]}[x] + multiset(rest)[x];
    }
  }

  lemma InRangeRemoveAt(b: seq<nat>, j: nat, n: nat)
    requires j < |b| && InRange(b, n)
    ensures InRange(b[..j] + b[j + 1..], n)
  {
    var rest := b[..j] + b[j + 1..];
    forall i | 0 <= i < |rest| ensures rest[i] < n {
      if i < j {
        assert rest[i] == b[i];
      } else {
        assert rest[i] == b[i + 1];
      }
    }
  }

  /** Two orders that name the same indices equally often give the same items equally often. */
  lemma {:induction false} ReorderSameMultiset<T>(xs: seq<T>, a: seq<nat>, b: seq<nat>)
    requires InRange(a, |xs|)
    requires InRange(b, |xs|)
    requires multiset(a) == multiset(b)
    ensures multiset(Reorder(xs, a)) == multiset(Reorder(xs, b))
    decreases |a|
  {
    if a != [] {
      assert a[0] in multiset(b);
      var j :| 0 <= j < |b| && b[j] == a[0];
      var rest := b[..j] + b[j + 1..];
      CancelFirst(a, b, j);
      InRangeRemoveAt(b, j, |xs|);
      ReorderSameMultiset(xs, a[1..], rest);
      ReorderRemoveAt(xs, b, j);
      assert Reorder(xs, a) == [xs[a[0]]] + Reorder(xs, a[1..]);
    } else {
      assert |b| == |multiset(b)| == 0;
    }
  }

  /** Handing back the units in completion order loses and duplicates none of them. */
  lemma ReorderPermutes<T>(xs: seq<T>, order: seq<nat>)
    requires IsCompletionOrder(order, |xs|)
    ensures InRange(order, |xs|)
    ensures multiset(Reorder(xs, order)) == multiset(xs)
  {
    CompletionBounded(order, |xs|);
    var ids := Indices(|xs|);
    ReorderSameMultiset(xs, order, ids);
    ReorderIndices(xs);
  }

  /** Handing back the units in submission order gives them as submitted. */
  lemma ReorderIndices<T>(xs: seq<T>)
    ensures InRange(Indices(|xs|), |xs|) && Reorder(xs, Indices(|xs|)) == xs
  {
    var ids := Indices(|xs|);
    assert InRange(ids, |xs|);
    var r := Reorder(xs, ids);
    assert |r| == |xs|;
    assert forall i :: 0 <= i < |xs| ==> r[i] == xs[ids[i]] == xs[i];
  }

  /** The count of `true`s in `xs`. */
  function Count(xs: seq<bool>): (n: nat)
    ensures n <= |xs|
  {
    if xs == [] then 0 else (if xs[0] then 1 else 0) + Count(xs[1..])
  }

  lemma {:induction false} CountAppend(a: seq<bool>, b: seq<bool>)
    ensures Count(a + b) == Count(a) + Count(b)
  {
    if a == [] {
      assert a + b == b;
    } else {
      assert (a + b)[1..] == a[1..] + b;
      CountAppend(a[1..], b);
    }
  }

  /** The count of `true`s is how often `true` occurs. */
  lemma {:induction false} CountIsMultiplicity(xs: seq<bool>)
    ensures Count(xs) == multiset(xs)[true]
  {
    if xs != [] {
      CountIsMultiplicity(xs[1..]);
      assert xs == [xs[0]] + xs[1..];
    }
  }

  /** Rearranging flags in completion order keeps their count. */
  lemma CountReorder(xs: seq<bool>, order: seq<nat>)
    requires IsCompletionOrder(order, |xs|)
    ensures InRange(order, |xs|) && Count(Reorder(xs, order)) == Count(xs)
  {
    ReorderPermutes(xs, order);
    CountIsMultiplicity(xs);
    CountIsMultiplicity(Reorder(xs, order));
  }

  /** The rich progress bar's task: how many units there are and how many have advanced it. */
  class Progress {
    var total: nat
    var completed: nat

    constructor (total: nat)
      ensures this.total == total && completed == 0
    {
      this.total := total;
      completed := 0;
    }

    /** `progress.update(task_id, advance=1)` */
    method Advance()
      modifies this
      ensures total == old(total) && completed == old(completed) + 1
    {
      completed := completed + 1;
    }
  }

  /** The local file system: file contents by normalised path. */
  class LocalDisk {
    var files: map<string, Bytes>

    constructor (files: map<string, Bytes>)
      ensures this.files == files
    {
      this.files := files;
    }

    /** `Path(name).exists()` */
    function Exists(name: string): bool
      reads this
    {
      Norm(name) in files
    }

    method Write(name: string, data: Bytes)
      modifies this
      ensures files == old(files)[Norm(name) := data]
    {
      files := files[Norm(name) := data];
    }
  }
}
