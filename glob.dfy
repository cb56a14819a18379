/** Shell-style wildcard matching as `fnmatch.filter` performs it on POSIX:
    case-sensitive, the whole name must match, `*` matches any run of
    characters (`/` and newlines included), `?` matches one character and
    `[...]` matches one character from a class. */
module Glob {
  import opened Wrappers
  import opened PyStr

  /** A pattern character with a meaning of its own. */
  predicate IsSpecial(c: char) {
    c == '*' || c == '?' || c == '['
  }

  /** A pattern without wildcards: it matches only itself. */
  predicate IsLiteral(p: string) {
    forall i :: 0 <= i < |p| ==> !IsSpecial(p[i])
  }

  /** The index of the first `]` in `p` at or after `j`. */
  function FindClose(p: string, j: nat): (r: Option<nat>)
    ensures r.Some? ==> j <= r.value < |p| && p[r.value] == ']'
    decreases |p| - j
  {
    if j >= |p| then None
    else if p[j] == ']' then Some(j)
    else FindClose(p, j + 1)
  }

  /** For a pattern starting with `[`: the index of the `]` closing the class.
      A `!` right after `[` negates the class, and a `]` right after `[` or
      `[!` is a member rather than the end. `None` when the class is not
      closed, in which case the `[` stands for itself. */
  function ClassClose(p: string): (r: Option<nat>)
    requires p != [] && p[0] == '['
    ensures r.Some? ==> 1 <= r.value < |p|
  {
    var j := if 1 < |p| && p[1] == '!' then 2 else 1;
    var k := if j < |p| && p[j] == ']' then j + 1 else j;
    FindClose(p, k)
  }

  /** The members of a class body: single characters and ranges `a-z`. A
      range whose bounds are reversed holds nothing. */
  function InItems(items: string, c: char): bool {
    if items == [] then false
    else if |items| >= 3 && items[1] == '-' then
      (items[0] <= c <= items[2]) || InItems(items[3..], c)
    else
      items[0] == c || InItems(items[1..], c)
  }

  /** The text between `[` and `]`, with a leading `!` negating it. */
  function InClass(body: string, c: char): bool {
    if body != [] && body[0] == '!' then !InItems(body[1..], c) else InItems(body, c)
  }

  /** `fnmatch.fnmatchcase(s, p)`: the pattern `p` matches all of `s`. */
  function Match(p: string, s: string): (r: bool)
    ensures r && '*' !in p ==> |s| <= |p|
    decreases |p| + |s|
  {
    if p == [] then s == []
    else if p[0] == '*' then Match(p[1..], s) || (s != [] && Match(p, s[1..]))
    else if p[0] == '?' then s != [] && Match(p[1..], s[1..])
    else if p[0] == '[' && ClassClose(p).Some? then
      var j := ClassClose(p).value;
      s != [] && InClass(p[1..j], s[0]) && Match(p[j + 1..], s[1..])
    else s != [] && s[0] == p[0] && Match(p[1..], s[1..])
  }

  /** `fnmatch.filter(names, p)`: the names `p` matches, in their order. */
  function Filter(names: seq<string>, p: string): (r: seq<string>)
    ensures |r| <= |names|
    ensures forall x :: x in r ==> x in names && Match(p, x)
  {
    if names == [] then []
    else if Match(p, names[0]) then [names[0]] + Filter(names[1..], p)
    else Filter(names[1..], p)
  }

  /** A pattern without wildcards matches exactly the name equal to it. */
  lemma {:induction false} MatchLiteral(p: string, s: string)
    requires IsLiteral(p)
    ensures Match(p, s) <==> s == p
    decreases |p|
  {
    if p != [] {
      assert !IsSpecial(p[0]);
      if s != [] {
        MatchLiteral(p[1..], s[1..]);
        if s[0] == p[0] && s[1..] == p[1..] {
          assert s == [s[0]] + s[1..] && p == [p[0]] + p[1..];
        }
      }
    }
  }

  /** `*` alone matches every name, `/` included. */
  lemma {:induction false} StarMatchesAll(s: string)
    ensures Match("*", s)
    decreases |s|
  {
    if s != [] {
      StarMatchesAll(s[1..]);
    }
  }

  /** A leading `*` matches any prefix of the name and leaves the rest to the pattern. */
  lemma {:induction false} StarMatches(q: string, s: string)
    ensures Match("*" + q, s) <==> exists i :: 0 <= i <= |s| && Match(q, s[i..])
    decreases |s|
  {
    var p := "*" + q;
    assert p[1..] == q;
    assert s[0..] == s;
    if s != [] {
      StarMatches(q, s[1..]);
      if Match(p, s[1..]) {
        var i :| 0 <= i <= |s[1..]| && Match(q, s[1..][i..]);
        assert s[1..][i..] == s[i + 1..];
      }
      if exists i :: 0 <= i <= |s| && Match(q, s[i..]) {
        var i :| 0 <= i <= |s| && Match(q, s[i..]);
        if i > 0 {
          assert s[1..][i - 1..] == s[i..];
        }
      }
    }
  }

  /** A literal followed by `*` matches the names that start with the literal. */
  lemma {:induction false} LiteralStarMatches(t: string, s: string)
    requires IsLiteral(t)
    ensures Match(t + "*", s) <==> StartsWith(s, t)
    decreases |t|
  {
    var p := t + "*";
    if t == [] {
      assert p == "*";
      StarMatchesAll(s);
    } else {
      assert p[0] == t[0] && p[1..] == t[1..] + "*";
      assert !IsSpecial(t[0]);
      if s != [] {
        LiteralStarMatches(t[1..], s[1..]);
        if StartsWith(s, t) {
          assert s[1..][..|t| - 1] == s[..|t|][1..];
        }
        if s[0] == t[0] && StartsWith(s[1..], t[1..]) {
          assert s[..|t|] == [s[0]] + s[1..][..|t| - 1];
        }
      }
    }
  }

  /** `*text*` with a literal `text` matches the names containing `text`;
      so `"*02*"` selects the names with `02` in them. */
  lemma ContainsMatches(t: string, s: string)
    requires IsLiteral(t)
    ensures Match("*" + t + "*", s) <==> Occurs(s, t)
  {
    assert "*" + t + "*" == "*" + (t + "*");
    StarMatches(t + "*", s);
    forall i | 0 <= i <= |s|
      ensures Match(t + "*", s[i..]) <==> StartsWith(s[i..], t)
    {
      LiteralStarMatches(t, s[i..]);
    }
  }

  /** Filtering keeps exactly the matching names, each as often as it occurs. */
  lemma {:induction false} FilterCounts(names: seq<string>, p: string)
    ensures forall x :: multiset(Filter(names, p))[x] == if Match(p, x) then multiset(names)[x] else 0
  {
    if names != [] {
      FilterCounts(names[1..], p);
      assert names == [names[0]] + names[1..];
    }
  }

  /** Every kept name matches, and no matching name is dropped. */
  lemma FilterMembership(names: seq<string>, p: string)
    ensures forall x :: x in Filter(names, p) <==> x in names && Match(p, x)
  {
    FilterCounts(names, p);
    forall x
      ensures x in Filter(names, p) <==> x in names && Match(p, x)
    {
      assert x in Filter(names, p) <==> multiset(Filter(names, p))[x] > 0;
      assert x in names <==> multiset(names)[x] > 0;
    }
  }

  /** Filtering the whole list is filtering each part: the filter keeps the order of the names. */
  lemma {:induction false} FilterAppend(a: seq<string>, b: seq<string>, p: string)
    ensures Filter(a + b, p) == Filter(a, p) + Filter(b, p)
  {
    if a == [] {
      assert a + b == b;
    } else {
      assert (a + b)[0] == a[0] && (a + b)[1..] == a[1..] + b;
      FilterAppend(a[1..], b, p);
    }
  }

  /** When every name matches, nothing is dropped and the order is kept. */
  lemma {:induction false} FilterAllMatch(names: seq<string>, p: string)
    requires forall i :: 0 <= i < |names| ==> Match(p, names[i])
    ensures Filter(names, p) == names
  {
    if names != [] {
      FilterAllMatch(names[1..], p);
    }
  }

  /** A pattern `""` keeps only empty names. */
  lemma EmptyPatternKeepsEmpty(names: seq<string>)
    ensures forall x :: x in Filter(names, "") ==> x == ""
  {
    FilterMembership(names, "");
  }

  /** When no name matches, nothing is kept. */
  lemma {:induction false} FilterNoneMatch(names: seq<string>, p: string)
    requires forall i :: 0 <= i < |names| ==> !Match(p, names[i])
    ensures Filter(names, p) == []
  {
    if names != [] {
      FilterNoneMatch(names[1..], p);
    }
  }
}
