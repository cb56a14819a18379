/** `pathlib` as the library uses it: keys and prefixes arrive as `str` or
    `Path` and are turned into text with `Path(x).as_posix()`.

    `Norm` is that normalisation for POSIX paths: the text is split at `/`,
    empty and `.` components are dropped, a leading `/` is kept, and a path
    with nothing left is `"."`. So `Norm("prefix/key.csv/") == "prefix/key.csv"`
    and `Norm("") == "."`. */
module PurePath {

  /** A `Union[str, Path]` argument; the `Path` alternative keeps the text it was built from. */
  datatype PathLike = Str(text: string) | PathOf(text: string)

  /** `Path(x).as_posix()`, for a `str` or a `Path` alike. */
  function AsPosix(p: PathLike): string {
    Norm(p.text)
  }

  /** `Path(x)` as returned to a caller: the object whose text is the normalised form. */
  function MakePath(x: string): (p: PathLike)
    ensures p.PathOf? && AsPosix(p) == Norm(x)
  {
    NormIdempotent(x);
    PathOf(Norm(x))
  }

  /** The `/`-separated pieces of `s`, empty ones included. */
  function Split(s: string): (parts: seq<string>)
    ensures |parts| >= 1
  {
    if s == "" then [""]
    else
      var rest := Split(s[1..]);
      if s[0] == '/' then [""] + rest else [[s[0]] + rest[0]] + rest[1..]
  }

  /** The components `pathlib` keeps: not empty and not `.`. */
  function Clean(parts: seq<string>): seq<string> {
    if parts == [] then []
    else if parts[0] == "" || parts[0] == "." then Clean(parts[1..])
    else [parts[0]] + Clean(parts[1..])
  }

  function JoinParts(parts: seq<string>): string {
    if parts == [] then ""
    else if |parts| == 1 then parts[0]
    else parts[0] + "/" + JoinParts(parts[1..])
  }

  /** The path components of `s` as `pathlib` sees them. */
  function Parts(s: string): seq<string> {
    Clean(Split(s))
  }

  function Root(s: string): string {
    if s != "" && s[0] == '/' then "/" else ""
  }

  /** `Path(s).as_posix()` */
  function Norm(s: string): (r: string)
    ensures r != ""
  {
    var body := Root(s) + JoinParts(Parts(s));
    if body == "" then "." else body
  }

  /** `Path(a).joinpath(b).as_posix()` for a relative `b`. */
  function JoinPath(a: string, b: string): (r: string)
    ensures r != "" && Norm(r) == r
  {
    NormIdempotent(Norm(a) + "/" + b);
    Norm(Norm(a) + "/" + b)
  }

  predicate IsComponent(c: string) {
    c != "" && c != "." && '/' !in c
  }

  predicate AllComponents(cs: seq<string>) {
    forall i :: 0 <= i < |cs| ==> IsComponent(cs[i])
  }

  lemma {:induction false} SplitNoSlash(s: string)
    ensures forall i :: 0 <= i < |Split(s)| ==> '/' !in Split(s)[i]
  {
    if s != "" {
      SplitNoSlash(s[1..]);
    }
  }

  lemma {:induction false} CleanComponents(parts: seq<string>)
    requires forall i :: 0 <= i < |parts| ==> '/' !in parts[i]
    ensures AllComponents(Clean(parts))
  {
    if parts != [] {
      CleanComponents(parts[1..]);
    }
  }

  lemma {:induction false} CleanKeepsComponents(cs: seq<string>)
    requires AllComponents(cs)
    ensures Clean(cs) == cs
  {
    if cs != [] {
      CleanKeepsComponents(cs[1..]);
    }
  }

  lemma {:induction false} CleanAppend(a: seq<string>, b: seq<string>)
    ensures Clean(a + b) == Clean(a) + Clean(b)
  {
    if a == [] {
      assert a + b == b;
    } else {
      assert (a + b)[1..] == a[1..] + b;
      CleanAppend(a[1..], b);
    }
  }

  /** Splitting text with no `/` in front of more text glues it to the first piece. */
  lemma {:induction false} SplitPrefix(c: string, t: string)
    requires '/' !in c
    ensures Split(c + t) == [c + Split(t)[0]] + Split(t)[1..]
  {
    if c == "" {
      assert c + t == t;
      assert c + Split(t)[0] == Split(t)[0];
      assert [Split(t)[0]] + Split(t)[1..] == Split(t);
    } else {
      assert (c + t)[1..] == c[1..] + t;
      SplitPrefix(c[1..], t);
      assert [c[0]] + (c[1..] + Split(t)[0]) == c + Split(t)[0];
    }
  }

  /** A `/` between two texts splits into the pieces of each. */
  lemma SplitAppend(a: string, b: string)
    ensures Split(a + "/" + b) == Split(a) + Split(b)
  {
    SplitAppendGeneral(a, b);
  }

  lemma {:induction false} SplitAppendGeneral(a: string, b: string)
    ensures Split(a + "/" + b) == Split(a) + Split(b)
  {
    if a == "" {
      assert a + "/" + b == "/" + b;
      assert ("/" + b)[1..] == b;
    } else {
      assert (a + "/" + b)[1..] == a[1..] + "/" + b;
      SplitAppendGeneral(a[1..], b);
    }
  }

  lemma {:induction false} SplitJoin(cs: seq<string>)
    requires cs != [] && forall i :: 0 <= i < |cs| ==> '/' !in cs[i]
    ensures Split(JoinParts(cs)) == cs
  {
    if |cs| == 1 {
      SplitPrefix(cs[0], "");
      assert cs[0] + "" == cs[0];
    } else {
      SplitJoin(cs[1..]);
      assert cs[0] + "/" + JoinParts(cs[1..]) == cs[0] + ("/" + JoinParts(cs[1..]));
      var tail := "/" + JoinParts(cs[1..]);
      assert tail[1..] == JoinParts(cs[1..]);
      assert Split(tail) == [""] + cs[1..];
      SplitPrefix(cs[0], tail);
      assert cs[0] + "" == cs[0];
    }
  }

  lemma SplitDot()
    ensures Split(".") == ["."]
  {
    var s := ".";
    assert s[0] == '.' && s[1..] == "";
    var rest := Split(s[1..]);
    assert rest == [""];
    assert [s[0]] + rest[0] == ".";
    assert rest[1..] == [];
  }

  lemma SplitSlash()
    ensures Split("/") == ["", ""]
  {
    assert "/"[1..] == "";
  }

  lemma JoinFirst(cs: seq<string>)
    requires cs != [] && cs[0] != ""
    ensures JoinParts(cs) != "" && JoinParts(cs)[0] == cs[0][0]
  {
  }

  /** `Norm(s)` is `Root(s)` followed by the components of `s` joined by `/`. */
  lemma NormShape(s: string)
    ensures AllComponents(Parts(s))
    ensures Norm(s) == if Root(s) + JoinParts(Parts(s)) == "" then "." else Root(s) + JoinParts(Parts(s))
  {
    SplitNoSlash(s);
    CleanComponents(Split(s));
  }

  /** The components of `Norm(s)` are those of `s`. */
  lemma PartsOfNorm(s: string)
    ensures Parts(Norm(s)) == Parts(s)
    ensures Root(Norm(s)) == Root(s)
  {
    NormShape(s);
    var cs := Parts(s);
    if cs == [] {
      if Root(s) == "" {
        assert Norm(s) == ".";
        SplitDot();
      } else {
        assert Norm(s) == "/";
        SplitSlash();
      }
    } else {
      SplitJoin(cs);
      CleanKeepsComponents(cs);
      JoinFirst(cs);
      if Root(s) == "/" {
        assert Norm(s) == "/" + JoinParts(cs);
        assert ("/" + JoinParts(cs))[1..] == JoinParts(cs);
      } else {
        assert Norm(s) == JoinParts(cs);
      }
    }
  }

  /** Normalising twice is normalising once, so `Path(Path(x))` and `Path(x)` name the same key. */
  lemma NormIdempotent(s: string)
    ensures Norm(Norm(s)) == Norm(s)
  {
    PartsOfNorm(s);
  }

  /** Joining adds the components of the relative part after those of the base:
      `Path(prefix).joinpath(rel)` replicates the structure of `rel` under `prefix`. */
  lemma JoinPathParts(a: string, b: string)
    ensures Parts(JoinPath(a, b)) == Parts(a) + Parts(b)
    ensures Root(JoinPath(a, b)) == Root(a)
  {
    var na := Norm(a);
    PartsOfNorm(a);
    PartsOfNorm(na + "/" + b);
    SplitAppend(na, b);
    CleanAppend(Split(na), Split(b));
  }

  /** A trailing `/` does not change the path: `Path("prefix/key.csv/")` names `prefix/key.csv`. */
  lemma TrailingSlashIgnored(x: string)
    requires x != ""
    ensures Norm(x + "/") == Norm(x)
  {
    var y := x + "/";
    SplitAppend(x, "");
    assert x + "/" + "" == y;
    assert Split("") == [""];
    assert Split(y) == Split(x) + [""];
    CleanAppend(Split(x), [""]);
    assert Clean([""]) == [];
    assert Parts(y) == Clean(Split(x)) + [] == Parts(x);
    assert y[0] == x[0];
    assert Root(y) == Root(x);
  }

  /** A single component is its own normal form. */
  lemma NormComponent(c: string)
    requires IsComponent(c)
    ensures Norm(c) == c
  {
    SplitPrefix(c, "");
    assert c + "" == c;
    assert Split("") == [""];
    assert Split(c) == [c];
    CleanKeepsComponents([c]);
    assert Parts(c) == [c];
    assert c[0] != '/';
  }
}
