/** The few Python `str` operations the library's key and path derivations use. */
module PyStr {

  /** `t` is a prefix of `s` (Python `s.startswith(t)`). */
  predicate StartsWith(s: string, t: string) {
    |t| <= |s| && s[..|t|] == t
  }

  /** `t` occurs in `s` at some position (Python `t in s`). */
  predicate Occurs(s: string, t: string) {
    exists i :: 0 <= i <= |s| && StartsWith(s[i..], t)
  }

  /** `s.replace(target, replacement)`: every non-overlapping occurrence of a non-empty
      `target`, scanned left to right, is replaced; an empty `target` inserts `replacement`
      before every character and at the end. */
  function Replace(s: string, target: string, replacement: string): (r: string)
    ensures replacement == "" ==> |r| <= |s|
    ensures target != "" && |replacement| == |target| ==> |r| == |s|
    decreases |s|
  {
    if target == "" then
      if s == "" then replacement else replacement + [s[0]] + Replace(s[1..], target, replacement)
    else if StartsWith(s, target) then
      replacement + Replace(s[|target|..], target, replacement)
    else if s == "" then
      ""
    else
      [s[0]] + Replace(s[1..], target, replacement)
  }

  /** `s[1:]`, which is `""` on the empty string rather than an error. */
  function DropFirst(s: string): (r: string)
    ensures s == "" ==> r == ""
    ensures s != "" ==> [s[0]] + r == s
  {
    if s == "" then "" else s[1..]
  }

  /** When `target` occurs nowhere in `s`, replacing it changes nothing. */
  lemma {:induction false} ReplaceAbsent(s: string, target: string, replacement: string)
    requires target != "" && !Occurs(s, target)
    ensures Replace(s, target, replacement) == s
    decreases |s|
  {
    assert !StartsWith(s[0..], target);
    if s != "" {
      forall i | 0 <= i <= |s[1..]|
        ensures !StartsWith(s[1..][i..], target)
      {
        assert s[1..][i..] == s[i + 1..];
      }
      ReplaceAbsent(s[1..], target, replacement);
    }
  }

  /** A key made of a leading `target` followed by text that does not contain
      `target` has exactly its leading `target` swapped for `replacement`. */
  lemma ReplaceLeading(target: string, rest: string, replacement: string)
    requires target != "" && !Occurs(rest, target)
    ensures Replace(target + rest, target, replacement) == replacement + rest
  {
    var s := target + rest;
    assert s[..|target|] == target;
    assert s[|target|..] == rest;
    ReplaceAbsent(rest, target, replacement);
  }

  /** Replacing a string by itself is the identity. */
  lemma {:induction false} ReplaceSelf(s: string, target: string)
    ensures Replace(s, target, target) == s
    decreases |s|
  {
    if target == "" {
      if s != "" {
        ReplaceSelf(s[1..], target);
      }
    } else if StartsWith(s, target) {
      ReplaceSelf(s[|target|..], target);
      assert s == s[..|target|] + s[|target|..];
    } else if s != "" {
      ReplaceSelf(s[1..], target);
    }
  }
}
