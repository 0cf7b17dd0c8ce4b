/** The few string operations of Python's `str` the model needs:
    `startswith`, `find` and `replace(old, new, 1)`. */
module Text {
  import opened Outcomes

  predicate StartsWith(s: string, prefix: string) {
    |prefix| <= |s| && s[..|prefix|] == prefix
  }

  /** `pat` occurs in `s` starting at index `i`. */
  predicate OccursAt(s: string, pat: string, i: nat) {
    i + |pat| <= |s| && s[i..i + |pat|] == pat
  }

  /** The index of the first occurrence of `pat` in `s` at or after `from`,
      like `s.find(pat, from)`. */
  function Find(s: string, pat: string, from: nat): (r: Option<nat>)
    requires from <= |s|
    ensures r.Some? ==> from <= r.value && OccursAt(s, pat, r.value)
    ensures r.Some? ==> forall j :: from <= j < r.value ==> !OccursAt(s, pat, j)
    ensures r.None? ==> forall j :: from <= j <= |s| ==> !OccursAt(s, pat, j)
    decreases |s| - from
  {
    if OccursAt(s, pat, from) then Some(from)
    else if from == |s| then None
    else Find(s, pat, from + 1)
  }

  /** `s.replace(old, new, 1)`: the first occurrence of `old`, if any, is
      replaced by `new`. */
  function ReplaceFirst(s: string, target: string, replacement: string): (r: string)
    ensures (forall i :: 0 <= i <= |s| ==> !OccursAt(s, target, i)) ==> r == s
    ensures forall i :: 0 <= i <= |s| && OccursAt(s, target, i) &&
                        (forall j :: 0 <= j < i ==> !OccursAt(s, target, j))
                        ==> r == s[..i] + replacement + s[i + |target|..]
  {
    match Find(s, target, 0)
    case None => s
    case Some(i) => s[..i] + replacement + s[i + |target|..]
  }

  /** When `s` starts with `old`, the first occurrence is the prefix itself. */
  lemma ReplaceFirstAtPrefix(s: string, target: string, replacement: string)
    requires StartsWith(s, target)
    ensures ReplaceFirst(s, target, replacement) == replacement + s[|target|..]
  {
    assert OccursAt(s, target, 0);
  }
}
