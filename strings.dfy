/** The two JavaScript string operations the widget relies on:
    `s.includes(p)` and `s.replace(p, r)` with a string pattern, which
    replaces the FIRST occurrence of `p` only. */
module Strings {
  import opened Wrappers

  /** `p` occurs in `s` starting at position `j`. */
  predicate OccursAt(s: string, p: string, j: int)
  {
    0 <= j && j + |p| <= |s| && s[j..j + |p|] == p
  }

  /** The position of the first occurrence of `p` in `s` (`String.prototype.indexOf`). */
  function IndexOf(s: string, p: string): (r: Option<nat>)
    ensures r.Some? ==> OccursAt(s, p, r.value)
    ensures r.Some? ==> forall j :: 0 <= j < r.value ==> !OccursAt(s, p, j)
    ensures r.None? ==> forall j :: !OccursAt(s, p, j)
    decreases |s|
  {
    if |p| > |s| then None
    else if s[..|p|] == p then Some(0)
    else
      match IndexOf(s[1..], p)
      case None =>
        assert forall j :: 1 <= j ==> (OccursAt(s, p, j) <==> OccursAt(s[1..], p, j - 1));
        None
      case Some(i) =>
        assert forall j :: 1 <= j ==> (OccursAt(s, p, j) <==> OccursAt(s[1..], p, j - 1));
        Some(i + 1)
  }

  /** `s.includes(p)`. */
  predicate Contains(s: string, p: string)
  {
    IndexOf(s, p).Some?
  }

  lemma ContainsIff(s: string, p: string)
    ensures Contains(s, p) <==> exists j :: OccursAt(s, p, j)
  {
    if Contains(s, p) {
      assert OccursAt(s, p, IndexOf(s, p).value);
    }
  }

  /** An occurrence survives text added on either side, shifted by what
      was added in front. */
  lemma OccursInConcat(a: string, t: string, p: string, j: int)
    requires OccursAt(t, p, j)
    ensures OccursAt(a + t, p, |a| + j) && OccursAt(t + a, p, j)
  {
    assert (a + t)[|a| + j..|a| + j + |p|] == t[j..j + |p|];
    assert (t + a)[j..j + |p|] == t[j..j + |p|];
  }

  /** A pattern with a character that `s` lacks does not occur in `s`. */
  lemma AbsentChar(s: string, p: string, c: char)
    requires c in p && c !in s
    ensures !Contains(s, p)
  {
  }

  /** An occurrence at `i` is the first one when the pattern's first
      character does not appear before `i`. */
  lemma FirstOccurrence(s: string, p: string, i: nat)
    requires OccursAt(s, p, i) && |p| > 0 && p[0] !in s[..i]
    ensures IndexOf(s, p) == Some(i)
  {
  }

  /** `s.replace(p, r)` for a string pattern `p`: the first occurrence of `p`
      is replaced by `r`; without an occurrence `s` is returned unchanged. */
  function ReplaceFirst(s: string, p: string, r: string): (t: string)
    ensures !Contains(s, p) ==> t == s
    ensures Contains(s, p) ==>
      var i := IndexOf(s, p).value;
      |t| == |s| - |p| + |r| && t[..i] == s[..i] && t[i..i + |r|] == r && t[i + |r|..] == s[i + |p|..]
  {
    match IndexOf(s, p)
    case None => s
    case Some(i) => s[..i] + r + s[i + |p|..]
  }

  /** Replacing back undoes a replacement, provided the first occurrence of
      the replacement text in the result is the one just inserted. */
  lemma ReplaceFirstUndo(s: string, p: string, r: string)
    requires Contains(s, p)
    requires IndexOf(ReplaceFirst(s, p, r), r) == IndexOf(s, p)
    ensures ReplaceFirst(ReplaceFirst(s, p, r), r, p) == s
  {
  }
}
