/** Small shared vocabulary: optional values, JavaScript truthiness of the optional
    attributes the cards read, and the string tests and rewrites that the TypeScript
    code performs with startsWith, endsWith, includes and replace. */
module Base {

  datatype Option<+T> = None | Some(value: T) {
    function GetOr(default: T): T {
      match this
      case Some(v) => v
      case None => default
    }
  }

  /** JavaScript truthiness of an optional string: undefined and "" are falsy. */
  predicate StrTruthy(s: Option<string>) {
    s.Some? && s.value != ""
  }

  /** JavaScript truthiness of an optional number: undefined and 0 are falsy. */
  predicate IntTruthy(n: Option<int>) {
    n.Some? && n.value != 0
  }

  /** `s || fallback` for an optional string. */
  function StrOr(s: Option<string>, fallback: string): (r: string)
    ensures StrTruthy(s) ==> r == s.value
    ensures !StrTruthy(s) ==> r == fallback
    ensures r == "" ==> fallback == ""
  {
    if StrTruthy(s) then s.value else fallback
  }

  predicate StartsWith(s: string, p: string) {
    |p| <= |s| && s[..|p|] == p
  }

  predicate EndsWith(s: string, p: string) {
    |p| <= |s| && s[|s| - |p|..] == p
  }

  /** `t` occurs in `s` at position `i`. */
  predicate OccursAt(s: string, t: string, i: int) {
    0 <= i <= |s| - |t| && s[i..i + |t|] == t
  }

  /** `s.includes(t)`. */
  predicate Contains(s: string, t: string) {
    exists i | 0 <= i <= |s| - |t| :: OccursAt(s, t, i)
  }

  /** `i` is the leftmost occurrence of `t` in `s`. */
  predicate FirstOccurrence(s: string, t: string, i: int) {
    OccursAt(s, t, i) && forall j :: 0 <= j < i ==> !OccursAt(s, t, j)
  }

  /** The anchored regular-expression rewrite `s.replace(/suf$/, '')`. */
  function StripSuffix(s: string, suf: string): (r: string)
    ensures EndsWith(s, suf) ==> r + suf == s
    ensures !EndsWith(s, suf) ==> r == s
  {
    if EndsWith(s, suf) then s[..|s| - |suf|] else s
  }

  /** The anchored regular-expression rewrite `s.replace(/^pre/, '')`. */
  function StripPrefix(s: string, pre: string): (r: string)
    ensures StartsWith(s, pre) ==> pre + r == s
    ensures !StartsWith(s, pre) ==> r == s
  {
    if StartsWith(s, pre) then s[|pre|..] else s
  }

  /** `s.replace(t, '')` with a string pattern: only the leftmost occurrence goes. */
  function RemoveFirst(s: string, t: string): string
    decreases |s|
  {
    if StartsWith(s, t) then s[|t|..]
    else if |s| == 0 then s
    else [s[0]] + RemoveFirst(s[1..], t)
  }

  lemma OccursShift(s: string, t: string, j: int)
    requires |s| > 0 && j >= 0
    ensures OccursAt(s, t, j + 1) <==> OccursAt(s[1..], t, j)
  {
    if 0 <= j <= |s| - 1 - |t| {
      var u, v := s[j + 1..j + 1 + |t|], s[1..][j..j + |t|];
      assert |u| == |v| && forall k :: 0 <= k < |u| ==> u[k] == v[k];
      assert u == v;
    }
  }

  /** An occurrence that is not at position 0 is an occurrence in the tail, shifted by one. */
  lemma FirstOccurrenceShift(s: string, t: string, i: int)
    requires |s| > 0 && !OccursAt(s, t, 0) && FirstOccurrence(s[1..], t, i)
    ensures FirstOccurrence(s, t, i + 1)
  {
    OccursShift(s, t, i);
    forall j | 0 < j < i + 1
      ensures !OccursAt(s, t, j)
    {
      OccursShift(s, t, j - 1);
    }
  }

  lemma NoOccurrenceShift(s: string, t: string)
    requires |s| > 0 && !OccursAt(s, t, 0) && !Contains(s[1..], t)
    ensures !Contains(s, t)
  {
    forall j | 0 < j <= |s| - |t|
      ensures !OccursAt(s, t, j)
    {
      OccursShift(s, t, j - 1);
    }
  }

  /** The step case of RemoveFirstSpec: the leftmost occurrence in the tail, shifted by
      one, is the leftmost occurrence in the whole string, and the same text goes. */
  lemma RemoveFirstStep(s: string, t: string, i: int)
    requires |s| > 0 && !StartsWith(s, t)
    requires FirstOccurrence(s[1..], t, i) && RemoveFirst(s[1..], t) == s[1..][..i] + s[1..][i + |t|..]
    ensures FirstOccurrence(s, t, i + 1) && RemoveFirst(s, t) == s[..i + 1] + s[i + 1 + |t|..]
  {
    assert !OccursAt(s, t, 0);
    FirstOccurrenceShift(s, t, i);
    var rest := s[1..];
    assert [s[0]] + (rest[..i] + rest[i + |t|..]) == s[..i + 1] + s[i + 1 + |t|..];
  }

  /** What RemoveFirst removes: the leftmost occurrence, and nothing when there is none. */
  lemma {:induction false} RemoveFirstSpec(s: string, t: string)
    ensures Contains(s, t) ==>
      exists i :: FirstOccurrence(s, t, i) && RemoveFirst(s, t) == s[..i] + s[i + |t|..]
    ensures !Contains(s, t) ==> RemoveFirst(s, t) == s
    decreases |s|
  {
    if StartsWith(s, t) {
      assert OccursAt(s, t, 0);
      assert s[..0] + s[|t|..] == s[|t|..];
    } else if |s| == 0 {
    } else {
      var rest := s[1..];
      RemoveFirstSpec(rest, t);
      assert !OccursAt(s, t, 0);
      if Contains(rest, t) {
        var i :| FirstOccurrence(rest, t, i) && RemoveFirst(rest, t) == rest[..i] + rest[i + |t|..];
        RemoveFirstStep(s, t, i);
      } else {
        NoOccurrenceShift(s, t);
        assert [s[0]] + rest == s;
      }
    }
  }
}
