/** String operations shared by the components: prefix, suffix and substring search. */
module Text {

  datatype Option<+T> = None | Some(value: T)

  function Min(a: nat, b: nat): nat {
    if a < b then a else b
  }

  predicate StartsWith(s: string, p: string) {
    |p| <= |s| && s[..|p|] == p
  }

  predicate EndsWith(s: string, p: string) {
    |p| <= |s| && s[|s| - |p|..] == p
  }

  /** p occurs in s at position i. */
  predicate At(s: string, p: string, i: nat) {
    i + |p| <= |s| && s[i..i + |p|] == p
  }

  /** The first position at or after `from` where p occurs in s. */
  function Find(s: string, p: string, from: nat): (r: Option<nat>)
    ensures r.Some? ==> from <= r.value && At(s, p, r.value)
    ensures r.Some? ==> forall j: nat :: from <= j < r.value ==> !At(s, p, j)
    ensures r.None? ==> forall j: nat :: from <= j ==> !At(s, p, j)
    decreases |s| - from
  {
    if At(s, p, from) then Some(from)
    else if from >= |s| then None
    else Find(s, p, from + 1)
  }

  lemma FindIs(s: string, p: string, from: nat, i: nat)
    requires from <= i && At(s, p, i)
    requires forall j: nat :: from <= j < i ==> !At(s, p, j)
    ensures Find(s, p, from) == Some(i)
  {
  }

  lemma AtIff(s: string, p: string, i: nat)
    ensures At(s, p, i) <==> i + |p| <= |s| && forall j :: 0 <= j < |p| ==> s[i + j] == p[j]
  {
    if i + |p| <= |s| {
      var w := s[i..i + |p|];
      assert forall j :: 0 <= j < |p| ==> w[j] == s[i + j];
      assert w == p <==> forall j :: 0 <= j < |p| ==> w[j] == p[j];
    }
  }
}
