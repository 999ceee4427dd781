/** Sequences without repetitions, as linked lists have them. */
module Lists {

  ghost predicate Distinct<T>(s: seq<T>) {
    forall i, j :: 0 <= i < j < |s| ==> s[i] != s[j]
  }

  function Without<T>(s: seq<T>, i: nat): seq<T>
    requires i < |s|
  {
    s[..i] + s[i + 1..]
  }

  lemma {:induction false} WithoutMembers<T>(s: seq<T>, i: nat)
    requires i < |s| && Distinct(s)
    ensures Distinct(Without(s, i))
    ensures forall d :: d in Without(s, i) <==> d in s && d != s[i]
  {
    var t := Without(s, i);
    forall d | d in s && d != s[i]
      ensures d in t
    {
      var j :| 0 <= j < |s| && s[j] == d;
      assert t[if j < i then j else j - 1] == d;
    }
  }

  /** Each element that stays, and its neighbours. */
  lemma {:induction false} WithoutAt<T>(s: seq<T>, i: nat, j: nat)
    requires i < |s| && j < |s| - 1
    ensures var t, k := Without(s, i), if j < i then j else j + 1;
      && t[j] == s[k]
      && var next, prev := if k + 1 == i then i + 1 else k + 1, if k == i + 1 then i - 1 else k - 1;
      && (j + 1 < |t| <==> next < |s|) && (next < |s| ==> t[j + 1] == s[next])
      && (j > 0 <==> prev >= 0) && (prev >= 0 ==> t[j - 1] == s[prev])
  {
  }
}
