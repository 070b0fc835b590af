/** Sums of sequences of naturals: the arithmetic behind every reference count. */
module Sums {

  function Sum(s: seq<nat>): nat {
    if s == [] then 0 else Sum(s[..|s| - 1]) + s[|s| - 1]
  }

  lemma SumPrefix(s: seq<nat>, i: nat)
    requires i < |s|
    ensures Sum(s[..i + 1]) == Sum(s[..i]) + s[i]
  {
    assert s[..i + 1][..i] == s[..i];
  }

  lemma SumAll(s: seq<nat>)
    ensures Sum(s[..|s|]) == Sum(s)
  {
    assert s[..|s|] == s;
  }

  lemma {:induction false} SumUpdate(s: seq<nat>, i: nat, v: nat)
    requires i < |s|
    ensures Sum(s[i := v]) + s[i] == Sum(s) + v
  {
    var n := |s| - 1;
    if i == n {
      assert s[i := v][..n] == s[..n];
    } else {
      SumUpdate(s[..n], i, v);
      assert s[i := v][..n] == s[..n][i := v];
    }
  }

  lemma {:induction false} SumMember(s: seq<nat>, i: nat)
    requires i < |s|
    ensures s[i] <= Sum(s)
  {
    if i < |s| - 1 {
      SumMember(s[..|s| - 1], i);
    }
  }

  lemma {:induction false} SumPair(s: seq<nat>, i: nat, j: nat)
    requires i < |s| && j < |s| && i != j
    ensures s[i] + s[j] <= Sum(s)
  {
    var n := |s| - 1;
    if i == n {
      SumMember(s[..n], j);
    } else if j == n {
      SumMember(s[..n], i);
    } else {
      SumPair(s[..n], i, j);
    }
  }

  lemma {:induction false} SumWitness(s: seq<nat>) returns (i: nat)
    requires Sum(s) > 0
    ensures i < |s| && s[i] > 0
  {
    var n := |s| - 1;
    if s[n] > 0 {
      i := n;
    } else {
      i := SumWitness(s[..n]);
    }
  }

  lemma {:induction false} SumAppend(s: seq<nat>, t: seq<nat>)
    ensures Sum(s + t) == Sum(s) + Sum(t)
  {
    if t == [] {
      assert s + t == s;
    } else {
      SumAppend(s, t[..|t| - 1]);
      assert (s + t)[..|s + t| - 1] == s + t[..|t| - 1];
    }
  }

  lemma SumRemove(s: seq<nat>, i: nat)
    requires i < |s|
    ensures Sum(s[..i] + s[i + 1..]) + s[i] == Sum(s)
  {
    SumAppend(s[..i], s[i + 1..]);
    SumAppend(s[..i + 1], s[i + 1..]);
    assert s[..i + 1] + s[i + 1..] == s;
    SumPrefix(s, i);
  }

  lemma SumOne(v: nat)
    ensures Sum([v]) == v
  {
    assert [v][..0] == [];
  }
}
