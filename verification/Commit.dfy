/** bdrv_commit of a version 1 qcow overlay into its backing image. */
module Commit {
  import opened Arith
  import opened Qcow2Format

  const ENOMEDIUM: int := 123
  const EACCES: int := 13
  const ENOTSUP: int := 95
  const RUN := 65536

  /** l1 points to tables and tables to clusters, 0 for none. total is the image length in sectors. */
  datatype Overlay = Overlay(cs: Pos, n2: Pos, l1: seq<nat>,
    tables: map<nat, seq<nat>>, clusters: map<nat, seq<Sector>>, total: nat)

  function L1Of(o: Overlay, k: nat): nat { k / (o.cs * o.n2) }
  function L2Of(o: Overlay, k: nat): nat { (k / o.cs) % o.n2 }

  /** The cluster that holds guest sector k, or 0. */
  function Cluster(o: Overlay, k: nat): nat {
    var i, j := L1Of(o, k), L2Of(o, k);
    if i < |o.l1| && o.l1[i] != 0 && o.l1[i] in o.tables && j < |o.tables[o.l1[i]]| then o.tables[o.l1[i]][j] else 0
  }

  /** A backing image reads as zeros past its end. */
  function At(b: seq<Sector>, k: nat): Sector { if k < |b| then b[k] else ZeroSector() }

  function InCluster(o: Overlay, c: nat, x: nat): Sector {
    if c in o.clusters && x < |o.clusters[c]| then o.clusters[c][x] else ZeroSector()
  }

  /** Guest sector k. */
  function Guest(o: Overlay, b: seq<Sector>, k: nat): Sector {
    if Cluster(o, k) != 0 then InCluster(o, Cluster(o, k), k % o.cs) else At(b, k)
  }

  function Zeros(n: nat): seq<Sector> { seq(n, _ => ZeroSector()) }

  /** Writing past the end makes the image longer. */
  function Put(b: seq<Sector>, k: nat, x: Sector): seq<Sector> {
    if k < |b| then b[k := x] else b + Zeros(k - |b|) + [x]
  }

  lemma PutAt(b: seq<Sector>, k: nat, x: Sector)
    ensures forall y: nat :: At(Put(b, k, x), y) == if y == k then x else At(b, y)
  {
    hide ZeroSector;
  }

  /** Sectors of one cluster are mapped alike. */
  lemma SameCluster(o: Overlay, k: nat, x: nat)
    requires k % o.cs + x < o.cs
    ensures Cluster(o, k + x) == Cluster(o, k) && (k + x) % o.cs == k % o.cs + x
  {
    DivStep(k, o.cs, x);
    DivDiv(k, o.cs, o.n2);
    DivDiv(k + x, o.cs, o.n2);
  }

  /** qcow_is_allocated. */
  method IsAllocated(o: Overlay, k: nat, nb: Pos) returns (yes: bool, n: nat)
    ensures yes == (Cluster(o, k) != 0) && 0 < n <= nb && k % o.cs + n <= o.cs && (n == nb || k % o.cs + n == o.cs)
    ensures yes <==>
      var i, j := k / (o.cs * o.n2), k / o.cs % o.n2;
      && i < |o.l1| && o.l1[i] != 0 && o.l1[i] in o.tables
      && j < |o.tables[o.l1[i]]| && o.tables[o.l1[i]][j] != 0
  {
    yes := Cluster(o, k) != 0;
    n := o.cs - k % o.cs;
    if n > nb {
      n := nb;
    }
  }

  /** Sectors below i have been committed, those from i on not yet. */
  ghost predicate Committed(o: Overlay, b: seq<Sector>, b': seq<Sector>, i: nat) {
    forall y: nat :: At(b', y) == if y < i then Guest(o, b, y) else At(b, y)
  }

  /** n sectors of one cluster, copied one by one. */
  method CopyRun(o: Overlay, b: seq<Sector>, b1: seq<Sector>, i: nat, n: nat) returns (b': seq<Sector>)
    requires Committed(o, b, b1, i) && Cluster(o, i) != 0 && i % o.cs + n <= o.cs
    ensures Committed(o, b, b', i + n)
  {
    hide At, Put, ZeroSector;
    b' := b1;
    var j := 0;
    while j < n
      invariant j <= n && Committed(o, b, b', i + j)
    {
      SameCluster(o, i, j);
      var sector := InCluster(o, Cluster(o, i + j), (i + j) % o.cs);
      PutAt(b', i + j, sector);
      b' := Put(b', i + j, sector);
      j := j + 1;
    }
  }

  lemma SkipRun(o: Overlay, b: seq<Sector>, b': seq<Sector>, i: nat, n: nat)
    requires Committed(o, b, b', i) && Cluster(o, i) == 0 && i % o.cs + n <= o.cs
    ensures Committed(o, b, b', i + n)
  {
    hide At;
    forall y: nat | i <= y < i + n ensures Guest(o, b, y) == At(b, y) {
      SameCluster(o, i, y - i);
    }
  }

  /** qcow_make_empty. */
  function Emptied(o: Overlay): Overlay { o.(l1 := seq(|o.l1|, _ => 0), tables := map[], clusters := map[]) }

  lemma EmptiedHoldsNothing(o: Overlay, k: nat)
    ensures Cluster(Emptied(o), k) == 0
  {
  }

  /** After a successful commit the backing image alone supplies every sector of the guest disk, which is unchanged. */
  method BdrvCommit(inserted: bool, readOnly: bool, backed: bool, o: Overlay, b: seq<Sector>)
    returns (r: int, o': Overlay, b': seq<Sector>)
    ensures r == if !inserted then -ENOMEDIUM else if readOnly then -EACCES else if !backed then -ENOTSUP else 0
    ensures r != 0 ==> o' == o && b' == b
    ensures r == 0 ==> forall k: nat :: Cluster(o', k) == 0
    ensures r == 0 ==> forall k: nat :: k < o.total ==> At(b', k) == Guest(o, b, k) == Guest(o', b', k)
    ensures r == 0 ==> forall k: nat :: Cluster(o, k) == 0 ==> At(b', k) == At(b, k)
    ensures r == 0 ==> forall k: nat :: k < o.total ==>
      var c := Cluster(o, k);
      && (c != 0 && c in o.clusters && k % o.cs < |o.clusters[c]| ==> At(b', k) == o.clusters[c][k % o.cs])
      && (c == 0 ==> if k < |b| then At(b', k) == b[k] else Blank(At(b', k)))
  {
    o', b' := o, b;
    if !inserted {
      return -ENOMEDIUM, o, b;
    }
    if readOnly {
      return -EACCES, o, b;
    }
    if !backed {
      return -ENOTSUP, o, b;
    }
    var i;
    i, b' := CommitAll(o, b);
    o' := Emptied(o);
    forall k: nat ensures Cluster(o', k) == 0 {
      EmptiedHoldsNothing(o, k);
    }
    r := 0;
  }

  /** The loop always advances; it may run past the image length, to the end of the last cluster. */
  method CommitAll(o: Overlay, b: seq<Sector>) returns (i: nat, b': seq<Sector>)
    ensures i >= o.total && Committed(o, b, b', i)
  {
    hide Cluster, At;
    i, b' := 0, b;
    while i < o.total
      invariant Committed(o, b, b', i)
    {
      var yes, n := IsAllocated(o, i, RUN);
      if yes {
        b' := CopyRun(o, b, b', i, n);
      } else {
        SkipRun(o, b, b', i, n);
      }
      i := i + n;
    }
  }
}
