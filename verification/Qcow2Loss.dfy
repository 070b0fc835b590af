/**
 When restoring a snapshot loses clusters. In a run from a new image all sizes of L1 tables lie on one chain of the
 three-halves rule, and only a table that takes fewer clusters than the active one loses any.
 */
module Qcow2Loss {
  import opened Qcow2Format
  import opened Qcow2State
  import opened Qcow2Grow
  import opened Qcow2Write
  import opened Qcow2Snap
  import opened Qcow2Flat
  import opened SnapshotIds

  /** A size that a table of `base` entries can grow to. */
  predicate OnChain(base: nat, size: nat) { base > 0 && GrownSize(base, size) == size }

  lemma {:induction false} GrownAgain(base: nat, x: nat)
    requires base > 0
    ensures OnChain(base, GrownSize(base, x))
    decreases x - base
  {
    if x > base {
      var next := (base * 3 + 1) / 2;
      GrownAgain(next, x);
    }
  }

  /** From one size of the chain to the next ones. */
  lemma ChainStep(base: nat, size: nat, x: nat)
    requires OnChain(base, size)
    ensures OnChain(base, GrownSize(size, x)) && (OnChain(base, x) && size <= x ==> GrownSize(size, x) == x)
  {
    hide GrownSize;
    if size <= x {
      GrownTwice(base, size, x);
      GrownAgain(base, x);
    }
  }

  /** The active table and those of all snapshots have sizes of one chain. */
  predicate Chained(base: nat, f: Flat) {
    OnChain(base, f.size) && forall i :: 0 <= i < |f.frozen| ==> OnChain(base, f.frozen[i].size)
  }

  lemma NextChained(g: Geometry, base: nat, f: Flat, op: Op)
    requires Chained(base, f)
    ensures Chained(base, Next(g, f, op))
  {
    hide OnChain, L1Index, Index, ActualId;
    ChainPositive(base, f.size);
    match op
    case Write(k, buf) =>
      if buf != [] {
        ChainStep(base, f.size, L1Index(g, k + |buf| - 1) + 1);
      }
    case _ =>
  }

  lemma ChainPositive(base: nat, size: nat)
    requires OnChain(base, size)
    ensures size >= base > 0
  {
  }

  lemma {:induction false} FinalChained(g: Geometry, base: nat, f: Flat, ops: seq<Op>)
    requires Chained(base, f)
    ensures Chained(base, Final(g, f, ops))
    decreases |ops|
  {
    hide Chained, Next;
    if ops != [] {
      FinalChained(g, base, f, ops[..|ops| - 1]);
      NextChained(g, base, Final(g, f, ops[..|ops| - 1]), ops[|ops| - 1]);
    }
  }

  /** The operation restores a snapshot whose L1 table takes fewer clusters than the active one. */
  predicate Shrinks(g: Geometry, f: Flat, op: Op) {
    op.Goto? && Index(f, op.name) >= 0 && L1Clusters(g, f.frozen[Index(f, op.name)].size) < L1Clusters(g, f.size)
  }

  lemma LosslessUnlessShrinks(g: Geometry, base: nat, f: Flat, op: Op)
    requires Chained(base, f)
    ensures Lossless(g, f, op) <==> !Shrinks(g, f, op)
  {
    hide L1Clusters, Index;
    ChainPositive(base, f.size);
    if op.Goto? && Index(f, op.name) >= 0 {
      var size := f.frozen[Index(f, op.name)].size;
      if f.size <= size {
        ChainStep(base, f.size, size);
        L1ClustersMono(g, f.size, size);
      } else {
        L1ClustersMono(g, size, f.size);
      }
    }
  }

  ghost predicate ShrinksIn(g: Geometry, f: Flat, ops: seq<Op>) {
    exists n :: 0 <= n < |ops| && Shrinks(g, Final(g, f, ops[..n]), ops[n])
  }

  /** A run from there loses clusters if and only if it restores such a snapshot somewhere. */
  lemma {:induction false} LossyIffShrinks(g: Geometry, base: nat, f: Flat, ops: seq<Op>)
    requires Chained(base, f)
    ensures LosslessRun(g, f, ops) <==> !ShrinksIn(g, f, ops)
    decreases |ops|
  {
    hide Chained, Shrinks, Lossless, Final;
    if ops != [] {
      var m := |ops| - 1;
      var front := ops[..m];
      LossyIffShrinks(g, base, f, front);
      FinalChained(g, base, f, front);
      LosslessUnlessShrinks(g, base, Final(g, f, front), ops[m]);
      if ShrinksIn(g, f, front) {
        var n :| 0 <= n < |front| && Shrinks(g, Final(g, f, front[..n]), front[n]);
        assert front[..n] == ops[..n] && front[n] == ops[n];
      }
      if ShrinksIn(g, f, ops) {
        var n :| 0 <= n < |ops| && Shrinks(g, Final(g, f, ops[..n]), ops[n]);
        if n < m {
          assert front[..n] == ops[..n] && front[n] == ops[n];
        }
      }
    }
  }

  /** A newly made image is on its own chain. */
  lemma NewChained(f: Flat)
    requires f.size > 0 && f.frozen == []
    ensures Chained(f.size, f)
  {
  }

  // ---------- Examples ----------

  /** A snapshot, a write that makes the L1 table grow from 43 to 65 entries, and back to the snapshot. */
  lemma LossyRestore(g: Geometry, f: Flat, x: Sector)
    requires g.cs == 1 && f.size == 43 && f.frozen == []
    ensures !LosslessRun(g, f, [Create("1", "a"), Write(2752, [x]), Goto("1")])
  {
    var ops := [Create("1", "a"), Write(2752, [x]), Goto("1")];
    var f1 := Next(g, f, ops[0]);
    assert ActualId(FrozenIds(f.frozen), "1") == "1";
    assert f1.frozen == [Frozen("1", "a", f.disk, 43)] && f1.size == 43;
    var f2 := Next(g, f1, ops[1]);
    assert L1Index(g, 2752) == 43;
    assert GrownSize(43, 44) == GrownSize(65, 44) == 65;
    assert f2.size == 65 && f2.frozen == f1.frozen;
    assert FrozenIds(f2.frozen) == ["1"];
    assert First(["1"], "1") == 0;
    assert Index(f2, "1") == 0;
    assert L1Clusters(g, 43) == 1 && L1Clusters(g, 65) == 2;
    assert Shrinks(g, f2, ops[2]);
    assert ops[..0] == [] && ops[..1] == [ops[0]] && ops[..2] == [ops[0], ops[1]];
    assert ops[..2][..1] == ops[..1];
    assert Final(g, f, ops[..1]) == f1;
    assert Final(g, f, ops[..2]) == f2;
    NewChained(f);
    LossyIffShrinks(g, 43, f, ops);
  }

  /** Off the chain the numbers of clusters alone do not decide: what counts is the active table once it has grown. */
  lemma GrownDecides(g: Geometry, disk: Guest)
    requires g.cs == 1
    ensures var f := Flat(disk, 43, [Frozen("1", "a", disk, 44)]);
      L1Clusters(g, 43) == L1Clusters(g, 44) && !Lossless(g, f, Goto("1"))
    ensures var f := Flat(disk, 43, [Frozen("1", "a", disk, 65)]);
      L1Clusters(g, 43) != L1Clusters(g, 65) && Lossless(g, f, Goto("1"))
  {
    assert GrownSize(43, 44) == GrownSize(65, 44) == 65 && GrownSize(43, 65) == GrownSize(65, 65) == 65;
    var f := Flat(disk, 43, [Frozen("1", "a", disk, 44)]);
    var f' := Flat(disk, 43, [Frozen("1", "a", disk, 65)]);
    assert FrozenIds(f.frozen) == ["1"] && FrozenIds(f'.frozen) == ["1"];
    assert First(["1"], "1") == 0;
    assert Index(f, "1") == 0 && Index(f', "1") == 0;
  }
}
