/**
 The reference model of an image: one flat disk, a list of frozen disks, and the operations on them.
 A run of the image engine is compared with the same run here.
 */
module Qcow2Flat {
  import opened Qcow2Format
  import opened Qcow2State
  import opened Qcow2Steps
  import opened Qcow2Grow
  import opened Qcow2Pass
  import opened Qcow2Guest
  import opened Qcow2Write
  import opened Qcow2Snap
  import opened SnapshotIds

  const ENOENT: int := 2

  type Guest = imap<nat, Sector>

  /** size is the number of entries of the L1 table, which decides whether restoring loses clusters. */
  datatype Frozen = Frozen(id: string, name: string, disk: Guest, size: nat)
  datatype Flat = Flat(disk: Guest, size: nat, frozen: seq<Frozen>)

  datatype Op = Write(k: nat, buf: seq<Sector>) | Read(k: nat, n: nat)
    | Create(id: string, name: string) | Goto(name: string) | Delete(name: string)
  datatype Answer = Code(code: int) | Got(buf: seq<Sector>)

  // ---------- The flat operations ----------

  ghost function At(disk: Guest, k: nat): Sector { if k in disk then disk[k] else ZeroSector() }

  ghost function Overwritten(disk: Guest, k: nat, buf: seq<Sector>): Guest {
    imap y: nat :: if k <= y < k + |buf| then buf[y - k] else At(disk, y)
  }

  function FrozenIds(frozen: seq<Frozen>): (r: seq<string>)
    ensures |r| == |frozen|
  {
    seq(|frozen|, i requires 0 <= i < |frozen| => frozen[i].id)
  }

  function FrozenNames(frozen: seq<Frozen>): (r: seq<string>)
    ensures |r| == |frozen|
  {
    seq(|frozen|, i requires 0 <= i < |frozen| => frozen[i].name)
  }

  function Index(f: Flat, name: string): (i: int)
    ensures -1 <= i < |f.frozen|
  {
    FindIn(FrozenIds(f.frozen), FrozenNames(f.frozen), name)
  }

  ghost function Next(g: Geometry, f: Flat, op: Op): Flat {
    match op
    case Write(k, buf) =>
      f.(disk := Overwritten(f.disk, k, buf),
         size := if buf == [] || f.size == 0 then f.size else GrownSize(f.size, L1Index(g, k + |buf| - 1) + 1))
    case Read(_, _) => f
    case Create(id, name) =>
      var ids := FrozenIds(f.frozen);
      var id1 := ActualId(ids, id);
      if id1 in ids then f else f.(frozen := f.frozen + [Frozen(id1, name, f.disk, f.size)])
    case Goto(name) => if Index(f, name) < 0 then f
      else f.(disk := f.frozen[Index(f, name)].disk, size := f.frozen[Index(f, name)].size)
    case Delete(name) => if Index(f, name) < 0 then f else f.(frozen := Without(f.frozen, Index(f, name)))
  }

  ghost function Reply(f: Flat, op: Op): Answer {
    match op
    case Write(_, _) => Code(0)
    case Read(k, n) => Got(seq(n, x requires 0 <= x < n => At(f.disk, k + x)))
    case Create(id, _) => Code(if ActualId(FrozenIds(f.frozen), id) in FrozenIds(f.frozen) then -ENOENT else 0)
    case Goto(name) => Code(if Index(f, name) < 0 then -ENOENT else 0)
    case Delete(name) => Code(if Index(f, name) < 0 then -ENOENT else 0)
  }

  /** The operation gives every cluster it stops using back. */
  predicate Lossless(g: Geometry, f: Flat, op: Op) {
    op.Goto? && Index(f, op.name) >= 0 && f.size > 0 ==>
      var size := f.frozen[Index(f, op.name)].size;
      L1Clusters(g, size) == L1Clusters(g, GrownSize(f.size, size))
  }

  // ---------- Runs ----------

  ghost function Final(g: Geometry, f: Flat, ops: seq<Op>): Flat {
    if ops == [] then f else Next(g, Final(g, f, ops[..|ops| - 1]), ops[|ops| - 1])
  }

  ghost function Replies(g: Geometry, f: Flat, ops: seq<Op>): seq<Answer> {
    if ops == [] then []
    else Replies(g, f, ops[..|ops| - 1]) + [Reply(Final(g, f, ops[..|ops| - 1]), ops[|ops| - 1])]
  }

  ghost predicate LosslessRun(g: Geometry, f: Flat, ops: seq<Op>) {
    ops == [] || (LosslessRun(g, f, ops[..|ops| - 1]) && Lossless(g, Final(g, f, ops[..|ops| - 1]), ops[|ops| - 1]))
  }

  // ---------- What an image shows ----------

  ghost function DiskOf(g: Geometry, d: Disk, l1: seq<Entry>): Guest { imap k: nat :: Look(g, d, l1, k) }

  ghost function FrozenOf(g: Geometry, d: Disk, sn: Snapshot): Frozen {
    Frozen(sn.id, sn.name, DiskOf(g, d, L1At(d, sn.l1, sn.l1Size)), sn.l1Size)
  }

  ghost function View(g: Geometry, s: Img): Flat {
    Flat(DiskOf(g, s.d, s.l1), |s.l1|, seq(|s.snaps|, i requires 0 <= i < |s.snaps| => FrozenOf(g, s.d, s.snaps[i])))
  }

  lemma SameDisk(g: Geometry, d: Disk, l1: seq<Entry>, d': Disk, l1': seq<Entry>)
    requires forall k: nat :: Look(g, d', l1', k) == Look(g, d, l1, k)
    ensures DiskOf(g, d', l1') == DiskOf(g, d, l1)
  {
  }

  lemma SameFrozen(g: Geometry, s: Img, i: nat, s': Img, j: nat)
    requires i < |s.snaps| && j < |s'.snaps| && s'.snaps[j] == s.snaps[i]
    requires forall k: nat :: SnapLook(g, s', j, k) == SnapLook(g, s, i, k)
    ensures View(g, s').frozen[j] == View(g, s).frozen[i]
  {
    var sn := s.snaps[i];
    forall k: nat
      ensures Look(g, s'.d, L1At(s'.d, sn.l1, sn.l1Size), k) == Look(g, s.d, L1At(s.d, sn.l1, sn.l1Size), k)
    {
      assert SnapLook(g, s', j, k) == SnapLook(g, s, i, k);
    }
    SameDisk(g, s.d, L1At(s.d, sn.l1, sn.l1Size), s'.d, L1At(s'.d, sn.l1, sn.l1Size));
  }

  lemma SameFrozens(g: Geometry, s: Img, s': Img)
    requires SameSnapDisks(g, s, s')
    ensures View(g, s').frozen == View(g, s).frozen
  {
    forall i | 0 <= i < |s.snaps| ensures View(g, s').frozen[i] == View(g, s).frozen[i] {
      SameFrozen(g, s, i, s', i);
    }
  }

  lemma ViewLabels(g: Geometry, s: Img)
    ensures FrozenIds(View(g, s).frozen) == Ids(s.snaps) && FrozenNames(View(g, s).frozen) == Names(s.snaps)
  {
  }

  // ---------- Each operation refines its flat counterpart ----------

  lemma WriteView(g: Geometry, s: Img, s': Img, k: nat, buf: seq<Sector>)
    requires SectorsWritten(g, s, s', k, buf) && SameSnapDisks(g, s, s') && StretchedSoFar(g, s, s', k, |buf|)
    ensures View(g, s') == Next(g, View(g, s), Write(k, buf))
  {
    hide Look, L1At, GrownSize;
    SameFrozens(g, s, s');
    assert DiskOf(g, s'.d, s'.l1) == Overwritten(DiskOf(g, s.d, s.l1), k, buf);
  }

  lemma CreateView(g: Geometry, s: Img, s': Img, id: string, name: string)
    requires var id1 := ActualId(Ids(s.snaps), id); Created(g, s, s', id1, name) && id1 !in Ids(s.snaps)
    ensures View(g, s') == Next(g, View(g, s), Create(id, name))
  {
    hide Look, L1At, NewId;
    ViewLabels(g, s);
    var id1 := ActualId(Ids(s.snaps), id);
    SameDisk(g, s.d, s.l1, s'.d, s'.l1);
    var n := |s.snaps|;
    var sn := s'.snaps[n];
    forall k: nat ensures Look(g, s'.d, L1At(s'.d, sn.l1, sn.l1Size), k) == Look(g, s.d, s.l1, k) {
      assert SnapLook(g, s', n, k) == Look(g, s.d, s.l1, k);
    }
    SameDisk(g, s.d, s.l1, s'.d, L1At(s'.d, sn.l1, sn.l1Size));
    forall i | 0 <= i < n ensures View(g, s').frozen[i] == View(g, s).frozen[i] {
      assert s'.snaps[i] == s'.snaps[..n][i];
      SameFrozen(g, s, i, s', i);
    }
    assert View(g, s').frozen == View(g, s).frozen + [Frozen(id1, name, DiskOf(g, s.d, s.l1), |s.l1|)];
  }

  lemma GotoView(g: Geometry, s: Img, s': Img, name: string, i: nat)
    requires i == FindIn(Ids(s.snaps), Names(s.snaps), name) && i < |s.snaps| && Restored(g, s, s', i)
    ensures View(g, s') == Next(g, View(g, s), Goto(name))
  {
    hide Look, L1At, FindIn;
    ViewLabels(g, s);
    SameFrozens(g, s, s');
    var sn := s.snaps[i];
    forall k: nat ensures Look(g, s'.d, s'.l1, k) == Look(g, s.d, L1At(s.d, sn.l1, sn.l1Size), k) {
      assert Look(g, s'.d, s'.l1, k) == SnapLook(g, s, i, k);
    }
    SameDisk(g, s.d, L1At(s.d, sn.l1, sn.l1Size), s'.d, s'.l1);
  }

  lemma DeleteFrozen(g: Geometry, s: Img, s': Img, i: nat)
    requires i < |s.snaps| && Deleted(g, s, s', i)
    ensures View(g, s').frozen == Without(View(g, s).frozen, i)
  {
    var rest := Without(View(g, s).frozen, i);
    forall j | 0 <= j < |s'.snaps| ensures View(g, s').frozen[j] == rest[j] {
      var h := if j < i then j else j + 1;
      assert s'.snaps[j] == s.snaps[h];
      SameFrozen(g, s, h, s', j);
    }
  }

  lemma DeleteView(g: Geometry, s: Img, s': Img, name: string, i: nat)
    requires i == FindIn(Ids(s.snaps), Names(s.snaps), name) && i < |s.snaps| && Deleted(g, s, s', i)
    ensures View(g, s') == Next(g, View(g, s), Delete(name))
  {
    hide Look, L1At, FindIn;
    ViewLabels(g, s);
    SameDisk(g, s.d, s.l1, s'.d, s'.l1);
    DeleteFrozen(g, s, s', i);
  }

  lemma ReadView(g: Geometry, s: Img, k: nat, buf: seq<Sector>)
    requires Reads(g, s.d, s.l1, k, buf)
    ensures Got(buf) == Reply(View(g, s), Read(k, |buf|))
  {
    var n := |buf|;
    forall x | 0 <= x < n ensures buf[x] == At(DiskOf(g, s.d, s.l1), k + x) {
      assert Look(g, s.d, s.l1, k + x) == buf[x];
    }
    assert buf == seq(n, x requires 0 <= x < n => At(DiskOf(g, s.d, s.l1), k + x));
  }

  /** One operation refines the flat model; the counts stay exact just when it is lossless. */
  ghost predicate Refines(g: Geometry, s: Img, s': Img, op: Op, answer: Answer) {
    && View(g, s') == Next(g, View(g, s), op) && answer == Reply(View(g, s), op)
    && s'.leaked >= s.leaked && (s'.leaked == s.leaked <==> Lossless(g, View(g, s), op))
  }

  lemma CreateRefines(g: Geometry, s: Img, s': Img, id: string, name: string)
    requires var id1 := ActualId(Ids(s.snaps), id);
      s'.leaked == s.leaked && if id1 in Ids(s.snaps) then s' == s else Created(g, s, s', id1, name)
    ensures Refines(g, s, s', Create(id, name), Code(if ActualId(Ids(s.snaps), id) in Ids(s.snaps) then -ENOENT else 0))
  {
    hide Created, NewId;
    ViewLabels(g, s);
    if ActualId(Ids(s.snaps), id) !in Ids(s.snaps) {
      CreateView(g, s, s', id, name);
    }
  }

  lemma GotoRefines(g: Geometry, s: Img, s': Img, name: string)
    requires var i := FindIn(Ids(s.snaps), Names(s.snaps), name);
      if i < 0 then s' == s else Restored(g, s, s', i) && Leaked(g, s, s', i)
    ensures Refines(g, s, s', Goto(name), Code(if FindIn(Ids(s.snaps), Names(s.snaps), name) < 0 then -ENOENT else 0))
  {
    hide Restored, FindIn;
    ViewLabels(g, s);
    var i := FindIn(Ids(s.snaps), Names(s.snaps), name);
    if i >= 0 {
      GotoView(g, s, s', name, i);
    }
  }

  lemma DeleteRefines(g: Geometry, s: Img, s': Img, name: string)
    requires s'.leaked == s.leaked
    requires var i := FindIn(Ids(s.snaps), Names(s.snaps), name); if i < 0 then s' == s else Deleted(g, s, s', i)
    ensures Refines(g, s, s', Delete(name), Code(if FindIn(Ids(s.snaps), Names(s.snaps), name) < 0 then -ENOENT else 0))
  {
    hide Deleted, FindIn;
    ViewLabels(g, s);
    var i := FindIn(Ids(s.snaps), Names(s.snaps), name);
    if i >= 0 {
      DeleteView(g, s, s', name, i);
    }
  }

  ghost predicate RunRefines(g: Geometry, s: Img, s': Img, ops: seq<Op>, answers: seq<Answer>) {
    && View(g, s') == Final(g, View(g, s), ops) && answers == Replies(g, View(g, s), ops)
    && s'.leaked >= s.leaked && (s'.leaked == s.leaked <==> LosslessRun(g, View(g, s), ops))
  }

  lemma RunNone(g: Geometry, s: Img)
    ensures RunRefines(g, s, s, [], [])
  {
  }

  lemma RunStep(g: Geometry, s: Img, s1: Img, s2: Img, ops: seq<Op>, op: Op, answers: seq<Answer>, answer: Answer)
    requires RunRefines(g, s, s1, ops, answers) && Refines(g, s1, s2, op, answer)
    ensures RunRefines(g, s, s2, ops + [op], answers + [answer]) && |s2.snaps| <= |s1.snaps| + 1
  {
    assert (ops + [op])[..|ops|] == ops;
    assert |View(g, s2).frozen| <= |View(g, s1).frozen| + 1;
  }

  // ---------- What a run without restores reads ----------

  /** op writes sector y. */
  predicate Covers(op: Op, y: nat) { op.Write? && op.k <= y < op.k + |op.buf| }

  /** After the first n operations sector y holds what the last write to it put there. If there was none, it holds what
      the backing disk does, and zeros past the end of that. */
  ghost predicate Holds(backing: seq<Sector>, ops: seq<Op>, n: nat, y: nat, x: Sector)
    requires n <= |ops|
  {
    if forall j: nat :: j < n ==> !Covers(ops[j], y)
    then if y < |backing| then x == backing[y] else Blank(x)
    else exists m: nat ::
      m < n && Covers(ops[m], y) && x == ops[m].buf[y - ops[m].k] && forall j: nat :: m < j < n ==> !Covers(ops[j], y)
  }

  predicate Restoring(ops: seq<Op>, n: nat)
    requires n <= |ops|
  {
    exists j: nat | j < n :: ops[j].Goto?
  }

  lemma {:induction false} FinalHolds(g: Geometry, f: Flat, ops: seq<Op>, n: nat, y: nat)
    requires n <= |ops| && !Restoring(ops, n)
    requires if y < |g.backing| then At(f.disk, y) == g.backing[y] else Blank(At(f.disk, y))
    ensures Holds(g.backing, ops, n, y, At(Final(g, f, ops[..n]).disk, y))
  {
    hide Blank;
    if n > 0 {
      var m := n - 1;
      FinalHolds(g, f, ops, m, y);
      assert ops[..n][..m] == ops[..m];
      HoldsNext(g, Final(g, f, ops[..m]), ops, m, y);
    } else {
      assert ops[..0] == [];
    }
  }

  lemma HoldsNext(g: Geometry, f: Flat, ops: seq<Op>, m: nat, y: nat)
    requires m < |ops| && !ops[m].Goto? && Holds(g.backing, ops, m, y, At(f.disk, y))
    ensures Holds(g.backing, ops, m + 1, y, At(Next(g, f, ops[m]).disk, y))
  {
    hide Blank, GrownSize, L1Index, FindIn, ActualId;
    if Covers(ops[m], y) {
      assert At(Next(g, f, ops[m]).disk, y) == ops[m].buf[y - ops[m].k];
    } else {
      assert At(Next(g, f, ops[m]).disk, y) == At(f.disk, y);
    }
  }

  lemma {:induction false} RepliesAt(g: Geometry, f: Flat, ops: seq<Op>, n: nat)
    requires n < |ops|
    ensures |Replies(g, f, ops)| == |ops| && Replies(g, f, ops)[n] == Reply(Final(g, f, ops[..n]), ops[n])
    decreases |ops|
  {
    hide Reply, Final;
    var m := |ops| - 1;
    if n < m {
      RepliesAt(g, f, ops[..m], n);
      assert ops[..m][..n] == ops[..n];
    } else if m > 0 {
      RepliesAt(g, f, ops[..m], 0);
    }
  }

  /** answers[n] is what a read has to give. */
  ghost predicate ReadsLast(backing: seq<Sector>, ops: seq<Op>, n: nat, answer: Answer)
    requires n < |ops| && ops[n].Read?
  {
    && answer.Got? && |answer.buf| == ops[n].n
    && forall i: nat :: i < ops[n].n ==> Holds(backing, ops, n, ops[n].k + i, answer.buf[i])
  }

  lemma ReadsLastWritten(g: Geometry, f: Flat, ops: seq<Op>, n: nat)
    requires n < |ops| && ops[n].Read? && !Restoring(ops, n)
    requires forall y: nat :: if y < |g.backing| then At(f.disk, y) == g.backing[y] else Blank(At(f.disk, y))
    ensures ReadsLast(g.backing, ops, n, Reply(Final(g, f, ops[..n]), ops[n]))
  {
    hide Holds, Blank, Final;
    var answer := Reply(Final(g, f, ops[..n]), ops[n]);
    forall i: nat | i < ops[n].n ensures Holds(g.backing, ops, n, ops[n].k + i, answer.buf[i]) {
      FinalHolds(g, f, ops, n, ops[n].k + i);
    }
  }
}
