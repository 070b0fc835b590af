/**
 Asynchronous writes. A request alternates between its callback, which accounts for the segment just written
 and finds the host cluster of the next one, and the host write of that segment. Requests in flight take
 these steps in any order.
 */
module Qcow2Aio {
  import opened Sums
  import opened Arith
  import opened Qcow2Format
  import opened Qcow2State
  import opened Qcow2Steps
  import opened Qcow2Grow
  import opened Qcow2Guest
  import opened Qcow2Write
  import opened Qcow2Flat
  import opened Qcow2Cost
  import opened Qcow2Image
  import opened RefcountRoom
  import opened RefcountLink

  /** Issued: the host write of m sectors to cluster c is under way. Landed: it is done, the callback is due. */
  datatype Phase = Waiting | Issued(m: nat, c: nat) | Landed(m: nat) | Finished

  /** done sectors of buf are accounted for; segs lists the segments issued so far and calls counts completions. */
  datatype Request = Request(k: nat, buf: seq<Sector>, done: nat, phase: Phase, segs: seq<nat>, calls: nat)
  {
    /** Sectors of the segment in hand. */
    function Now(): nat {
      match phase
      case Issued(m, _) => m
      case Landed(m) => m
      case _ => 0
    }
    /** Sectors that have reached the image. */
    function Written(): nat { if phase.Issued? then done else done + Now() }
    /** Sectors whose cluster has been looked up. */
    function Reached(): nat { done + Now() }
    /** Steps left at most. */
    function Left(): int {
      match phase
      case Waiting => 2 * |buf| + 1
      case Issued(_, _) => 2 * (|buf| - done)
      case Landed(_) => 2 * (|buf| - done) - 1
      case Finished => 0
    }
  }

  /** m sectors from `at` on, none of them in the next guest cluster. */
  predicate Segment(g: Geometry, at: nat, m: nat) { m > 0 && at % g.cs + m <= g.cs }

  /** The segments follow each other from k on and none crosses into the next guest cluster. */
  predicate Tiled(g: Geometry, k: nat, segs: seq<nat>) {
    forall i :: 0 <= i < |segs| ==> Segment(g, k + Sum(segs[..i]), segs[i])
  }

  predicate Shape(g: Geometry, r: Request) {
    && r.Reached() <= |r.buf| && Tiled(g, r.k, r.segs) && Sum(r.segs) == r.Reached()
    && r.calls == B(r.phase.Finished?)
    && match r.phase
       case Waiting => r.done == 0
       case Issued(m, c) => c != 0 && Segment(g, r.k + r.done, m)
       case Landed(m) => m > 0
       case Finished => r.done == |r.buf|
  }

  predicate InReq(r: Request, y: nat) { r.k <= y < r.k + |r.buf| }

  ghost predicate Disjoint(reqs: seq<Request>) {
    forall i, j, y: nat :: 0 <= i < j < |reqs| && InReq(reqs[i], y) ==> !InReq(reqs[j], y)
  }

  predicate Touched(r: Request, y: nat) { r.k <= y < r.k + r.Reached() }

  /** The cluster of a segment under way is private to the active disk. */
  ghost predicate Linked(g: Geometry, s: Img, r: Request) {
    r.phase.Issued? ==> EntryOf(g, s.d, s.l1, r.k + r.done) == Entry(r.phase.c, true)
  }

  /** What a request has written is there. */
  ghost predicate Present(g: Geometry, s: Img, r: Request) {
    forall y: nat :: r.k <= y < r.k + r.Written() && r.Written() <= |r.buf| ==> Look(g, s.d, s.l1, y) == r.buf[y - r.k]
  }

  /** Sectors no request has come to read as they did at first. */
  ghost predicate Elsewhere(g: Geometry, s0: Img, s: Img, reqs: seq<Request>) {
    forall y: nat :: (forall i :: 0 <= i < |reqs| ==> !Touched(reqs[i], y)) ==>
      Look(g, s.d, s.l1, y) == Look(g, s0.d, s0.l1, y)
  }

  ghost predicate Progress(g: Geometry, s0: Img, s: Img, reqs: seq<Request>) {
    && (forall i :: 0 <= i < |reqs| ==> Shape(g, reqs[i]) && Linked(g, s, reqs[i]) && Present(g, s, reqs[i]))
    && Elsewhere(g, s0, s, reqs) && SameSnapDisks(g, s0, s)
  }

  // ---------- Room ----------

  /** Guest clusters a request has yet to come to. */
  function Ahead(g: Geometry, r: Request): nat {
    if r.Reached() <= |r.buf| then Chunks(g, r.k + r.Reached(), |r.buf| - r.Reached()) else 0
  }

  function AllAhead(g: Geometry, reqs: seq<Request>): nat {
    Sum(seq(|reqs|, i requires 0 <= i < |reqs| => Ahead(g, reqs[i])))
  }

  /** There is room for all requests to finish; e entries of the L1 table suffice for them. */
  ghost predicate Affords(g: Geometry, s: Img, limit: nat, budget: nat, reqs: seq<Request>, e: nat) {
    && 4 * AllAhead(g, reqs) + L1Cost(g, |s.l1|, e) <= budget
    && Ample(g.L2Size(), g.BlockSize(), limit, Max(1, L1Run(g, |s.l1|, e)))
    && forall i :: 0 <= i < |reqs| ==> Entries(g, reqs[i].k, |reqs[i].buf|) <= e
  }

  lemma AheadUpdate(g: Geometry, reqs: seq<Request>, i: nat, r': Request)
    requires i < |reqs|
    ensures AllAhead(g, reqs[i := r']) + Ahead(g, reqs[i]) == AllAhead(g, reqs) + Ahead(g, r')
  {
    hide Ahead;
    var w := seq(|reqs|, j requires 0 <= j < |reqs| => Ahead(g, reqs[j]));
    var reqs' := reqs[i := r'];
    assert seq(|reqs'|, j requires 0 <= j < |reqs'| => Ahead(g, reqs'[j])) == w[i := Ahead(g, r')];
    SumUpdate(w, i, Ahead(g, r'));
  }

  /** Before the next segment of request i, which starts at sector `at`. */
  lemma IssueAffords(g: Geometry, s: Img, limit: nat, budget: nat, reqs: seq<Request>, e: nat, i: nat, at: nat)
    requires Affords(g, s, limit, budget, reqs, e) && i < |reqs| && |s.l1| > 0
    requires at == reqs[i].k + reqs[i].Reached() && reqs[i].Reached() < |reqs[i].buf|
    ensures ReachCost(g, |s.l1|, at) <= budget && L1Index(g, at) + 1 <= e
    ensures Ample(g.L2Size(), g.BlockSize(), limit, L1Run(g, |s.l1|, L1Index(g, at) + 1))
    ensures Ample(g.L2Size(), g.BlockSize(), limit, 1)
  {
    hide L1Cost, L1Run, L1Index, Ample;
    var r := reqs[i];
    IndexBelow(g, at, r.k, |r.buf|);
    L1CostThen(g, |s.l1|, L1Index(g, at) + 1, e);
    L1RunOnTheWay(g, |s.l1|, L1Index(g, at) + 1, e);
    AmpleLess(g.L2Size(), g.BlockSize(), limit, Max(1, L1Run(g, |s.l1|, e)), L1Run(g, |s.l1|, L1Index(g, at) + 1));
    AmpleLess(g.L2Size(), g.BlockSize(), limit, Max(1, L1Run(g, |s.l1|, e)), 1);
    AheadPositive(g, reqs, i);
  }

  lemma IndexBelow(g: Geometry, at: nat, k: nat, n: nat)
    requires k <= at < k + n
    ensures L1Index(g, at) + 1 <= Entries(g, k, n)
  {
    DivMono(at, k + n - 1, g.cs * g.L2Size());
  }

  lemma AheadPositive(g: Geometry, reqs: seq<Request>, i: nat)
    requires i < |reqs| && reqs[i].Reached() < |reqs[i].buf|
    ensures AllAhead(g, reqs) >= 1
  {
    SumMember(seq(|reqs|, j requires 0 <= j < |reqs| => Ahead(g, reqs[j])), i);
  }

  /** After it. */
  lemma IssuedAffords(g: Geometry, s: Img, s': Img, limit: nat, budget: nat, budget': nat, reqs: seq<Request>, e: nat,
      i: nat, r': Request, at: nat)
    requires Affords(g, s, limit, budget, reqs, e) && i < |reqs| && Stretched(g, s, s', at) && L1Index(g, at) + 1 <= e
    requires at == reqs[i].k + reqs[i].Reached() && reqs[i].Reached() < |reqs[i].buf|
    requires budget' >= budget - ReachCost(g, |s.l1|, at)
    requires r'.k == reqs[i].k && r'.buf == reqs[i].buf
    requires r'.Reached() == reqs[i].Reached() + Chunk(g, at, |r'.buf| - reqs[i].Reached())
    ensures Affords(g, s', limit, budget', reqs[i := r'], e)
  {
    hide L1Cost, L1Run, L1Index, Ample, GrownSize, AllAhead;
    L1CostThen(g, |s.l1|, L1Index(g, at) + 1, e);
    L1RunOnTheWay(g, |s.l1|, L1Index(g, at) + 1, e);
    AmpleLess(g.L2Size(), g.BlockSize(), limit, Max(1, L1Run(g, |s.l1|, e)), Max(1, L1Run(g, |s'.l1|, e)));
    AheadUpdate(g, reqs, i, r');
    AheadLess(g, reqs[i], r', at);
  }

  lemma AheadLess(g: Geometry, r: Request, r': Request, at: nat)
    requires at == r.k + r.Reached() && r.Reached() < |r.buf| && r'.k == r.k && r'.buf == r.buf
    requires r'.Reached() == r.Reached() + Chunk(g, at, |r'.buf| - r.Reached())
    ensures Ahead(g, r) == Ahead(g, r') + 1
  {
    var m := Chunk(g, at, |r.buf| - r.Reached());
    assert r'.k + r'.Reached() == at + m;
  }

  /** A step that comes to no new guest cluster. */
  lemma SameAffords(g: Geometry, s: Img, s': Img, limit: nat, budget: nat, reqs: seq<Request>, e: nat, i: nat,
      r': Request)
    requires Affords(g, s, limit, budget, reqs, e) && i < |reqs| && |s'.l1| == |s.l1|
    requires r'.k == reqs[i].k && r'.buf == reqs[i].buf && r'.Reached() == reqs[i].Reached()
    ensures Affords(g, s', limit, budget, reqs[i := r'], e)
  {
    hide L1Cost, L1Run, Ample, AllAhead;
    AheadUpdate(g, reqs, i, r');
  }

  // ---------- One step ----------

  /** A step of request i that touches the image only in its own segment keeps what the others have done. */
  lemma StepKeeps(g: Geometry, s0: Img, s: Img, s': Img, reqs: seq<Request>, i: nat, r': Request, lo: nat, hi: nat)
    requires Progress(g, s0, s, reqs) && Disjoint(reqs) && i < |reqs| && r'.k == reqs[i].k && r'.buf == reqs[i].buf
    requires Outside(g, s, s', lo, hi) && PrivateKept(g, s, s') && SameSnapDisks(g, s, s')
    requires Shape(g, r') && Linked(g, s', r') && Present(g, s', r') && reqs[i].Reached() <= r'.Reached()
    requires r'.k <= lo <= hi <= r'.k + r'.Reached()
    ensures Progress(g, s0, s', reqs[i := r']) && Disjoint(reqs[i := r'])
  {
    var reqs' := reqs[i := r'];
    forall j | 0 <= j < |reqs| && j != i ensures Linked(g, s', reqs[j]) && Present(g, s', reqs[j]) {
      assert Shape(g, reqs[j]) && Linked(g, s, reqs[j]) && Present(g, s, reqs[j]);
      forall y: nat | reqs[j].k <= y < reqs[j].k + reqs[j].Written()
        ensures Look(g, s'.d, s'.l1, y) == Look(g, s.d, s.l1, y)
      {
        assert InReq(reqs[j], y);
        if lo <= y < hi {
          assert InReq(reqs[i], y);
        }
      }
    }
    forall y: nat | forall j :: 0 <= j < |reqs'| ==> !Touched(reqs'[j], y)
      ensures Look(g, s'.d, s'.l1, y) == Look(g, s0.d, s0.l1, y)
    {
      assert !Touched(reqs'[i], y);
      forall j | 0 <= j < |reqs| ensures !Touched(reqs[j], y) {
        assert !Touched(reqs'[j], y);
      }
    }
    SnapsTwice(g, s0, s, s');
    forall x, j, y: nat | 0 <= x < j < |reqs'| && InReq(reqs'[x], y) ensures !InReq(reqs'[j], y) {
      assert InReq(reqs[x], y) ==> !InReq(reqs[j], y);
    }
  }

  lemma TiledNext(g: Geometry, k: nat, segs: seq<nat>, m: nat)
    requires Tiled(g, k, segs) && Segment(g, k + Sum(segs), m)
    ensures Tiled(g, k, segs + [m]) && Sum(segs + [m]) == Sum(segs) + m
  {
    hide Segment;
    var segs' := segs + [m];
    assert segs'[..|segs|] == segs;
    forall i | 0 <= i < |segs'| ensures Segment(g, k + Sum(segs'[..i]), segs'[i]) {
      if i < |segs| {
        assert segs'[..i] == segs[..i];
      }
    }
  }

  /** The callback: account for the last segment; complete, or find the cluster of the next segment. */
  method Callback(img: Image, r: Request, ghost s0: Img, ghost reqs: seq<Request>, ghost i: nat, ghost e: nat)
    returns (r': Request)
    requires img.Valid() && i < |reqs| && r == reqs[i] && Disjoint(reqs) && Progress(img.g, s0, img.s, reqs)
    requires (r.phase.Waiting? || r.phase.Landed?) && Affords(img.g, img.s, img.limit, img.budget, reqs, e)
    modifies img, img.rc
    ensures img.Valid() && Progress(img.g, s0, img.s, reqs[i := r']) && Disjoint(reqs[i := r'])
    ensures Affords(img.g, img.s, img.limit, img.budget, reqs[i := r'], e)
    ensures r'.k == r.k && r'.buf == r.buf && r'.Left() < r.Left()
  {
    hide Consistent, Coherent, Bounded, Outside, PrivateKept, SameSnapDisks, Present, Elsewhere, Disjoint, EntryOf,
         Tiled, Segment, Affords, Backs, Ample, Stretched, ReachCost;
    ghost var s := img.s;
    assert Shape(img.g, r) && Present(img.g, s, r);
    var done := r.done + r.Now();
    if done == |r.buf| {
      r' := r.(done := done, phase := Finished, calls := r.calls + 1);
      NothingMoves(img.g, s, r, r');
      SameAffords(img.g, s, s, img.limit, img.budget, reqs, e, i, r');
      StepKeeps(img.g, s0, s, s, reqs, i, r', r.k, r.k);
      return;
    }
    ActiveLength(img.g, s);
    ghost var budget := img.budget;
    IssueAffords(img.g, s, img.limit, budget, reqs, e, i, r.k + done);
    var m, c := Issue(img, r.k + done, |r.buf| - done);
    TiledNext(img.g, r.k, r.segs, m);
    r' := r.(done := done, phase := Issued(m, c), segs := r.segs + [m]);
    IssuedPresent(img.g, s, img.s, r, r', r.k + done, m);
    IssuedAffords(img.g, s, img.s, img.limit, budget, img.budget, reqs, e, i, r', r.k + done);
    StepKeeps(img.g, s0, s, img.s, reqs, i, r', r.k + done, r.k + done + m);
  }

  lemma NothingMoves(g: Geometry, s: Img, r: Request, r': Request)
    requires Present(g, s, r) && r'.k == r.k && r'.buf == r.buf && r'.Written() == r.Written()
    ensures Present(g, s, r') && Outside(g, s, s, r.k, r.k) && PrivateKept(g, s, s) && SameSnapDisks(g, s, s)
  {
  }

  /** Find, or make, the private cluster of the segment from `at` on, of at most n sectors. */
  method Issue(img: Image, at: nat, n: nat) returns (m: nat, c: nat)
    requires img.Valid() && n > 0 && img.Reaches(at)
    modifies img, img.rc
    ensures m == Chunk(img.g, at, n) && Stretched(img.g, old(img.s), img.s, at)
    ensures img.budget >= old(img.budget) - ReachCost(img.g, |old(img.s.l1)|, at) && img.limit == old(img.limit)
    ensures img.Valid() && m <= n && Segment(img.g, at, m) && c != 0
    ensures EntryOf(img.g, img.s.d, img.s.l1, at) == Entry(c, true)
    ensures Outside(img.g, old(img.s), img.s, at, at + m) && PrivateKept(img.g, old(img.s), img.s)
    ensures SameSnapDisks(img.g, old(img.s), img.s)
  {
    hide Consistent, Coherent, Bounded, Outside, PrivateKept, SameSnapDisks, EntryOf, Backs, Ample, Stretched,
         ReachCost;
    var index := at % img.g.cs;
    m := Chunk(img.g, at, n);
    c := img.GetClusterForWrite(at, index, index + m);
  }

  lemma IssuedPresent(g: Geometry, s: Img, s': Img, r: Request, r': Request, at: nat, m: nat)
    requires Shape(g, r) && Present(g, s, r) && Outside(g, s, s', at, at + m) && !r.phase.Issued?
    requires r'.k == r.k && r'.buf == r.buf && r'.phase.Issued? && r'.done == r.Reached() && at == r.k + r'.done
    ensures Present(g, s', r')
  {
    forall y: nat | r'.k <= y < r'.k + r'.Written() && r'.Written() <= |r'.buf|
      ensures Look(g, s'.d, s'.l1, y) == r'.buf[y - r'.k]
    {
      assert Look(g, s.d, s.l1, y) == r.buf[y - r.k];
    }
  }

  /** The host write of the segment in hand reaches the image. */
  method Land(img: Image, r: Request, ghost s0: Img, ghost reqs: seq<Request>, ghost i: nat, ghost e: nat)
    returns (r': Request)
    requires img.Valid() && i < |reqs| && r == reqs[i] && Disjoint(reqs) && Progress(img.g, s0, img.s, reqs)
    requires r.phase.Issued? && Affords(img.g, img.s, img.limit, img.budget, reqs, e)
    modifies img, img.rc
    ensures img.Valid() && Progress(img.g, s0, img.s, reqs[i := r']) && Disjoint(reqs[i := r'])
    ensures Affords(img.g, img.s, img.limit, img.budget, reqs[i := r'], e)
    ensures r'.k == r.k && r'.buf == r.buf && r'.Left() < r.Left()
  {
    hide Consistent, Coherent, Bounded, Outside, PrivateKept, SameSnapDisks, Present, Elsewhere, Disjoint, EntryOf,
         Tiled, SectorsWritten, Affords, Backs;
    ghost var s := img.s;
    assert Shape(img.g, r) && Present(img.g, s, r) && Linked(img.g, s, r);
    var at := r.k + r.done;
    var data := r.buf[r.done..r.done + r.phase.m];
    img.WriteData(at, r.phase.c, data);
    r' := r.(phase := Landed(r.phase.m));
    LandedPresent(img.g, s, img.s, r, r', data);
    SameAffords(img.g, s, img.s, img.limit, img.budget, reqs, e, i, r');
    StepKeeps(img.g, s0, s, img.s, reqs, i, r', at, at + |data|);
  }

  lemma LandedPresent(g: Geometry, s: Img, s': Img, r: Request, r': Request, data: seq<Sector>)
    requires Shape(g, r) && Present(g, s, r) && r.phase.Issued? && data == r.buf[r.done..r.done + r.phase.m]
    requires SectorsWritten(g, s, s', r.k + r.done, data) && r' == r.(phase := Landed(r.phase.m))
    ensures Present(g, s', r') && Outside(g, s, s', r.k + r.done, r.k + r.done + |data|)
  {
    forall y: nat | r'.k <= y < r'.k + r'.Written() && r'.Written() <= |r'.buf|
      ensures Look(g, s'.d, s'.l1, y) == r'.buf[y - r'.k]
    {
      if y < r.k + r.done {
        assert Look(g, s.d, s.l1, y) == r.buf[y - r.k];
      }
    }
  }

  // ---------- Runs ----------

  function Start(k: nat, buf: seq<Sector>): Request { Request(k, buf, 0, Waiting, [], 0) }

  function Submitted(ops: seq<Op>): (r: seq<Request>)
    requires Writes(ops)
    ensures |r| == |ops|
  {
    seq(|ops|, i requires 0 <= i < |ops| => Start(ops[i].k, ops[i].buf))
  }

  /** The requests are still those submitted. */
  predicate SameRequests(reqs: seq<Request>, reqs': seq<Request>) {
    |reqs'| == |reqs| && forall i :: 0 <= i < |reqs| ==> reqs'[i].k == reqs[i].k && reqs'[i].buf == reqs[i].buf
  }

  /** A request scheduled often enough is finished. */
  predicate OnTime(r: Request, turns: nat) { r.phase.Finished? || r.Left() + turns <= 2 * |r.buf| + 1 }

  lemma StartProgress(g: Geometry, s: Img, ops: seq<Op>, schedule: seq<nat>)
    requires Writes(ops)
    ensures Progress(g, s, s, Submitted(ops)) && SameRequests(Submitted(ops), Submitted(ops))
    ensures AllOnTime(Submitted(ops), schedule, 0)
  {
  }

  /** A turn of request i: whichever step it is due. */
  method Turn(img: Image, r: Request, ghost s0: Img, ghost reqs: seq<Request>, ghost i: nat, ghost e: nat)
    returns (r': Request)
    requires img.Valid() && i < |reqs| && r == reqs[i] && Disjoint(reqs) && Progress(img.g, s0, img.s, reqs)
    requires Affords(img.g, img.s, img.limit, img.budget, reqs, e)
    modifies img, img.rc
    ensures img.Valid() && Progress(img.g, s0, img.s, reqs[i := r']) && Disjoint(reqs[i := r'])
    ensures Affords(img.g, img.s, img.limit, img.budget, reqs[i := r'], e)
    ensures r'.k == r.k && r'.buf == r.buf && (r.phase.Finished? ==> r' == r && img.s == old(img.s))
    ensures (!r.phase.Finished? ==> r'.Left() < r.Left())
  {
    hide Consistent, Coherent, Bounded, Progress, Disjoint, Affords, Backs;
    match r.phase {
      case Issued(_, _) => r' := Land(img, r, s0, reqs, i, e);
      case Finished => r' := r; assert reqs[i := r] == reqs;
      case _ => r' := Callback(img, r, s0, reqs, i, e);
    }
  }

  /** Every request has been given its turns of the first n in the schedule. */
  predicate AllOnTime(reqs: seq<Request>, schedule: seq<nat>, n: nat)
    requires n <= |schedule|
  {
    forall j :: 0 <= j < |reqs| ==> OnTime(reqs[j], multiset(schedule[..n])[j])
  }

  lemma TurnsNext(reqs: seq<Request>, i: nat, r': Request, schedule: seq<nat>, n: nat)
    requires n < |schedule| && schedule[n] == i < |reqs| && AllOnTime(reqs, schedule, n)
    requires r'.buf == reqs[i].buf && (reqs[i].phase.Finished? ==> r' == reqs[i])
    requires (!reqs[i].phase.Finished? ==> r'.Left() < reqs[i].Left())
    ensures AllOnTime(reqs[i := r'], schedule, n + 1)
  {
    assert schedule[..n + 1] == schedule[..n] + [i];
    var reqs' := reqs[i := r'];
    forall j | 0 <= j < |reqs'| ensures OnTime(reqs'[j], multiset(schedule[..n + 1])[j]) {
      assert OnTime(reqs[j], multiset(schedule[..n])[j]);
    }
  }

  // ---------- The same writes one by one ----------

  predicate Writes(ops: seq<Op>) { forall i :: 0 <= i < |ops| ==> ops[i].Write? }

  predicate Covers(op: Op, y: nat) { op.Write? && op.k <= y < op.k + |op.buf| }

  lemma WrittenAt(g: Geometry, f: Flat, op: Op, y: nat)
    requires op.Write?
    ensures At(Next(g, f, op).disk, y) == if Covers(op, y) then op.buf[y - op.k] else At(f.disk, y)
  {
  }

  lemma {:induction false} FinalCovered(g: Geometry, f: Flat, ops: seq<Op>, i: nat, y: nat)
    requires Writes(ops) && i < |ops| && Covers(ops[i], y) && forall j :: 0 <= j < |ops| && j != i ==>
      !Covers(ops[j], y)
    ensures At(Final(g, f, ops).disk, y) == ops[i].buf[y - ops[i].k]
  {
    hide Next, Overwritten, At;
    var n := |ops| - 1;
    WrittenAt(g, Final(g, f, ops[..n]), ops[n], y);
    if i < n {
      var front := ops[..n];
      assert front[i] == ops[i];
      FinalCovered(g, f, front, i, y);
    }
  }

  lemma {:induction false} FinalUncovered(g: Geometry, f: Flat, ops: seq<Op>, y: nat)
    requires Writes(ops) && forall j :: 0 <= j < |ops| ==> !Covers(ops[j], y)
    ensures At(Final(g, f, ops).disk, y) == At(f.disk, y)
  {
    hide Next, Overwritten, At;
    if ops != [] {
      var n := |ops| - 1;
      WrittenAt(g, Final(g, f, ops[..n]), ops[n], y);
      FinalUncovered(g, f, ops[..n], y);
    }
  }

  lemma {:induction false} FinalFrozen(g: Geometry, f: Flat, ops: seq<Op>)
    requires Writes(ops)
    ensures Final(g, f, ops).frozen == f.frozen
  {
    if ops != [] {
      FinalFrozen(g, f, ops[..|ops| - 1]);
    }
  }

  /** All requests finished: sector y reads as the one request on it wrote it, or as at first. */
  lemma DoneAt(g: Geometry, s0: Img, s: Img, ops: seq<Op>, reqs: seq<Request>, y: nat)
    requires Writes(ops) && Disjoint(reqs) && SameRequests(Submitted(ops), reqs)
    requires Progress(g, s0, s, reqs) && forall i :: 0 <= i < |reqs| ==> reqs[i].phase.Finished?
    ensures Look(g, s.d, s.l1, y) == At(Final(g, View(g, s0), ops).disk, y)
  {
    hide Look, Final, SameSnapDisks, Linked;
    var f := View(g, s0);
    forall i | 0 <= i < |ops| ensures InReq(reqs[i], y) == Covers(ops[i], y) == Touched(reqs[i], y) {
      assert Submitted(ops)[i] == Start(ops[i].k, ops[i].buf);
      assert Shape(g, reqs[i]);
    }
    if i :| 0 <= i < |ops| && Covers(ops[i], y) {
      assert Present(g, s, reqs[i]) && Submitted(ops)[i] == Start(ops[i].k, ops[i].buf);
      assert forall j :: 0 <= j < |ops| && j != i ==> !InReq(reqs[j], y);
      FinalCovered(g, f, ops, i, y);
    } else {
      FinalUncovered(g, f, ops, y);
    }
  }

  lemma AllDone(g: Geometry, s0: Img, s: Img, ops: seq<Op>, reqs: seq<Request>)
    requires Writes(ops) && Disjoint(reqs) && SameRequests(Submitted(ops), reqs)
    requires Progress(g, s0, s, reqs) && forall i :: 0 <= i < |reqs| ==> reqs[i].phase.Finished?
    ensures View(g, s).disk == Final(g, View(g, s0), ops).disk && View(g, s).frozen == Final(g, View(g, s0), ops).frozen
  {
    hide Look, Final, Disjoint, Elsewhere, SameSnapDisks;
    forall y: nat ensures Look(g, s.d, s.l1, y) == At(Final(g, View(g, s0), ops).disk, y) {
      DoneAt(g, s0, s, ops, reqs, y);
    }
    FinalTotal(g, View(g, s0), ops);
    FinalFrozen(g, View(g, s0), ops);
    SameFrozens(g, s0, s);
  }

  lemma {:induction false} FinalTotal(g: Geometry, f: Flat, ops: seq<Op>)
    requires Writes(ops) && forall y: nat :: y in f.disk
    ensures forall y: nat :: y in Final(g, f, ops).disk
  {
    if ops != [] {
      FinalTotal(g, f, ops[..|ops| - 1]);
    }
  }

  /** Writes to disjoint sectors, in flight together, taking their steps in any order: each one given turns enough
      completes, exactly once, and when all have completed the guest disk is that of the same writes run one by one.
      Each guest cluster a write comes to may take four clusters of the file. */
  method Interleave(img: Image, ops: seq<Op>, schedule: seq<nat>, ghost e: nat) returns (reqs: seq<Request>)
    requires img.Valid() && Writes(ops) && Disjoint(Submitted(ops))
    requires Affords(img.g, img.s, img.limit, img.budget, Submitted(ops), e)
    modifies img, img.rc
    ensures img.Valid() && SameRequests(Submitted(ops), reqs) && forall i :: 0 <= i < |reqs| ==> Shape(img.g, reqs[i])
    ensures forall i :: 0 <= i < |reqs| && multiset(schedule)[i] > 2 * |ops[i].buf| ==> reqs[i].phase.Finished?
    ensures (forall i :: 0 <= i < |reqs| ==> reqs[i].phase.Finished?) ==>
      && View(img.g, img.s).disk == Final(img.g, View(img.g, old(img.s)), ops).disk
      && View(img.g, img.s).frozen == Final(img.g, View(img.g, old(img.s)), ops).frozen
  {
    hide Consistent, Coherent, Bounded, Disjoint, Progress, View, Final, Shape, OnTime, AllOnTime, Affords, Backs;
    ghost var s0 := img.s;
    reqs := Submitted(ops);
    StartProgress(img.g, s0, ops, schedule);
    var n := 0;
    while n < |schedule|
      invariant n <= |schedule| && img.Valid() && Progress(img.g, s0, img.s, reqs) && Disjoint(reqs)
      invariant SameRequests(Submitted(ops), reqs) && AllOnTime(reqs, schedule, n)
      invariant Affords(img.g, img.s, img.limit, img.budget, reqs, e)
    {
      var i := schedule[n];
      if i < |reqs| {
        var r' := Turn(img, reqs[i], s0, reqs, i, e);
        TurnsNext(reqs, i, r', schedule, n);
        reqs := reqs[i := r'];
      } else {
        TurnsPast(reqs, schedule, n);
      }
      n := n + 1;
    }
    InTime(img.g, s0, img.s, ops, reqs, schedule);
    if forall i :: 0 <= i < |reqs| ==> reqs[i].phase.Finished? {
      AllDone(img.g, s0, img.s, ops, reqs);
    }
  }

  lemma TurnsPast(reqs: seq<Request>, schedule: seq<nat>, n: nat)
    requires n < |schedule| && schedule[n] >= |reqs| && AllOnTime(reqs, schedule, n)
    ensures AllOnTime(reqs, schedule, n + 1)
  {
    assert schedule[..n + 1] == schedule[..n] + [schedule[n]];
    forall j | 0 <= j < |reqs| ensures OnTime(reqs[j], multiset(schedule[..n + 1])[j]) {
      assert OnTime(reqs[j], multiset(schedule[..n])[j]);
    }
  }

  lemma InTime(g: Geometry, s0: Img, s: Img, ops: seq<Op>, reqs: seq<Request>, schedule: seq<nat>)
    requires Writes(ops) && SameRequests(Submitted(ops), reqs) && Progress(g, s0, s, reqs)
    requires AllOnTime(reqs, schedule, |schedule|)
    ensures forall i :: 0 <= i < |reqs| ==> Shape(g, reqs[i])
    ensures forall i :: 0 <= i < |reqs| && multiset(schedule)[i] > 2 * |ops[i].buf| ==> reqs[i].phase.Finished?
  {
    assert schedule[..|schedule|] == schedule;
    forall i | 0 <= i < |reqs| && multiset(schedule)[i] > 2 * |ops[i].buf| ensures reqs[i].phase.Finished? {
      assert OnTime(reqs[i], multiset(schedule)[i]) && Shape(g, reqs[i]);
      assert Submitted(ops)[i] == Start(ops[i].k, ops[i].buf);
    }
  }
}
