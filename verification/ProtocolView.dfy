/** The buffer pool is a map from page ids to bytes: what each step does to the map,
    and that all steps but four do nothing to it. */
module ProtocolView {
  import opened Common
  import opened PageStates
  import opened Protocol
  import opened ProtocolInvariant
  import R = ReplacerContract

  /** What the file and the frames together say about a page. */
  function Logical(s: State, p: PageId): Page
    requires WellFormed(s) && p < |s.table|
  {
    var e := s.table[p];
    if (e.state == Resident || e.state == Evicting) && e.frame.Some? then s.mem[e.frame.value] else s.disk[p]
  }

  /** A page exists for clients from the return of its NewPage until its deletion. */
  predicate Published(s: State, p: PageId)
  {
    p < |s.table| && s.table[p].state != Unused && p !in s.reserved
  }

  function View(s: State): map<PageId, Page>
    requires WellFormed(s)
  {
    map p | 0 <= p < |s.table| && Published(s, p) :: Logical(s, p)
  }

  datatype MapOp = Stutter | Create(p: PageId) | Put(p: PageId, bytes: Page) | Remove(p: PageId)

  predicate Allowed(m: map<PageId, Page>, op: MapOp)
  {
    match op
    case Stutter => true
    case Create(p) => p !in m
    case Put(p, _) => p in m
    case Remove(p) => p in m
  }

  function MapAfter(m: map<PageId, Page>, op: MapOp): map<PageId, Page>
  {
    match op
    case Stutter => m
    case Create(p) => m[p := ZeroPage()]
    case Put(p, bytes) => m[p := bytes]
    case Remove(p) => m - {p}
  }

  /** The step from `s` to `s'` is `op` on the map. */
  ghost predicate Refines(s: State, s': State, op: MapOp)
    requires WellFormed(s) && WellFormed(s')
  {
    Allowed(View(s), op) && View(s') == MapAfter(View(s), op)
  }

  // ----- Only the touched pages need looking at -----

  function PageView(s: State, r: PageId): Option<Page>
    requires WellFormed(s)
  {
    if Published(s, r) then Some(Logical(s, r)) else None
  }

  function OpOn(op: MapOp, r: PageId, before: Option<Page>): Option<Page>
  {
    match op
    case Stutter => before
    case Create(x) => if r == x then Some(ZeroPage()) else before
    case Put(x, bytes) => if r == x then Some(bytes) else before
    case Remove(x) => if r == x then None else before
  }

  predicate OpWithin(s: State, op: MapOp, p: PageId, q: PageId)
    requires WellFormed(s)
  {
    match op
    case Stutter => true
    case Create(x) => (x == p || x == q) && x < |s.table| && !Published(s, x)
    case Put(x, _) => (x == p || x == q) && Published(s, x)
    case Remove(x) => (x == p || x == q) && Published(s, x)
  }

  lemma ViewElsewhere(s: State, s': State, t: ThreadId, f: FrameId, p: PageId, q: PageId, r: PageId)
    requires Inv(s) && LocalStep(s, s', t, f, p, q) && r != p && r != q
    ensures PageView(s', r) == PageView(s, r)
  {
    if r < |s.table| { assert PageOk(s, r); }
  }

  ghost predicate Pointwise(s: State, s': State, op: MapOp)
    requires WellFormed(s) && WellFormed(s')
  {
    forall r {:trigger PageView(s', r)} :: PageView(s', r) == OpOn(op, r, PageView(s, r))
  }

  lemma PointwiseRefines(s: State, s': State, op: MapOp, p: PageId, q: PageId)
    requires WellFormed(s) && WellFormed(s') && |s'.table| == |s.table|
    requires Pointwise(s, s', op) && OpWithin(s, op, p, q)
    ensures Refines(s, s', op)
  {
    var m := MapAfter(View(s), op);
    forall r ensures r in View(s') <==> r in m {
      assert PageView(s', r) == OpOn(op, r, PageView(s, r));
    }
    forall r | r in m ensures View(s')[r] == m[r] {
      assert PageView(s', r) == OpOn(op, r, PageView(s, r));
    }
    assert View(s') == m;
  }

  lemma ViewLocal(s: State, s': State, t: ThreadId, f: FrameId, p: PageId, q: PageId, op: MapOp)
    requires Inv(s) && LocalStep(s, s', t, f, p, q) && OpWithin(s, op, p, q)
    requires PageView(s', p) == OpOn(op, p, PageView(s, p))
    requires PageView(s', q) == OpOn(op, q, PageView(s, q))
    ensures Refines(s, s', op)
  {
    forall r ensures PageView(s', r) == OpOn(op, r, PageView(s, r)) {
      if r != p && r != q { ViewElsewhere(s, s', t, f, p, q, r); }
    }
    PointwiseRefines(s, s', op, p, q);
  }

  // ----- Step by step -----

  lemma WriteBytesView(s: State, g: GuardId, bytes: Page)
    requires Inv(s) && g in s.guards
    ensures Inv(ApplyWriteBytes(s, g, bytes)) && Refines(s, ApplyWriteBytes(s, g, bytes), Put(s.guards[g].page, bytes))
  {
    hide LocalStep, Refines;
    WriteBytesKeeps(s, g, bytes);
    assert FrameOk(s, s.guards[g].frame) && GuardOk(s, g) && PageOk(s, s.guards[g].page);
    ViewLocal(s, ApplyWriteBytes(s, g, bytes), |s.pcs|, s.guards[g].frame, s.guards[g].page, s.guards[g].page,
              Put(s.guards[g].page, bytes));
  }

  lemma MarkDirtyView(s: State, g: GuardId)
    requires Inv(s) && g in s.guards && EpochRoom(s, s.guards[g].frame)
    ensures Inv(ApplyMarkDirty(s, g)) && Refines(s, ApplyMarkDirty(s, g), Stutter)
  {
    hide LocalStep, Refines;
    MarkDirtyKeeps(s, g);
    assert FrameOk(s, s.guards[g].frame) && GuardOk(s, g) && PageOk(s, s.guards[g].page);
    ViewLocal(s, ApplyMarkDirty(s, g), |s.pcs|, s.guards[g].frame, s.guards[g].page, s.guards[g].page, Stutter);
  }

  lemma DropGuardView(s: State, g: GuardId)
    requires Inv(s) && g in s.guards && !s.guards[g].unmarked
    ensures Inv(ApplyDropGuard(s, g)) && Refines(s, ApplyDropGuard(s, g), Stutter)
  {
    hide LocalStep, Refines;
    DropGuardKeeps(s, g);
    assert FrameOk(s, s.guards[g].frame) && GuardOk(s, g) && PageOk(s, s.guards[g].page);
    ViewLocal(s, ApplyDropGuard(s, g), |s.pcs|, s.guards[g].frame, s.guards[g].page, s.guards[g].page, Stutter);
  }

  lemma ReserveIdView(s: State, t: ThreadId, p: PageId)
    requires Inv(s) && t < |s.pcs| && s.pcs[t] == NewStart && PageIs(s, p, Unused)
    requires forall u :: 0 <= u < |s.pcs| ==> Target(s.pcs[u]) != Some(p)
    ensures Inv(ApplyReserveId(s, t, p)) && Refines(s, ApplyReserveId(s, t, p), Stutter)
  {
    hide LocalStep, Refines;
    ReserveIdKeeps(s, t, p);
    assert PageOk(s, p);
    ViewLocal(s, ApplyReserveId(s, t, p), t, |s.meta|, p, p, Stutter);
  }

  lemma GotoView(s: State, t: ThreadId, pc: Pc)
    requires Inv(s) && t < |s.pcs| && t !in s.waiting && !IsIo(s.pcs[t]) && !s.pcs[t].NewLoop?
    requires pc == Idle || (IsStart(pc) && (Target(pc).Some? ==> Target(pc).value !in s.reserved))
    ensures Inv(ApplyGoto(s, t, pc)) && Refines(s, ApplyGoto(s, t, pc), Stutter)
  {
    hide LocalStep, Refines;
    GotoKeeps(s, t, pc);
    ViewLocal(s, ApplyGoto(s, t, pc), t, |s.meta|, |s.table|, |s.table|, Stutter);
  }

  lemma PublishView(s: State, t: ThreadId, f: FrameId, g: GuardId)
    requires Inv(s) && CanPublish(s, t, f, g)
    ensures Inv(ApplyPublish(s, t, f, g)) && Refines(s, ApplyPublish(s, t, f, g), Create(s.pcs[t].page))
  {
    hide LocalStep, Refines;
    PublishKeeps(s, t, f, g);
    assert ThreadOk(s, t) && PageOk(s, s.pcs[t].page) && FrameOk(s, f);
    ViewLocal(s, ApplyPublish(s, t, f, g), t, f, s.pcs[t].page, s.pcs[t].page, Create(s.pcs[t].page));
  }

  lemma EvictStartView(s: State, t: ThreadId, f: FrameId, req: Requester, v: PageId)
    requires Inv(s) && t < |s.pcs| && t !in s.waiting && !IsIo(s.pcs[t])
    requires req.page < |s.table| && RequesterOk(s, t, req)
    requires Reserves(s.pcs[t]) == if req.ForNew? then Some(req.page) else None
    requires f < |s.meta| && R.IsEvictable(s.tracked, f) && s.meta[f].page == Some(v)
    requires req.page != v
    ensures Inv(ApplyEvictStart(s, t, f, req)) && Refines(s, ApplyEvictStart(s, t, f, req), Stutter)
  {
    hide LocalStep, Refines;
    EvictStartKeeps(s, t, f, req, v);
    assert FrameOk(s, f) && PageOk(s, v);
    ViewLocal(s, ApplyEvictStart(s, t, f, req), t, f, v, (if req.ForNew? then req.page else v), Stutter);
  }

  lemma EvictChunkView(s: State, t: ThreadId, n: nat)
    requires Inv(s) && CanEvictChunk(s, t, n)
    ensures Inv(ApplyEvictChunk(s, t, n)) && Refines(s, ApplyEvictChunk(s, t, n), Stutter)
  {
    hide LocalStep, Refines;
    EvictChunkKeeps(s, t, n);
    var pc := s.pcs[t];
    assert ThreadOk(s, t) && PageOk(s, pc.victim) && PageOk(s, pc.req.page) && FrameOk(s, pc.frame);
    ViewLocal(s, ApplyEvictChunk(s, t, n), t, s.pcs[t].frame, s.pcs[t].victim, EvictReserved(s.pcs[t]), Stutter);
  }

  lemma EvictFailView(s: State, t: ThreadId)
    requires Inv(s) && CanEvictFail(s, t)
    ensures Inv(ApplyEvictFail(s, t)) && Refines(s, ApplyEvictFail(s, t), Stutter)
  {
    hide LocalStep, Refines;
    EvictFailKeeps(s, t);
    var pc := s.pcs[t];
    assert ThreadOk(s, t) && PageOk(s, pc.victim) && PageOk(s, pc.req.page) && FrameOk(s, pc.frame);
    ViewLocal(s, ApplyEvictFail(s, t), t, s.pcs[t].frame, s.pcs[t].victim, EvictReserved(s.pcs[t]), Stutter);
  }

  lemma EvictPublishView(s: State, t: ThreadId, g: GuardId)
    requires Inv(s) && CanEvictDone(s, t, g) && s.pcs[t].req.ForNew?
    ensures Inv(ApplyEvictPublish(s, t, g)) && Refines(s, ApplyEvictPublish(s, t, g), Create(s.pcs[t].req.page))
  {
    hide LocalStep, Refines;
    EvictPublishKeeps(s, t, g);
    var pc := s.pcs[t];
    assert ThreadOk(s, t) && PageOk(s, pc.victim) && PageOk(s, pc.req.page) && FrameOk(s, pc.frame);
    AgreesAll(s.mem[pc.frame], s.disk[pc.victim]);
    ViewLocal(s, ApplyEvictPublish(s, t, g), t, s.pcs[t].frame, s.pcs[t].victim, s.pcs[t].req.page,
              Create(s.pcs[t].req.page));
  }

  lemma EvictLoadView(s: State, t: ThreadId)
    requires Inv(s) && CanEvictEnd(s, t) && s.pcs[t].req.ForFetch?
    requires Unmapped(s, t)[s.pcs[t].req.page].state == NonResident
    ensures Inv(ApplyEvictLoad(s, t)) && Refines(s, ApplyEvictLoad(s, t), Stutter)
  {
    hide LocalStep, Refines;
    EvictLoadKeeps(s, t);
    var pc := s.pcs[t];
    assert ThreadOk(s, t) && PageOk(s, pc.victim) && PageOk(s, pc.req.page) && FrameOk(s, pc.frame);
    AgreesAll(s.mem[pc.frame], s.disk[pc.victim]);
    ViewLocal(s, ApplyEvictLoad(s, t), t, s.pcs[t].frame, s.pcs[t].victim, s.pcs[t].req.page, Stutter);
  }

  lemma EvictReleaseView(s: State, t: ThreadId)
    requires Inv(s) && CanEvictEnd(s, t) && s.pcs[t].req.ForFetch?
    ensures Inv(ApplyEvictRelease(s, t)) && Refines(s, ApplyEvictRelease(s, t), Stutter)
  {
    hide LocalStep, Refines;
    EvictReleaseKeeps(s, t);
    var pc := s.pcs[t];
    assert ThreadOk(s, t) && PageOk(s, pc.victim) && PageOk(s, pc.req.page) && FrameOk(s, pc.frame);
    AgreesAll(s.mem[pc.frame], s.disk[pc.victim]);
    ViewLocal(s, ApplyEvictRelease(s, t), t, s.pcs[t].frame, s.pcs[t].victim, s.pcs[t].victim, Stutter);
  }

  lemma AbandonNewView(s: State, t: ThreadId)
    requires Inv(s) && t < |s.pcs| && s.pcs[t].NewLoop? && t !in s.waiting
    ensures Inv(ApplyAbandonNew(s, t)) && Refines(s, ApplyAbandonNew(s, t), Stutter)
  {
    hide LocalStep, Refines;
    AbandonNewKeeps(s, t);
    assert ThreadOk(s, t) && PageOk(s, s.pcs[t].page);
    ViewLocal(s, ApplyAbandonNew(s, t), t, |s.meta|, s.pcs[t].page, s.pcs[t].page, Stutter);
  }

  lemma FetchHitView(s: State, t: ThreadId, g: GuardId, p: PageId, f: FrameId)
    requires Inv(s) && CanFetchHit(s, t, g) && s.pcs[t].page == p && s.table[p].frame == Some(f)
    ensures Inv(ApplyFetchHit(s, t, g)) && Refines(s, ApplyFetchHit(s, t, g), Stutter)
  {
    hide LocalStep, Refines;
    FetchHitKeeps(s, t, g, p, f);
    assert ThreadOk(s, t) && PageOk(s, p) && FrameOk(s, f);
    ViewLocal(s, ApplyFetchHit(s, t, g), t, f, p, p, Stutter);
  }

  lemma LoadBeginView(s: State, t: ThreadId, f: FrameId)
    requires Inv(s) && CanLoadBegin(s, t, f)
    ensures Inv(ApplyLoadBegin(s, t, f)) && Refines(s, ApplyLoadBegin(s, t, f), Stutter)
  {
    hide LocalStep, Refines;
    LoadBeginKeeps(s, t, f);
    assert ThreadOk(s, t) && PageOk(s, s.pcs[t].page) && FrameOk(s, f);
    ViewLocal(s, ApplyLoadBegin(s, t, f), t, f, s.pcs[t].page, s.pcs[t].page, Stutter);
  }

  lemma LoadChunkView(s: State, t: ThreadId, n: nat)
    requires Inv(s) && CanLoadChunk(s, t, n)
    ensures Inv(ApplyLoadChunk(s, t, n)) && Refines(s, ApplyLoadChunk(s, t, n), Stutter)
  {
    hide LocalStep, Refines;
    LoadChunkKeeps(s, t, n);
    var pc := s.pcs[t];
    assert ThreadOk(s, t) && PageOk(s, pc.page) && FrameOk(s, pc.frame);
    ViewLocal(s, ApplyLoadChunk(s, t, n), t, s.pcs[t].frame, s.pcs[t].page, s.pcs[t].page, Stutter);
  }

  lemma LoadFailView(s: State, t: ThreadId)
    requires Inv(s) && CanLoadFail(s, t)
    ensures Inv(ApplyLoadFail(s, t)) && Refines(s, ApplyLoadFail(s, t), Stutter)
  {
    hide LocalStep, Refines;
    LoadFailKeeps(s, t);
    var pc := s.pcs[t];
    assert ThreadOk(s, t) && PageOk(s, pc.page) && FrameOk(s, pc.frame);
    ViewLocal(s, ApplyLoadFail(s, t), t, s.pcs[t].frame, s.pcs[t].page, s.pcs[t].page, Stutter);
  }

  lemma LoadDoneView(s: State, t: ThreadId, g: GuardId)
    requires Inv(s) && CanLoadDone(s, t, g)
    ensures Inv(ApplyLoadDone(s, t, g)) && Refines(s, ApplyLoadDone(s, t, g), Stutter)
  {
    hide LocalStep, Refines;
    LoadDoneKeeps(s, t, g);
    var pc := s.pcs[t];
    assert ThreadOk(s, t) && PageOk(s, pc.page) && FrameOk(s, pc.frame);
    AgreesAll(s.mem[pc.frame], s.disk[pc.page]);
    ViewLocal(s, ApplyLoadDone(s, t, g), t, s.pcs[t].frame, s.pcs[t].page, s.pcs[t].page, Stutter);
  }

  lemma FlushBeginView(s: State, t: ThreadId, p: PageId, f: FrameId)
    requires Inv(s) && CanFlushBegin(s, t) && s.pcs[t].page == p && s.table[p].frame == Some(f)
    requires s.meta[f].pins < MAX_PINS
    ensures Inv(ApplyFlushBegin(s, t)) && Refines(s, ApplyFlushBegin(s, t), Stutter)
  {
    hide LocalStep, Refines;
    FlushBeginKeeps(s, t, p, f);
    assert ThreadOk(s, t) && PageOk(s, p) && FrameOk(s, f);
    ViewLocal(s, ApplyFlushBegin(s, t), t, f, p, p, Stutter);
  }

  lemma FlushChunkView(s: State, t: ThreadId, n: nat)
    requires Inv(s) && CanFlushChunk(s, t, n)
    ensures Inv(ApplyFlushChunk(s, t, n)) && Refines(s, ApplyFlushChunk(s, t, n), Stutter)
  {
    hide LocalStep, Refines;
    FlushChunkKeeps(s, t, n);
    var pc := s.pcs[t];
    assert ThreadOk(s, t) && PageOk(s, pc.page) && FrameOk(s, pc.frame);
    ViewLocal(s, ApplyFlushChunk(s, t, n), t, s.pcs[t].frame, s.pcs[t].page, s.pcs[t].page, Stutter);
  }

  lemma FlushFailView(s: State, t: ThreadId)
    requires Inv(s) && CanFlushFail(s, t)
    ensures Inv(ApplyFlushFail(s, t)) && Refines(s, ApplyFlushFail(s, t), Stutter)
  {
    hide LocalStep, Refines;
    FlushFailKeeps(s, t);
    var pc := s.pcs[t];
    assert ThreadOk(s, t) && PageOk(s, pc.page) && FrameOk(s, pc.frame);
    ViewLocal(s, ApplyFlushFail(s, t), t, s.pcs[t].frame, s.pcs[t].page, s.pcs[t].page, Stutter);
  }

  lemma FlushDoneView(s: State, t: ThreadId)
    requires Inv(s) && CanFlushDone(s, t)
    ensures Inv(ApplyFlushDone(s, t)) && Refines(s, ApplyFlushDone(s, t), Stutter)
  {
    hide LocalStep, Refines;
    FlushDoneKeeps(s, t);
    var pc := s.pcs[t];
    assert ThreadOk(s, t) && PageOk(s, pc.page) && FrameOk(s, pc.frame);
    ViewLocal(s, ApplyFlushDone(s, t), t, s.pcs[t].frame, s.pcs[t].page, s.pcs[t].page, Stutter);
  }

  lemma DeleteResidentView(s: State, t: ThreadId, p: PageId, f: FrameId)
    requires Inv(s) && CanDeleteResident(s, t) && s.pcs[t].page == p && s.table[p].frame == Some(f)
    ensures Inv(ApplyDeleteResident(s, t)) && Refines(s, ApplyDeleteResident(s, t), Remove(p))
  {
    hide LocalStep, Refines;
    DeleteResidentKeeps(s, t, p, f);
    assert ThreadOk(s, t) && PageOk(s, p) && FrameOk(s, f);
    ViewLocal(s, ApplyDeleteResident(s, t), t, f, p, p, Remove(p));
  }

  lemma DeleteNonResidentView(s: State, t: ThreadId)
    requires Inv(s) && CanDeleteNonResident(s, t)
    ensures Inv(ApplyDeleteNonResident(s, t)) && Refines(s, ApplyDeleteNonResident(s, t), Remove(s.pcs[t].page))
  {
    hide LocalStep, Refines;
    DeleteNonResidentKeeps(s, t);
    assert ThreadOk(s, t) && PageOk(s, s.pcs[t].page);
    ViewLocal(s, ApplyDeleteNonResident(s, t), t, |s.meta|, s.pcs[t].page, s.pcs[t].page, Remove(s.pcs[t].page));
  }
}
