/** What the invariant means: theorems about every reachable state and every run. */
module ProtocolTheorems {
  import opened Common
  import opened PageStates
  import opened Protocol
  import opened ProtocolInvariant
  import opened ProtocolView

  // ----- Every run -----

  /** What a step does to the map of pages. Loads, evictions, flushes, pins, unpins,
      waits and every failure do nothing to it. */
  function MapOpOf(s: State, step: Step): MapOp
    requires WellFormed(s) && Enabled(s, step)
  {
    match step
    case WriteBytes(g, bytes) => Put(s.guards[g].page, bytes)
    case PublishInFree(t, _, _) => Create(s.pcs[t].page)
    case EvictDone(t, _) => if s.pcs[t].req.ForNew? then Create(s.pcs[t].req.page) else Stutter
    case DeleteResident(t) => Remove(s.pcs[t].page)
    case DeleteNonResident(t) => Remove(s.pcs[t].page)
    case _ => Stutter
  }

  lemma WaitingView(s: State, w: set<ThreadId>)
    requires Inv(s) && Inv(s.(waiting := w))
    ensures Refines(s, s.(waiting := w), Stutter)
  {
    var s' := s.(waiting := w);
    forall r ensures PageView(s', r) == OpOn(Stutter, r, PageView(s, r)) {
    }
    PointwiseRefines(s, s', Stutter, 0, 0);
  }

  lemma ClientStepRefines(s: State, step: Step)
    requires Inv(s) && Enabled(s, step) && ClientRules(s, step) && OfClient(step)
    requires Inv(Apply(s, step))
    ensures Refines(s, Apply(s, step), MapOpOf(s, step))
  {
    hide Refines, ApplyGoto, ApplyWriteBytes, ApplyMarkDirty, ApplyDropGuard;
    match step
    case Invoke(t, op) => GotoView(s, t, op);
    case WriteBytes(g, bytes) => WriteBytesView(s, g, bytes);
    case MarkDirty(g) => MarkDirtyView(s, g);
    case DropGuard(g) => DropGuardView(s, g);
  }

  lemma EvictDoneRefines(s: State, t: ThreadId, g: GuardId)
    requires Inv(s) && CanEvictDone(s, t, g) && Inv(ApplyEvictDone(s, t, g))
    ensures Refines(s, ApplyEvictDone(s, t, g),
                    if s.pcs[t].req.ForNew? then Create(s.pcs[t].req.page) else Stutter)
  {
    hide Refines, ApplyEvictPublish, ApplyEvictLoad, ApplyEvictRelease;
    if s.pcs[t].req.ForNew? {
      EvictPublishView(s, t, g);
    } else if Unmapped(s, t)[s.pcs[t].req.page].state == NonResident {
      EvictLoadView(s, t);
    } else {
      EvictReleaseView(s, t);
    }
  }

  lemma WindowStepRefines(s: State, step: Step)
    requires Inv(s) && Enabled(s, step) && InWindow(step) && Inv(Apply(s, step))
    ensures Refines(s, Apply(s, step), MapOpOf(s, step))
  {
    hide Refines, ApplyEvictChunk, ApplyEvictFail, ApplyEvictDone, ApplyLoadChunk, ApplyLoadFail;
    hide ApplyLoadDone, ApplyFlushChunk, ApplyFlushFail, ApplyFlushDone;
    match step
    case EvictChunk(t, n) => EvictChunkView(s, t, n);
    case EvictFail(t) => EvictFailView(s, t);
    case EvictDone(t, g) => EvictDoneRefines(s, t, g);
    case LoadChunk(t, n) => LoadChunkView(s, t, n);
    case LoadFail(t) => LoadFailView(s, t);
    case LoadDone(t, g) => LoadDoneView(s, t, g);
    case FlushChunk(t, n) => FlushChunkView(s, t, n);
    case FlushFail(t) => FlushFailView(s, t);
    case FlushDone(t) => FlushDoneView(s, t);
  }

  lemma EvictBeginRefines(s: State, t: ThreadId, f: FrameId)
    requires Inv(s) && CanEvictBegin(s, t, f) && Inv(ApplyEvictBegin(s, t, f))
    ensures Refines(s, ApplyEvictBegin(s, t, f), Stutter)
  {
    hide Refines;
    assert FrameOk(s, f) && ThreadOk(s, t) && PageOk(s, s.pcs[t].page);
    EvictStartView(s, t, f, RequesterOf(s.pcs[t]), s.meta[f].page.value);
  }

  lemma NoFrameRefines(s: State, t: ThreadId)
    requires Inv(s) && CanNoFrame(s, t) && Inv(ApplyNoFrame(s, t))
    ensures Refines(s, ApplyNoFrame(s, t), Stutter)
  {
    hide Refines, ApplyAbandonNew, ApplyGoto;
    if s.pcs[t].NewLoop? { AbandonNewView(s, t); } else { GotoView(s, t, Idle); }
  }

  lemma MutexStepRefines(s: State, step: Step)
    requires Inv(s) && Enabled(s, step) && ClientRules(s, step) && !OfClient(step) && !InWindow(step)
    requires Inv(Apply(s, step))
    ensures Refines(s, Apply(s, step), MapOpOf(s, step))
  {
    hide Refines, ApplyReserveId, ApplyGoto, ApplyPublish, ApplyEvictBegin, ApplyNoFrame, ApplyFetchHit;
    hide ApplyLoadBegin, ApplyFlushBegin, ApplyDeleteResident, ApplyDeleteNonResident;
    match step
    case ReserveId(t, p) => ReserveIdView(s, t, p);
    case NoIdLeft(t) => GotoView(s, t, Idle);
    case PublishInFree(t, f, g) => PublishView(s, t, f, g);
    case EvictBegin(t, f) => EvictBeginRefines(s, t, f);
    case WaitForFrame(t) => WaitingView(s, s.waiting + {t});
    case NoFrame(t) => NoFrameRefines(s, t);
    case FetchHit(t, g) => FetchHitView(s, t, g, s.pcs[t].page, s.table[s.pcs[t].page].frame.value);
    case LoadBegin(t, f) => LoadBeginView(s, t, f);
    case FlushBegin(t) => FlushBeginView(s, t, s.pcs[t].page, s.table[s.pcs[t].page].frame.value);
    case DeleteResident(t) => DeleteResidentView(s, t, s.pcs[t].page, s.table[s.pcs[t].page].frame.value);
    case DeleteNonResident(t) => DeleteNonResidentView(s, t);
    case ReturnAtOnce(t) => GotoView(s, t, Idle);
    case WaitForPage(t) => WaitingView(s, s.waiting + {t});
    case SpuriousWake(t) => WaitingView(s, s.waiting - {t});
  }

  /** Each step keeps the invariant and is exactly its operation on the map of pages. */
  lemma StepRefines(s: State, step: Step)
    requires Inv(s) && Enabled(s, step) && ClientRules(s, step)
    ensures Inv(Apply(s, step))
    ensures Refines(s, Apply(s, step), MapOpOf(s, step))
  {
    StepKeeps(s, step);
    hide Enabled, ClientRules, Apply, Refines, MapOpOf;
    if OfClient(step) {
      ClientStepRefines(s, step);
    } else if InWindow(step) {
      WindowStepRefines(s, step);
    } else {
      MutexStepRefines(s, step);
    }
  }

  function MapOpsOf(s: State, steps: seq<Step>): seq<MapOp>
    requires Legal(s, steps)
    decreases |steps|
  {
    if steps == [] then [] else [MapOpOf(s, steps[0])] + MapOpsOf(Apply(s, steps[0]), steps[1..])
  }

  /** Each operation is allowed when its turn comes. */
  predicate AllAllowed(m: map<PageId, Page>, ops: seq<MapOp>)
    decreases |ops|
  {
    ops == [] || (Allowed(m, ops[0]) && AllAllowed(MapAfter(m, ops[0]), ops[1..]))
  }

  function MapRun(m: map<PageId, Page>, ops: seq<MapOp>): map<PageId, Page>
    decreases |ops|
  {
    if ops == [] then m else MapRun(MapAfter(m, ops[0]), ops[1..])
  }

  /** Transparency: whatever the threads do and however they are interleaved, with disk
      errors anywhere, the pool behaves as the map that the client-visible operations
      alone build up. */
  lemma {:induction false} RunRefines(s: State, steps: seq<Step>)
    requires Inv(s) && Legal(s, steps)
    ensures Inv(Execute(s, steps))
    ensures AllAllowed(View(s), MapOpsOf(s, steps))
    ensures View(Execute(s, steps)) == MapRun(View(s), MapOpsOf(s, steps))
    decreases |steps|
  {
    hide Enabled, ClientRules, Apply, View, MapOpOf, MapAfter, Allowed;
    if steps != [] {
      var s1 := Apply(s, steps[0]);
      StepRefines(s, steps[0]);
      RunRefines(s1, steps[1..]);
      var ops := MapOpsOf(s, steps);
      assert ops[0] == MapOpOf(s, steps[0]) && ops[1..] == MapOpsOf(s1, steps[1..]);
    }
  }

  ghost predicate Reachable(s: State)
  {
    exists s0: State, steps: seq<Step> :: Init(s0) && Legal(s0, steps) && Execute(s0, steps) == s
  }

  lemma ReachableInv(s: State)
    requires Reachable(s)
    ensures Inv(s)
  {
    hide Inv, Enabled, ClientRules, Apply;
    var s0: State, steps: seq<Step> :| Init(s0) && Legal(s0, steps) && Execute(s0, steps) == s;
    InitInv(s0);
    RunRefines(s0, steps) by { hide *; }
  }
}
