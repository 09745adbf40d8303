/** Left alone, the pool comes to rest: once clients do nothing more, every run of the
    operations in flight ends, and it can only end with all of them finished. */
module ProtocolTermination {
  import opened Common
  import opened PageStates
  import opened Protocol
  import opened ProtocolInvariant
  import opened ProtocolLiveness
  import opened Sequential
  import opened ProtocolTheorems

  /** Steps of the operations in flight, waits and failures included. */
  predicate OfPool(step: Step) { !OfClient(step) && !step.SpuriousWake? }

  // ----- How much a thread has left to do -----
  //
  // A step may make work for others: a notification wakes waiting threads, and a page that
  // leaves the nonresident state dooms the evictions made for the sake of fetching it. Each
  // thread's rank pays for what its steps can add to the ranks of all `n` threads.

  /** What it costs to doom an eviction: it will have to start over. */
  function DoomCost(n: nat): nat { PAGE_SIZE + n + 3 }

  function Spread(n: nat): nat { n * DoomCost(n) }

  function IoRank(n: nat): nat { n + 1 }

  function EvictRank(n: nat): nat { IoRank(n) + PAGE_SIZE + Spread(n) + 1 }

  function LoopRank(n: nat): nat { EvictRank(n) + PAGE_SIZE + 1 }

  /** Thread `t` empties a frame to fetch a page that meanwhile is not nonresident. */
  predicate Doomed(s: State, pc: Pc)
  {
    pc.EvictIo? && pc.req.ForFetch? && !PageIs(s, pc.req.page, NonResident)
  }

  function Left(copied: nat): nat { if copied <= PAGE_SIZE then PAGE_SIZE - copied else 0 }

  function Rank(s: State, t: ThreadId): nat
    requires t < |s.pcs|
  {
    var n := |s.pcs|;
    match s.pcs[t]
    case Idle => 0
    case LoadIo(_, _, k) => IoRank(n) + Left(k)
    case FlushIo(_, _, _, k) => IoRank(n) + Left(k)
    case EvictIo(_, _, _, dirty, _, k) =>
      EvictRank(n) + (if dirty then Left(k) else 0) + (if Doomed(s, s.pcs[t]) then DoomCost(n) else 0)
    case NewStart => LoopRank(n) + 2
    case _ => LoopRank(n) + if t in s.waiting then 0 else 1
  }

  /** What a step may add to the rank of each other thread. */
  function Burden(s: State, step: Step): nat
    requires WellFormed(s) && Enabled(s, step)
  {
    match step
    case PublishInFree(_, _, _) => DoomCost(|s.pcs|)
    case EvictFail(_) => DoomCost(|s.pcs|)
    case NoFrame(_) => DoomCost(|s.pcs|)
    case LoadBegin(_, _) => DoomCost(|s.pcs|)
    case DeleteNonResident(_) => DoomCost(|s.pcs|)
    case EvictDone(t, _) =>
      if s.pcs[t].req.ForFetch? && !PageIs(s.(table := Unmapped(s, t)), s.pcs[t].req.page, NonResident) then 1
      else DoomCost(|s.pcs|)
    case LoadDone(_, _) => 1
    case LoadFail(_) => 1
    case FlushDone(_) => 1
    case FlushFail(_) => 1
    case DeleteResident(_) => 1
    case _ => 0
  }

  lemma BurdenTotal(n: nat)
    ensures n * DoomCost(n) == Spread(n) && n * 1 == n && n * 0 == 0
  {
  }

  /** The thread pays for its step. */
  ghost predicate Pays(s: State, x: State, t: ThreadId, burden: nat)
  {
    && |x.pcs| == |s.pcs| && t < |s.pcs|
    && Rank(x, t) + |s.pcs| * burden < Rank(s, t)
    && forall u :: 0 <= u < |s.pcs| && u != t ==> Rank(x, u) <= Rank(s, u) + burden
  }

  lemma EvictChunkPays(s: State, step: Step)
    requires Inv(s) && Enabled(s, step) && step.EvictChunk?
    ensures Pays(s, ApplyInWindow(s, step), step.t, Burden(s, step))
  {
    hide Spread;
    BurdenTotal(|s.pcs|);
  }

  lemma IoChunkPays(s: State, step: Step)
    requires Inv(s) && Enabled(s, step) && (step.LoadChunk? || step.FlushChunk?)
    ensures Pays(s, ApplyInWindow(s, step), step.t, Burden(s, step))
  {
    hide Spread;
    BurdenTotal(|s.pcs|);
  }

  lemma FlushEndPays(s: State, step: Step)
    requires Inv(s) && Enabled(s, step) && (step.FlushDone? || step.FlushFail?)
    ensures Pays(s, ApplyInWindow(s, step), step.t, Burden(s, step))
  {
    hide Spread;
    BurdenTotal(|s.pcs|);
  }

  lemma LoadDonePays(s: State, step: Step)
    requires Inv(s) && Enabled(s, step) && step.LoadDone?
    ensures Pays(s, ApplyInWindow(s, step), step.t, Burden(s, step))
  {
    hide Spread;
    BurdenTotal(|s.pcs|);
    assert ThreadOk(s, step.t) && FrameOk(s, s.pcs[step.t].frame);
    assert PageOk(s, s.pcs[step.t].page);
  }

  lemma LoadFailPays(s: State, step: Step)
    requires Inv(s) && Enabled(s, step) && step.LoadFail?
    ensures Pays(s, ApplyInWindow(s, step), step.t, Burden(s, step))
  {
    hide Spread;
    BurdenTotal(|s.pcs|);
    assert ThreadOk(s, step.t) && FrameOk(s, s.pcs[step.t].frame);
  }

  lemma EvictFailPays(s: State, step: Step)
    requires Inv(s) && Enabled(s, step) && step.EvictFail?
    ensures Pays(s, ApplyInWindow(s, step), step.t, Burden(s, step))
  {
    hide Spread;
    BurdenTotal(|s.pcs|);
    assert ThreadOk(s, step.t) && FrameOk(s, s.pcs[step.t].frame);
  }

  lemma EvictPublishPays(s: State, t: ThreadId, g: GuardId)
    requires Inv(s) && CanEvictDone(s, t, g) && s.pcs[t].req.ForNew?
    ensures Pays(s, ApplyEvictPublish(s, t, g), t, DoomCost(|s.pcs|))
  {
    hide Spread;
    BurdenTotal(|s.pcs|);
    assert ThreadOk(s, t) && FrameOk(s, s.pcs[t].frame);
  }

  lemma EvictLoadPays(s: State, t: ThreadId, g: GuardId)
    requires Inv(s) && CanEvictDone(s, t, g) && s.pcs[t].req.ForFetch?
    requires Unmapped(s, t)[s.pcs[t].req.page].state == NonResident
    ensures Pays(s, ApplyEvictLoad(s, t), t, DoomCost(|s.pcs|))
  {
    hide Spread;
    BurdenTotal(|s.pcs|);
    assert ThreadOk(s, t) && FrameOk(s, s.pcs[t].frame);
  }

  lemma EvictReleasePays(s: State, t: ThreadId, g: GuardId)
    requires Inv(s) && CanEvictDone(s, t, g) && s.pcs[t].req.ForFetch?
    requires Unmapped(s, t)[s.pcs[t].req.page].state != NonResident
    ensures Pays(s, ApplyEvictRelease(s, t), t, 1)
  {
    hide Spread;
    BurdenTotal(|s.pcs|);
    assert ThreadOk(s, t) && FrameOk(s, s.pcs[t].frame);
  }

  lemma EvictDonePays(s: State, step: Step)
    requires Inv(s) && Enabled(s, step) && step.EvictDone?
    ensures Pays(s, ApplyInWindow(s, step), step.t, Burden(s, step))
  {
    assert WellFormed(s);
    hide Inv, WellFormed, Pays, ApplyEvictPublish, ApplyEvictLoad, ApplyEvictRelease;
    if s.pcs[step.t].req.ForNew? {
      EvictPublishPays(s, step.t, step.g);
    } else if Unmapped(s, step.t)[s.pcs[step.t].req.page].state == NonResident {
      EvictLoadPays(s, step.t, step.g);
    } else {
      EvictReleasePays(s, step.t, step.g);
    }
  }

  lemma EvictBeginPays(s: State, step: Step)
    requires Inv(s) && Enabled(s, step) && step.EvictBegin?
    ensures Pays(s, ApplyUnderMutex(s, step), step.t, Burden(s, step))
  {
    hide Spread;
    BurdenTotal(|s.pcs|);
    VictimFacts(s, step.f);
    assert WellFormed(s);
    hide Inv, WellFormed;
  }

  lemma TakePays(s: State, step: Step)
    requires Inv(s) && Enabled(s, step) && (step.PublishInFree? || step.LoadBegin?)
    ensures Pays(s, ApplyUnderMutex(s, step), step.t, Burden(s, step))
  {
    hide Spread;
    BurdenTotal(|s.pcs|);
  }

  lemma DeletePays(s: State, step: Step)
    requires Inv(s) && Enabled(s, step) && (step.DeleteResident? || step.DeleteNonResident?)
    ensures Pays(s, ApplyUnderMutex(s, step), step.t, Burden(s, step))
  {
    hide Spread;
    BurdenTotal(|s.pcs|);
  }

  lemma AbandonNewPays(s: State, t: ThreadId)
    requires Inv(s) && AtLoop(s, t) && s.pcs[t].NewLoop?
    ensures Pays(s, ApplyAbandonNew(s, t), t, DoomCost(|s.pcs|))
  {
    hide Spread;
    BurdenTotal(|s.pcs|);
  }

  lemma GiveUpPays(s: State, t: ThreadId)
    requires WellFormed(s) && AtLoop(s, t)
    ensures Pays(s, ApplyGoto(s, t, Idle), t, DoomCost(|s.pcs|))
  {
    hide Spread, WellFormed;
    BurdenTotal(|s.pcs|);
  }

  lemma NoFramePays(s: State, step: Step)
    requires Inv(s) && Enabled(s, step) && step.NoFrame?
    ensures Pays(s, ApplyUnderMutex(s, step), step.t, Burden(s, step))
  {
    assert WellFormed(s);
    hide Inv, WellFormed, Pays, ApplyAbandonNew, ApplyGoto, NoFreeFrame, NoVictim, HasTransientFrame;
    if s.pcs[step.t].NewLoop? { AbandonNewPays(s, step.t); } else { GiveUpPays(s, step.t); }
  }

  lemma StartPays(s: State, step: Step)
    requires Inv(s) && Enabled(s, step) && (step.ReserveId? || step.NoIdLeft? || step.ReturnAtOnce?)
    ensures Pays(s, ApplyUnderMutex(s, step), step.t, Burden(s, step))
  {
    hide Spread;
    BurdenTotal(|s.pcs|);
  }

  lemma PinPays(s: State, step: Step)
    requires Inv(s) && Enabled(s, step) && (step.FetchHit? || step.FlushBegin?)
    ensures Pays(s, ApplyUnderMutex(s, step), step.t, Burden(s, step))
  {
    hide Spread;
    BurdenTotal(|s.pcs|);
  }

  lemma WaitPays(s: State, step: Step)
    requires Inv(s) && Enabled(s, step) && (step.WaitForFrame? || step.WaitForPage?)
    ensures Pays(s, ApplyUnderMutex(s, step), step.t, Burden(s, step))
  {
    hide Spread;
    BurdenTotal(|s.pcs|);
  }

  lemma WindowStepPays(s: State, step: Step)
    requires Inv(s) && Enabled(s, step) && InWindow(step)
    ensures Pays(s, ApplyInWindow(s, step), step.t, Burden(s, step))
  {
    hide Inv, Enabled, Pays, Burden, ApplyInWindow;
    if step.EvictFail? {
      EvictFailPays(s, step);
    } else if step.EvictDone? {
      EvictDonePays(s, step);
    } else if step.LoadDone? {
      LoadDonePays(s, step);
    } else if step.LoadFail? {
      LoadFailPays(s, step);
    } else if step.FlushDone? || step.FlushFail? {
      FlushEndPays(s, step);
    } else if step.EvictChunk? {
      EvictChunkPays(s, step);
    } else {
      IoChunkPays(s, step);
    }
  }

  lemma MutexStepPays(s: State, step: Step)
    requires Inv(s) && Enabled(s, step) && OfPool(step) && !InWindow(step)
    ensures Pays(s, ApplyUnderMutex(s, step), step.t, Burden(s, step))
  {
    hide Inv, Enabled, Pays, Burden, ApplyUnderMutex;
    match step
    case EvictBegin(_, _) => EvictBeginPays(s, step);
    case PublishInFree(_, _, _) => TakePays(s, step);
    case LoadBegin(_, _) => TakePays(s, step);
    case DeleteResident(_) => DeletePays(s, step);
    case DeleteNonResident(_) => DeletePays(s, step);
    case NoFrame(_) => NoFramePays(s, step);
    case FetchHit(_, _) => PinPays(s, step);
    case FlushBegin(_) => PinPays(s, step);
    case WaitForFrame(_) => WaitPays(s, step);
    case WaitForPage(_) => WaitPays(s, step);
    case _ => StartPays(s, step);
  }

  lemma StepPays(s: State, step: Step)
    requires Inv(s) && Enabled(s, step) && OfPool(step)
    ensures Pays(s, Apply(s, step), step.t, Burden(s, step))
  {
    hide Inv, Enabled, Pays, Burden, ApplyInWindow, ApplyUnderMutex;
    if InWindow(step) { WindowStepPays(s, step); } else { MutexStepPays(s, step); }
  }

  // ----- All threads together -----

  function Sum(xs: seq<nat>): nat
  {
    if xs == [] then 0 else Sum(xs[..|xs| - 1]) + xs[|xs| - 1]
  }

  lemma {:induction false} SumUpdate(xs: seq<nat>, t: nat, x: nat)
    requires t < |xs|
    ensures Sum(xs[t := x]) == Sum(xs) - xs[t] + x
  {
    var k := |xs| - 1;
    if t == k {
      assert xs[t := x][..k] == xs[..k];
    } else {
      assert xs[t := x][..k] == xs[..k][t := x];
      SumUpdate(xs[..k], t, x);
    }
  }

  lemma {:induction false} SumRaise(xs: seq<nat>, ys: seq<nat>, y: nat)
    requires |xs| == |ys| && forall u :: 0 <= u < |xs| ==> ys[u] <= xs[u] + y
    ensures Sum(ys) <= Sum(xs) + |xs| * y
  {
    if xs != [] {
      var k := |xs| - 1;
      SumRaise(xs[..k], ys[..k], y);
      assert |xs| * y == k * y + y;
    }
  }

  function Ranks(s: State): seq<nat>
  {
    seq(|s.pcs|, t requires 0 <= t < |s.pcs| => Rank(s, t))
  }

  /** What is left to do before the pool is at rest. */
  function Remaining(s: State): nat { Sum(Ranks(s)) }

  lemma PaidMeansLess(s: State, x: State, t: ThreadId, burden: nat)
    requires Pays(s, x, t, burden)
    ensures Remaining(x) < Remaining(s)
  {
    hide Rank;
    var cost := |s.pcs| * burden + 1;
    var xs := Ranks(s)[t := Rank(s, t) - cost];
    SumUpdate(Ranks(s), t, Rank(s, t) - cost);
    SumRaise(xs, Ranks(x), burden);
  }

  lemma StepNearsRest(s: State, step: Step)
    requires Inv(s) && Enabled(s, step) && OfPool(step)
    ensures Remaining(Apply(s, step)) < Remaining(s)
  {
    assert WellFormed(s);
    hide Inv, Enabled, Pays, Burden, Apply, Remaining;
    StepPays(s, step);
    PaidMeansLess(s, Apply(s, step), step.t, Burden(s, step));
  }

  /** Termination: without actions of clients and without spurious wake-ups, a run of any
      number of operations by any number of threads has at most Remaining steps. */
  lemma {:induction false} RunsEnd(s: State, steps: seq<Step>)
    requires Inv(s) && Legal(s, steps) && forall i :: 0 <= i < |steps| ==> OfPool(steps[i])
    ensures |steps| + Remaining(Execute(s, steps)) <= Remaining(s)
    decreases |steps|
  {
    hide Inv, Enabled, ClientRules, Apply, Remaining;
    if steps != [] {
      StepKeeps(s, steps[0]);
      StepNearsRest(s, steps[0]);
      RunsEnd(Apply(s, steps[0]), steps[1..]);
    }
  }

  lemma StaysReachable(s: State, steps: seq<Step>)
    requires Reachable(s) && Legal(s, steps)
    ensures Reachable(Execute(s, steps))
  {
    hide WellFormed, Enabled, ClientRules, Apply, Legal, Execute;
    var s0: State, before: seq<Step> :| Init(s0) && Legal(s0, before) && Execute(s0, before) == s;
    RunsJoin(s0, before, steps);
  }

  /** Left alone, the pool comes to rest: from every reachable state, a run of the operations
      in flight has at most Remaining steps; and where nothing can be brought forward any
      more, all operations have finished. */
  lemma LeftAlone(s: State, steps: seq<Step>)
    requires Reachable(s) && Legal(s, steps) && forall i :: 0 <= i < |steps| ==> OfPool(steps[i])
    ensures WellFormed(Execute(s, steps)) && |steps| <= Remaining(s)
    ensures var e := Execute(s, steps);
            PinsBelowMax(e) && (forall step :: !CanProceed(e, step)) ==>
              forall t :: 0 <= t < |e.pcs| ==> e.pcs[t] == Idle
  {
    ReachableInv(s);
    RunsEnd(s, steps);
    StaysReachable(s, steps);
    var e := Execute(s, steps);
    ReachableInv(e);
    assert WellFormed(e);
    hide Reachable, Inv, WellFormed, Legal, Execute, CanProceed, PinsBelowMax, Remaining;
    if PinsBelowMax(e) && forall step :: !CanProceed(e, step) {
      forall t | 0 <= t < |e.pcs| ensures e.pcs[t] == Idle {
        if e.pcs[t] != Idle { NoDeadlock(e, t); }
      }
    }
  }
}
