/** What a flush sees between its unlock and relock, and that the pool never deadlocks. */
module ProtocolLiveness {
  import opened Common
  import opened PageStates
  import opened Protocol
  import opened ProtocolInvariant
  import opened ProtocolTheorems
  import R = ReplacerContract

  // ----- The window of a flush -----

  /** Does the step mark frame `f` dirty? */
  predicate Marks(s: State, step: Step, f: FrameId)
  {
    step.MarkDirty? && step.g in s.guards && s.guards[step.g].frame == f
  }

  /** The frame of a flush in flight, one step later: the same page, still resident, and
      the dirty epoch has moved exactly if the step marked it dirty. */
  ghost predicate WindowKept(s: State, s': State, t: ThreadId, marked: bool)
    requires t < |s.pcs| && s.pcs[t].FlushIo? && s.pcs[t].frame < |s.meta|
  {
    var pc := s.pcs[t];
    && |s'.meta| == |s.meta| && |s'.pcs| == |s.pcs|
    && MetaConsistent(s', pc.page, pc.frame)
    && s'.meta[pc.frame].epoch == s.meta[pc.frame].epoch + (if marked then 1 else 0)
    && (s'.pcs[t].FlushIo? ==>
          s'.pcs[t].page == pc.page && s'.pcs[t].frame == pc.frame && s'.pcs[t].epoch == pc.epoch)
  }

  /** The facts about the frame of a flush in flight that the step lemmas need. */
  lemma FlushFrame(s: State, t: ThreadId)
    requires Inv(s) && t < |s.pcs| && s.pcs[t].FlushIo?
    ensures s.pcs[t].frame < |s.meta| && MetaConsistent(s, s.pcs[t].page, s.pcs[t].frame)
    ensures s.meta[s.pcs[t].frame].pins > 0 && s.pcs[t].frame in s.inUse
    ensures !R.IsEvictable(s.tracked, s.pcs[t].frame)
    ensures s.pcs[t].page < |s.table| && s.table[s.pcs[t].page] == Entry(Resident, Some(s.pcs[t].frame))
  {
    assert ThreadOk(s, t) && FrameOk(s, s.pcs[t].frame) && PageOk(s, s.pcs[t].page);
    HolderPins(s, s.pcs[t].frame);
  }

  lemma ClientStepWindow(s: State, step: Step, t: ThreadId)
    requires Inv(s) && Enabled(s, step) && ClientRules(s, step) && OfClient(step)
    requires t < |s.pcs| && s.pcs[t].FlushIo? && s.pcs[t].frame < |s.meta|
    ensures WindowKept(s, ApplyOfClient(s, step), t, Marks(s, step, s.pcs[t].frame))
  {
    FlushFrame(s, t);
    if !step.Invoke? { assert GuardOk(s, step.g); }
  }

  lemma EvictStepWindow(s: State, step: Step, t: ThreadId)
    requires Inv(s) && Enabled(s, step) && (step.EvictChunk? || step.EvictFail? || step.EvictDone?)
    requires t < |s.pcs| && s.pcs[t].FlushIo? && s.pcs[t].frame < |s.meta|
    ensures WindowKept(s, ApplyInWindow(s, step), t, false)
  {
    FlushFrame(s, t);
    assert ThreadOk(s, step.t);
  }

  lemma LoadStepWindow(s: State, step: Step, t: ThreadId)
    requires Inv(s) && Enabled(s, step) && (step.LoadChunk? || step.LoadFail? || step.LoadDone?)
    requires t < |s.pcs| && s.pcs[t].FlushIo? && s.pcs[t].frame < |s.meta|
    ensures WindowKept(s, ApplyInWindow(s, step), t, false)
  {
    FlushFrame(s, t);
    assert ThreadOk(s, step.t);
  }

  lemma FlushStepWindow(s: State, step: Step, t: ThreadId)
    requires Inv(s) && Enabled(s, step) && (step.FlushChunk? || step.FlushFail? || step.FlushDone?)
    requires t < |s.pcs| && s.pcs[t].FlushIo? && s.pcs[t].frame < |s.meta|
    ensures WindowKept(s, ApplyInWindow(s, step), t, false)
  {
    FlushFrame(s, t);
    assert ThreadOk(s, step.t);
  }

  lemma PinStepWindow(s: State, step: Step, t: ThreadId)
    requires Inv(s) && Enabled(s, step) && (step.FetchHit? || step.FlushBegin? || step.DeleteResident?)
    requires t < |s.pcs| && s.pcs[t].FlushIo? && s.pcs[t].frame < |s.meta|
    ensures WindowKept(s, ApplyUnderMutex(s, step), t, false)
  {
    FlushFrame(s, t);
    var p := s.pcs[step.t].page;
    assert PageOk(s, p);
    assert FrameOk(s, s.table[p].frame.value);
  }

  lemma MutexStepWindow(s: State, step: Step, t: ThreadId)
    requires Inv(s) && Enabled(s, step) && !OfClient(step) && !InWindow(step)
    requires t < |s.pcs| && s.pcs[t].FlushIo? && s.pcs[t].frame < |s.meta|
    ensures WindowKept(s, ApplyUnderMutex(s, step), t, false)
  {
    FlushFrame(s, t);
    if step.FetchHit? || step.FlushBegin? || step.DeleteResident? { PinStepWindow(s, step, t); }
  }

  lemma StepWindow(s: State, step: Step, t: ThreadId)
    requires Inv(s) && Enabled(s, step) && ClientRules(s, step)
    requires t < |s.pcs| && s.pcs[t].FlushIo? && s.pcs[t].frame < |s.meta|
    ensures WindowKept(s, Apply(s, step), t, Marks(s, step, s.pcs[t].frame))
  {
    hide Inv, Enabled, ClientRules, WindowKept, ApplyOfClient, ApplyInWindow, ApplyUnderMutex;
    if OfClient(step) {
      ClientStepWindow(s, step, t);
    } else if step.EvictChunk? || step.EvictFail? || step.EvictDone? {
      EvictStepWindow(s, step, t);
    } else if step.LoadChunk? || step.LoadFail? || step.LoadDone? {
      LoadStepWindow(s, step, t);
    } else if InWindow(step) {
      FlushStepWindow(s, step, t);
    } else {
      MutexStepWindow(s, step, t);
    }
  }

  /** Thread `t` does not leave the window of its flush during the run. */
  ghost predicate StaysInFlush(s: State, steps: seq<Step>, t: ThreadId)
    requires Legal(s, steps)
    decreases |steps|
  {
    && t < |s.pcs| && s.pcs[t].FlushIo?
    && (steps != [] ==> StaysInFlush(Apply(s, steps[0]), steps[1..], t))
  }

  /** How often frame `f` is marked dirty during the run. */
  ghost function MarksIn(s: State, steps: seq<Step>, f: FrameId): nat
    requires Legal(s, steps)
    decreases |steps|
  {
    if steps == [] then 0
    else (if Marks(s, steps[0], f) then 1 else 0) + MarksIn(Apply(s, steps[0]), steps[1..], f)
  }

  /** Between its unlock and its relock a flush keeps its page in its frame, resident and
      pinned, whatever the other threads do, and the dirty epoch counts the MarkDirty calls
      of the window exactly. So the page and state tests after the relock always hold, and
      an equal epoch means that nobody marked the page dirty meanwhile. */
  lemma {:induction false} FlushWindow(s: State, steps: seq<Step>, t: ThreadId)
    requires Inv(s) && Legal(s, steps) && StaysInFlush(s, steps, t)
    ensures s.pcs[t].frame < |s.meta|
    ensures var e := Execute(s, steps); var f := s.pcs[t].frame;
            && t < |e.pcs| && e.pcs[t].FlushIo? && f < |e.meta|
            && e.pcs[t].page == s.pcs[t].page && e.pcs[t].frame == f && e.pcs[t].epoch == s.pcs[t].epoch
            && MetaConsistent(e, s.pcs[t].page, f) && e.meta[f].pins > 0
            && e.meta[f].epoch == s.meta[f].epoch + MarksIn(s, steps, f)
            && (e.meta[f].epoch == s.meta[f].epoch <==> MarksIn(s, steps, f) == 0)
    decreases |steps|
  {
    FlushFrame(s, t);
    hide Inv, Enabled, ClientRules, Apply;
    if steps != [] {
      var s1 := Apply(s, steps[0]);
      StepKeeps(s, steps[0]);
      StepWindow(s, steps[0], t);
      FlushWindow(s1, steps[1..], t);
    }
  }

  // ----- Progress -----

  /** Pin counts have not reached the end of their range (see the client rules). */
  ghost predicate PinsBelowMax(s: State)
  {
    forall f :: 0 <= f < |s.meta| ==> s.meta[f].pins < MAX_PINS
  }

  /** A step that brings an operation forward: not an action of a client, not a wait, and
      not a wake-up that comes out of nowhere. */
  ghost predicate CanProceed(s: State, step: Step)
    requires WellFormed(s)
  {
    && !OfClient(step) && !step.WaitForFrame? && !step.WaitForPage? && !step.SpuriousWake?
    && Enabled(s, step) && ClientRules(s, step)
  }

  lemma {:induction false} FreshGuard(guards: set<GuardId>) returns (g: GuardId)
    ensures forall h :: h in guards ==> h < g
    decreases |guards|
  {
    if guards == {} {
      g := 0;
    } else {
      var h :| h in guards;
      var g' := FreshGuard(guards - {h});
      g := if h < g' then g' else h + 1;
      assert forall x :: x in guards ==> x == h || x in guards - {h};
    }
  }

  /** A thread inside an I/O window can always go on: copy a byte or finish. */
  lemma WindowProceeds(s: State, t: ThreadId) returns (step: Step)
    requires Inv(s) && t < |s.pcs| && IsIo(s.pcs[t])
    ensures CanProceed(s, step)
  {
    var g := FreshGuard(s.guards.Keys);
    match s.pcs[t]
    case EvictIo(_, _, _, dirty, _, k) =>
      step := if dirty && k < PAGE_SIZE then EvictChunk(t, 1) else EvictDone(t, g);
    case LoadIo(_, _, k) =>
      step := if k < PAGE_SIZE then LoadChunk(t, 1) else LoadDone(t, g);
    case FlushIo(_, _, _, k) =>
      step := if k < PAGE_SIZE then FlushChunk(t, 1) else FlushDone(t);
  }

  ghost predicate NoWindow(s: State)
  {
    forall t :: 0 <= t < |s.pcs| ==> !IsIo(s.pcs[t])
  }

  lemma NoWindowNoWaiter(s: State)
    requires Inv(s) && NoWindow(s)
    ensures s.waiting == {} && !HasTransientFrame(s)
  {
    forall f | 0 <= f < |s.meta| ensures f !in s.owner && !Transient(s.meta[f]) {
      assert FrameOk(s, f);
    }
    assert s.owner.Keys == {};
  }

  /** A thread that looks for a frame finds one, finds a victim, or throws. */
  lemma AcquiringProceeds(s: State, t: ThreadId) returns (step: Step)
    requires Inv(s) && NoWindow(s) && Acquiring(s, t)
    ensures CanProceed(s, step)
  {
    NoWindowNoWaiter(s);
    if f :| 0 <= f < |s.meta| && f !in s.inUse {
      var g := FreshGuard(s.guards.Keys);
      step := if s.pcs[t].NewLoop? then PublishInFree(t, f, g) else LoadBegin(t, f);
    } else if f :| 0 <= f < |s.meta| && R.IsEvictable(s.tracked, f) {
      step := EvictBegin(t, f);
    } else {
      step := NoFrame(t);
    }
  }

  /** A thread at the head of a retry loop, when nobody does I/O. */
  lemma LoopProceeds(s: State, t: ThreadId) returns (step: Step)
    requires Inv(s) && NoWindow(s) && PinsBelowMax(s) && t < |s.pcs| && IsLoop(s.pcs[t])
    ensures CanProceed(s, step)
  {
    NoWindowNoWaiter(s);
    var p := s.pcs[t].page;
    if Acquiring(s, t) {
      step := AcquiringProceeds(s, t);
    } else if p >= |s.table| || s.table[p].state == Unused {
      step := ReturnAtOnce(t);
    } else {
      assert PageOk(s, p);
      if s.table[p].state == NonResident {
        step := if s.pcs[t].FlushLoop? then ReturnAtOnce(t) else DeleteNonResident(t);
      } else {
        var f := s.table[p].frame.value;
        assert FrameOk(s, f) && s.table[p].state == Resident;
        step := ResidentProceeds(s, t, p, f);
      }
    }
  }

  lemma ResidentProceeds(s: State, t: ThreadId, p: PageId, f: FrameId) returns (step: Step)
    requires Inv(s) && PinsBelowMax(s) && AtLoop(s, t) && s.pcs[t].page == p && !s.pcs[t].NewLoop?
    requires p < |s.table| && f < |s.meta| && s.table[p] == Entry(Resident, Some(f)) && MetaConsistent(s, p, f)
    ensures CanProceed(s, step)
  {
    var g := FreshGuard(s.guards.Keys);
    match s.pcs[t]
    case FetchLoop(_) => step := FetchHit(t, g);
    case FlushLoop(_) => step := if s.meta[f].dirty then FlushBegin(t) else ReturnAtOnce(t);
    case DeleteLoop(_) => step := if s.meta[f].pins == 0 then DeleteResident(t) else ReturnAtOnce(t);
  }

  /** NewPage takes an unused id, unless there is none. The one obstacle is an id that a
      Fetch or Delete of its previous life still names; then that operation can go on. */
  lemma StartProceeds(s: State, t: ThreadId) returns (step: Step)
    requires Inv(s) && NoWindow(s) && PinsBelowMax(s) && t < |s.pcs| && s.pcs[t] == NewStart
    ensures CanProceed(s, step)
  {
    if p :| 0 <= p < |s.table| && s.table[p].state == Unused {
      if u :| 0 <= u < |s.pcs| && Target(s.pcs[u]) == Some(p) {
        assert IsLoop(s.pcs[u]);
        step := LoopProceeds(s, u);
      } else {
        step := ReserveId(t, p);
      }
    } else {
      step := NoIdLeft(t);
    }
  }

  /** Deadlock freedom: while any operation is unfinished, for any number of threads, some
      thread can bring its operation forward, neither by waiting nor by a spurious wake-up;
      no client has to do anything. */
  lemma NoDeadlock(s: State, t: ThreadId)
    requires Reachable(s) && WellFormed(s) && PinsBelowMax(s)
    requires t < |s.pcs| && s.pcs[t] != Idle
    ensures exists step :: CanProceed(s, step)
  {
    ReachableInv(s);
    var step: Step;
    if u :| 0 <= u < |s.pcs| && IsIo(s.pcs[u]) {
      step := WindowProceeds(s, u);
    } else if s.pcs[t] == NewStart {
      step := StartProceeds(s, t);
    } else {
      step := LoopProceeds(s, t);
    }
    assert CanProceed(s, step);
  }
}
