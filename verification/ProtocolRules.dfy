/** What happens to clients that break the rules of the protocol: for each rule, when
    exactly it matters, and reachable states in which it does. */
module ProtocolRules {
  import opened Common
  import opened PageStates
  import opened Protocol
  import opened ProtocolInvariant
  import opened ProtocolTheorems
  import opened Sequential
  import R = ReplacerContract

  // ----- Rule (a): ids whose NewPage is under way -----

  /** What NewPage relies on when it comes back from emptying its frame. */
  ghost predicate Returning(s: State, t: ThreadId, p: PageId)
  {
    && WellFormed(s) && !s.fault && CanEvictEnd(s, t) && s.pcs[t].req == ForNew(p)
    && s.pcs[t].victim != p && s.pcs[t].frame in s.inUse
    && s.table[s.pcs[t].victim] == Entry(Evicting, Some(s.pcs[t].frame))
  }

  /** The return of that NewPage fails exactly if its id is no longer nonresident. */
  lemma ReturnFaultsExactly(s: State, t: ThreadId, p: PageId, g: GuardId)
    requires Returning(s, t, p) && g !in s.guards
    requires s.table[p] == NON_RESIDENT_ENTRY || s.table[p] == UNUSED_ENTRY
             || (s.table[p].state == Loading && s.table[p].frame != Some(s.pcs[t].frame))
    ensures CanEvictDone(s, t, g) && (ApplyEvictDone(s, t, g).fault <==> s.table[p] != NON_RESIDENT_ENTRY)
  {
    assert Unmapped(s, t)[p] == s.table[p];
  }

  lemma ReservedFacts(s: State, t: ThreadId, p: PageId)
    requires Inv(s) && CanEvictEnd(s, t) && s.pcs[t].req == ForNew(p)
    ensures Returning(s, t, p) && s.table[p] == NON_RESIDENT_ENTRY && p in s.reserved
    ensures s.pcs[t].frame < |s.meta| && s.meta[s.pcs[t].frame].state != ResidentFrame
  {
    assert ThreadOk(s, t) && FrameOk(s, s.pcs[t].frame) && PageOk(s, p);
    assert PageOk(s, s.pcs[t].victim);
  }

  lemma ReservedEntry(s: State, p: PageId)
    requires Inv(s) && p in s.reserved
    ensures p < |s.table| && s.table[p] == NON_RESIDENT_ENTRY
  {
    assert PageOk(s, p);
  }

  /** The steps with which a Fetch or a Delete gets hold of its page's entry. */
  predicate Touches(op: Pc, step: Step, p: PageId)
  {
    Target(op) == Some(p) && (step.LoadBegin? || step.DeleteNonResident?)
  }

  lemma EntryFacts(s: State, q: PageId)
    requires Inv(s) && q < |s.table|
    ensures s.table[q].state == Resident ==>
              && s.table[q].frame.Some? && s.table[q].frame.value < |s.meta|
              && MetaConsistent(s, q, s.table[q].frame.value) && s.table[q].frame.value in s.inUse
              && s.table[q].frame.value in s.tracked
  {
    assert PageOk(s, q);
    if s.table[q].state == Resident { assert FrameOk(s, s.table[q].frame.value); }
  }

  lemma GotoWellFormed(s: State, u: ThreadId, op: Pc)
    requires WellFormed(s) && u < |s.pcs| && IsStart(op)
    ensures WellFormed(ApplyGoto(s, u, op))
  {
  }

  /** What the first step of another operation leaves of the reserved id and of the frame
      that NewPage is emptying. */
  ghost predicate Beside(s: State, x: State, t: ThreadId, p: PageId, v: PageId, f: FrameId, touched: bool)
    requires t < |s.pcs|
  {
    && |x.table| == |s.table| && p < |x.table| && t < |x.pcs| && x.pcs[t] == s.pcs[t] && !x.fault
    && (v < |s.table| && s.table[v].state == Evicting ==> x.table[v] == s.table[v])
    && (f < |s.meta| && f in s.inUse && s.meta[f].state != ResidentFrame ==> f in x.inUse)
    && if touched
       then x.table[p] == UNUSED_ENTRY
            || (x.table[p].state == Loading && x.table[p].frame.Some?
                && x.table[p].frame.value in x.inUse - s.inUse)
       else x.table[p] == NON_RESIDENT_ENTRY
  }

  lemma PinStepBeside(s: State, t: ThreadId, p: PageId, v: PageId, h: FrameId, u: ThreadId, op: Pc, step: Step)
    requires Inv(s) && p in s.reserved && t < |s.pcs| && t != u
    requires u < |s.pcs| && s.pcs[u] == Idle && IsStart(op)
    requires WellFormed(ApplyGoto(s, u, op)) && Enabled(ApplyGoto(s, u, op), step)
    requires (step.FetchHit? || step.FlushBegin?) && step.t == u
    ensures Beside(s, ApplyUnderMutex(ApplyGoto(s, u, op), step), t, p, v, h, false)
  {
    ReservedEntry(s, p);
    EntryFacts(s, op.page);
  }

  lemma DeleteResidentBeside(s: State, t: ThreadId, p: PageId, v: PageId, h: FrameId, u: ThreadId, op: Pc, step: Step)
    requires Inv(s) && p in s.reserved && t < |s.pcs| && t != u
    requires u < |s.pcs| && s.pcs[u] == Idle && IsStart(op)
    requires WellFormed(ApplyGoto(s, u, op)) && Enabled(ApplyGoto(s, u, op), step)
    requires step.DeleteResident? && step.t == u
    ensures Beside(s, ApplyUnderMutex(ApplyGoto(s, u, op), step), t, p, v, h, false)
  {
    ReservedEntry(s, p);
    EntryFacts(s, op.page);
  }

  lemma TouchStepBeside(s: State, t: ThreadId, p: PageId, v: PageId, h: FrameId, u: ThreadId, op: Pc, step: Step)
    requires Inv(s) && p in s.reserved && t < |s.pcs| && t != u
    requires u < |s.pcs| && s.pcs[u] == Idle && IsStart(op)
    requires WellFormed(ApplyGoto(s, u, op)) && Enabled(ApplyGoto(s, u, op), step)
    requires (step.LoadBegin? || step.DeleteNonResident?) && step.t == u
    ensures Beside(s, ApplyUnderMutex(ApplyGoto(s, u, op), step), t, p, v, h, Touches(op, step, p))
  {
    ReservedEntry(s, p);
  }

  lemma PlainStepBeside(s: State, t: ThreadId, p: PageId, v: PageId, h: FrameId, u: ThreadId, op: Pc, step: Step)
    requires Inv(s) && p in s.reserved && t < |s.pcs| && t != u
    requires u < |s.pcs| && s.pcs[u] == Idle && IsStart(op)
    requires WellFormed(ApplyGoto(s, u, op)) && Enabled(ApplyGoto(s, u, op), step)
    requires (step.ReserveId? || step.NoIdLeft? || step.ReturnAtOnce?) && step.t == u
    ensures Beside(s, ApplyUnderMutex(ApplyGoto(s, u, op), step), t, p, v, h, false)
  {
    ReservedEntry(s, p);
  }

  lemma WaitStepBeside(s: State, t: ThreadId, p: PageId, v: PageId, h: FrameId, u: ThreadId, op: Pc, step: Step)
    requires Inv(s) && p in s.reserved && t < |s.pcs| && t != u
    requires u < |s.pcs| && s.pcs[u] == Idle && IsStart(op)
    requires WellFormed(ApplyGoto(s, u, op)) && Enabled(ApplyGoto(s, u, op), step)
    requires (step.WaitForFrame? || step.WaitForPage? || step.NoFrame?) && step.t == u
    ensures Beside(s, ApplyUnderMutex(ApplyGoto(s, u, op), step), t, p, v, h, false)
  {
    ReservedEntry(s, p);
  }

  lemma EvictBeside(s: State, t: ThreadId, p: PageId, v: PageId, h: FrameId, u: ThreadId, op: Pc, f: FrameId)
    requires Inv(s) && p in s.reserved && t < |s.pcs| && t != u
    requires u < |s.pcs| && s.pcs[u] == Idle && IsStart(op)
    requires WellFormed(ApplyGoto(s, u, op)) && CanEvictBegin(ApplyGoto(s, u, op), u, f)
    ensures Beside(s, ApplyEvictBegin(ApplyGoto(s, u, op), u, f), t, p, v, h, false)
  {
    ReservedEntry(s, p);
    VictimFacts(s, f);
  }

  lemma PinStepWellFormed(s: State, step: Step)
    requires WellFormed(s) && Enabled(s, step) && (step.FetchHit? || step.FlushBegin?)
    ensures WellFormed(ApplyUnderMutex(s, step))
  {
  }

  lemma TakingStepWellFormed(s: State, step: Step)
    requires WellFormed(s) && Enabled(s, step) && (step.LoadBegin? || step.EvictBegin?)
    ensures WellFormed(ApplyUnderMutex(s, step))
  {
  }

  lemma TableStepWellFormed(s: State, step: Step)
    requires WellFormed(s) && Enabled(s, step) && (step.ReserveId? || step.DeleteNonResident?)
    ensures WellFormed(ApplyUnderMutex(s, step))
  {
  }

  lemma NoFrameWellFormed(s: State, step: Step)
    requires WellFormed(s) && Enabled(s, step) && step.NoFrame? && s.pcs[step.t].FetchLoop?
    ensures WellFormed(ApplyUnderMutex(s, step))
  {
  }

  lemma DeleteResidentWellFormed(s: State, step: Step)
    requires WellFormed(s) && Enabled(s, step) && step.DeleteResident?
    ensures WellFormed(ApplyUnderMutex(s, step))
  {
  }

  lemma PlainStepWellFormed(s: State, step: Step)
    requires WellFormed(s) && Enabled(s, step)
    requires step.NoIdLeft? || step.ReturnAtOnce? || step.WaitForFrame? || step.WaitForPage? || step.SpuriousWake?
    ensures WellFormed(ApplyUnderMutex(s, step))
  {
  }

  lemma StepWellFormed(s: State, step: Step)
    requires WellFormed(s) && Enabled(s, step) && !OfClient(step) && !InWindow(step) && !step.PublishInFree?
    requires step.NoFrame? ==> step.t < |s.pcs| && s.pcs[step.t].FetchLoop?
    ensures WellFormed(ApplyUnderMutex(s, step))
  {
    hide WellFormed, Enabled, ApplyUnderMutex;
    if step.FetchHit? || step.FlushBegin? {
      PinStepWellFormed(s, step);
    } else if step.DeleteResident? {
      DeleteResidentWellFormed(s, step);
    } else if step.LoadBegin? || step.EvictBegin? {
      TakingStepWellFormed(s, step);
    } else if step.ReserveId? || step.DeleteNonResident? {
      TableStepWellFormed(s, step);
    } else if step.NoFrame? {
      NoFrameWellFormed(s, step);
    } else {
      PlainStepWellFormed(s, step);
    }
  }

  lemma NotPublishing(s: State, u: ThreadId, op: Pc, step: Step)
    requires WellFormed(s) && u < |s.pcs| && IsStart(op) && Enabled(ApplyGoto(s, u, op), step)
    requires !OfClient(step) && !InWindow(step) && step.t == u
    ensures !step.PublishInFree?
    ensures step.NoFrame? ==> u < |ApplyGoto(s, u, op).pcs| && ApplyGoto(s, u, op).pcs[u].FetchLoop?
  {
  }

  lemma StepBeside(s: State, t: ThreadId, p: PageId, v: PageId, h: FrameId, u: ThreadId, op: Pc, step: Step)
    requires Inv(s) && p in s.reserved && t < |s.pcs| && t != u
    requires u < |s.pcs| && s.pcs[u] == Idle && IsStart(op)
    requires WellFormed(ApplyGoto(s, u, op)) && Enabled(ApplyGoto(s, u, op), step)
    requires !OfClient(step) && !InWindow(step) && step.t == u
    ensures Beside(s, ApplyUnderMutex(ApplyGoto(s, u, op), step), t, p, v, h, Touches(op, step, p))
  {
    NotPublishing(s, u, op, step);
    hide Inv, WellFormed, ApplyGoto, ApplyEvictBegin, Beside;
    if step.FetchHit? || step.FlushBegin? {
      PinStepBeside(s, t, p, v, h, u, op, step);
    } else if step.DeleteResident? {
      DeleteResidentBeside(s, t, p, v, h, u, op, step);
    } else if step.EvictBegin? {
      EvictBeside(s, t, p, v, h, u, op, step.f);
    } else if step.LoadBegin? || step.DeleteNonResident? {
      TouchStepBeside(s, t, p, v, h, u, op, step);
    } else if step.WaitForFrame? || step.WaitForPage? || step.NoFrame? {
      WaitStepBeside(s, t, p, v, h, u, op, step);
    } else {
      PlainStepBeside(s, t, p, v, h, u, op, step);
    }
  }

  /** Rule (a), exactly. While a NewPage has released the mutex to empty a frame, its id is
      nonresident like any other. Let another thread begin any operation and take its first
      step. When NewPage comes back it fails on its own page table entry exactly if that
      operation is a Fetch or Delete of the reserved id and has got hold of it, by loading
      or by deleting it. */
  lemma TouchOfReservedIdFaultsExactly(s: State, t: ThreadId, p: PageId, u: ThreadId, op: Pc, step: Step, g: GuardId)
    requires Inv(s) && CanEvictEnd(s, t) && s.pcs[t].req == ForNew(p)
    requires u < |s.pcs| && s.pcs[u] == Idle && IsStart(op)
    requires WellFormed(ApplyGoto(s, u, op)) && Enabled(ApplyGoto(s, u, op), step)
    requires !OfClient(step) && !InWindow(step) && step.t == u
    requires g !in ApplyUnderMutex(ApplyGoto(s, u, op), step).guards
    ensures var x := ApplyUnderMutex(ApplyGoto(s, u, op), step);
            WellFormed(x) && CanEvictDone(x, t, g) && (ApplyEvictDone(x, t, g).fault <==> Touches(op, step, p))
  {
    var x := ApplyUnderMutex(ApplyGoto(s, u, op), step);
    ReservedFacts(s, t, p);
    hide WellFormed, Inv, Enabled, ApplyGoto, ApplyUnderMutex, ApplyEvictDone;
    NotPublishing(s, u, op, step);
    StepWellFormed(ApplyGoto(s, u, op), step);
    StepBeside(s, t, p, s.pcs[t].victim, s.pcs[t].frame, u, op, step);
    ReturnFaultsExactly(x, t, p, g);
  }

  /** The same for a NewPage that has released the mutex to wait for a frame, and finds a
      free one after that step. */
  lemma TouchOfWaitingIdFaultsExactly(s: State, t: ThreadId, p: PageId, u: ThreadId, op: Pc, step: Step,
                                      f: FrameId, g: GuardId)
    requires Inv(s) && t < |s.pcs| && s.pcs[t] == NewLoop(p)
    requires u < |s.pcs| && s.pcs[u] == Idle && IsStart(op)
    requires WellFormed(ApplyGoto(s, u, op)) && Enabled(ApplyGoto(s, u, op), step)
    requires !OfClient(step) && !InWindow(step) && step.t == u
    requires CanPublish(ApplyUnderMutex(ApplyGoto(s, u, op), step), t, f, g)
    ensures var x := ApplyUnderMutex(ApplyGoto(s, u, op), step);
            WellFormed(x) && (ApplyPublish(x, t, f, g).fault <==> Touches(op, step, p))
  {
    assert ThreadOk(s, t);
    ReservedEntry(s, p);
    hide WellFormed, Inv, Enabled, ApplyGoto, ApplyUnderMutex;
    NotPublishing(s, u, op, step);
    StepWellFormed(ApplyGoto(s, u, op), step);
    StepBeside(s, t, p, 0, 0, u, op, step);
  }

  // ----- Rule (a): ids that are given out again -----

  /** NewPage on its way with id `p`: the page in `f` is evicting, and written if dirty. */
  function Away(s: State, t: ThreadId, p: PageId, f: FrameId): State
    requires t < |s.pcs| && f < |s.meta| && f < |s.mem| && |s.disk| == |s.table|
    requires s.meta[f].page.Some? && s.meta[f].page.value < |s.table|
  {
    var m := s.meta[f];
    var v := m.page.value;
    s.(table := s.table[v := Entry(Evicting, Some(f))],
       meta := s.meta[f := m.(state := EvictingFrame)],
       tracked := R.Remove(s.tracked, f),
       disk := if m.dirty then s.disk[v := s.mem[f]] else s.disk,
       pcs := s.pcs[t := EvictIo(ForNew(p), f, v, m.dirty, m.epoch, Copied(m))],
       owner := s.owner[f := t])
  }

  /** `f` holds a resident, unpinned page. */
  ghost predicate VictimAt(s: State, f: FrameId)
  {
    && f < |s.meta| && f < |s.mem| && |s.disk| == |s.table| && f in s.inUse && R.IsEvictable(s.tracked, f)
    && s.meta[f].page.Some? && s.meta[f].page.value < |s.table|
    && s.meta[f] == FrameMeta(s.meta[f].page, 0, s.meta[f].dirty, s.meta[f].epoch, ResidentFrame)
    && s.table[s.meta[f].page.value] == Entry(Resident, Some(f))
  }

  lemma EvictBeginWellFormed(s: State, t: ThreadId, f: FrameId)
    requires WellFormed(s) && CanEvictBegin(s, t, f) && VictimAt(s, f)
    ensures WellFormed(ApplyEvictBegin(s, t, f))
  {
  }

  /** The steps that lead there. */
  lemma GoesAway(s: State, t: ThreadId, p: PageId, f: FrameId)
    requires WellFormed(s) && !s.fault && CanEvictBegin(s, t, f) && s.pcs[t] == NewLoop(p) && VictimAt(s, f)
    ensures var s1 := ApplyEvictBegin(s, t, f);
            && WellFormed(s1)
            && if s.meta[f].dirty
               then CanEvictChunk(s1, t, PAGE_SIZE) && ApplyEvictChunk(s1, t, PAGE_SIZE) == Away(s, t, p, f)
               else s1 == Away(s, t, p, f)
  {
    EvictBeginWellFormed(s, t, f);
    var v := s.meta[f].page.value;
    hide WellFormed;
    assert Splice(s.disk[v], s.mem[f], 0, PAGE_SIZE) == s.mem[f];
  }

  lemma GoesAwayKeeps(s: State, t: ThreadId, p: PageId, f: FrameId)
    requires Inv(s) && CanEvictBegin(s, t, f) && s.pcs[t] == NewLoop(p)
    ensures VictimAt(s, f) && Inv(Away(s, t, p, f))
  {
    VictimFacts(s, f);
    WellFormedInv(s);
    NoFault(s);
    hide Inv, WellFormed, ApplyEvictBegin, ApplyEvictChunk, Away;
    GoesAway(s, t, p, f);
    EvictBeginKeeps(s, t, f);
    if s.meta[f].dirty { EvictChunkKeeps(ApplyEvictBegin(s, t, f), t, PAGE_SIZE); }
  }

  lemma ReachesAway(s: State, t: ThreadId, p: PageId, f: FrameId)
    requires Reachable(s) && WellFormed(s) && CanEvictBegin(s, t, f) && s.pcs[t] == NewLoop(p) && VictimAt(s, f)
    ensures Reachable(Away(s, t, p, f))
  {
    ReachableInv(s);
    NoFault(s);
    hide Inv, WellFormed, Reachable, ApplyEvictBegin, ApplyEvictChunk, Away;
    GoesAway(s, t, p, f);
    var s1 := ApplyEvictBegin(s, t, f);
    hide CanEvictBegin, CanEvictChunk;
    TakeEvictBegin(s, t, f);
    if s.meta[f].dirty { TakeEvictChunk(s1, t, PAGE_SIZE); }
  }

  lemma TakeEvictBegin(s: State, t: ThreadId, f: FrameId)
    requires Reachable(s) && WellFormed(s) && CanEvictBegin(s, t, f)
    ensures Reachable(ApplyEvictBegin(s, t, f))
  {
    hide Reachable, WellFormed, ApplyEvictBegin;
    Take(s, EvictBegin(t, f), ApplyEvictBegin(s, t, f));
  }

  lemma TakeEvictChunk(s: State, t: ThreadId, n: nat)
    requires Reachable(s) && WellFormed(s) && CanEvictChunk(s, t, n)
    ensures Reachable(ApplyEvictChunk(s, t, n))
  {
    hide Reachable, WellFormed, ApplyEvictChunk;
    Take(s, EvictChunk(t, n), ApplyEvictChunk(s, t, n));
  }

  lemma NoFault(s: State)
    requires Inv(s)
    ensures !s.fault
  {
  }

  /** A Fetch or Delete of `p` by `u` is under way, and `p` is unused. */
  ghost predicate Stale(s: State, u: ThreadId, p: PageId)
  {
    && u < |s.pcs| && u !in s.waiting && (s.pcs[u] == FetchLoop(p) || s.pcs[u] == DeleteLoop(p))
    && PageIs(s, p, Unused)
    && forall v :: 0 <= v < |s.pcs| && v != u ==> Target(s.pcs[v]) != Some(p)
  }

  /** Giving out an id while a Fetch or Delete of its previous life is under way takes the
      pool to the very states that an early Fetch or Delete of the new id leads to, when
      NewPage has to empty a frame. TouchOfReservedIdFaultsExactly says what then follows. */
  lemma ReuseIsAnEarlyTouch(s: State, t: ThreadId, u: ThreadId, p: PageId, f: FrameId)
    requires Inv(s) && t < |s.pcs| && t != u && s.pcs[t] == NewStart && Stale(s, u, p)
    requires NoFreeFrame(s) && f < |s.meta| && R.IsEvictable(s.tracked, f)
    ensures var x := ApplyReserveId(s, t, p); var y := ApplyReserveId(ApplyGoto(s, u, Idle), t, p);
            && WellFormed(x) && !x.fault && CanEvictBegin(x, t, f) && x.pcs[t] == NewLoop(p)
            && VictimAt(x, f) && VictimAt(y, f)
            && Inv(Away(y, t, p, f)) && Away(y, t, p, f).pcs[u] == Idle
            && CanEvictEnd(Away(y, t, p, f), t) && Away(y, t, p, f).pcs[t].req == ForNew(p)
            && Away(x, t, p, f) == ApplyGoto(Away(y, t, p, f), u, s.pcs[u])
  {
    var y := ApplyReserveId(ApplyGoto(s, u, Idle), t, p);
    VictimFacts(s, f);
    NotWaiting(s, t);
    ReuseKeeps(s, t, u, p);
    WellFormedInv(y);
    NoFault(y);
    hide Inv, WellFormed;
    GotoWellFormed(y, u, s.pcs[u]);
    SameButOne(s, t, u, p, f);
    assert CanEvictBegin(y, t, f);
    hide Away;
    GoesAwayKeeps(y, t, p, f);
    AwayShape(y, t, p, f);
  }

  lemma ReuseKeeps(s: State, t: ThreadId, u: ThreadId, p: PageId)
    requires Inv(s) && t < |s.pcs| && t != u && s.pcs[t] == NewStart && Stale(s, u, p)
    ensures Inv(ApplyReserveId(ApplyGoto(s, u, Idle), t, p))
  {
    hide Inv;
    GotoKeeps(s, u, Idle);
    ReserveIdKeeps(ApplyGoto(s, u, Idle), t, p);
  }

  lemma AwayShape(s: State, t: ThreadId, p: PageId, f: FrameId)
    requires t < |s.pcs| && VictimAt(s, f)
    ensures var x := Away(s, t, p, f);
            && |x.pcs| == |s.pcs| && CanEvictEnd(x, t) && x.pcs[t].req == ForNew(p)
            && forall u :: 0 <= u < |x.pcs| && u != t ==> x.pcs[u] == s.pcs[u]
  {
  }

  lemma SameButOne(s: State, t: ThreadId, u: ThreadId, p: PageId, f: FrameId)
    requires t < |s.pcs| && t != u && Stale(s, u, p) && VictimAt(s, f)
    ensures var x := ApplyReserveId(s, t, p); var y := ApplyReserveId(ApplyGoto(s, u, Idle), t, p);
            && x == ApplyGoto(y, u, s.pcs[u]) && VictimAt(x, f) && VictimAt(y, f)
            && Away(x, t, p, f) == ApplyGoto(Away(y, t, p, f), u, s.pcs[u])
  {
    var y := ApplyReserveId(ApplyGoto(s, u, Idle), t, p);
    var x := ApplyReserveId(s, t, p);
    assert x.pcs == y.pcs[u := s.pcs[u]];
    assert Away(x, t, p, f).pcs == Away(y, t, p, f).pcs[u := s.pcs[u]];
  }

  lemma NotWaiting(s: State, t: ThreadId)
    requires Inv(s) && t < |s.pcs| && !IsLoop(s.pcs[t])
    ensures t !in s.waiting
  {
  }

  // ----- Rule (b): changes that are not marked -----

  lemma DropGuardWellFormed(s: State, g: GuardId)
    requires WellFormed(s) && g in s.guards
    ensures WellFormed(ApplyDropGuard(s, g))
  {
  }

  /** Rule (b), exactly. Dropping a guard on a clean frame whose bytes differ from the file
      leaves the frame clean but not on disk precisely if this guard was the only one with
      an unmarked change; the next eviction then loses the change. */
  lemma UnmarkedDropLosesChange(s: State, g: GuardId)
    requires Inv(s) && g in s.guards
    ensures WellFormed(ApplyDropGuard(s, g))
    ensures var f := s.guards[g].frame; var p := s.guards[g].page;
            && f < |s.meta| && p < |s.disk| && f < |s.mem|
            && (!s.meta[f].dirty && s.mem[f] != s.disk[p] ==>
                  (!CleanOnDisk(ApplyDropGuard(s, g), f)
                   <==> forall h :: h in s.guards && s.guards[h].frame == f && s.guards[h].unmarked ==> h == g))
  {
    DropGuardWellFormed(s, g);
    assert GuardOk(s, g);
    assert FrameOk(s, s.guards[g].frame);
    hide WellFormed;
    var f := s.guards[g].frame;
    var p := s.guards[g].page;
    var s1 := ApplyDropGuard(s, g);
    if !s.meta[f].dirty && s.mem[f] != s.disk[p] {
      if Agrees(s.mem[f], s.disk[p], PAGE_SIZE) { AgreesAll(s.mem[f], s.disk[p]); }
      if forall h :: h in s.guards && s.guards[h].frame == f && s.guards[h].unmarked ==> h == g {
        assert AllMarked(s1.guards, f);
      } else {
        var h :| h in s.guards && s.guards[h].frame == f && s.guards[h].unmarked && h != g;
        assert s1.guards[h].unmarked;
      }
    }
  }

  // ----- Rule (c): pins and epochs at the end of their range -----

  lemma FlushBeginWellFormed(s: State, t: ThreadId)
    requires WellFormed(s) && CanFlushBegin(s, t)
    ensures WellFormed(ApplyFlushBegin(s, t))
  {
  }

  lemma FlushChunkWellFormed(s: State, t: ThreadId, n: nat)
    requires WellFormed(s) && CanFlushChunk(s, t, n)
    ensures WellFormed(ApplyFlushChunk(s, t, n))
  {
  }

  /** FlushPage increments the pin count without looking at its limit. At the limit the
      count wraps to zero, and the flush ends in "pin count underflow", whether its write
      fails or succeeds; below the limit it does not. */
  lemma FlushPinsExactly(s: State, t: ThreadId)
    requires Inv(s) && CanFlushBegin(s, t)
    ensures var s1 := ApplyFlushBegin(s, t);
            var full := s.meta[s.table[s.pcs[t].page].frame.value].pins == MAX_PINS;
            && WellFormed(s1) && CanFlushFail(s1, t) && (ApplyFlushFail(s1, t).fault <==> full)
            && CanFlushChunk(s1, t, PAGE_SIZE)
            && var s2 := ApplyFlushChunk(s1, t, PAGE_SIZE);
               WellFormed(s2) && CanFlushDone(s2, t) && (ApplyFlushDone(s2, t).fault <==> full)
  {
    FlushBeginWellFormed(s, t);
    FlushChunkWellFormed(ApplyFlushBegin(s, t), t, PAGE_SIZE);
    EntryFacts(s, s.pcs[t].page);
    NoFault(s);
    hide Inv, WellFormed;
  }

  /** `n` calls of MarkDirty on one guard. */
  function Marked(s: State, g: GuardId, n: nat): State
    requires g in s.guards && s.guards[g].frame < |s.meta|
  {
    var f := s.guards[g].frame;
    if n == 0 then s else
      s.(meta := s.meta[f := s.meta[f].(dirty := true, epoch := (s.meta[f].epoch + n) % (MAX_EPOCH + 1))],
         guards := s.guards[g := s.guards[g].(unmarked := false)])
  }

  lemma MarkedWellFormed(s: State, g: GuardId, n: nat)
    requires WellFormed(s) && g in s.guards
    ensures WellFormed(Marked(s, g, n))
  {
  }

  lemma EpochWraps(e: nat, n: nat)
    requires e <= MAX_EPOCH
    ensures NextEpoch((e + n) % (MAX_EPOCH + 1)) == (e + n + 1) % (MAX_EPOCH + 1)
    ensures (e + n) % (MAX_EPOCH + 1) == e <==> n % (MAX_EPOCH + 1) == 0
  {
  }

  /** The calls do what Marked says, one after the other. */
  lemma MarksAddUp(s: State, g: GuardId, n: nat)
    requires Inv(s) && g in s.guards && s.guards[g].frame < |s.meta| && s.meta[s.guards[g].frame].epoch <= MAX_EPOCH
    ensures WellFormed(Marked(s, g, n)) && g in Marked(s, g, n).guards
    ensures ApplyMarkDirty(Marked(s, g, n), g) == Marked(s, g, n + 1)
  {
    assert GuardOk(s, g);
    NoFault(s);
    MarkedWellFormed(s, g, n);
    hide Inv, WellFormed;
    EpochWraps(s.meta[s.guards[g].frame].epoch, n);
    assert ApplyMarkDirty(Marked(s, g, n), g).guards == Marked(s, g, n + 1).guards;
    assert ApplyMarkDirty(Marked(s, g, n), g).meta == Marked(s, g, n + 1).meta;
  }

  /** Rule (c) for epochs, exactly. Let a flush have written its page, and let a client then
      mark the page `n` times before the flush takes the mutex again. The flush overlooks
      the marks, clears the dirty flag, and leaves the page clean but not on disk exactly if
      `n` is a multiple of 2 to the 64. */
  lemma EpochComparesExactly(s: State, t: ThreadId, g: GuardId, n: nat)
    requires Inv(s) && CanFlushDone(s, t) && g in s.guards && s.guards[g].frame == s.pcs[t].frame && n > 0
    requires s.pcs[t].frame < |s.meta| && s.meta[s.pcs[t].frame].epoch == s.pcs[t].epoch <= MAX_EPOCH
    requires forall h :: h in s.guards && h != g && s.guards[h].frame == s.pcs[t].frame ==> !s.guards[h].unmarked
    requires s.pcs[t].page < |s.disk| && s.pcs[t].frame < |s.mem| && s.mem[s.pcs[t].frame] != s.disk[s.pcs[t].page]
    ensures var x := Marked(s, g, n); var f := s.pcs[t].frame;
            && WellFormed(x) && CanFlushDone(x, t) && WellFormed(ApplyFlushDone(x, t))
            && (ApplyFlushDone(x, t).meta[f].dirty <==> n % (MAX_EPOCH + 1) != 0)
            && (CleanOnDisk(ApplyFlushDone(x, t), f) <==> n % (MAX_EPOCH + 1) != 0)
  {
    assert ThreadOk(s, t) && GuardOk(s, g);
    var f := s.pcs[t].frame;
    MarkedWellFormed(s, g, n);
    var x := Marked(s, g, n);
    FlushDoneWellFormed(x, t);
    hide Inv, WellFormed;
    EpochWraps(s.meta[f].epoch, n);
    assert AllMarked(x.guards, f);
    if Agrees(s.mem[f], s.disk[s.pcs[t].page], PAGE_SIZE) { AgreesAll(s.mem[f], s.disk[s.pcs[t].page]); }
  }

  lemma FlushDoneWellFormed(s: State, t: ThreadId)
    requires WellFormed(s) && CanFlushDone(s, t)
    ensures WellFormed(ApplyFlushDone(s, t))
  {
  }
}
