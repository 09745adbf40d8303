/** How the operations end: from call to return, what each thread may answer, and when. */
module ProtocolAnswers {
  import opened Common
  import opened PageStates
  import opened Protocol
  import opened ProtocolInvariant
  import opened ProtocolLiveness
  import opened ProtocolSafety
  import opened ProtocolTermination
  import opened ProtocolTheorems
  import opened ProtocolView
  import R = ReplacerContract

  // ----- Program points, by operation -----

  predicate InFetch(pc: Pc, p: PageId)
  {
    pc == FetchLoop(p) || (pc.EvictIo? && pc.req == ForFetch(p)) || (pc.LoadIo? && pc.page == p)
  }

  /** NewPage with the id `p` in hand. */
  predicate InNew(pc: Pc, p: PageId)
  {
    pc == NewLoop(p) || (pc.EvictIo? && pc.req == ForNew(p))
  }

  predicate InFlush(pc: Pc, p: PageId)
  {
    pc == FlushLoop(p) || (pc.FlushIo? && pc.page == p)
  }

  /** The thread that takes the step, if it is not an action on a guard. */
  predicate StepOf(step: Step, t: ThreadId)
  {
    if step.WriteBytes? || step.MarkDirty? || step.DropGuard? then false else step.t == t
  }

  lemma OthersStayWindow(s: State, step: Step, t: ThreadId)
    requires WellFormed(s) && Enabled(s, step) && t < |s.pcs| && InWindow(step) && step.t != t
    ensures |ApplyInWindow(s, step).pcs| == |s.pcs| && ApplyInWindow(s, step).pcs[t] == s.pcs[t]
  {
  }

  lemma OthersStayMutex(s: State, step: Step, t: ThreadId)
    requires WellFormed(s) && Enabled(s, step) && t < |s.pcs| && !OfClient(step) && !InWindow(step) && step.t != t
    ensures |ApplyUnderMutex(s, step).pcs| == |s.pcs| && ApplyUnderMutex(s, step).pcs[t] == s.pcs[t]
  {
    hide WellFormed, Touch;
  }

  lemma OthersStayClient(s: State, step: Step, t: ThreadId)
    requires WellFormed(s) && Enabled(s, step) && t < |s.pcs| && OfClient(step) && !StepOf(step, t)
    ensures |ApplyOfClient(s, step).pcs| == |s.pcs| && ApplyOfClient(s, step).pcs[t] == s.pcs[t]
  {
  }

  /** Nobody moves a thread but itself. */
  lemma OthersStay(s: State, step: Step, t: ThreadId)
    requires WellFormed(s) && Enabled(s, step) && t < |s.pcs| && !StepOf(step, t)
    ensures |Apply(s, step).pcs| == |s.pcs| && Apply(s, step).pcs[t] == s.pcs[t]
  {
    hide WellFormed, Enabled, ApplyOfClient, ApplyInWindow, ApplyUnderMutex;
    if OfClient(step) {
      OthersStayClient(s, step, t);
    } else if InWindow(step) {
      OthersStayWindow(s, step, t);
    } else {
      OthersStayMutex(s, step, t);
    }
  }

  // ----- What an operation may answer -----

  /** The page is in memory, in frame `f`. */
  predicate InFrame(s: State, p: PageId, f: FrameId)
  {
    && p < |s.table| && f < |s.meta| && s.table[p] == Entry(Resident, Some(f))
    && s.meta[f].page == Some(p) && s.meta[f].state == ResidentFrame
  }

  /** A guard on `p` has been made, and shows the bytes. */
  ghost predicate Handed(s: State, x: State, p: PageId, bytes: Page)
  {
    exists g: GuardId, f: FrameId ::
      g !in s.guards && f < |x.mem| && x.guards == s.guards[g := Guard(p, f, false)] && x.mem[f] == bytes
  }

  /** FetchPage returns a guard that shows the page. */
  ghost predicate FetchReturns(s: State, x: State, p: PageId)
    requires WellFormed(s)
  {
    p in View(s) && Handed(s, x, p, View(s)[p])
  }

  /** Why FetchPage throws: the id is out of range, the page does not exist, it is pinned to
      the limit, all frames are pinned, or the disk has failed. */
  ghost predicate FetchThrows(s: State, x: State, t: ThreadId, p: PageId, step: Step)
  {
    && x.guards == s.guards
    && (|| p >= |s.table|
        || s.table[p].state == Unused
        || (exists f: FrameId :: InFrame(s, p, f) && s.meta[f].pins == MAX_PINS)
        || (s.table[p].state == NonResident && AllFramesPinned(s))
        || step == EvictFail(t)
        || step == LoadFail(t))
  }

  lemma LoopOfFetch(s: State, t: ThreadId, p: PageId, step: Step)
    requires Reachable(s) && Inv(s) && Enabled(s, step) && ClientRules(s, step)
    requires t < |s.pcs| && s.pcs[t] == FetchLoop(p) && StepOf(step, t)
    ensures var x := Apply(s, step);
            t < |x.pcs| && (InFetch(x.pcs[t], p)
                            || (x.pcs[t] == Idle && (FetchReturns(s, x, p) || FetchThrows(s, x, t, p, step))))
  {
    hide Reachable;
    var x := Apply(s, step);
    if step.FetchHit? {
      FetchHitReturnsTheMap(s, t, step.g);
      assert Handed(s, x, p, View(s)[p]) by {
        assert x.guards == s.guards[step.g := Guard(p, x.guards[step.g].frame, false)];
      }
    } else if step.NoFrame? {
      NoFrameIsExact(s, t);
    } else if step.ReturnAtOnce? && p < |s.table| && s.table[p].state != Unused {
      assert PageOk(s, p);
      assert InFrame(s, p, s.table[p].frame.value);
    }
  }

  lemma EvictionOfFetch(s: State, t: ThreadId, p: PageId, step: Step)
    requires Inv(s) && Enabled(s, step) && StepOf(step, t)
    requires t < |s.pcs| && s.pcs[t].EvictIo? && s.pcs[t].req == ForFetch(p)
    ensures var x := Apply(s, step);
            t < |x.pcs| && (InFetch(x.pcs[t], p) || (x.pcs[t] == Idle && FetchThrows(s, x, t, p, step)))
  {
  }

  lemma LoadOfFetch(s: State, t: ThreadId, p: PageId, step: Step)
    requires Reachable(s) && WellFormed(s) && Enabled(s, step) && StepOf(step, t)
    requires t < |s.pcs| && s.pcs[t].LoadIo? && s.pcs[t].page == p
    ensures var x := Apply(s, step);
            t < |x.pcs| && (InFetch(x.pcs[t], p)
                            || (x.pcs[t] == Idle && (FetchReturns(s, x, p) || FetchThrows(s, x, t, p, step))))
  {
    hide Reachable;
    var x := Apply(s, step);
    if step.LoadDone? {
      LoadReturnsTheMap(s, t, step.g);
      assert x.guards == s.guards[step.g := Guard(p, x.guards[step.g].frame, false)];
    }
  }

  /** A FetchPage of `p` that is under way is still a FetchPage of `p` after any step of any
      thread, or it has returned a new guard that shows the page's contents, or it has
      thrown for one of the reasons above. */
  lemma FetchAnswers(s: State, step: Step, t: ThreadId, p: PageId)
    requires Reachable(s) && WellFormed(s) && Enabled(s, step) && ClientRules(s, step)
    requires t < |s.pcs| && InFetch(s.pcs[t], p)
    ensures var x := Apply(s, step);
            t < |x.pcs| && (InFetch(x.pcs[t], p)
                            || (x.pcs[t] == Idle && (FetchReturns(s, x, p) || FetchThrows(s, x, t, p, step))))
  {
    ReachableInv(s);
    hide Reachable, Inv, WellFormed, Enabled, ClientRules, Apply, FetchReturns, FetchThrows;
    if !StepOf(step, t) {
      OthersStay(s, step, t);
    } else if s.pcs[t] == FetchLoop(p) {
      LoopOfFetch(s, t, p, step);
    } else if s.pcs[t].EvictIo? {
      EvictionOfFetch(s, t, p, step);
    } else {
      LoadOfFetch(s, t, p, step);
    }
  }

  // ----- NewPage -----

  /** NewPage returns a guard on a page of zeros, under an id that no page had. */
  ghost predicate NewReturns(s: State, x: State, p: PageId)
    requires WellFormed(s)
  {
    p < |s.table| && p !in View(s) && Handed(s, x, p, ZeroPage())
  }

  /** NewPage throws: all frames are pinned, or the disk has failed. The id is given back. */
  ghost predicate NewThrows(s: State, x: State, t: ThreadId, p: PageId, step: Step)
  {
    && x.guards == s.guards && p < |x.table| && x.table[p] == UNUSED_ENTRY && p !in x.reserved
    && (AllFramesPinned(s) || step == EvictFail(t))
  }

  lemma StartOfNew(s: State, t: ThreadId, step: Step)
    requires Inv(s) && Enabled(s, step) && t < |s.pcs| && s.pcs[t] == NewStart && StepOf(step, t)
    ensures var x := Apply(s, step);
            && t < |x.pcs| && x.guards == s.guards
            && (|| (x.pcs[t].NewLoop? && PageIs(s, x.pcs[t].page, Unused) && x.pcs[t].page in x.reserved)
                || (x.pcs[t] == Idle && forall p :: 0 <= p < |s.table| ==> s.table[p].state != Unused))
  {
    NotWaitingAtStart(s, t);
  }

  lemma NotWaitingAtStart(s: State, t: ThreadId)
    requires Inv(s) && t < |s.pcs| && s.pcs[t] == NewStart
    ensures t !in s.waiting
  {
  }

  lemma ReservedNotInView(s: State, p: PageId)
    requires Inv(s) && p in s.reserved
    ensures p < |s.table| && s.table[p] == NON_RESIDENT_ENTRY && p !in View(s)
  {
    assert PageOk(s, p);
  }

  lemma LoopOfNew(s: State, t: ThreadId, p: PageId, step: Step)
    requires Reachable(s) && Inv(s) && Enabled(s, step) && StepOf(step, t)
    requires t < |s.pcs| && s.pcs[t] == NewLoop(p)
    ensures var x := Apply(s, step);
            t < |x.pcs| && (InNew(x.pcs[t], p)
                            || (x.pcs[t] == Idle && (NewReturns(s, x, p) || NewThrows(s, x, t, p, step))))
  {
    assert ThreadOk(s, t);
    ReservedNotInView(s, p);
    hide Reachable;
    var x := Apply(s, step);
    if step.NoFrame? {
      NoFrameIsExact(s, t);
    } else if step.PublishInFree? {
      assert x.guards == s.guards[step.g := Guard(p, step.f, false)] && x.mem[step.f] == ZeroPage();
    }
  }

  lemma EvictionOfNew(s: State, t: ThreadId, p: PageId, step: Step)
    requires Inv(s) && Enabled(s, step) && StepOf(step, t)
    requires t < |s.pcs| && s.pcs[t].EvictIo? && s.pcs[t].req == ForNew(p)
    ensures var x := Apply(s, step);
            t < |x.pcs| && (InNew(x.pcs[t], p)
                            || (x.pcs[t] == Idle && (NewReturns(s, x, p) || NewThrows(s, x, t, p, step))))
  {
    assert ThreadOk(s, t) && PageOk(s, s.pcs[t].victim) && FrameOk(s, s.pcs[t].frame);
    ReservedNotInView(s, p);
    var x := Apply(s, step);
    if step.EvictDone? {
      var f := s.pcs[t].frame;
      assert x.guards == s.guards[step.g := Guard(p, f, false)] && x.mem[f] == ZeroPage();
    }
  }

  /** A NewPage that has not got an id yet takes an unused one, or throws because there is
      none. */
  lemma NewStartAnswers(s: State, step: Step, t: ThreadId)
    requires Reachable(s) && WellFormed(s) && Enabled(s, step) && t < |s.pcs| && s.pcs[t] == NewStart
    ensures var x := Apply(s, step);
            t < |x.pcs| && (|| x.pcs[t] == NewStart
                            || (x.pcs[t].NewLoop? && PageIs(s, x.pcs[t].page, Unused) && x.pcs[t].page in x.reserved)
                            || (x.pcs[t] == Idle && x.guards == s.guards
                                && forall q :: 0 <= q < |s.table| ==> s.table[q].state != Unused))
  {
    ReachableInv(s);
    hide Reachable, Inv, WellFormed, Enabled, Apply;
    if StepOf(step, t) { StartOfNew(s, t, step); } else { OthersStay(s, step, t); }
  }

  /** A NewPage with an id is still under way with that id after any step of any thread, or
      it has returned a new guard on a page of zeros, or it has thrown and given the id
      back, because all frames are pinned or the disk has failed. */
  lemma NewAnswers(s: State, step: Step, t: ThreadId, p: PageId)
    requires Reachable(s) && WellFormed(s) && Enabled(s, step) && t < |s.pcs| && InNew(s.pcs[t], p)
    ensures var x := Apply(s, step);
            t < |x.pcs| && (InNew(x.pcs[t], p)
                            || (x.pcs[t] == Idle && (NewReturns(s, x, p) || NewThrows(s, x, t, p, step))))
  {
    ReachableInv(s);
    hide Reachable, Inv, WellFormed, Enabled, Apply, NewReturns, NewThrows;
    if !StepOf(step, t) {
      OthersStay(s, step, t);
    } else if s.pcs[t] == NewLoop(p) {
      LoopOfNew(s, t, p, step);
    } else {
      EvictionOfNew(s, t, p, step);
    }
  }

  // ----- FlushPage -----

  /** Some holder has changed the page and not called MarkDirty yet. */
  ghost predicate Unmarked(s: State, p: PageId)
  {
    exists g :: g in s.guards && s.guards[g].page == p && s.guards[g].unmarked
  }

  ghost predicate OnDisk(s: State, p: PageId)
    requires WellFormed(s)
  {
    p in View(s) && p < |s.disk| && s.disk[p] == View(s)[p]
  }

  lemma UnmarkedOnFrame(s: State, p: PageId, f: FrameId)
    requires Inv(s) && InFrame(s, p, f)
    ensures Unmarked(s, p) <==> !AllMarked(s.guards, f)
  {
    if g :| g in s.guards && s.guards[g].page == p && s.guards[g].unmarked {
      assert GuardOk(s, g);
      assert FrameOk(s, s.guards[g].frame) && FrameOk(s, f);
    }
    if g :| g in s.guards && s.guards[g].frame == f && s.guards[g].unmarked {
      assert GuardOk(s, g);
    }
  }

  /** A page that is nonresident, or clean without unmarked changes, is on disk. */
  lemma NothingToFlush(s: State, p: PageId)
    requires Inv(s) && p in View(s) && !Unmarked(s, p)
    requires PageIs(s, p, NonResident) || (exists f: FrameId :: InFrame(s, p, f) && !s.meta[f].dirty)
    ensures OnDisk(s, p)
  {
    if f: FrameId :| InFrame(s, p, f) && !s.meta[f].dirty {
      UnmarkedOnFrame(s, p, f);
      assert FrameOk(s, f);
      AgreesAll(s.mem[f], s.disk[p]);
    }
  }

  /** Why FlushPage throws: the id is out of range, the page does not exist, or the disk has
      failed. */
  predicate FlushThrows(s: State, t: ThreadId, p: PageId, step: Step)
  {
    p >= |s.table| || s.table[p].state == Unused || step == FlushFail(t)
  }

  /** FlushPage returns without having written: the page has not been published yet, or it
      is on disk or somebody has an unmarked change. */
  ghost predicate NoNeedToFlush(s: State, p: PageId)
    requires WellFormed(s)
  {
    p !in View(s) || OnDisk(s, p) || Unmarked(s, p)
  }

  lemma EndedFlush(s: State, p: PageId)
    requires Inv(s) && p < |s.table| && s.table[p].state != Unused && ReturnsAtOnce(s, FlushLoop(p))
    ensures NoNeedToFlush(s, p)
  {
    assert PageOk(s, p);
    if p in View(s) && !Unmarked(s, p) {
      if s.table[p].state == Resident {
        assert InFrame(s, p, s.table[p].frame.value) && !s.meta[s.table[p].frame.value].dirty;
      }
      NothingToFlush(s, p);
    }
  }

  lemma LoopOfFlush(s: State, t: ThreadId, p: PageId, step: Step)
    requires Inv(s) && Enabled(s, step) && StepOf(step, t) && t < |s.pcs| && s.pcs[t] == FlushLoop(p)
    ensures var x := Apply(s, step);
            t < |x.pcs| && (InFlush(x.pcs[t], p)
                            || (x.pcs[t] == Idle && (FlushThrows(s, t, p, step) || NoNeedToFlush(s, p))))
  {
    if step.ReturnAtOnce? && p < |s.table| && s.table[p].state != Unused {
      EndedFlush(s, p) by { hide *; }
    }
    hide Inv, NoNeedToFlush;
  }

  /** A write that has come to its end: if the dirty epoch stands where the flush found it
      and nothing is unmarked, the page is on disk, and clean. */
  ghost predicate Flushed(s: State, x: State, p: PageId, f: FrameId, epoch: nat)
    requires WellFormed(s)
  {
    && InFrame(s, p, f) && InFrame(x, p, f)
    && (s.meta[f].epoch == epoch ==> !x.meta[f].dirty && (OnDisk(s, p) || Unmarked(s, p)))
    && (s.meta[f].epoch != epoch ==> x.meta[f].dirty == s.meta[f].dirty)
    && x.disk == s.disk && x.mem == s.mem && x.guards == s.guards
  }

  lemma DoneOfFlush(s: State, t: ThreadId)
    requires Inv(s) && CanFlushDone(s, t)
    ensures Flushed(s, ApplyFlushDone(s, t), s.pcs[t].page, s.pcs[t].frame, s.pcs[t].epoch)
    ensures ApplyFlushDone(s, t).pcs == s.pcs[t := Idle]
  {
    var p := s.pcs[t].page;
    var f := s.pcs[t].frame;
    FlushFrame(s, t);
    assert ThreadOk(s, t);
    if !Unmarked(s, p) && s.meta[f].epoch == s.pcs[t].epoch {
      UnmarkedOnFrame(s, p, f) by { hide *; }
      FrameInView(s, p, f);
      AgreesAll(s.mem[f], s.disk[p]);
    }
    hide Inv, ThreadOk;
  }

  /** What the map of pages says about a page that is in memory. */
  lemma FrameInView(s: State, p: PageId, f: FrameId)
    requires Inv(s) && InFrame(s, p, f)
    ensures p in View(s) && View(s)[p] == s.mem[f]
  {
    assert PageOk(s, p);
  }

  lemma WriteOfFlush(s: State, t: ThreadId, p: PageId, step: Step)
    requires Inv(s) && Enabled(s, step) && StepOf(step, t) && t < |s.pcs| && s.pcs[t].FlushIo? && s.pcs[t].page == p
    ensures var x := Apply(s, step);
            t < |x.pcs| && (InFlush(x.pcs[t], p)
                            || (x.pcs[t] == Idle
                                && (FlushThrows(s, t, p, step)
                                    || Flushed(s, x, p, s.pcs[t].frame, s.pcs[t].epoch))))
  {
    if step.FlushDone? {
      DoneOfFlush(s, t) by { hide *; }
    }
    hide Inv, Flushed, ApplyFlushDone;
  }

  /** A FlushPage of `p` that is under way still is after any step of any thread, or it has
      thrown for a reason above, or it has returned: either without a write, and then there
      was no need for one, or with the page on disk and clean unless somebody has changed
      it meanwhile. */
  lemma FlushAnswers(s: State, step: Step, t: ThreadId, p: PageId)
    requires Reachable(s) && WellFormed(s) && Enabled(s, step) && t < |s.pcs| && InFlush(s.pcs[t], p)
    ensures var x := Apply(s, step);
            t < |x.pcs| && (|| InFlush(x.pcs[t], p)
                            || (x.pcs[t] == Idle
                                && (|| FlushThrows(s, t, p, step)
                                    || (s.pcs[t].FlushLoop? && NoNeedToFlush(s, p))
                                    || (s.pcs[t].FlushIo? && Flushed(s, x, p, s.pcs[t].frame, s.pcs[t].epoch)))))
  {
    ReachableInv(s);
    hide Reachable, Inv, WellFormed, Enabled, Apply, FlushThrows, NoNeedToFlush, Flushed;
    if !StepOf(step, t) {
      OthersStay(s, step, t);
    } else if s.pcs[t] == FlushLoop(p) {
      LoopOfFlush(s, t, p, step);
    } else {
      WriteOfFlush(s, t, p, step);
    }
  }

  lemma BeginOfFlush(s: State, t: ThreadId)
    requires Inv(s) && CanFlushBegin(s, t) && ClientRules(s, FlushBegin(t))
    ensures var b := ApplyFlushBegin(s, t); var p := s.pcs[t].page; var f := s.table[p].frame.value;
            && Inv(b) && InFrame(s, p, f) && t < |b.pcs| && f < |b.meta|
            && b.pcs[t] == FlushIo(p, f, b.meta[f].epoch, 0)
  {
    FlushBeginKeeps(s, t, s.pcs[t].page, s.table[s.pcs[t].page].frame.value);
    assert PageOk(s, s.pcs[t].page);
    hide Inv;
  }

  /** From the beginning of a flush to its end: if nobody marks the frame in between and
      nothing is unmarked in the end, the page is on disk and clean when FlushPage returns. */
  lemma FlushMeansOnDisk(s: State, t: ThreadId, steps: seq<Step>)
    requires Inv(s) && CanFlushBegin(s, t) && ClientRules(s, FlushBegin(t))
    requires var b := ApplyFlushBegin(s, t);
             && Legal(b, steps) && StaysInFlush(b, steps, t) && MarksIn(b, steps, b.pcs[t].frame) == 0
    requires var e := Execute(ApplyFlushBegin(s, t), steps); CanFlushDone(e, t) && !Unmarked(e, s.pcs[t].page)
    ensures var e := Execute(ApplyFlushBegin(s, t), steps); var p := s.pcs[t].page;
            && WellFormed(e) && OnDisk(e, p)
            && (exists f: FrameId :: InFrame(s, p, f) && InFrame(ApplyFlushDone(e, t), p, f)
                                     && !ApplyFlushDone(e, t).meta[f].dirty)
            && ApplyFlushDone(e, t).disk == e.disk && ApplyFlushDone(e, t).mem == e.mem
  {
    var b := ApplyFlushBegin(s, t);
    var e := Execute(b, steps);
    var p := s.pcs[t].page;
    var f := s.table[p].frame.value;
    hide Inv, Legal, Execute, StaysInFlush, MarksIn, ApplyFlushBegin, ApplyFlushDone;
    BeginOfFlush(s, t);
    FlushWindow(b, steps, t);
    RunRefines(b, steps);
    EndOfFlush(e, t);
    assert InFrame(s, p, f) && InFrame(ApplyFlushDone(e, t), p, f);
  }

  lemma EndOfFlush(e: State, t: ThreadId)
    requires Inv(e) && CanFlushDone(e, t)
    requires e.pcs[t].frame < |e.meta| && e.meta[e.pcs[t].frame].epoch == e.pcs[t].epoch && !Unmarked(e, e.pcs[t].page)
    ensures var p := e.pcs[t].page; var f := e.pcs[t].frame;
            && OnDisk(e, p) && InFrame(e, p, f)
            && InFrame(ApplyFlushDone(e, t), p, f) && !ApplyFlushDone(e, t).meta[f].dirty
            && ApplyFlushDone(e, t).disk == e.disk && ApplyFlushDone(e, t).mem == e.mem
  {
    hide Inv, ApplyFlushDone;
    DoneOfFlush(e, t);
  }

  // ----- DeletePage -----

  /** DeletePage has removed the page and nothing else. */
  ghost predicate DeleteReturns(s: State, x: State, p: PageId)
    requires WellFormed(s) && WellFormed(x)
  {
    && PageIs(x, p, Unused) && View(x) == View(s) - {p}
    && x.guards == s.guards && (PageIs(s, p, Unused) || p in View(s))
  }

  /** DeletePage throws: the id is out of range, or the page is in memory and pinned. */
  ghost predicate DeleteThrows(s: State, x: State, p: PageId)
    requires WellFormed(s) && WellFormed(x)
  {
    && View(x) == View(s) && x.guards == s.guards && x.table == s.table
    && (p >= |s.table| || exists f: FrameId :: InFrame(s, p, f) && s.meta[f].pins > 0)
  }

  lemma EndedDelete(s: State, t: ThreadId, p: PageId)
    requires Inv(s) && AtLoop(s, t) && s.pcs[t] == DeleteLoop(p) && ReturnsAtOnce(s, DeleteLoop(p))
    requires WellFormed(ApplyGoto(s, t, Idle)) && View(ApplyGoto(s, t, Idle)) == View(s)
    ensures DeleteReturns(s, ApplyGoto(s, t, Idle), p) || DeleteThrows(s, ApplyGoto(s, t, Idle), p)
  {
    if p < |s.table| && s.table[p].state == Resident {
      assert PageOk(s, p);
      assert InFrame(s, p, s.table[p].frame.value);
    }
    hide Inv;
    if PageIs(s, p, Unused) { assert View(s) - {p} == View(s); }
  }

  lemma LoopOfDelete(s: State, t: ThreadId, p: PageId, step: Step)
    requires Inv(s) && Enabled(s, step) && ClientRules(s, step) && StepOf(step, t)
    requires t < |s.pcs| && s.pcs[t] == DeleteLoop(p)
    requires WellFormed(Apply(s, step)) && Refines(s, Apply(s, step), MapOpOf(s, step))
    ensures var x := Apply(s, step);
            t < |x.pcs| && (x.pcs[t] == DeleteLoop(p)
                            || (x.pcs[t] == Idle && (DeleteReturns(s, x, p) || DeleteThrows(s, x, p))))
  {
    hide Inv;
    if step.ReturnAtOnce? {
      EndedDelete(s, t, p);
      hide DeleteReturns, DeleteThrows;
    }
    hide DeleteThrows, View;
  }

  /** A DeletePage of `p` that is under way still is after any step of any thread, or it has
      removed the page, which may not have existed in the first place, or it has refused. */
  lemma DeleteAnswers(s: State, step: Step, t: ThreadId, p: PageId)
    requires Reachable(s) && WellFormed(s) && Enabled(s, step) && ClientRules(s, step)
    requires t < |s.pcs| && s.pcs[t] == DeleteLoop(p)
    ensures var x := Apply(s, step);
            && WellFormed(x) && t < |x.pcs|
            && (x.pcs[t] == DeleteLoop(p)
                || (x.pcs[t] == Idle && (DeleteReturns(s, x, p) || DeleteThrows(s, x, p))))
  {
    ReachableInv(s);
    StepRefines(s, step);
    assert WellFormed(Apply(s, step));
    hide Reachable, Inv, WellFormed, Enabled, ClientRules, Apply, Refines, DeleteReturns, DeleteThrows;
    if StepOf(step, t) { LoopOfDelete(s, t, p, step); } else { OthersStay(s, step, t); }
  }

  // ----- Every call gets its answer -----

  /** The call that a thread is in, named by its beginning. */
  function Call(pc: Pc): Pc
  {
    match pc
    case NewLoop(_) => NewStart
    case EvictIo(ForNew(_), _, _, _, _, _) => NewStart
    case EvictIo(ForFetch(p), _, _, _, _, _) => FetchLoop(p)
    case LoadIo(p, _, _) => FetchLoop(p)
    case FlushIo(p, _, _, _) => FlushLoop(p)
    case _ => pc
  }

  /** The step ends the call that thread `t` is in, in one of the ways above. */
  ghost predicate Answered(s: State, x: State, t: ThreadId, step: Step)
    requires WellFormed(s) && WellFormed(x)
  {
    && t < |s.pcs| && t < |x.pcs| && x.pcs[t] == Idle
    && match s.pcs[t]
       case Idle => false
       case NewStart => x.guards == s.guards && forall q :: 0 <= q < |s.table| ==> s.table[q].state != Unused
       case NewLoop(p) => NewReturns(s, x, p) || NewThrows(s, x, t, p, step)
       case EvictIo(ForNew(p), _, _, _, _, _) => NewReturns(s, x, p) || NewThrows(s, x, t, p, step)
       case EvictIo(ForFetch(p), _, _, _, _, _) => FetchReturns(s, x, p) || FetchThrows(s, x, t, p, step)
       case FetchLoop(p) => FetchReturns(s, x, p) || FetchThrows(s, x, t, p, step)
       case LoadIo(p, _, _) => FetchReturns(s, x, p) || FetchThrows(s, x, t, p, step)
       case FlushLoop(p) => FlushThrows(s, t, p, step) || NoNeedToFlush(s, p)
       case FlushIo(p, f, epoch, _) => FlushThrows(s, t, p, step) || Flushed(s, x, p, f, epoch)
       case DeleteLoop(p) => DeleteReturns(s, x, p) || DeleteThrows(s, x, p)
  }

  lemma FetchGoesOn(s: State, step: Step, t: ThreadId)
    requires Reachable(s) && WellFormed(s) && Enabled(s, step) && ClientRules(s, step) && t < |s.pcs|
    requires WellFormed(Apply(s, step)) && Call(s.pcs[t]).FetchLoop?
    ensures var x := Apply(s, step);
            t < |x.pcs| && (Call(x.pcs[t]) == Call(s.pcs[t]) || Answered(s, x, t, step))
  {
    hide Reachable, Inv, WellFormed, Enabled, ClientRules, Apply, FetchReturns, FetchThrows, NewReturns, NewThrows;
    hide FlushThrows, NoNeedToFlush, Flushed, DeleteReturns, DeleteThrows;
    FetchAnswers(s, step, t, Call(s.pcs[t]).page);
  }

  lemma NewGoesOn(s: State, step: Step, t: ThreadId)
    requires Reachable(s) && WellFormed(s) && Enabled(s, step) && ClientRules(s, step) && t < |s.pcs|
    requires WellFormed(Apply(s, step)) && Call(s.pcs[t]) == NewStart
    ensures var x := Apply(s, step);
            t < |x.pcs| && (Call(x.pcs[t]) == Call(s.pcs[t]) || Answered(s, x, t, step))
  {
    hide Reachable, Inv, WellFormed, Enabled, ClientRules, Apply, FetchReturns, FetchThrows, NewReturns, NewThrows;
    hide FlushThrows, NoNeedToFlush, Flushed, DeleteReturns, DeleteThrows;
    match s.pcs[t]
    case NewStart => NewStartAnswers(s, step, t);
    case NewLoop(p) => NewAnswers(s, step, t, p);
    case EvictIo(ForNew(p), _, _, _, _, _) => NewAnswers(s, step, t, p);
  }

  lemma FlushGoesOn(s: State, step: Step, t: ThreadId)
    requires Reachable(s) && WellFormed(s) && Enabled(s, step) && ClientRules(s, step) && t < |s.pcs|
    requires WellFormed(Apply(s, step)) && Call(s.pcs[t]).FlushLoop?
    ensures var x := Apply(s, step);
            t < |x.pcs| && (Call(x.pcs[t]) == Call(s.pcs[t]) || Answered(s, x, t, step))
  {
    hide Reachable, Inv, WellFormed, Enabled, ClientRules, Apply, FetchReturns, FetchThrows, NewReturns, NewThrows;
    hide FlushThrows, NoNeedToFlush, Flushed, DeleteReturns, DeleteThrows;
    FlushAnswers(s, step, t, Call(s.pcs[t]).page);
  }

  lemma DeleteGoesOn(s: State, step: Step, t: ThreadId)
    requires Reachable(s) && WellFormed(s) && Enabled(s, step) && ClientRules(s, step) && t < |s.pcs|
    requires WellFormed(Apply(s, step)) && s.pcs[t].DeleteLoop?
    ensures var x := Apply(s, step);
            t < |x.pcs| && (Call(x.pcs[t]) == Call(s.pcs[t]) || Answered(s, x, t, step))
  {
    hide Reachable, Inv, WellFormed, Enabled, ClientRules, Apply, FetchReturns, FetchThrows, NewReturns, NewThrows;
    hide FlushThrows, NoNeedToFlush, Flushed, DeleteReturns, DeleteThrows;
    DeleteAnswers(s, step, t, s.pcs[t].page);
  }

  /** Whatever step any thread takes, a call under way goes on or is answered. */
  lemma StepAnswers(s: State, step: Step, t: ThreadId)
    requires Reachable(s) && WellFormed(s) && Enabled(s, step) && ClientRules(s, step)
    requires t < |s.pcs| && s.pcs[t] != Idle
    ensures var x := Apply(s, step);
            WellFormed(x) && t < |x.pcs| && (Call(x.pcs[t]) == Call(s.pcs[t]) || Answered(s, x, t, step))
  {
    ReachableInv(s);
    StepKeeps(s, step);
    assert WellFormed(Apply(s, step));
    hide Reachable, Inv, WellFormed, Enabled, ClientRules, Apply, Answered;
    match Call(s.pcs[t])
    case NewStart => NewGoesOn(s, step, t);
    case FetchLoop(_) => FetchGoesOn(s, step, t);
    case FlushLoop(_) => FlushGoesOn(s, step, t);
    case DeleteLoop(_) => DeleteGoesOn(s, step, t);
  }

  /** In the course of the run the call of thread `t` is answered. */
  ghost predicate GetsAnswer(s: State, steps: seq<Step>, t: ThreadId)
    requires Inv(s) && Legal(s, steps)
    decreases |steps|
  {
    && steps != []
    && (StepKeeps(s, steps[0]);
        var x := Apply(s, steps[0]);
        Answered(s, x, t, steps[0])
        || (t < |x.pcs| && t < |s.pcs| && Call(x.pcs[t]) == Call(s.pcs[t]) && GetsAnswer(x, steps[1..], t)))
  }

  /** A call that is over at the end of a run has been answered in the course of it. */
  lemma {:induction false} OverMeansAnswered(s: State, steps: seq<Step>, t: ThreadId)
    requires Reachable(s) && Inv(s) && Legal(s, steps) && t < |s.pcs| && s.pcs[t] != Idle
    requires t < |Execute(s, steps).pcs| && Call(Execute(s, steps).pcs[t]) != Call(s.pcs[t])
    ensures GetsAnswer(s, steps, t)
    decreases |steps|
  {
    hide Reachable, Inv, WellFormed, Enabled, ClientRules, Apply, Answered;
    assert WellFormed(s);
    StepAnswers(s, steps[0], t);
    StepKeeps(s, steps[0]);
    var x := Apply(s, steps[0]);
    if !Answered(s, x, t, steps[0]) {
      OneStepReachable(s, steps[0]);
      OverMeansAnswered(x, steps[1..], t);
    }
  }

  lemma OneStepReachable(s: State, step: Step)
    requires Reachable(s) && WellFormed(s) && Enabled(s, step) && ClientRules(s, step) && WellFormed(Apply(s, step))
    ensures Reachable(Apply(s, step))
  {
    hide Reachable, WellFormed, Enabled, ClientRules, Apply;
    assert Legal(Apply(s, step), []);
    assert Legal(s, [step]) && Execute(s, [step]) == Apply(s, step);
    StaysReachable(s, [step]);
  }

  /** Left alone, every call in flight gets its answer: where nothing can be brought forward
      any more, each has returned or thrown in one of the ways above. */
  lemma LeftAloneAnswers(s: State, steps: seq<Step>, t: ThreadId)
    requires Reachable(s) && Inv(s) && Legal(s, steps) && forall i :: 0 <= i < |steps| ==> OfPool(steps[i])
    requires WellFormed(Execute(s, steps)) && PinsBelowMax(Execute(s, steps))
    requires forall step :: !CanProceed(Execute(s, steps), step)
    requires t < |s.pcs| && t < |Execute(s, steps).pcs| && s.pcs[t] != Idle
    ensures GetsAnswer(s, steps, t)
  {
    hide Reachable, Inv, WellFormed, Legal, Execute, CanProceed, PinsBelowMax, GetsAnswer;
    LeftAlone(s, steps);
    OverMeansAnswered(s, steps, t);
  }
}
