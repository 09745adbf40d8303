/** What a thread decides when it looks at the shared state with the mutex held: for each
    branch of each operation, exactly when it is taken, said over the page table and the
    frame metadata alone. The code asks the allocator and the replacer as well; in every
    reachable state the answers come to the same. */
module ProtocolDecisions {
  import opened Common
  import opened PageStates
  import opened Protocol
  import opened ProtocolAnswers
  import opened ProtocolInvariant
  import opened ProtocolLiveness
  import opened ProtocolSafety
  import opened ProtocolTheorems
  import R = ReplacerContract

  predicate FrameIs(s: State, f: FrameId, st: FrameState)
  {
    f < |s.meta| && s.meta[f].state == st
  }

  /** No frame is free. */
  ghost predicate Full(s: State)
  {
    forall f :: 0 <= f < |s.meta| ==> s.meta[f].state != Free
  }

  /** A frame whose page may be evicted. */
  predicate Evictable(s: State, f: FrameId)
  {
    FrameIs(s, f, ResidentFrame) && s.meta[f].pins == 0
  }

  /** The allocator and the replacer, in terms of the metadata. */
  lemma FramesInMeta(s: State)
    requires Inv(s)
    ensures forall f: FrameId :: FrameIs(s, f, Free) <==> f < |s.meta| && f !in s.inUse
    ensures forall f: FrameId :: Evictable(s, f) <==> f < |s.meta| && R.IsEvictable(s.tracked, f)
    ensures Full(s) <==> NoFreeFrame(s)
    ensures (forall f: FrameId :: !Evictable(s, f)) <==> NoVictim(s)
  {
    hide PageOk, ThreadOk, GuardOk, WaitersOk, CleanOnDisk;
    forall f: FrameId | f < |s.meta|
      ensures FrameIs(s, f, Free) <==> f !in s.inUse
      ensures Evictable(s, f) <==> R.IsEvictable(s.tracked, f)
    {
      assert FrameOk(s, f);
    }
    if NoFreeFrame(s) {
      forall f | 0 <= f < |s.meta| ensures s.meta[f].state != Free { assert !FrameIs(s, f, Free); }
    }
    if Full(s) {
      forall f | 0 <= f < |s.meta| ensures f in s.inUse { assert !FrameIs(s, f, Free); }
    }
    if NoVictim(s) {
      forall f: FrameId ensures !Evictable(s, f) { }
    }
  }

  predicate OneOf(a: bool, b: bool, c: bool, d: bool)
  {
    (if a then 1 else 0) + (if b then 1 else 0) + (if c then 1 else 0) + (if d then 1 else 0) == 1
  }

  /** Looking for a frame: a free one is taken; without one a page in an unpinned frame is
      evicted; without either the thread waits if some frame is in transit, and throws if
      all frames are pinned. Exactly one of the four applies. */
  lemma AcquireDecides(s: State, t: ThreadId)
    requires Reachable(s) && Acquiring(s, t)
    ensures forall f: FrameId, g: GuardId ::
              CanPublish(s, t, f, g) <==> s.pcs[t].NewLoop? && FrameIs(s, f, Free) && g !in s.guards
    ensures forall f: FrameId :: CanLoadBegin(s, t, f) <==> s.pcs[t].FetchLoop? && FrameIs(s, f, Free)
    ensures forall f: FrameId :: CanEvictBegin(s, t, f) <==> Full(s) && Evictable(s, f)
    ensures CanWaitForFrame(s, t) <==> Full(s) && (forall f: FrameId :: !Evictable(s, f)) && HasTransientFrame(s)
    ensures CanNoFrame(s, t) <==> AllFramesPinned(s)
    ensures OneOf(exists f: FrameId :: FrameIs(s, f, Free), exists f: FrameId :: CanEvictBegin(s, t, f),
                  CanWaitForFrame(s, t), CanNoFrame(s, t))
  {
    ReachableInv(s);
    NoFrameIsExact(s, t);
    FramesInMeta(s);
    assert Full(s) <==> forall f: FrameId :: !FrameIs(s, f, Free);
    hide Reachable, Inv, FrameIs, Evictable, R.IsEvictable;
  }

  lemma ResidentPage(s: State, p: PageId)
    requires Inv(s) && p < |s.table|
    ensures s.table[p].state == Resident ==>
              && ResidentAt(s, p) && MetaConsistent(s, p, s.table[p].frame.value)
              && InFrame(s, p, s.table[p].frame.value)
    ensures forall f: FrameId :: InFrame(s, p, f) ==>
              f < |s.meta| && s.table[p].state == Resident && s.table[p].frame == Some(f)
  {
    assert PageOk(s, p);
  }

  /** FetchPage throws before it looks for a frame exactly if the id is out of range, the page
      is unused, or it is in memory and pinned to the limit. */
  lemma FetchReturnsAtOnce(s: State, t: ThreadId, p: PageId)
    requires Reachable(s) && AtLoop(s, t) && s.pcs[t] == FetchLoop(p)
    ensures Enabled(s, ReturnAtOnce(t)) <==>
            || p >= |s.table| || s.table[p].state == Unused
            || exists f: FrameId :: InFrame(s, p, f) && s.meta[f].pins == MAX_PINS
  {
    ReachableInv(s);
    if p < |s.table| {
      ResidentPage(s, p);
      if s.table[p].state == Resident { assert InFrame(s, p, s.table[p].frame.value); }
    }
    hide Reachable, Inv;
  }

  /** Otherwise it pins a resident page, and looks for a frame for a nonresident one. */
  lemma FetchDecides(s: State, t: ThreadId, p: PageId)
    requires Reachable(s) && AtLoop(s, t) && s.pcs[t] == FetchLoop(p)
    ensures forall g: GuardId :: Enabled(s, FetchHit(t, g)) <==>
              g !in s.guards && exists f: FrameId :: InFrame(s, p, f) && s.meta[f].pins != MAX_PINS
    ensures Acquiring(s, t) <==> p < |s.table| && s.table[p].state == NonResident
  {
    ReachableInv(s);
    if p < |s.table| {
      ResidentPage(s, p);
      if s.table[p].state == Resident { assert InFrame(s, p, s.table[p].frame.value); }
    }
    hide Reachable, Inv;
  }

  /** FlushPage ends without a write exactly if the id is out of range or the page is unused,
      nonresident, or in memory and clean. */
  lemma FlushReturnsAtOnce(s: State, t: ThreadId, p: PageId)
    requires Reachable(s) && AtLoop(s, t) && s.pcs[t] == FlushLoop(p)
    ensures Enabled(s, ReturnAtOnce(t)) <==>
            || p >= |s.table| || s.table[p].state == Unused || s.table[p].state == NonResident
            || exists f: FrameId :: InFrame(s, p, f) && !s.meta[f].dirty
  {
    ReachableInv(s);
    if p < |s.table| {
      ResidentPage(s, p);
      if s.table[p].state == Resident { assert InFrame(s, p, s.table[p].frame.value); }
    }
    hide Reachable, Inv;
  }

  /** It writes a page exactly if it is in memory and dirty. */
  lemma FlushDecides(s: State, t: ThreadId, p: PageId)
    requires Reachable(s) && AtLoop(s, t) && s.pcs[t] == FlushLoop(p)
    ensures Enabled(s, FlushBegin(t)) <==> exists f: FrameId :: InFrame(s, p, f) && s.meta[f].dirty
  {
    ReachableInv(s);
    if p < |s.table| {
      ResidentPage(s, p);
      if s.table[p].state == Resident { assert InFrame(s, p, s.table[p].frame.value); }
    }
    hide Reachable, Inv;
  }

  /** DeletePage ends without a deletion exactly if the id is out of range or the page is
      unused, or in memory and pinned. */
  lemma DeleteReturnsAtOnce(s: State, t: ThreadId, p: PageId)
    requires Reachable(s) && AtLoop(s, t) && s.pcs[t] == DeleteLoop(p)
    ensures Enabled(s, ReturnAtOnce(t)) <==>
            || p >= |s.table| || s.table[p].state == Unused
            || exists f: FrameId :: InFrame(s, p, f) && s.meta[f].pins != 0
  {
    ReachableInv(s);
    if p < |s.table| {
      ResidentPage(s, p);
      if s.table[p].state == Resident { assert InFrame(s, p, s.table[p].frame.value); }
    }
    hide Reachable, Inv;
  }

  /** It deletes a page exactly if it is nonresident, or in memory and not pinned. */
  lemma DeleteDecides(s: State, t: ThreadId, p: PageId)
    requires Reachable(s) && AtLoop(s, t) && s.pcs[t] == DeleteLoop(p)
    ensures Enabled(s, DeleteResident(t)) <==> exists f: FrameId :: InFrame(s, p, f) && s.meta[f].pins == 0
    ensures Enabled(s, DeleteNonResident(t)) <==> p < |s.table| && s.table[p].state == NonResident
  {
    ReachableInv(s);
    if p < |s.table| {
      ResidentPage(s, p);
      if s.table[p].state == Resident { assert InFrame(s, p, s.table[p].frame.value); }
    }
    hide Reachable, Inv;
  }

  /** A fetch that holds the mutex has exactly one way to go: end, wait, pin, or look for a
      frame; and it waits exactly while its page is loading or evicting. */
  lemma FetchOneBranch(s: State, t: ThreadId, p: PageId)
    requires Reachable(s) && AtLoop(s, t) && s.pcs[t] == FetchLoop(p)
    ensures CanWaitForPage(s, t) <==> PageIs(s, p, Loading) || PageIs(s, p, Evicting)
    ensures OneOf(ReturnsAtOnce(s, s.pcs[t]), CanWaitForPage(s, t), exists g :: CanFetchHit(s, t, g),
                  Acquiring(s, t))
  {
    ReachableInv(s);
    if p < |s.table| { ResidentPage(s, p); }
    hide Reachable, Inv;
    var g := FreshGuard(s.guards.Keys);
    assert CanFetchHit(s, t, g) || forall h :: !CanFetchHit(s, t, h);
  }

  /** A flush ends, waits, or writes. */
  lemma FlushOneBranch(s: State, t: ThreadId, p: PageId)
    requires Reachable(s) && AtLoop(s, t) && s.pcs[t] == FlushLoop(p)
    ensures CanWaitForPage(s, t) <==> PageIs(s, p, Loading) || PageIs(s, p, Evicting)
    ensures OneOf(ReturnsAtOnce(s, s.pcs[t]), CanWaitForPage(s, t), CanFlushBegin(s, t), false)
  {
    ReachableInv(s);
    if p < |s.table| { ResidentPage(s, p); }
    hide Reachable, Inv;
  }

  /** A delete ends, waits, or deletes. */
  lemma DeleteOneBranch(s: State, t: ThreadId, p: PageId)
    requires Reachable(s) && AtLoop(s, t) && s.pcs[t] == DeleteLoop(p)
    ensures CanWaitForPage(s, t) <==> PageIs(s, p, Loading) || PageIs(s, p, Evicting)
    ensures OneOf(ReturnsAtOnce(s, s.pcs[t]), CanWaitForPage(s, t), CanDeleteResident(s, t),
                  CanDeleteNonResident(s, t))
  {
    ReachableInv(s);
    if p < |s.table| { ResidentPage(s, p); }
    hide Reachable, Inv;
  }

  /** With its victim gone a FetchPage goes on to load into the frame if its page is still
      nonresident. Otherwise it gives the frame back and starts over; it never ends there. */
  lemma EvictionDecides(s: State, t: ThreadId, p: PageId, g: GuardId)
    requires Reachable(s) && WellFormed(s) && CanEvictDone(s, t, g) && s.pcs[t].req == ForFetch(p)
    ensures var x := ApplyEvictDone(s, t, g); var f := s.pcs[t].frame;
            && t < |x.pcs| && x.guards == s.guards
            && (PageIs(s, p, NonResident) <==> x.pcs[t] == LoadIo(p, f, 0))
            && (!PageIs(s, p, NonResident) <==> x.pcs[t] == FetchLoop(p))
            && (!PageIs(s, p, NonResident) ==> FrameIs(x, f, Free) && f !in x.inUse && t !in x.waiting)
  {
    ReachableInv(s);
    assert ThreadOk(s, t) && FrameOk(s, s.pcs[t].frame) && PageOk(s, s.pcs[t].victim);
    hide Reachable;
  }
}
