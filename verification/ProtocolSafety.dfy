/** What holds in every reachable state. */
module ProtocolSafety {
  import opened Common
  import opened PageStates
  import opened Protocol
  import opened ProtocolInvariant
  import opened ProtocolView
  import opened ProtocolTheorems
  import opened ProtocolWaiting
  import R = ReplacerContract

  /** None of the internal consistency errors is ever thrown: not "inconsistent resident
      page metadata", nor the victim checks, nor a page table, allocator, replacer or pin
      count error. */
  lemma NoInternalError(s: State)
    requires Reachable(s)
    ensures !s.fault
  {
    ReachableInv(s);
  }

  /** No page is ever in two frames, and the page table and the frame metadata agree. */
  lemma OnePageOneFrame(s: State, f1: FrameId, f2: FrameId, p: PageId)
    requires Reachable(s) && f1 < |s.meta| && f2 < |s.meta|
    requires s.meta[f1].page == Some(p) && s.meta[f2].page == Some(p)
    ensures f1 == f2
    ensures p < |s.table| && Mapped(s.table[p]) && s.table[p].frame == Some(f1)
    ensures s.meta[f1].state == FrameStateFor(s.table[p].state)
  {
    ReachableInv(s);
    assert FrameOk(s, f1) && FrameOk(s, f2) && PageOk(s, p);
  }

  /** Four-way agreement: a frame is allocated exactly unless its metadata say free, known
      to the replacer exactly while resident, evictable exactly when also unpinned, and
      named by the page table exactly for the page the metadata name. */
  lemma FourWayAgreement(s: State, f: FrameId)
    requires Reachable(s) && f < |s.meta|
    ensures f in s.inUse <==> s.meta[f].state != Free
    ensures f in s.tracked <==> s.meta[f].state == ResidentFrame
    ensures R.IsEvictable(s.tracked, f) <==> s.meta[f].state == ResidentFrame && s.meta[f].pins == 0
    ensures forall p :: 0 <= p < |s.table| ==>
              (s.table[p].frame == Some(f) <==> s.meta[f].page == Some(p))
  {
    ReachableInv(s);
    assert FrameOk(s, f);
    forall p | 0 <= p < |s.table|
      ensures s.table[p].frame == Some(f) <==> s.meta[f].page == Some(p)
    {
      assert PageOk(s, p);
    }
  }

  /** Pin conservation: the pin count of a frame is the number of guards, flushes in
      flight and loads in flight on it, and no more than a load pins a loading frame. */
  lemma PinConservation(s: State, f: FrameId)
    requires Reachable(s) && f < |s.meta|
    ensures s.meta[f].pins == |GuardsOn(s.guards, f)| + |PinnersOn(s.pcs, f)|
    ensures s.meta[f].pins > 0 ==> s.meta[f].state == ResidentFrame || s.meta[f].state == LoadingFrame
  {
    ReachableInv(s);
    assert FrameOk(s, f);
    if f in s.owner { assert ThreadOk(s, s.owner[f]); }
  }

  /** A live guard's page stays resident in its frame, and the bytes under the guard are
      the page's contents in the map. */
  lemma GuardReadsTheMap(s: State, g: GuardId)
    requires Reachable(s) && g in s.guards
    ensures WellFormed(s) && MetaConsistent(s, s.guards[g].page, s.guards[g].frame)
    ensures s.guards[g].page in View(s) && View(s)[s.guards[g].page] == s.mem[s.guards[g].frame]
    ensures s.meta[s.guards[g].frame].pins > 0
  {
    ReachableInv(s);
    assert GuardOk(s, g);
    assert FrameOk(s, s.guards[g].frame);
    assert PageOk(s, s.guards[g].page);
    HolderPins(s, s.guards[g].frame);
  }

  /** FetchPage of a resident page returns a guard whose bytes are the page's contents. */
  lemma FetchHitReturnsTheMap(s: State, t: ThreadId, g: GuardId)
    requires Reachable(s) && WellFormed(s) && CanFetchHit(s, t, g)
    ensures var s' := ApplyFetchHit(s, t, g); var p := s.pcs[t].page;
            && g in s'.guards && s'.guards[g].page == p && s'.guards[g].frame < |s'.mem|
            && p in View(s) && s'.mem[s'.guards[g].frame] == View(s)[p]
  {
    ReachableInv(s);
    var p := s.pcs[t].page;
    assert ThreadOk(s, t) && PageOk(s, p);
  }

  /** FetchPage of a page it had to load returns a guard whose bytes are the page's
      contents. */
  lemma LoadReturnsTheMap(s: State, t: ThreadId, g: GuardId)
    requires Reachable(s) && WellFormed(s) && CanLoadDone(s, t, g)
    ensures var s' := ApplyLoadDone(s, t, g); var p := s.pcs[t].page;
            && g in s'.guards && s'.guards[g].page == p && s'.guards[g].frame < |s'.mem|
            && p in View(s) && s'.mem[s'.guards[g].frame] == View(s)[p]
  {
    ReachableInv(s);
    var p := s.pcs[t].page;
    assert ThreadOk(s, t) && PageOk(s, p) && FrameOk(s, s.pcs[t].frame);
    AgreesAll(s.mem[s.pcs[t].frame], s.disk[p]);
  }

  /** Clean means on disk: a resident frame that is not dirty holds what the file holds,
      unless somebody has an unmarked change. */
  lemma CleanMeansOnDisk(s: State, f: FrameId, p: PageId)
    requires Reachable(s) && f < |s.meta| && f < |s.mem| && p < |s.disk|
    requires s.meta[f].state == ResidentFrame && s.meta[f].page == Some(p)
    ensures s.meta[f].dirty || !AllMarked(s.guards, f) || s.mem[f] == s.disk[p]
  {
    ReachableInv(s);
    assert FrameOk(s, f);
    if !s.meta[f].dirty && AllMarked(s.guards, f) { AgreesAll(s.mem[f], s.disk[p]); }
  }

  /** The inductive form, for every flush in flight, however many overlap: while the dirty
      epoch stands where the flush found it and nothing is unmarked, the bytes copied so
      far are on disk. */
  lemma FlushPrefixOnDisk(s: State, t: ThreadId)
    requires Reachable(s) && t < |s.pcs| && s.pcs[t].FlushIo?
    ensures var pc := s.pcs[t];
            && pc.frame < |s.meta| && pc.frame < |s.mem| && pc.page < |s.disk|
            && MetaConsistent(s, pc.page, pc.frame)
            && s.meta[pc.frame].pins > 0 && pc.epoch <= s.meta[pc.frame].epoch
            && (s.meta[pc.frame].epoch == pc.epoch && AllMarked(s.guards, pc.frame)
                ==> Agrees(s.mem[pc.frame], s.disk[pc.page], pc.copied))
  {
    ReachableInv(s);
    assert ThreadOk(s, t);
    HolderPins(s, s.pcs[t].frame);
  }

  ghost predicate AllFramesPinned(s: State)
  {
    forall f :: 0 <= f < |s.meta| ==> s.meta[f].state == ResidentFrame && s.meta[f].pins > 0
  }

  lemma NoFrameMeansPinned(s: State)
    requires Inv(s) && NoFreeFrame(s) && NoVictim(s) && !HasTransientFrame(s)
    ensures AllFramesPinned(s)
  {
    hide PageOk, ThreadOk, GuardOk, WaitersOk, CleanOnDisk;
    forall f | 0 <= f < |s.meta| ensures s.meta[f].state == ResidentFrame && s.meta[f].pins > 0 {
      assert FrameOk(s, f);
      assert f in s.inUse && !R.IsEvictable(s.tracked, f) && !Transient(s.meta[f]);
    }
  }

  lemma PinnedMeansNoFrame(s: State)
    requires Inv(s) && AllFramesPinned(s)
    ensures NoFreeFrame(s) && NoVictim(s) && !HasTransientFrame(s)
  {
    hide PageOk, ThreadOk, GuardOk, WaitersOk, CleanOnDisk;
    forall f | 0 <= f < |s.meta|
      ensures f in s.inUse && !R.IsEvictable(s.tracked, f) && !Transient(s.meta[f])
    {
      assert FrameOk(s, f);
    }
  }

  /** "no frame available" is exact: with the mutex held by a thread that looks for a
      frame, it is thrown exactly when every frame is resident and pinned. */
  lemma NoFrameIsExact(s: State, t: ThreadId)
    requires Reachable(s) && Acquiring(s, t)
    ensures Enabled(s, NoFrame(t)) <==>
            forall f :: 0 <= f < |s.meta| ==> s.meta[f].state == ResidentFrame && s.meta[f].pins > 0
  {
    ReachableInv(s);
    hide Inv, Reachable, NoFreeFrame, NoVictim, HasTransientFrame;
    if NoFreeFrame(s) && NoVictim(s) && !HasTransientFrame(s) { NoFrameMeansPinned(s); }
    if AllFramesPinned(s) { PinnedMeansNoFrame(s); }
  }

  // ----- I/O exclusion -----

  predicate WritesPage(pc: Pc, p: PageId)
  {
    (pc.EvictIo? && pc.victim == p) || (pc.FlushIo? && pc.page == p)
  }

  predicate DoesIoOn(pc: Pc, p: PageId)
  {
    WritesPage(pc, p) || (pc.LoadIo? && pc.page == p)
  }

  /** Loads and eviction writes of a page overlap no other I/O on it; flushes overlap only
      flushes from the same frame. */
  lemma IoExclusion(s: State, t: ThreadId, u: ThreadId, p: PageId)
    requires Reachable(s) && t < |s.pcs| && u < |s.pcs| && t != u
    requires DoesIoOn(s.pcs[t], p) && DoesIoOn(s.pcs[u], p)
    ensures s.pcs[t].FlushIo? && s.pcs[u].FlushIo? && s.pcs[t].frame == s.pcs[u].frame
  {
    ReachableInv(s);
    assert ThreadOk(s, t) && ThreadOk(s, u);
    assert FrameOk(s, s.pcs[t].frame) && FrameOk(s, s.pcs[u].frame);
  }

  /** No I/O of a page is in flight when it is deleted, nor on an id that is unused or
      waits for its NewPage: no stale write can land on a reused id. */
  lemma NoStaleIo(s: State, t: ThreadId, p: PageId, u: ThreadId)
    requires Reachable(s) && t < |s.pcs| && DoesIoOn(s.pcs[t], p)
    ensures p < |s.table| && Mapped(s.table[p]) && p !in s.reserved
    ensures CanDeleteResident(s, u) || CanDeleteNonResident(s, u) ==> s.pcs[u].page != p
  {
    ReachableInv(s);
    assert ThreadOk(s, t) && FrameOk(s, s.pcs[t].frame) && PageOk(s, p);
    HolderPins(s, s.pcs[t].frame);
  }

  // ----- Waiting -----

  /** No wake-up is lost: whoever waits with no notification on its way still waits for
      something that has not happened yet. Either it looks for a frame, and none is free or
      can be evicted while some frame is in transit; or its page is loading or evicting.
      And the transient frame has exactly one owner, which is not waiting itself. */
  lemma NoLostWakeUp(s: State, t: ThreadId)
    requires Reachable(s) && t in s.waiting
    ensures HasReason(s, t)
    ensures exists f, u :: 0 <= f < |s.meta| && Transient(s.meta[f]) && SoleOwner(s, f, u)
  {
    ReachableReasons(s);
    ReachableInv(s);
    hide HasReason;
    var f :| f in s.owner;
    TransientHasSoleOwner(s, f);
    assert FrameOk(s, f);
  }

  ghost predicate SoleOwner(s: State, f: FrameId, u: ThreadId)
  {
    && u < |s.pcs| && u !in s.waiting && OwnedFrame(s.pcs[u]) == Some(f)
    && forall v :: 0 <= v < |s.pcs| && OwnedFrame(s.pcs[v]) == Some(f) ==> v == u
  }

  /** Every transient frame is owned by exactly one thread inside its I/O window. */
  lemma TransientHasSoleOwner(s: State, f: FrameId)
    requires Inv(s) && f < |s.meta| && (Transient(s.meta[f]) || f in s.owner)
    ensures f in s.owner && SoleOwner(s, f, s.owner[f])
  {
    assert FrameOk(s, f);
    forall v | 0 <= v < |s.pcs| && OwnedFrame(s.pcs[v]) == Some(f) ensures v == s.owner[f] {
      assert ThreadOk(s, v);
    }
  }

  // ----- Runs can always be prolonged -----

  /** A run of rule-abiding steps may be extended by any further such step: legality never
      runs into a state the model cannot step from. */
  lemma {:induction false} LegalExtends(s: State, steps: seq<Step>, step: Step)
    requires Inv(s) && Legal(s, steps) && WellFormed(Execute(s, steps))
    requires Enabled(Execute(s, steps), step) && ClientRules(Execute(s, steps), step)
    ensures Legal(s, steps + [step])
    ensures Execute(s, steps + [step]) == Apply(Execute(s, steps), step)
    decreases |steps|
  {
    hide Enabled, ClientRules, Apply;
    var more := steps + [step];
    if steps == [] {
      StepKeeps(s, step);
      assert more[0] == step && more[1..] == [];
      assert Legal(Apply(s, step), []);
    } else {
      StepKeeps(s, steps[0]);
      assert more[0] == steps[0] && more[1..] == steps[1..] + [step];
      LegalExtends(Apply(s, steps[0]), steps[1..], step);
    }
  }
}
