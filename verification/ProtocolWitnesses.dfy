/** Reachable states in which the rules of the protocol matter: they are broken from there,
    and what ProtocolRules says then happens. */
module ProtocolWitnesses {
  import opened Common
  import opened PageStates
  import opened Protocol
  import opened ProtocolInvariant
  import opened ProtocolLiveness
  import opened ProtocolRules
  import opened ProtocolTheorems
  import opened Sequential
  import R = ReplacerContract

  // ----- Two threads, two frames, three pages -----

  /** Nobody is doing anything, and there are no guards. */
  ghost predicate Still(s: State)
  {
    && s.pcs == [Idle, Idle] && s.guards == map[] && s.waiting == {} && s.reserved == map[] && s.owner == map[]
    && !s.fault
  }

  function Stored(s: State, p: PageId, f: FrameId): State
    requires p < |s.table| && f < |s.meta| && f < |s.mem|
  {
    s.(table := s.table[p := Entry(Resident, Some(f))],
       meta := s.meta[f := FrameMeta(Some(p), 0, true, NEW_PAGE_EPOCH, ResidentFrame)],
       inUse := s.inUse + {f},
       tracked := s.tracked[f := true],
       mem := s.mem[f := ZeroPage()])
  }

  lemma ReachableWellFormed(s: State)
    requires Reachable(s)
    ensures WellFormed(s)
  {
    ReachableInv(s);
  }

  lemma TakeInvoke(s: State, t: ThreadId, op: Pc)
    requires Reachable(s) && t < |s.pcs| && s.pcs[t] == Idle && IsStart(op)
    requires Target(op).Some? ==> Target(op).value !in s.reserved
    ensures Reachable(ApplyGoto(s, t, op))
  {
    ReachableWellFormed(s);
    hide Reachable, WellFormed, Inv;
    Take(s, Step.Invoke(t, op), ApplyGoto(s, t, op));
  }

  lemma TakeReserve(s: State, t: ThreadId, p: PageId)
    requires Reachable(s) && t < |s.pcs| && s.pcs[t] == NewStart && PageIs(s, p, Unused)
    requires forall u :: 0 <= u < |s.pcs| ==> Target(s.pcs[u]) != Some(p)
    ensures Reachable(ApplyReserveId(s, t, p))
  {
    ReachableWellFormed(s);
    hide Reachable, WellFormed, Inv;
    Take(s, ReserveId(t, p), ApplyReserveId(s, t, p));
  }

  lemma BeginNew(s: State, p: PageId)
    requires Reachable(s) && Still(s) && PageIs(s, p, Unused)
    ensures Reachable(ApplyReserveId(ApplyGoto(s, 0, NewStart), 0, p))
  {
    hide Reachable;
    TakeInvoke(s, 0, NewStart);
    TakeReserve(ApplyGoto(s, 0, NewStart), 0, p);
  }

  lemma TakePublish(s: State, t: ThreadId, f: FrameId, g: GuardId)
    requires Reachable(s) && WellFormed(s) && CanPublish(s, t, f, g)
    ensures Reachable(ApplyPublish(s, t, f, g)) && !ApplyPublish(s, t, f, g).fault
  {
    hide Reachable, WellFormed, ApplyPublish, CanPublish;
    Take(s, PublishInFree(t, f, g), ApplyPublish(s, t, f, g));
  }

  lemma TakeDrop(s: State, g: GuardId)
    requires Reachable(s) && WellFormed(s) && g in s.guards && !s.guards[g].unmarked
    ensures Reachable(ApplyDropGuard(s, g)) && !ApplyDropGuard(s, g).fault
  {
    hide Reachable, WellFormed, ApplyDropGuard;
    Take(s, DropGuard(g), ApplyDropGuard(s, g));
  }

  function Pinned(s: State, p: PageId, f: FrameId): State
    requires p < |s.table| && f < |s.meta| && f < |s.mem|
  {
    Housed(s.(inUse := s.inUse + {f}), p, f, 0, ZeroPage(), true, NEW_PAGE_EPOCH)
  }

  lemma NewAndHold(s: State, p: PageId, f: FrameId)
    requires Reachable(s) && Still(s) && PageIs(s, p, Unused)
    requires f < |s.meta| && f < |s.mem| && f !in s.inUse
    ensures Reachable(Pinned(s, p, f))
  {
    BeginNew(s, p);
    var s2 := ApplyReserveId(ApplyGoto(s, 0, NewStart), 0, p);
    ReachableWellFormed(s2);
    hide Reachable, WellFormed, Inv;
    var s3 := ApplyPublish(s2, 0, f, 0);
    TakePublish(s2, 0, f, 0);
    assert s3.table == Pinned(s, p, f).table && s3.reserved == map[] && s3.pcs == [Idle, Idle];
    assert s3 == Pinned(s, p, f);
  }

  lemma LetGo(s: State, p: PageId, f: FrameId)
    requires p < |s.table| && f < |s.meta| && f < |s.mem| && f !in s.tracked
    requires Reachable(Pinned(s, p, f)) && Still(s)
    ensures Reachable(Stored(s, p, f)) && Still(Stored(s, p, f))
  {
    var s3 := Pinned(s, p, f);
    ReachableWellFormed(s3);
    hide Reachable, WellFormed, Inv;
    var s4 := ApplyDropGuard(s3, 0);
    TakeDrop(s3, 0);
    assert s4.meta == Stored(s, p, f).meta && s4.tracked == Stored(s, p, f).tracked && s4.guards == map[];
    assert s4 == Stored(s, p, f);
  }

  /** NewPage in a free frame, and the guard dropped. */
  lemma NewAndDrop(s: State, p: PageId, f: FrameId)
    requires Reachable(s) && Still(s) && PageIs(s, p, Unused)
    requires f < |s.meta| && f < |s.mem| && f !in s.inUse && f !in s.tracked
    ensures Reachable(Stored(s, p, f)) && Still(Stored(s, p, f))
  {
    hide Reachable, Pinned, Stored, Still;
    NewAndHold(s, p, f);
    LetGo(s, p, f);
  }

  // Pages 0 and 1 are stored in frames 0 and 1; page 2 has not been made.

  function Empty(): State
  {
    InitialState(2, 3, [ZeroPage(), ZeroPage()], [ZeroPage(), ZeroPage(), ZeroPage()]).(pcs := [Idle, Idle])
  }

  function Full(): State { Stored(Stored(Empty(), 0, 0), 1, 1) }

  lemma FullReachable()
    ensures Reachable(Full()) && Still(Full())
  {
    var s := Empty();
    assert Legal(s, []) && Execute(s, []) == s;
    NewAndDrop(s, 0, 0);
    NewAndDrop(Stored(s, 0, 0), 1, 1);
  }

  lemma FullShape()
    ensures var s := Full();
            && |s.meta| == |s.mem| == 2 && |s.table| == |s.disk| == 3
            && s.table == [Entry(Resident, Some(0)), Entry(Resident, Some(1)), UNUSED_ENTRY]
            && s.meta == [FrameMeta(Some(0), 0, true, 1, ResidentFrame), FrameMeta(Some(1), 0, true, 1, ResidentFrame)]
            && s.inUse == {0, 1} && s.tracked == map[0 := true, 1 := true] && s.waiting == {} && !s.fault
            && s.guards == map[] && s.reserved == map[] && s.pcs == [Idle, Idle]
  {
  }

  // ----- Rule (a) -----

  /** Thread 0 is about to make a page, and thread 1 about to delete page 2, which does not
      exist. */
  function BeforeReuse(): State { Full().(pcs := [NewStart, DeleteLoop(2)]) }

  lemma BeforeReuseReachable()
    ensures Reachable(BeforeReuse())
  {
    FullReachable();
    hide Reachable, Full;
    var s := Full();
    TakeInvoke(s, 1, DeleteLoop(2));
    TakeInvoke(ApplyGoto(s, 1, DeleteLoop(2)), 0, NewStart);
    assert ApplyGoto(ApplyGoto(s, 1, DeleteLoop(2)), 0, NewStart) == BeforeReuse();
  }

  /** The hypotheses of ReuseIsAnEarlyTouch. */
  ghost predicate ReuseThreatens(s: State, t: ThreadId, u: ThreadId, p: PageId, f: FrameId)
  {
    && t < |s.pcs| && t != u && s.pcs[t] == NewStart && Stale(s, u, p)
    && NoFreeFrame(s) && f < |s.meta| && R.IsEvictable(s.tracked, f)
  }

  /** An id can be given out while a Delete of its previous life is under way, and NewPage
      then has to empty a frame: such a state is reachable. */
  lemma ReuseHappens()
    ensures exists s, t, u, p, f :: Reachable(s) && ReuseThreatens(s, t, u, p, f)
  {
    BeforeReuseReachable();
    FullShape();
    var s := BeforeReuse();
    hide Reachable, Full;
    assert ReuseThreatens(s, 0, 1, 2, 0);
  }

  /** Thread 0 makes page 2 and has emptied frame 0 for it; then thread 1 has deleted page 1
      and frame 1 is free. */
  function MidNew(): State
  {
    Full().(pcs := [NewLoop(2), Idle], reserved := map[2 := 0],
            table := [Entry(Resident, Some(0)), Entry(Resident, Some(1)), NON_RESIDENT_ENTRY])
  }

  function MidNewAway(): State
    requires VictimAt(MidNew(), 0)
  {
    Away(MidNew(), 0, 2, 0)
  }

  lemma MidNewReachable()
    ensures VictimAt(MidNew(), 0) && Reachable(MidNewAway())
  {
    FullReachable();
    FullShape();
    hide Reachable, Full;
    var s := Full();
    BeginNew(s, 2);
    assert ApplyReserveId(ApplyGoto(s, 0, NewStart), 0, 2) == MidNew();
    ReachableWellFormed(MidNew());
    hide WellFormed;
    ReachesAway(MidNew(), 0, 2, 0);
  }

  /** The hypotheses of TouchOfReservedIdFaultsExactly, once with a Fetch and once with a
      Delete of the reserved id that get hold of it. */
  ghost predicate TouchThreatens(s: State, t: ThreadId, p: PageId, u: ThreadId, f: FrameId)
  {
    && CanEvictEnd(s, t) && s.pcs[t].req == ForNew(p) && u < |s.pcs| && s.pcs[u] == Idle
    && CanLoadBegin(ApplyGoto(s, u, FetchLoop(p)), u, f)
    && CanDeleteNonResident(ApplyGoto(s, u, DeleteLoop(p)), u)
  }

  lemma TouchHappens()
    ensures exists s, t, p, u, f :: Reachable(s) && TouchThreatens(s, t, p, u, f)
  {
    MidNewReachable();
    FullShape();
    hide Reachable, Full;
    var s := MidNewAway();
    TakeInvoke(s, 1, DeleteLoop(1));
    var s1 := ApplyGoto(s, 1, DeleteLoop(1));
    ReachableWellFormed(s1);
    hide WellFormed;
    TakeDelete(s1, 1);
    assert TouchThreatens(ApplyDeleteResident(s1, 1), 0, 2, 1, 1);
  }

  lemma TakeDelete(s: State, t: ThreadId)
    requires Reachable(s) && WellFormed(s) && CanDeleteResident(s, t)
    ensures Reachable(ApplyDeleteResident(s, t))
  {
    hide Reachable, WellFormed, ApplyDeleteResident;
    Take(s, DeleteResident(t), ApplyDeleteResident(s, t));
  }

  // ----- Rules (b) and (c) -----

  /** One thread, one frame, one page, pinned once by guard 0. */
  function Single(): State { Housed(InHand(Fresh(), 0), 0, 0, 0, ZeroPage(), true, NEW_PAGE_EPOCH) }

  function Fresh(): State { InitialState(1, 1, [ZeroPage()], [ZeroPage()]) }

  lemma SingleReachable()
    ensures At(Single(), Idle)
    ensures var s := Single();
            && |s.mem| == 1 && s.disk == [ZeroPage()] && s.mem == [ZeroPage()]
            && s.table == [Entry(Resident, Some(0))] && s.meta == [FrameMeta(Some(0), 1, true, 1, ResidentFrame)]
            && s.guards == map[0 := Guard(0, 0, false)]
  {
    InitReachable(1, 1, [ZeroPage()], [ZeroPage()]);
    NewInFree(Fresh(), 0, 0, 0);
  }

  /** Fetching the page again and again, its pin count reaches every value up to the limit. */
  lemma {:induction false} PinsReach(n: nat) returns (s: State)
    requires 1 <= n <= MAX_PINS
    ensures At(s, Idle) && s.table == [Entry(Resident, Some(0))]
    ensures s.meta == [FrameMeta(Some(0), n, true, 1, ResidentFrame)]
    decreases n
  {
    hide At, Single;
    if n == 1 {
      SingleReachable();
      s := Single();
    } else {
      var s0 := PinsReach(n - 1);
      var g := FreshGuard(s0.guards.Keys);
      FetchHits(s0, 0, 0, g);
      s := s0.(meta := s0.meta[0 := s0.meta[0].(pins := s0.meta[0].pins + 1)],
               tracked := Touch(s0.tracked, 0, false), guards := s0.guards[g := Guard(0, 0, false)]);
    }
  }

  ghost predicate FlushAtLimit(s: State, t: ThreadId)
  {
    CanFlushBegin(s, t) && s.meta[s.table[s.pcs[t].page].frame.value].pins == MAX_PINS
  }

  /** A flush can begin at the limit of the pin count: such a state is reachable. */
  lemma FullPinsHappen()
    ensures exists s, t :: Reachable(s) && FlushAtLimit(s, t)
  {
    var s := PinsReach(MAX_PINS);
    hide Reachable;
    Quiet(s, Idle);
    Sequential.Invoke(s, FlushLoop(0));
    var s1 := s.(pcs := [FlushLoop(0)]);
    assert FlushAtLimit(s1, 0);
  }

  /** The hypotheses of EpochComparesExactly. */
  ghost predicate EpochThreatens(s: State, t: ThreadId, g: GuardId)
  {
    && CanFlushDone(s, t) && g in s.guards && s.guards[g].frame == s.pcs[t].frame
    && s.pcs[t].frame < |s.meta| && s.meta[s.pcs[t].frame].epoch == s.pcs[t].epoch <= MAX_EPOCH
    && (forall h :: h in s.guards && h != g && s.guards[h].frame == s.pcs[t].frame ==> !s.guards[h].unmarked)
    && s.pcs[t].page < |s.disk| && s.pcs[t].frame < |s.mem| && s.mem[s.pcs[t].frame] != s.disk[s.pcs[t].page]
  }

  /** A client can change the bytes after a flush has written them and before it takes the
      mutex again: such a state is reachable. */
  lemma ChangesDuringFlushHappen()
    ensures exists s, t, g :: Reachable(s) && EpochThreatens(s, t, g)
  {
    SingleReachable();
    var s := Single();
    hide Reachable, Single;
    Flushes(s, 0, 0, PAGE_SIZE);
    var s1 := FlushingState(s, 0, 0, PAGE_SIZE);
    var bytes: Page := ZeroPage()[0 := 1];
    assert ZeroPage()[0] == 0 && bytes[0] == 1;
    ReachableWellFormed(s1);
    hide WellFormed;
    TakeWrite(s1, 0, bytes);
    var s2 := ApplyWriteBytes(s1, 0, bytes);
    assert s2.disk[0] == ZeroPage() by { assert Splice(ZeroPage(), ZeroPage(), 0, PAGE_SIZE) == ZeroPage(); }
    assert EpochThreatens(s2, 0, 0);
  }

  /** A guard with the only unmarked change on a clean frame that differs from the file, as
      in UnmarkedDropLosesChange. */
  ghost predicate ChangeThreatened(s: State, g: GuardId)
  {
    && g in s.guards && s.guards[g].frame < |s.meta| && s.guards[g].frame < |s.mem| && s.guards[g].page < |s.disk|
    && !s.meta[s.guards[g].frame].dirty && s.mem[s.guards[g].frame] != s.disk[s.guards[g].page]
    && forall h :: h in s.guards && s.guards[h].frame == s.guards[g].frame && s.guards[h].unmarked ==> h == g
  }

  lemma UnmarkedChangesHappen()
    ensures exists s, g :: Reachable(s) && ChangeThreatened(s, g)
  {
    SingleReachable();
    var s := Single();
    hide Reachable, Single;
    FlushCleans(s, 0, 0);
    var s1 := s.(disk := s.disk[0 := s.mem[0]], meta := s.meta[0 := s.meta[0].(dirty := false)]);
    var bytes: Page := ZeroPage()[0 := 1];
    assert ZeroPage()[0] == 0 && bytes[0] == 1;
    Writes(s1, 0, bytes);
    assert ChangeThreatened(
        s1.(mem := s1.mem[0 := bytes], guards := s1.guards[0 := s1.guards[0].(unmarked := true)]), 0);
  }

  lemma TakeWrite(s: State, g: GuardId, bytes: Page)
    requires Reachable(s) && WellFormed(s) && g in s.guards
    ensures Reachable(ApplyWriteBytes(s, g, bytes))
  {
    hide Reachable, WellFormed, ApplyWriteBytes;
    Take(s, WriteBytes(g, bytes), ApplyWriteBytes(s, g, bytes));
  }
}
