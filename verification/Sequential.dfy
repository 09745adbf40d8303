/** The operations run alone. A call that no other thread disturbs is a run of the
    protocol from rest to rest; the lemmas of this module give its steps and its effect,
    path by path. */
module Sequential {
  import opened Common
  import opened PageStates
  import opened Protocol
  import opened ProtocolInvariant
  import opened ProtocolView
  import opened ProtocolTheorems
  import opened ProtocolSafety
  import opened ProtocolLiveness
  import R = ReplacerContract

  /** A reachable state of a manager with a single thread, at the program point `pc`. */
  ghost predicate At(s: State, pc: Pc)
  {
    Reachable(s) && s.pcs == [pc]
  }

  /** The contents of the pool. */
  ghost function Contents(s: State): map<PageId, Page>
  {
    if WellFormed(s) then View(s) else map[]
  }

  /** Some run of the protocol, with all clients keeping the rules, leads from `s` to `s'`. */
  ghost predicate RunsTo(s: State, s': State)
  {
    exists steps: seq<Step> :: Legal(s, steps) && Execute(s, steps) == s'
  }

  lemma RunsToSelf(s: State)
    requires WellFormed(s)
    ensures RunsTo(s, s)
  {
    hide WellFormed, Enabled, ClientRules, Apply;
    assert Legal(s, []) && Execute(s, []) == s;
  }

  lemma {:induction false} RunsJoin(s: State, steps: seq<Step>, more: seq<Step>)
    requires Legal(s, steps) && Legal(Execute(s, steps), more)
    ensures Legal(s, steps + more) && Execute(s, steps + more) == Execute(Execute(s, steps), more)
    decreases |steps|
  {
    hide WellFormed, Enabled, ClientRules, Apply;
    if steps == [] {
      assert steps + more == more;
    } else {
      assert (steps + more)[0] == steps[0] && (steps + more)[1..] == steps[1..] + more;
      RunsJoin(Apply(s, steps[0]), steps[1..], more);
    }
  }

  lemma Chain(s: State, s1: State, s2: State)
    requires RunsTo(s, s1) && RunsTo(s1, s2)
    ensures RunsTo(s, s2)
  {
    hide Legal, Execute;
    var x: seq<Step> :| Legal(s, x) && Execute(s, x) == s1;
    var y: seq<Step> :| Legal(s1, y) && Execute(s1, y) == s2;
    RunsJoin(s, x, y);
  }

  // ----- One step -----

  lemma ReachableStep(s: State, step: Step)
    requires Reachable(s) && WellFormed(s) && Enabled(s, step) && ClientRules(s, step)
    ensures Reachable(Apply(s, step))
    ensures WellFormed(Apply(s, step)) ==> RunsTo(s, Apply(s, step))
  {
    hide Inv, Enabled, ClientRules, Apply, WellFormed;
    if WellFormed(Apply(s, step)) {
      assert Legal(Apply(s, step), []);
      assert Legal(s, [step]) && Execute(s, [step]) == Apply(s, step);
    }
    var s0: State, steps: seq<Step> :| Init(s0) && Legal(s0, steps) && Execute(s0, steps) == s;
    InitInv(s0);
    LegalExtends(s0, steps, step);
    assert Init(s0) && Legal(s0, steps + [step]) && Execute(s0, steps + [step]) == Apply(s, step);
  }

  lemma Take(s: State, step: Step, s': State)
    requires Reachable(s) && WellFormed(s) && Enabled(s, step) && ClientRules(s, step)
    requires s' == Apply(s, step)
    ensures Reachable(s') && Inv(s') && !s'.fault && RunsTo(s, s')
    ensures Contents(s') == MapAfter(Contents(s), MapOpOf(s, step)) && Allowed(Contents(s), MapOpOf(s, step))
  {
    hide Reachable, RunsTo, Enabled, ClientRules, Apply, MapOpOf, View, PageOk, FrameOk, ThreadOk, GuardOk;
    ReachableInv(s);
    StepRefines(s, step);
    ReachableStep(s, step);
  }

  lemma OwnerHolds(s: State, f: FrameId)
    requires Inv(s) && f in s.owner
    ensures s.owner[f] < |s.pcs| && OwnedFrame(s.pcs[s.owner[f]]) == Some(f)
  {
    assert FrameOk(s, f);
  }

  lemma TransientHasOwner(s: State, f: FrameId)
    requires Inv(s) && f < |s.meta| && Transient(s.meta[f])
    ensures f in s.owner
  {
    assert FrameOk(s, f);
  }

  lemma ReserverHolds(s: State, p: PageId)
    requires Inv(s) && p in s.reserved
    ensures s.reserved[p] < |s.pcs| && Reserves(s.pcs[s.reserved[p]]) == Some(p)
  {
    assert PageOk(s, p);
  }

  lemma WaitersHaveOwner(s: State)
    requires Inv(s) && s.owner == map[]
    ensures s.waiting == {} && !s.fault
  {
  }

  /** With a single thread outside an I/O window nothing is in flight. */
  lemma Quiet(s: State, pc: Pc)
    requires At(s, pc) && !IsIo(pc)
    ensures Inv(s) && s.owner == map[] && s.waiting == {} && !s.fault
    ensures Reserves(pc).None? ==> s.reserved == map[]
    ensures forall f :: 0 <= f < |s.meta| ==> !Transient(s.meta[f])
  {
    ReachableInv(s);
    hide Inv, Reachable;
    forall f ensures f !in s.owner { if f in s.owner { OwnerHolds(s, f); } }
    assert s.owner == map[];
    WaitersHaveOwner(s);
    forall f | 0 <= f < |s.meta| ensures !Transient(s.meta[f]) {
      if Transient(s.meta[f]) { TransientHasOwner(s, f); }
    }
    if Reserves(pc).None? {
      forall p ensures p !in s.reserved { if p in s.reserved { ReserverHolds(s, p); } }
      assert s.reserved == map[];
    }
  }

  lemma Invoke(s: State, op: Pc)
    requires At(s, Idle) && IsStart(op)
    ensures At(s.(pcs := [op]), op) && Contents(s.(pcs := [op])) == Contents(s) && RunsTo(s, s.(pcs := [op]))
  {
    hide RunsTo, Reachable, Inv, WellFormed;
    Quiet(s, Idle);
    WellFormedInv(s);
    Take(s, Step.Invoke(0, op), s.(pcs := [op]));
  }

  lemma WellFormedInv(s: State)
    requires Inv(s)
    ensures WellFormed(s)
  {
  }

  /** All frames free, all ids unused, nobody in the pool. */
  function InitialState(frameCount: nat, pageCount: nat, mem: seq<Page>, disk: seq<Page>): State
  {
    State(seq(pageCount, _ => UNUSED_ENTRY), seq(frameCount, _ => FREE_META), {}, map[], mem, disk,
          [Idle], map[], {}, map[], map[], false)
  }

  lemma InitialParts(frameCount: nat, pageCount: nat, mem: seq<Page>, disk: seq<Page>)
    ensures var x := InitialState(frameCount, pageCount, mem, disk);
            |x.meta| == frameCount && x.guards == map[] && x.disk == disk
  {
  }

  lemma InitReachable(frameCount: nat, pageCount: nat, mem: seq<Page>, disk: seq<Page>)
    requires |mem| == frameCount && |disk| == pageCount
    ensures var x := InitialState(frameCount, pageCount, mem, disk);
            At(x, Idle) && Contents(x) == map[]
  {
    var x := InitialState(frameCount, pageCount, mem, disk);
    assert Legal(x, []) && Execute(x, []) == x;
    assert View(x) == map[];
  }

  // ----- The effect of an undisturbed call -----

  /** The frame `f` can be had: it is free, or nothing is free and it may be evicted. */
  ghost predicate Obtainable(s: State, f: FrameId)
  {
    && f < |s.meta| && f < |s.mem| && |s.disk| == |s.table|
    && (f in s.inUse ==>
          && NoFreeFrame(s) && R.IsEvictable(s.tracked, f)
          && s.meta[f].page.Some? && s.meta[f].page.value < |s.table|)
  }

  /** The evicted page's bytes are on disk if they were dirty; nothing names `f` any more. */
  function Emptied(s: State, f: FrameId): State
    requires f < |s.meta| && f < |s.mem| && |s.disk| == |s.table|
    requires s.meta[f].page.Some? && s.meta[f].page.value < |s.table|
  {
    var v := s.meta[f].page.value;
    s.(table := s.table[v := NON_RESIDENT_ENTRY],
       meta := s.meta[f := FREE_META],
       tracked := R.Remove(s.tracked, f),
       disk := if s.meta[f].dirty then s.disk[v := s.mem[f]] else s.disk)
  }

  /** `f` is allocated and in the hands of the caller. */
  function InHand(s: State, f: FrameId): State
    requires Obtainable(s, f)
  {
    if f in s.inUse then Emptied(s, f) else s.(inUse := s.inUse + {f})
  }

  /** `p` lives in `f`, pinned by the new guard `g`. */
  function Housed(b: State, p: PageId, f: FrameId, g: GuardId, bytes: Page, dirty: bool, epoch: nat): State
    requires p < |b.table| && f < |b.meta| && f < |b.mem|
  {
    b.(table := b.table[p := Entry(Resident, Some(f))],
       meta := b.meta[f := FrameMeta(Some(p), 1, dirty, epoch, ResidentFrame)],
       tracked := Touch(b.tracked, f, false),
       mem := b.mem[f := bytes],
       guards := b.guards[g := Guard(p, f, false)])
  }

  /** After a failed write of the page in `f`: the first `n` bytes have reached the disk. */
  function HalfWritten(s: State, f: FrameId, n: nat): State
    requires Obtainable(s, f) && f in s.inUse && n < PAGE_SIZE
  {
    var v := s.meta[f].page.value;
    s.(disk := s.disk[v := Splice(s.disk[v], s.mem[f], 0, n)])
  }

  lemma HousedGuards(b: State, p: PageId, f: FrameId, g: GuardId, bytes: Page, dirty: bool, epoch: nat)
    requires p < |b.table| && f < |b.meta| && f < |b.mem|
    ensures Housed(b, p, f, g, bytes, dirty, epoch).guards == b.guards[g := Guard(p, f, false)]
  {
  }

  lemma HousedMem(b: State, p: PageId, f: FrameId, g: GuardId, bytes: Page, dirty: bool, epoch: nat)
    requires p < |b.table| && f < |b.meta| && f < |b.mem|
    ensures f < |Housed(b, p, f, g, bytes, dirty, epoch).mem| && Housed(b, p, f, g, bytes, dirty, epoch).mem[f] == bytes
  {
  }

  /** A call that changes nothing is a run of no steps. */
  lemma StaysPut(s: State)
    requires At(s, Idle)
    ensures RunsTo(s, s)
  {
    hide RunsTo, Reachable, Inv, WellFormed;
    Quiet(s, Idle);
    WellFormedInv(s);
    RunsToSelf(s);
  }

  // ----- NewPage -----

  function ReservedState(s: State, p: PageId): State
    requires p < |s.table|
  {
    s.(table := s.table[p := NON_RESIDENT_ENTRY], pcs := [NewLoop(p)], reserved := map[p := 0])
  }

  lemma Reserve(s: State, p: PageId)
    requires At(s, Idle) && PageIs(s, p, Unused)
    ensures At(ReservedState(s, p), NewLoop(p)) && Contents(ReservedState(s, p)) == Contents(s)
    ensures RunsTo(s, ReservedState(s, p))
  {
    hide RunsTo, Reachable, Inv, WellFormed;
    Quiet(s, Idle);
    Invoke(s, NewStart);
    var s1 := s.(pcs := [NewStart]);
    Quiet(s1, NewStart);
    WellFormedInv(s1);
    Take(s1, ReserveId(0, p), ReservedState(s, p));
    Chain(s, s1, ReservedState(s, p));
  }

  lemma NewInFree(s: State, p: PageId, f: FrameId, g: GuardId)
    requires At(s, Idle) && PageIs(s, p, Unused)
    requires Obtainable(s, f) && f !in s.inUse && g !in s.guards
    ensures var s' := Housed(InHand(s, f), p, f, g, ZeroPage(), true, NEW_PAGE_EPOCH);
            && At(s', Idle) && RunsTo(s, s')
            && p !in Contents(s) && Contents(s') == Contents(s)[p := ZeroPage()]
  {
    hide RunsTo, Reachable, Inv, WellFormed, Contents;
    Quiet(s, Idle);
    Reserve(s, p);
    var s1 := ReservedState(s, p);
    Quiet(s1, NewLoop(p));
    WellFormedInv(s1);
    var s2 := ApplyPublish(s1, 0, f, g);
    Take(s1, PublishInFree(0, f, g), s2);
    Chain(s, s1, s2);
    assert s2.reserved == map[];
    assert s2 == Housed(InHand(s, f), p, f, g, ZeroPage(), true, NEW_PAGE_EPOCH);
  }

  // ----- Emptying a frame, for NewPage and FetchPage -----

  /** The state in the I/O window of an eviction that has copied `n` bytes. */
  function EvictingState(s: State, pc: Pc, f: FrameId, n: nat): State
    requires Obtainable(s, f) && f in s.inUse && n <= PAGE_SIZE && (pc.NewLoop? || pc.FetchLoop?)
  {
    var m := s.meta[f];
    var v := m.page.value;
    s.(table := s.table[v := Entry(PageState.Evicting, Some(f))],
       meta := s.meta[f := m.(state := EvictingFrame)],
       tracked := R.Remove(s.tracked, f),
       disk := s.disk[v := Splice(s.disk[v], s.mem[f], 0, n)],
       pcs := [EvictIo(RequesterOf(pc), f, v, m.dirty, m.epoch, n)],
       owner := map[f := 0])
  }

  /** An evictable frame holds a resident, unpinned page. */
  lemma VictimFacts(s: State, f: FrameId)
    requires Inv(s) && f < |s.meta| && R.IsEvictable(s.tracked, f)
    ensures f < |s.mem| && |s.disk| == |s.table| && f in s.inUse
    ensures s.meta[f].page.Some? && s.meta[f].page.value < |s.table|
    ensures s.meta[f] == FrameMeta(s.meta[f].page, 0, s.meta[f].dirty, s.meta[f].epoch, ResidentFrame)
    ensures s.table[s.meta[f].page.value] == Entry(Resident, Some(f))
  {
    assert FrameOk(s, f);
    assert PageOk(s, s.meta[f].page.value);
  }

  lemma EvictStart(s: State, pc: Pc, f: FrameId)
    requires At(s, pc) && Obtainable(s, f) && f in s.inUse
    requires pc.NewLoop? || (pc.FetchLoop? && PageIs(s, pc.page, NonResident))
    ensures Reachable(EvictingState(s, pc, f, 0)) && RunsTo(s, EvictingState(s, pc, f, 0))
    ensures Contents(EvictingState(s, pc, f, 0)) == Contents(s)
  {
    hide RunsTo, Reachable, Inv, WellFormed, Contents;
    Quiet(s, pc);
    VictimFacts(s, f);
    WellFormedInv(s);
    var s1 := ApplyEvictBegin(s, 0, f);
    Take(s, EvictBegin(0, f), s1);
    var v := s.meta[f].page.value;
    assert Splice(s.disk[v], s.mem[f], 0, 0) == s.disk[v];
    assert s1 == EvictingState(s, pc, f, 0);
  }

  /** The eviction has copied `n` bytes; a clean page is not written. */
  lemma EvictWrite(s: State, pc: Pc, f: FrameId, n: nat)
    requires At(s, pc) && Obtainable(s, f) && f in s.inUse
    requires pc.NewLoop? || (pc.FetchLoop? && PageIs(s, pc.page, NonResident))
    requires n <= PAGE_SIZE && (n != 0 ==> s.meta[f].dirty)
    ensures Reachable(EvictingState(s, pc, f, n)) && Inv(EvictingState(s, pc, f, n))
    ensures RunsTo(s, EvictingState(s, pc, f, n))
    ensures Contents(EvictingState(s, pc, f, n)) == Contents(s)
  {
    hide RunsTo, Reachable, Inv, WellFormed, Contents;
    EvictStart(s, pc, f);
    var s1 := EvictingState(s, pc, f, 0);
    ReachableInv(s1);
    if n != 0 {
      WellFormedInv(s1);
      var s2 := ApplyEvictChunk(s1, 0, n);
      Take(s1, EvictChunk(0, n), s2);
      var v := s.meta[f].page.value;
      assert Splice(s1.disk[v], s.mem[f], 0, n) == Splice(s.disk[v], s.mem[f], 0, n);
      assert s2 == EvictingState(s, pc, f, n);
      Chain(s, s1, s2);
    }
  }

  /** The write fails: the page is resident in its frame as before, and the operation
      gives up what it had reserved. */
  function GivenUp(s: State, pc: Pc, f: FrameId, n: nat): State
    requires Obtainable(s, f) && f in s.inUse && n < PAGE_SIZE
    requires pc.NewLoop? ==> pc.page < |s.table|
  {
    HalfWritten(s, f, n).(
      pcs := [Idle], reserved := map[],
      table := if pc.NewLoop? then s.table[pc.page := UNUSED_ENTRY] else s.table)
  }

  lemma EvictFails(s: State, pc: Pc, f: FrameId, n: nat)
    requires At(s, pc) && Obtainable(s, f) && f in s.inUse && s.meta[f].dirty
    requires (pc.NewLoop? || pc.FetchLoop?) && PageIs(s, pc.page, NonResident)
    requires n < PAGE_SIZE && s.reserved.Keys == (if pc.NewLoop? then {pc.page} else {})
    ensures At(GivenUp(s, pc, f, n), Idle) && Contents(GivenUp(s, pc, f, n)) == Contents(s)
    ensures RunsTo(s, GivenUp(s, pc, f, n))
  {
    hide RunsTo, Reachable, Inv, WellFormed, Contents;
    Quiet(s, pc);
    EvictWrite(s, pc, f, n);
    VictimFacts(s, f);
    var s1 := EvictingState(s, pc, f, n);
    WellFormedInv(s1);
    var s2 := ApplyEvictFail(s1, 0);
    Take(s1, EvictFail(0), s2);
    Chain(s, s1, s2);
    assert s2.reserved == map[];
    assert s2.tracked == s.tracked;
    assert s2.meta == s.meta;
    assert s2.table == GivenUp(s, pc, f, n).table;
    assert s2 == GivenUp(s, pc, f, n);
  }

  lemma NewEvictionFails(s: State, p: PageId, f: FrameId, n: nat)
    requires At(s, Idle) && PageIs(s, p, Unused)
    requires Obtainable(s, f) && f in s.inUse && s.meta[f].dirty && n < PAGE_SIZE
    ensures At(HalfWritten(s, f, n), Idle) && Contents(HalfWritten(s, f, n)) == Contents(s)
    ensures RunsTo(s, HalfWritten(s, f, n))
  {
    hide RunsTo, Reachable, Inv, WellFormed, Contents;
    Quiet(s, Idle);
    UnusedEntry(s, p);
    Reserve(s, p);
    var s1 := ReservedState(s, p);
    EvictFails(s1, NewLoop(p), f, n);
    Chain(s, s1, GivenUp(s1, NewLoop(p), f, n));
    assert GivenUp(s1, NewLoop(p), f, n).table == s.table;
    assert GivenUp(s1, NewLoop(p), f, n) == HalfWritten(s, f, n);
  }

  lemma UnusedEntry(s: State, p: PageId)
    requires Inv(s) && PageIs(s, p, Unused)
    ensures s.table[p] == UNUSED_ENTRY
  {
    assert PageOk(s, p);
  }

  lemma FetchEvictionFails(s: State, p: PageId, f: FrameId, n: nat)
    requires At(s, Idle) && PageIs(s, p, NonResident)
    requires Obtainable(s, f) && f in s.inUse && s.meta[f].dirty && n < PAGE_SIZE
    ensures At(HalfWritten(s, f, n), Idle) && Contents(HalfWritten(s, f, n)) == Contents(s)
    ensures RunsTo(s, HalfWritten(s, f, n))
  {
    hide RunsTo, Reachable, Inv, WellFormed, Contents;
    Quiet(s, Idle);
    Invoke(s, FetchLoop(p));
    var s1 := s.(pcs := [FetchLoop(p)]);
    EvictFails(s1, FetchLoop(p), f, n);
    Chain(s, s1, GivenUp(s1, FetchLoop(p), f, n));
    assert GivenUp(s1, FetchLoop(p), f, n) == HalfWritten(s, f, n);
  }

  /** How far an eviction copies before it ends well. */
  function Copied(m: FrameMeta): nat { if m.dirty then PAGE_SIZE else 0 }

  lemma NewByEviction(s: State, p: PageId, f: FrameId, g: GuardId)
    requires At(s, Idle) && PageIs(s, p, Unused)
    requires Obtainable(s, f) && f in s.inUse && g !in s.guards
    ensures var s' := Housed(InHand(s, f), p, f, g, ZeroPage(), true, NEW_PAGE_EPOCH);
            && At(s', Idle) && RunsTo(s, s')
            && p !in Contents(s) && Contents(s') == Contents(s)[p := ZeroPage()]
  {
    hide RunsTo, Reachable, Inv, WellFormed, Contents;
    Quiet(s, Idle);
    VictimFacts(s, f);
    Reserve(s, p);
    var s1 := ReservedState(s, p);
    Quiet(s1, NewLoop(p));
    EvictWrite(s1, NewLoop(p), f, Copied(s.meta[f]));
    var s2 := EvictingState(s1, NewLoop(p), f, Copied(s.meta[f]));
    WellFormedInv(s2);
    var s3 := ApplyEvictPublish(s2, 0, g);
    Take(s2, EvictDone(0, g), s3);
    PublishedAfterEviction(s, p, f, g);
    Chain(s, s1, s2);
    Chain(s, s2, s3);
  }

  lemma PublishedAfterEviction(s: State, p: PageId, f: FrameId, g: GuardId)
    requires PageIs(s, p, Unused) && Obtainable(s, f) && f in s.inUse && g !in s.guards
    requires s.table[s.meta[f].page.value] == Entry(Resident, Some(f))
    requires s.pcs == [Idle] && s.waiting == {} && s.owner == map[] && s.reserved == map[] && !s.fault
    requires var s2 := EvictingState(ReservedState(s, p), NewLoop(p), f, Copied(s.meta[f]));
             WellFormed(s2) && CanEvictDone(s2, 0, g) && !ApplyEvictPublish(s2, 0, g).fault
    ensures var s2 := EvictingState(ReservedState(s, p), NewLoop(p), f, Copied(s.meta[f]));
            ApplyEvictPublish(s2, 0, g) == Housed(InHand(s, f), p, f, g, ZeroPage(), true, NEW_PAGE_EPOCH)
  {
    hide WellFormed;
    var s3 := ApplyEvictPublish(EvictingState(ReservedState(s, p), NewLoop(p), f, Copied(s.meta[f])), 0, g);
    var s' := Housed(InHand(s, f), p, f, g, ZeroPage(), true, NEW_PAGE_EPOCH);
    assert s3.reserved == map[];
    assert s3.table == s'.table;
    CopiedAll(s, f);
    assert s3 == s';
  }

  lemma CopiedAll(s: State, f: FrameId)
    requires Obtainable(s, f) && f in s.inUse
    ensures var v := s.meta[f].page.value;
            s.disk[v := Splice(s.disk[v], s.mem[f], 0, Copied(s.meta[f]))] ==
            if s.meta[f].dirty then s.disk[v := s.mem[f]] else s.disk
  {
    var v := s.meta[f].page.value;
    assert Splice(s.disk[v], s.mem[f], 0, 0) == s.disk[v];
    assert Splice(s.disk[v], s.mem[f], 0, PAGE_SIZE) == s.mem[f];
  }

  /** NewPage: the page becomes resident in a free frame, or in one whose page is evicted. */
  lemma NewTakesFrame(s: State, p: PageId, f: FrameId, g: GuardId)
    requires At(s, Idle) && PageIs(s, p, Unused) && Obtainable(s, f) && g !in s.guards
    ensures var s' := Housed(InHand(s, f), p, f, g, ZeroPage(), true, NEW_PAGE_EPOCH);
            && At(s', Idle) && RunsTo(s, s')
            && p !in Contents(s) && Contents(s') == Contents(s)[p := ZeroPage()]
            && s'.guards == s.guards[g := Guard(p, f, false)]
  {
    hide RunsTo, At, Contents;
    InHandKeeps(s, f);
    hide InHand;
    if f in s.inUse { NewByEviction(s, p, f, g); } else { NewInFree(s, p, f, g); }
  }

  // ----- FetchPage -----

  /** The load of `p` into `f` has copied `n` bytes. */
  function LoadingState(b: State, p: PageId, f: FrameId, n: nat): State
    requires p < |b.table| && f < |b.meta| && f < |b.mem| && |b.disk| == |b.table| && n <= PAGE_SIZE
  {
    b.(table := b.table[p := Entry(Loading, Some(f))],
       meta := b.meta[f := FrameMeta(Some(p), 1, false, 0, LoadingFrame)],
       mem := b.mem[f := Splice(ZeroPage(), b.disk[p], 0, n)],
       pcs := [LoadIo(p, f, n)],
       owner := map[f := 0])
  }

  /** The load of `p` into `f` has failed after `n` bytes: the frame is free again. */
  function Unloaded(b: State, p: PageId, f: FrameId, n: nat): State
    requires p < |b.disk| && f < |b.meta| && f < |b.mem| && n <= PAGE_SIZE
  {
    b.(meta := b.meta[f := FREE_META],
       inUse := b.inUse - {f},
       mem := b.mem[f := Splice(ZeroPage(), b.disk[p], 0, n)])
  }

  lemma UnloadedGuards(b: State, p: PageId, f: FrameId, n: nat)
    requires p < |b.disk| && f < |b.meta| && f < |b.mem| && n <= PAGE_SIZE
    ensures Unloaded(b, p, f, n).guards == b.guards
  {
  }

  lemma LoadStartsInFree(s: State, p: PageId, f: FrameId)
    requires At(s, Idle) && PageIs(s, p, NonResident) && Obtainable(s, f) && f !in s.inUse
    ensures Reachable(LoadingState(InHand(s, f), p, f, 0)) && RunsTo(s, LoadingState(InHand(s, f), p, f, 0))
    ensures Contents(LoadingState(InHand(s, f), p, f, 0)) == Contents(s)
  {
    hide RunsTo, Reachable, Inv, WellFormed, Contents;
    Quiet(s, Idle);
    Invoke(s, FetchLoop(p));
    var s1 := s.(pcs := [FetchLoop(p)]);
    Quiet(s1, FetchLoop(p));
    WellFormedInv(s1);
    var s2 := ApplyLoadBegin(s1, 0, f);
    Take(s1, LoadBegin(0, f), s2);
    Chain(s, s1, s2);
    assert Splice(ZeroPage(), s.disk[p], 0, 0) == ZeroPage();
    assert s2 == LoadingState(InHand(s, f), p, f, 0);
  }

  lemma LoadStartsByEviction(s: State, p: PageId, f: FrameId)
    requires At(s, Idle) && PageIs(s, p, NonResident) && Obtainable(s, f) && f in s.inUse
    ensures Reachable(LoadingState(InHand(s, f), p, f, 0)) && RunsTo(s, LoadingState(InHand(s, f), p, f, 0))
    ensures Contents(LoadingState(InHand(s, f), p, f, 0)) == Contents(s)
  {
    hide RunsTo, Reachable, Inv, WellFormed, Contents;
    Quiet(s, Idle);
    VictimFacts(s, f);
    NotMappedEntry(s, p);
    Invoke(s, FetchLoop(p));
    var s1 := s.(pcs := [FetchLoop(p)]);
    Quiet(s1, FetchLoop(p));
    EvictWrite(s1, FetchLoop(p), f, Copied(s.meta[f]));
    var s2 := EvictingState(s1, FetchLoop(p), f, Copied(s.meta[f]));
    WellFormedInv(s2);
    var s3 := ApplyEvictLoad(s2, 0);
    ghost var g: GuardId := FreshGuard(s2.guards.Keys);
    Take(s2, EvictDone(0, g), s3);
    Chain(s, s1, s2);
    Chain(s, s2, s3);
    var s' := LoadingState(InHand(s, f), p, f, 0);
    CopiedAll(s, f);
    assert Splice(ZeroPage(), s3.disk[p], 0, 0) == ZeroPage();
    assert s3.table == s'.table;
    assert s3 == s';
  }

  lemma NotMappedEntry(s: State, p: PageId)
    requires Inv(s) && PageIs(s, p, NonResident)
    ensures s.table[p] == NON_RESIDENT_ENTRY
  {
    assert PageOk(s, p);
  }

  lemma Loads(s: State, p: PageId, f: FrameId, n: nat)
    requires At(s, Idle) && PageIs(s, p, NonResident) && Obtainable(s, f) && n <= PAGE_SIZE
    ensures Reachable(LoadingState(InHand(s, f), p, f, n)) && Inv(LoadingState(InHand(s, f), p, f, n))
    ensures RunsTo(s, LoadingState(InHand(s, f), p, f, n))
    ensures Contents(LoadingState(InHand(s, f), p, f, n)) == Contents(s)
  {
    hide RunsTo, Reachable, Inv, WellFormed, Contents, InHand;
    var b := InHand(s, f);
    InHandKeeps(s, f);
    if f in s.inUse { LoadStartsByEviction(s, p, f); } else { LoadStartsInFree(s, p, f); }
    var s1 := LoadingState(b, p, f, 0);
    ReachableInv(s1);
    if n != 0 {
      WellFormedInv(s1);
      var s2 := ApplyLoadChunk(s1, 0, n);
      Take(s1, LoadChunk(0, n), s2);
      assert Splice(s1.mem[f], b.disk[p], 0, n) == Splice(ZeroPage(), b.disk[p], 0, n);
      assert s2 == LoadingState(b, p, f, n);
      Chain(s, s1, s2);
    }
  }

  /** FetchPage of a page that is not in memory: it is loaded into a free frame, or into
      one whose page is evicted, and the guard shows the page's contents. */
  lemma FetchLoads(s: State, p: PageId, f: FrameId, g: GuardId)
    requires At(s, Idle) && PageIs(s, p, NonResident) && Obtainable(s, f) && g !in s.guards
    ensures var b := InHand(s, f); var s' := Housed(b, p, f, g, b.disk[p], false, 0);
            && At(s', Idle) && RunsTo(s, s')
            && Contents(s') == Contents(s) && p in Contents(s) && Contents(s)[p] == b.disk[p]
  {
    hide RunsTo, Reachable, Inv, WellFormed, Contents, InHand;
    Quiet(s, Idle);
    Loads(s, p, f, PAGE_SIZE);
    var b := InHand(s, f);
    InHandKeeps(s, f);
    var s1 := LoadingState(b, p, f, PAGE_SIZE);
    WellFormedInv(s1);
    var s2 := ApplyLoadDone(s1, 0, g);
    Take(s1, LoadDone(0, g), s2);
    Chain(s, s1, s2);
    assert Splice(ZeroPage(), b.disk[p], 0, PAGE_SIZE) == b.disk[p];
    assert s2 == Housed(b, p, f, g, b.disk[p], false, 0);
    GuardShows(s2, g);
  }

  lemma InHandKeeps(s: State, f: FrameId)
    requires Obtainable(s, f)
    ensures var b := InHand(s, f);
            && b.guards == s.guards && b.pcs == s.pcs && b.waiting == s.waiting && b.owner == s.owner
            && b.reserved == s.reserved && b.fault == s.fault && b.mem == s.mem
            && |b.disk| == |s.disk| && |b.table| == |s.table| && |b.meta| == |s.meta|
  {
  }

  /** A guard shows its page's contents. */
  lemma GuardShows(s: State, g: GuardId)
    requires Reachable(s) && g in s.guards
    ensures s.guards[g].frame < |s.mem| && s.guards[g].page in Contents(s)
    ensures Contents(s)[s.guards[g].page] == s.mem[s.guards[g].frame]
  {
    hide Reachable;
    GuardReadsTheMap(s, g);
  }

  lemma FetchLoadFails(s: State, p: PageId, f: FrameId, n: nat)
    requires At(s, Idle) && PageIs(s, p, NonResident) && Obtainable(s, f) && n < PAGE_SIZE
    ensures var s' := Unloaded(InHand(s, f), p, f, n);
            At(s', Idle) && RunsTo(s, s') && Contents(s') == Contents(s)
  {
    hide RunsTo, Reachable, Inv, WellFormed, Contents;
    Quiet(s, Idle);
    NotMappedEntry(s, p);
    if f in s.inUse { VictimFacts(s, f); }
    Loads(s, p, f, n);
    var b := InHand(s, f);
    InHandKeeps(s, f);
    var s1 := LoadingState(b, p, f, n);
    WellFormedInv(s1);
    var s2 := ApplyLoadFail(s1, 0);
    Take(s1, LoadFail(0), s2);
    Chain(s, s1, s2);
    assert s2.table == b.table;
    assert s2 == Unloaded(b, p, f, n);
  }

  lemma FetchHits(s: State, p: PageId, f: FrameId, g: GuardId)
    requires At(s, Idle) && ResidentAt(s, p) && s.table[p].frame == Some(f) && g !in s.guards
    requires MetaConsistent(s, p, f) && s.meta[f].pins != MAX_PINS
    ensures var s' := s.(meta := s.meta[f := s.meta[f].(pins := s.meta[f].pins + 1)],
                         tracked := Touch(s.tracked, f, false), guards := s.guards[g := Guard(p, f, false)]);
            && At(s', Idle) && RunsTo(s, s') && Contents(s') == Contents(s)
            && f < |s.mem| && p in Contents(s) && Contents(s)[p] == s.mem[f]
  {
    hide RunsTo, Reachable, Inv, WellFormed, Contents;
    Quiet(s, Idle);
    Invoke(s, FetchLoop(p));
    var s1 := s.(pcs := [FetchLoop(p)]);
    Quiet(s1, FetchLoop(p));
    WellFormedInv(s1);
    var s2 := ApplyFetchHit(s1, 0, g);
    Take(s1, FetchHit(0, g), s2);
    Chain(s, s1, s2);
    GuardShows(s2, g);
    assert s2 == s.(meta := s.meta[f := s.meta[f].(pins := s.meta[f].pins + 1)],
                    tracked := Touch(s.tracked, f, false), guards := s.guards[g := Guard(p, f, false)]);
  }

  // ----- FlushPage -----

  /** The flush of `p` in `f` has copied `n` bytes. */
  function FlushingState(s: State, p: PageId, f: FrameId, n: nat): State
    requires p < |s.disk| && f < |s.meta| && f < |s.mem| && n <= PAGE_SIZE
  {
    s.(meta := s.meta[f := s.meta[f].(pins := s.meta[f].pins + 1)],
       tracked := R.SetEvictable(s.tracked, f, false),
       disk := s.disk[p := Splice(s.disk[p], s.mem[f], 0, n)],
       pcs := [FlushIo(p, f, s.meta[f].epoch, n)])
  }

  lemma ResidentFacts(s: State, p: PageId)
    requires Inv(s) && PageIs(s, p, Resident)
    ensures ResidentAt(s, p) && s.table[p].frame.value < |s.mem| && |s.disk| == |s.table|
    ensures MetaConsistent(s, p, s.table[p].frame.value) && s.table[p].frame.value in s.tracked
    ensures s.tracked[s.table[p].frame.value] <==> s.meta[s.table[p].frame.value].pins == 0
    ensures s.table[p].frame.value in s.inUse
  {
    assert PageOk(s, p);
    assert FrameOk(s, s.table[p].frame.value);
  }

  lemma Flushes(s: State, p: PageId, f: FrameId, n: nat)
    requires At(s, Idle) && ResidentAt(s, p) && s.table[p].frame == Some(f) && n <= PAGE_SIZE
    requires s.meta[f].dirty && s.meta[f].pins < MAX_PINS && p < |s.disk| && f < |s.mem|
    ensures Reachable(FlushingState(s, p, f, n)) && Inv(FlushingState(s, p, f, n))
    ensures Contents(FlushingState(s, p, f, n)) == Contents(s) && RunsTo(s, FlushingState(s, p, f, n))
  {
    hide RunsTo, Reachable, Inv, WellFormed, Contents;
    Quiet(s, Idle);
    Invoke(s, FlushLoop(p));
    var s1 := s.(pcs := [FlushLoop(p)]);
    Quiet(s1, FlushLoop(p));
    WellFormedInv(s1);
    var s2 := ApplyFlushBegin(s1, 0);
    Take(s1, FlushBegin(0), s2);
    assert Splice(s.disk[p], s.mem[f], 0, 0) == s.disk[p];
    assert s2 == FlushingState(s, p, f, 0);
    Chain(s, s1, s2);
    if n != 0 {
      FlushCopies(s, p, f, n);
      Chain(s, s2, FlushingState(s, p, f, n));
    }
  }

  lemma FlushCopies(s: State, p: PageId, f: FrameId, n: nat)
    requires p < |s.disk| && f < |s.meta| && f < |s.mem| && 0 < n <= PAGE_SIZE
    requires Reachable(FlushingState(s, p, f, 0)) && Inv(FlushingState(s, p, f, 0))
    ensures Reachable(FlushingState(s, p, f, n)) && Inv(FlushingState(s, p, f, n))
    ensures Contents(FlushingState(s, p, f, n)) == Contents(FlushingState(s, p, f, 0))
    ensures RunsTo(FlushingState(s, p, f, 0), FlushingState(s, p, f, n))
  {
    hide RunsTo, Reachable, Inv, WellFormed, Contents;
    var s2 := FlushingState(s, p, f, 0);
    WellFormedInv(s2);
    var s3 := ApplyFlushChunk(s2, 0, n);
    Take(s2, FlushChunk(0, n), s3);
    assert Splice(s2.disk[p], s.mem[f], 0, n) == Splice(s.disk[p], s.mem[f], 0, n);
    assert s3 == FlushingState(s, p, f, n);
  }

  /** FlushPage of a dirty page: the file receives the bytes, the page is clean. */
  lemma FlushCleans(s: State, p: PageId, f: FrameId)
    requires At(s, Idle) && ResidentAt(s, p) && s.table[p].frame == Some(f)
    requires s.meta[f].dirty && s.meta[f].pins < MAX_PINS && p < |s.disk| && f < |s.mem|
    ensures var s' := s.(disk := s.disk[p := s.mem[f]], meta := s.meta[f := s.meta[f].(dirty := false)]);
            At(s', Idle) && RunsTo(s, s') && Contents(s') == Contents(s)
  {
    hide RunsTo, Reachable, Inv, WellFormed, Contents;
    Quiet(s, Idle);
    ResidentFacts(s, p);
    Flushes(s, p, f, PAGE_SIZE);
    var s1 := FlushingState(s, p, f, PAGE_SIZE);
    WellFormedInv(s1);
    var s2 := ApplyFlushDone(s1, 0);
    Take(s1, FlushDone(0), s2);
    Chain(s, s1, s2);
    assert Splice(s.disk[p], s.mem[f], 0, PAGE_SIZE) == s.mem[f];
    assert s2.tracked == s.tracked;
    assert s2 == s.(disk := s.disk[p := s.mem[f]], meta := s.meta[f := s.meta[f].(dirty := false)]);
  }

  lemma FlushFails(s: State, p: PageId, f: FrameId, n: nat)
    requires At(s, Idle) && ResidentAt(s, p) && s.table[p].frame == Some(f) && n < PAGE_SIZE
    requires s.meta[f].dirty && s.meta[f].pins < MAX_PINS && p < |s.disk| && f < |s.mem|
    ensures var s' := s.(disk := s.disk[p := Splice(s.disk[p], s.mem[f], 0, n)]);
            At(s', Idle) && RunsTo(s, s') && Contents(s') == Contents(s)
  {
    hide RunsTo, Reachable, Inv, WellFormed, Contents;
    Quiet(s, Idle);
    ResidentFacts(s, p);
    Flushes(s, p, f, n);
    var s1 := FlushingState(s, p, f, n);
    WellFormedInv(s1);
    var s2 := ApplyFlushFail(s1, 0);
    Take(s1, FlushFail(0), s2);
    Chain(s, s1, s2);
    assert s2.tracked == s.tracked;
    assert s2.meta == s.meta;
    assert s2 == s.(disk := s.disk[p := Splice(s.disk[p], s.mem[f], 0, n)]);
  }

  // ----- DeletePage -----

  lemma DeletesResident(s: State, p: PageId, f: FrameId)
    requires At(s, Idle) && ResidentAt(s, p) && s.table[p].frame == Some(f) && s.meta[f].pins == 0
    ensures var s' := s.(table := s.table[p := UNUSED_ENTRY], meta := s.meta[f := FREE_META],
                         inUse := s.inUse - {f}, tracked := R.Remove(s.tracked, f));
            At(s', Idle) && RunsTo(s, s') && p in Contents(s) && Contents(s') == Contents(s) - {p}
  {
    hide RunsTo, Reachable, Inv, WellFormed, Contents;
    Quiet(s, Idle);
    Invoke(s, DeleteLoop(p));
    var s1 := s.(pcs := [DeleteLoop(p)]);
    Quiet(s1, DeleteLoop(p));
    WellFormedInv(s1);
    var s2 := ApplyDeleteResident(s1, 0);
    Take(s1, DeleteResident(0), s2);
    Chain(s, s1, s2);
    assert s2 == s.(table := s.table[p := UNUSED_ENTRY], meta := s.meta[f := FREE_META],
                    inUse := s.inUse - {f}, tracked := R.Remove(s.tracked, f));
  }

  lemma DeletesNonResident(s: State, p: PageId)
    requires At(s, Idle) && PageIs(s, p, NonResident)
    ensures var s' := s.(table := s.table[p := UNUSED_ENTRY]);
            At(s', Idle) && RunsTo(s, s') && p in Contents(s) && Contents(s') == Contents(s) - {p}
  {
    hide RunsTo, Reachable, Inv, WellFormed, Contents;
    Quiet(s, Idle);
    Invoke(s, DeleteLoop(p));
    var s1 := s.(pcs := [DeleteLoop(p)]);
    Quiet(s1, DeleteLoop(p));
    WellFormedInv(s1);
    var s2 := ApplyDeleteNonResident(s1, 0);
    Take(s1, DeleteNonResident(0), s2);
    Chain(s, s1, s2);
    assert s2 == s.(table := s.table[p := UNUSED_ENTRY]);
  }

  // ----- Guards -----

  lemma GuardFacts(s: State, g: GuardId)
    requires Inv(s) && g in s.guards
    ensures var f := s.guards[g].frame;
            && f < |s.meta| && f < |s.mem| && MetaConsistent(s, s.guards[g].page, f)
            && s.meta[f].pins > 0 && f in s.tracked && f in s.inUse && s.guards[g].page < |s.table|
            && s.table[s.guards[g].page] == Entry(Resident, Some(f))
  {
    assert GuardOk(s, g);
    HolderPins(s, s.guards[g].frame);
    assert FrameOk(s, s.guards[g].frame);
    assert PageOk(s, s.guards[g].page);
  }

  lemma Drops(s: State, g: GuardId)
    requires At(s, Idle) && g in s.guards && !s.guards[g].unmarked
    ensures var f := s.guards[g].frame;
            && f < |s.meta|
            && var s' := s.(meta := s.meta[f := Unpinned(s.meta[f])], guards := s.guards - {g},
                            tracked := UnpinTracked(s.meta[f], s.tracked, f));
               At(s', Idle) && RunsTo(s, s') && Contents(s') == Contents(s)
  {
    hide RunsTo, Reachable, Inv, WellFormed, Contents;
    Quiet(s, Idle);
    GuardFacts(s, g);
    WellFormedInv(s);
    var s1 := ApplyDropGuard(s, g);
    Take(s, DropGuard(g), s1);
  }

  lemma Marks(s: State, g: GuardId)
    requires At(s, Idle) && g in s.guards
    ensures var f := s.guards[g].frame;
            && f < |s.meta|
            && var s' := s.(meta := s.meta[f := s.meta[f].(dirty := true, epoch := NextEpoch(s.meta[f].epoch))],
                            guards := s.guards[g := s.guards[g].(unmarked := false)]);
               At(s', Idle) && RunsTo(s, s') && Contents(s') == Contents(s)
  {
    hide RunsTo, Reachable, Inv, WellFormed, Contents;
    Quiet(s, Idle);
    GuardFacts(s, g);
    WellFormedInv(s);
    var s1 := ApplyMarkDirty(s, g);
    Take(s, Step.MarkDirty(g), s1);
  }

  lemma Writes(s: State, g: GuardId, bytes: Page)
    requires At(s, Idle) && g in s.guards
    ensures var f := s.guards[g].frame;
            && f < |s.mem|
            && var s' := s.(mem := s.mem[f := bytes], guards := s.guards[g := s.guards[g].(unmarked := true)]);
               At(s', Idle) && RunsTo(s, s') && s.guards[g].page in Contents(s)
               && Contents(s') == Contents(s)[s.guards[g].page := bytes]
  {
    hide RunsTo, Reachable, Inv, WellFormed, Contents;
    Quiet(s, Idle);
    GuardFacts(s, g);
    WellFormedInv(s);
    var s1 := ApplyWriteBytes(s, g, bytes);
    Take(s, WriteBytes(g, bytes), s1);
  }
}
