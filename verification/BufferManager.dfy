/** The buffer manager as a class over its components, used by one thread. A ghost field
    follows the calls through the states of the protocol, so that each call is a run of
    the protocol and inherits what is proved there. */
module BufferManager {
  import opened Common
  import opened PageStates
  import opened Protocol
  import opened ProtocolInvariant
  import opened ProtocolView
  import opened ProtocolTheorems
  import opened ProtocolSafety
  import opened Sequential
  import opened ProtocolLiveness
  import A = FrameAllocator
  import C = ClockReplacer
  import D = DiskManager
  import R = ReplacerContract
  import T = PageTable

  /** What obtaining a frame comes to. */
  datatype Acquired = GotFrame(f: FrameId) | NoFrameAvailable | VictimNotWritten(f: FrameId)

  /** Why an operation throws. */
  datatype Failure =
    IdsExhausted | FramesPinned | WriteFailed | ReadFailed | InvalidId | UnusedPage | PinOverflow | PinnedPage

  datatype Status = Ok | Thrown(why: Failure)

  // ----- What the contracts talk about -----

  ghost predicate SamePins(m: seq<FrameMeta>, m': seq<FrameMeta>)
  {
    |m| == |m'| && forall f :: 0 <= f < |m| ==> m[f].pins == m'[f].pins
  }

  /** Every frame holds a page that somebody has pinned. */
  ghost predicate AllPinned(x: State)
  {
    forall f :: 0 <= f < |x.meta| ==> x.meta[f].state == ResidentFrame && x.meta[f].pins > 0
  }

  lemma SamePinsAsSelf(m: seq<FrameMeta>)
    ensures SamePins(m, m)
  {
  }

  /** The pin count of the resident page `p` has reached its limit. */
  ghost predicate PinsFull(x: State, p: PageId)
  {
    ResidentAt(x, p) && x.meta[x.table[p].frame.value].pins == MAX_PINS
  }

  /** A flush pins the page without looking at the limit, so there has to be room. */
  ghost predicate PinRoom(x: State, p: PageId)
  {
    ResidentAt(x, p) ==> x.meta[x.table[p].frame.value].pins < MAX_PINS
  }

  lemma RoomStays(x: State, y: State)
    requires y == x.(disk := y.disk, meta := y.meta) && SamePins(x.meta, y.meta)
    requires forall p: PageId :: PinRoom(x, p)
    ensures forall p: PageId :: PinRoom(y, p)
  {
    forall p: PageId ensures PinRoom(y, p) { assert PinRoom(x, p); }
  }

  /** The disk calls made between two scripts all went well, or the last one failed: by
      itself, or because the file has no room for its offset. */
  ghost predicate Transferred(l: D.Layout, before: seq<D.Transfer>, after: seq<D.Transfer>, ok: bool, writing: bool)
    requires D.Accepted(l)
  {
    if ok then D.WentWell(before, after, writing)
    else D.WentWrong(before, after, writing) || (!D.Fits(l) && D.WentWell(before, after, writing))
  }

  lemma NothingTransferred(l: D.Layout, script: seq<D.Transfer>, writing: bool)
    requires D.Accepted(l)
    ensures Transferred(l, script, script, true, writing)
  {
    D.NothingSpent(script, writing);
  }

  lemma TransferredThen(l: D.Layout, before: seq<D.Transfer>, mid: seq<D.Transfer>, after: seq<D.Transfer>,
                        ok: bool, writing: bool)
    requires D.Accepted(l) && Transferred(l, before, mid, true, writing) && Transferred(l, mid, after, ok, writing)
    ensures Transferred(l, before, after, ok, writing)
  {
    hide D.WentWell, D.WentWrong;
    D.WellThen(before, mid, after, writing);
  }

  lemma WrittenAsRead(l: D.Layout, before: seq<D.Transfer>, after: seq<D.Transfer>)
    requires D.Accepted(l) && Transferred(l, before, after, true, true)
    ensures Transferred(l, before, after, true, false)
  {
    D.WellForReads(before, after);
  }

  /** On a sound disk no transfer fails, and the disk stays sound. */
  lemma SoundTransfer(l: D.Layout, before: seq<D.Transfer>, after: seq<D.Transfer>, ok: bool, writing: bool)
    requires D.Accepted(l) && Transferred(l, before, after, ok, writing)
    requires D.Fits(l) && D.Harmless(before)
    ensures ok && D.Harmless(after)
  {
    hide D.WentWell, D.WentWrong, D.Harmless;
    D.HarmlessGoesWell(before, after, writing);
    if D.WentWell(before, after, writing) { D.SpentWell(before, after, writing); }
  }

  lemma SoundTransfers(l: D.Layout, before: seq<D.Transfer>)
    requires D.Accepted(l) && D.Fits(l) && D.Harmless(before)
    ensures forall after, ok, writing {:trigger Transferred(l, before, after, ok, writing)} ::
              Transferred(l, before, after, ok, writing) ==> ok && D.Harmless(after)
  {
    hide Transferred, D.Harmless;
    forall after, ok, writing | Transferred(l, before, after, ok, writing) ensures ok && D.Harmless(after) {
      SoundTransfer(l, before, after, ok, writing);
    }
  }

  /** The replacer after frame `f` has been found for a page: `f` was free, or CLOCK has
      chosen it as its victim. */
  ghost predicate ChosenBy(c: C.Clock, evicted: bool, f: FrameId, now: C.Clock)
  {
    if evicted then C.ValidClock(c) && C.VictimSpec(c, Some(f), now) else now == c
  }

  /** The replacer when CLOCK's victim `f` could not be written: it is back, evictable and
      as good as accessed. */
  ghost predicate Replaced(c: C.Clock, f: FrameId, now: C.Clock)
  {
    exists b: C.Clock :: ChosenBy(c, true, f, b) && PutBack(b, f, true, now)
  }

  /** Only `f` has changed: it is tracked and has its reference bit. */
  predicate PutBack(b: C.Clock, f: FrameId, evictable: bool, now: C.Clock)
  {
    f < |b.entries| && now == C.Clock(b.entries[f := C.ClockEntry(true, evictable, true)], b.hand)
  }

  /** Only the evictable flag of `f` has changed; its reference bit is as before. */
  predicate Flagged(b: C.Clock, f: FrameId, evictable: bool, now: C.Clock)
  {
    f < |b.entries| && now == C.Clock(b.entries[f := C.ClockEntry(true, evictable, b.entries[f].referenced)], b.hand)
  }

  lemma FlaggedBack(b: C.Clock, f: FrameId, mid: C.Clock, now: C.Clock)
    requires f in C.Tracked(b) && Flagged(b, f, false, mid)
    requires if C.Tracked(b)[f] then Flagged(mid, f, true, now) else now == mid
    ensures now == b
  {
    assert now.entries == b.entries;
  }

  /** The replacer after frame `f` has been pinned for a page: the frame has its reference
      bit and is not evictable, and nothing else has changed, but for what CLOCK has done
      if it had to choose `f` as its victim first. */
  ghost predicate Accessed(c: C.Clock, evicted: bool, f: FrameId, now: C.Clock)
  {
    exists b: C.Clock :: ChosenBy(c, evicted, f, b) && PutBack(b, f, false, now)
  }

  /** All that has happened between `x` and `y`: frame `f` was free or its page has been
      written back and unmapped, and now it is the home of `p`, pinned by the guard `g`. */
  ghost predicate Placed(x: State, y: State, p: PageId, f: FrameId, g: GuardId, dirty: bool, epoch: nat)
  {
    && Obtainable(x, f) && f < |y.mem|
    && p < |InHand(x, f).table| && f < |InHand(x, f).meta| && f < |InHand(x, f).mem|
    && y == Housed(InHand(x, f), p, f, g, y.mem[f], dirty, epoch)
  }

  /** All that has happened between `x` and `y`: the frame of the resident page `p` has one
      more pin and the new guard `g`. */
  ghost predicate Pinned(x: State, y: State, p: PageId, f: FrameId, g: GuardId)
  {
    && ResidentAt(x, p) && x.table[p].frame == Some(f)
    && y == x.(meta := x.meta[f := x.meta[f].(pins := x.meta[f].pins + 1)],
               tracked := Touch(x.tracked, f, false), guards := x.guards[g := Guard(p, f, false)])
  }

  /** The id `p` has been taken: the one that was given back last, or else the first that
      has never been handed out. */
  ghost predicate IdTaken(freeIds: seq<PageId>, next: nat, p: PageId, freeIds': seq<PageId>, next': nat)
  {
    if freeIds != [] then freeIds == freeIds' + [p] && next' == next
    else p == next && freeIds' == [] && next' == next + 1
  }

  // ----- Facts about states at rest -----

  lemma VictimsAtRest(x: State)
    requires At(x, Idle)
    ensures VictimsResident(x) && NoTransients(x)
  {
    Quiet(x, Idle);
    hide Inv, Reachable;
    Shape(x);
    forall f {:trigger R.IsEvictable(x.tracked, f)} | 0 <= f < |x.meta| && R.IsEvictable(x.tracked, f)
      ensures && f in x.inUse
              && x.meta[f].page.Some? && x.meta[f].page.value < |x.table|
              && x.meta[f] == FrameMeta(x.meta[f].page, 0, x.meta[f].dirty, x.meta[f].epoch, ResidentFrame)
              && x.table[x.meta[f].page.value] == Entry(Resident, Some(f))
    {
      VictimFacts(x, f);
    }
  }

  lemma Shape(x: State)
    requires Inv(x)
    ensures |x.disk| == |x.table| && |x.mem| == |x.meta|
  {
  }

  lemma FrameFacts(x: State, f: FrameId)
    requires Inv(x) && f < |x.meta|
    ensures f in x.inUse <==> x.meta[f].state != Free
    ensures f in x.tracked <==> x.meta[f].state == ResidentFrame
    ensures f in x.tracked ==> (x.tracked[f] <==> x.meta[f].pins == 0)
  {
    assert FrameOk(x, f);
  }

  /** At rest no page is in transit, and the pages that exist are those with an id. */
  lemma PageAtRest(x: State, p: PageId)
    requires At(x, Idle)
    ensures p in Contents(x) <==> p < |x.table| && x.table[p].state != Unused
    ensures p < |x.table| ==> x.table[p].state != Loading && x.table[p].state != PageState.Evicting
    ensures PageIs(x, p, Resident) ==>
              && ResidentAt(x, p) && x.table[p].frame.value < |x.mem| && |x.disk| == |x.table|
              && MetaConsistent(x, p, x.table[p].frame.value)
              && x.table[p].frame.value in x.inUse && x.table[p].frame.value in x.tracked
    ensures PageIs(x, p, NonResident) ==> x.table[p] == NON_RESIDENT_ENTRY
  {
    Quiet(x, Idle);
    if p < |x.table| { PageFacts(x, p); }
    if PageIs(x, p, Resident) { ResidentFacts(x, p); }
  }

  lemma PageFacts(x: State, p: PageId)
    requires Inv(x) && p < |x.table|
    ensures PageIs(x, p, NonResident) ==> x.table[p] == NON_RESIDENT_ENTRY
    ensures Mapped(x.table[p]) ==>
              && x.table[p].frame.Some? && x.table[p].frame.value < |x.meta|
              && x.meta[x.table[p].frame.value].state == FrameStateFor(x.table[p].state)
  {
    assert PageOk(x, p);
  }

  /** At rest a frame can be had unless all of them are pinned. */
  lemma NothingLeft(x: State)
    requires At(x, Idle) && NoFreeFrame(x) && NoVictim(x)
    ensures AllPinned(x)
  {
    Quiet(x, Idle);
    hide Inv, Reachable;
    forall f | 0 <= f < |x.meta| ensures x.meta[f].state == ResidentFrame && x.meta[f].pins > 0 {
      FrameFacts(x, f);
      assert !R.IsEvictable(x.tracked, f);
    }
  }

  lemma SomethingLeft(x: State, f: FrameId)
    requires At(x, Idle) && Obtainable(x, f)
    ensures !AllPinned(x)
  {
    Quiet(x, Idle);
    hide Inv, Reachable;
    FrameFacts(x, f);
  }

  /** An evictable frame holds a resident page that nobody has pinned. */
  ghost predicate VictimsResident(x: State)
  {
    && |x.disk| == |x.table| && |x.mem| == |x.meta|
    && forall f {:trigger R.IsEvictable(x.tracked, f)} :: 0 <= f < |x.meta| && R.IsEvictable(x.tracked, f) ==>
         && f in x.inUse
         && x.meta[f].page.Some? && x.meta[f].page.value < |x.table|
         && x.meta[f] == FrameMeta(x.meta[f].page, 0, x.meta[f].dirty, x.meta[f].epoch, ResidentFrame)
         && x.table[x.meta[f].page.value] == Entry(Resident, Some(f))
  }

  ghost predicate NoTransients(x: State)
  {
    forall f :: 0 <= f < |x.meta| ==> !Transient(x.meta[f])
  }

  // ----- What a new page makes of the states -----

  lemma ReservationStays(x: State, p: PageId)
    requires VictimsResident(x) && NoTransients(x) && PageIs(x, p, Unused)
    ensures VictimsResident(x.(table := x.table[p := NON_RESIDENT_ENTRY]))
    ensures NoTransients(x.(table := x.table[p := NON_RESIDENT_ENTRY]))
  {
  }

  lemma ObtainableStays(x: State, p: PageId, f: FrameId)
    requires VictimsResident(x) && PageIs(x, p, Unused) && Obtainable(x.(table := x.table[p := NON_RESIDENT_ENTRY]), f)
    ensures Obtainable(x, f)
    ensures f in x.inUse ==> x.meta[f].page.value != p
  {
    if f in x.inUse { assert R.IsEvictable(x.tracked, f); }
  }

  lemma GivenBack(x: State, p: PageId)
    requires At(x, Idle) && PageIs(x, p, Unused)
    ensures x.table[p := NON_RESIDENT_ENTRY][p := UNUSED_ENTRY] == x.table
  {
    hide Inv, Reachable;
    Quiet(x, Idle);
    UnusedEntry(x, p);
  }

  /** Reserving the id first makes no difference to the frame in hand, but for the id. */
  lemma SameHand(x: State, p: PageId, f: FrameId, g: GuardId)
    requires p < |x.table| && Obtainable(x, f) && (f in x.inUse ==> x.meta[f].page.value != p)
    ensures var y := x.(table := x.table[p := NON_RESIDENT_ENTRY]);
            && InHand(y, f).table == InHand(x, f).table[p := NON_RESIDENT_ENTRY]
            && f < |InHand(x, f).meta| && f < |InHand(x, f).mem| && p < |InHand(x, f).table|
            && f < |InHand(y, f).meta| && f < |InHand(y, f).mem| && p < |InHand(y, f).table|
            && InHand(y, f).table[p] == NON_RESIDENT_ENTRY
            && Housed(InHand(y, f), p, f, g, ZeroPage(), true, NEW_PAGE_EPOCH)
               == Housed(InHand(x, f), p, f, g, ZeroPage(), true, NEW_PAGE_EPOCH)
  {
    var y := x.(table := x.table[p := NON_RESIDENT_ENTRY]);
    assert InHand(y, f).table == InHand(x, f).table[p := NON_RESIDENT_ENTRY];
    assert InHand(y, f).table[p := Entry(Resident, Some(f))] == InHand(x, f).table[p := Entry(Resident, Some(f))];
  }

  /** At rest a page is pinned exactly while a guard on it lives. */
  lemma PinnedMeansGuarded(x: State, p: PageId)
    requires At(x, Idle) && ResidentAt(x, p)
    ensures x.meta[x.table[p].frame.value].pins != 0 <==> exists g :: g in x.guards && x.guards[g].page == p
  {
    Quiet(x, Idle);
    var f := x.table[p].frame.value;
    hide Inv;
    GuardCount(x, f);
    ResidentFacts(x, p);
    if x.meta[f].pins != 0 {
      var g :| g in GuardsOn(x.guards, f);
      GuardFacts(x, g);
    }
    if g :| g in x.guards && x.guards[g].page == p {
      GuardFacts(x, g);
      assert g in GuardsOn(x.guards, f);
    }
  }

  lemma GuardCount(x: State, f: FrameId)
    requires Inv(x) && x.pcs == [Idle] && f < |x.meta|
    ensures x.meta[f].pins == |GuardsOn(x.guards, f)|
  {
    assert FrameOk(x, f);
    assert PinnersOn(x.pcs, f) == {};
  }

  lemma GuardAtRest(x: State, g: GuardId)
    requires At(x, Idle) && g in x.guards
    ensures var f := x.guards[g].frame;
            && f < |x.meta| && f < |x.mem| && MetaConsistent(x, x.guards[g].page, f)
            && x.meta[f].pins > 0 && f in x.tracked && f in x.inUse && x.guards[g].page < |x.table|
            && x.table[x.guards[g].page] == Entry(Resident, Some(f))
  {
    Quiet(x, Idle);
    hide Inv;
    GuardFacts(x, g);
  }

  lemma GuardedIsResident(x: State, p: PageId)
    requires At(x, Idle)
    ensures (exists g :: g in x.guards && x.guards[g].page == p) ==> PageIs(x, p, Resident)
  {
    hide At;
    if g :| g in x.guards && x.guards[g].page == p { GuardAtRest(x, g); }
  }

  /** At rest every frame is pinned exactly when there is a live guard on every frame. */
  lemma AllPinnedMeansAllGuarded(x: State)
    requires At(x, Idle)
    ensures AllPinned(x) <==> forall f: FrameId :: f < |x.meta| ==> GuardsOn(x.guards, f) != {}
  {
    Quiet(x, Idle);
    hide Inv, Reachable;
    forall f: FrameId | f < |x.meta|
      ensures x.meta[f].state == ResidentFrame && x.meta[f].pins > 0 <==> GuardsOn(x.guards, f) != {}
    {
      GuardCount(x, f);
      if g :| g in GuardsOn(x.guards, f) { GuardFacts(x, g); }
      else { assert GuardsOn(x.guards, f) == {}; }
      if x.meta[f].pins > 0 { PinnedIsResident(x, f); }
    }
  }

  lemma PinnedIsResident(x: State, f: FrameId)
    requires Inv(x) && f < |x.meta| && x.meta[f].pins > 0 && !Transient(x.meta[f])
    ensures x.meta[f].state == ResidentFrame
  {
    assert FrameOk(x, f);
  }

  /** The file holds what the pool says about the page. */
  ghost predicate OnDisk(x: State, p: PageId)
  {
    p < |x.disk| && p in Contents(x) && x.disk[p] == Contents(x)[p]
  }

  /** Every change made to the page has been marked. */
  ghost predicate Marked(x: State, p: PageId)
  {
    forall g :: g in x.guards && x.guards[g].page == p ==> !x.guards[g].unmarked
  }

  ghost predicate Dirty(x: State, p: PageId)
  {
    ResidentAt(x, p) && x.meta[x.table[p].frame.value].dirty
  }

  /** A page that is not dirty is on disk. */
  lemma CleanIsOnDisk(x: State, p: PageId)
    requires At(x, Idle) && p in Contents(x) && !Dirty(x, p) && Marked(x, p)
    ensures OnDisk(x, p)
  {
    PageAtRest(x, p);
    Quiet(x, Idle);
    hide Inv, Reachable;
    Shape(x);
    if PageIs(x, p, Resident) {
      var f := x.table[p].frame.value;
      CleanMeansOnDisk(x, f, p);
      forall g | g in x.guards && x.guards[g].frame == f ensures !x.guards[g].unmarked {
        GuardFacts(x, g);
        OnePageOneFrame(x, f, f, p);
      }
    }
  }

  lemma NotResidentNotDirty(x: State, p: PageId)
    requires !PageIs(x, p, Resident)
    ensures !Dirty(x, p)
  {
  }

  lemma EvictableWhenUnpinned(x: State, p: PageId)
    requires At(x, Idle) && PageIs(x, p, Resident)
    ensures ResidentAt(x, p) && x.table[p].frame.value in x.tracked
    ensures x.tracked[x.table[p].frame.value] <==> x.meta[x.table[p].frame.value].pins == 0
  {
    Quiet(x, Idle);
    ResidentFacts(x, p);
  }

  /** Cleaning the frame of one page leaves the dirty flags of the others alone. */
  lemma OthersStayDirty(x: State, p: PageId, f: FrameId)
    requires At(x, Idle) && ResidentAt(x, p) && x.table[p].frame == Some(f) && p < |x.disk| && f < |x.mem|
    ensures var y := x.(disk := x.disk[p := x.mem[f]], meta := x.meta[f := x.meta[f].(dirty := false)]);
            && !Dirty(y, p) && SamePins(x.meta, y.meta)
            && forall q: PageId :: q != p && Dirty(y, q) <==> q != p && Dirty(x, q)
  {
    hide At;
    forall q: PageId | q != p && PageIs(x, q, Resident) ensures x.table[q].frame != Some(f) {
      PageAtRest(x, p);
      PageAtRest(x, q);
    }
  }

  /** The resident pages found dirty in the first `n` frames are among `pages`. */
  ghost predicate Collected(x: State, n: nat, pages: seq<PageId>)
  {
    && (forall f :: 0 <= f < n && f < |x.meta| && x.meta[f].state == ResidentFrame && x.meta[f].dirty ==>
          x.meta[f].page.Some? && x.meta[f].page.value in pages)
    && (forall p :: p in pages ==> p in Contents(x))
  }

  lemma CollectedAll(x: State, pages: seq<PageId>)
    requires At(x, Idle) && Collected(x, |x.meta|, pages)
    ensures forall p: PageId :: Dirty(x, p) ==> p in pages
  {
    hide At, Contents;
    forall p: PageId | Dirty(x, p) ensures p in pages { PageAtRest(x, p); }
  }

  lemma ResidentFrameHasPage(x: State, f: FrameId)
    requires At(x, Idle) && f < |x.meta| && x.meta[f].state == ResidentFrame
    ensures x.meta[f].page.Some? && x.meta[f].page.value in Contents(x)
  {
    Quiet(x, Idle);
    hide Inv, Reachable;
    FramePage(x, f);
    PageAtRest(x, x.meta[f].page.value);
  }

  lemma FramePage(x: State, f: FrameId)
    requires Inv(x) && f < |x.meta| && x.meta[f].state == ResidentFrame
    ensures x.meta[f].page.Some? && x.meta[f].page.value < |x.table|
    ensures x.table[x.meta[f].page.value].state != Unused
  {
    assert FrameOk(x, f);
    assert PageOk(x, x.meta[f].page.value);
  }

  lemma AllCleanIsOnDisk(x: State)
    requires At(x, Idle) && forall p: PageId :: !Dirty(x, p)
    ensures forall p: PageId :: p in Contents(x) && Marked(x, p) ==> OnDisk(x, p)
  {
    hide At, Contents, Marked, OnDisk, Dirty;
    forall p: PageId | p in Contents(x) && Marked(x, p) ensures OnDisk(x, p) { CleanIsOnDisk(x, p); }
  }

  lemma FlushUnpins(m: FrameMeta, tracked: R.Tracked, f: FrameId)
    requires f in tracked && (tracked[f] <==> m.pins == 0)
    ensures f in R.SetEvictable(tracked, f, false)
    ensures UnpinTracked(m.(pins := m.pins + 1), R.SetEvictable(tracked, f, false), f) == tracked
    ensures UnpinTracked(m.(pins := m.pins + 1, dirty := false), R.SetEvictable(tracked, f, false), f) == tracked
  {
  }

  /** The frame in hand is nobody's, and the page to fetch is still not in memory. */
  lemma HandFacts(x: State, p: PageId, f: FrameId)
    requires At(x, Idle) && PageIs(x, p, NonResident) && Obtainable(x, f)
    ensures var b := InHand(x, f);
            && f < |b.meta| && f < |b.mem| && p < |b.table| && |b.disk| == |b.table| && f in b.inUse
            && b.table[p] == NON_RESIDENT_ENTRY && b.guards == x.guards
            && (forall n :: 0 <= n <= PAGE_SIZE ==> SamePins(x.meta, Unloaded(b, p, f, n).meta))
  {
    Quiet(x, Idle);
    hide Inv, Reachable;
    PageFacts(x, p);
    FreeMeta(x, f);
    if f in x.inUse { VictimFacts(x, f); }
  }

  lemma FreeMeta(x: State, f: FrameId)
    requires Inv(x) && f < |x.meta|
    ensures f !in x.inUse ==> x.meta[f] == FREE_META
  {
    assert FrameOk(x, f);
  }

  class BufferManager {
    const disk: D.DiskManager
    const allocator: A.FrameAllocator
    const table: T.PageTable
    const replacer: C.ClockReplacer
    var meta: seq<FrameMeta>
    ghost var s: State
    ghost var holders: map<GuardId, PageGuard>

    // ----- The components stand for the parts of a state -----

    /** Every frame has its own page-sized buffer, and no array is used twice. */
    ghost predicate Buffers()
    {
      && (allocator.bitmap as object) != (table.pages as object)
      && (allocator.bitmap as object) != (replacer.entries as object)
      && (table.pages as object) != (replacer.entries as object)
      && (forall f :: 0 <= f < |allocator.frames| ==>
            && (allocator.frames[f] as object) != (allocator.bitmap as object)
            && (allocator.frames[f] as object) != (table.pages as object)
            && (allocator.frames[f] as object) != (replacer.entries as object))
      && (forall f :: 0 <= f < |allocator.frames| ==> allocator.frames[f].Length == PAGE_SIZE)
      && (forall f, g :: 0 <= f < g < |allocator.frames| ==> allocator.frames[f] != allocator.frames[g])
    }

    ghost predicate Sized()
    {
      && 0 < allocator.frameCount == replacer.entries.Length
      && |allocator.frames| == allocator.frameCount && Buffers()
      && D.Accepted(disk.layout) && table.pages.Length == disk.layout.maxPageCount
    }

    ghost predicate TableIs(entries: seq<Entry>)
      reads table, table.pages
    {
      table.Valid() && table.pages[..] == entries
    }

    ghost predicate InUseIs(inUse: set<FrameId>)
      reads allocator, allocator.bitmap
    {
      allocator.Valid() && allocator.InUse() == inUse
    }

    ghost predicate TrackedIs(tracked: R.Tracked)
      reads replacer, replacer.entries
    {
      replacer.Valid() && C.Tracked(replacer.View()) == tracked
    }

    ghost predicate MemIs(mem: seq<Page>)
      reads allocator.frames
    {
      |mem| == |allocator.frames| && forall f :: 0 <= f < |mem| ==> allocator.frames[f][..] == mem[f]
    }

    ghost predicate DiskIs(d: seq<Page>)
      reads disk
    {
      disk.Disk() == d
    }

    ghost predicate Agree(x: State)
      reads this`meta, disk, allocator, allocator.bitmap, allocator.frames
      reads table, table.pages, replacer, replacer.entries
    {
      && Sized()
      && |x.meta| == allocator.frameCount && |x.disk| == |x.table| == table.pages.Length
      && TableIs(x.table) && meta == x.meta && InUseIs(x.inUse)
      && TrackedIs(x.tracked) && MemIs(x.mem) && DiskIs(x.disk)
    }

    /** The objects that belong to this manager. */
    ghost function Footprint(): set<object>
    {
      {this, disk, allocator, allocator.bitmap, table, table.pages, replacer, replacer.entries}
      + set f | 0 <= f < |allocator.frames| :: allocator.frames[f] as object
    }

    ghost predicate Valid()
      reads Footprint()
    {
      assert forall f :: 0 <= f < |allocator.frames| ==> allocator.frames[f] in Footprint();
      Agree(s) && At(s, Idle)
    }

    ghost function Bytes(): (mem: seq<Page>)
      requires Sized()
      reads allocator.frames
      ensures MemIs(mem)
    {
      seq(|allocator.frames|,
          f requires 0 <= f < |allocator.frames| && allocator.frames[f].Length == PAGE_SIZE reads allocator.frames
            => allocator.frames[f][..])
    }

    lemma NewParts()
      requires Sized() && |meta| == allocator.frameCount && forall f :: 0 <= f < |meta| ==> meta[f] == FREE_META
      requires allocator.Valid() && allocator.InUse() == {}
      requires table.Valid() && table.View() == T.Table(seq(disk.layout.maxPageCount, _ => UNUSED_ENTRY), [], 0)
      requires replacer.Valid() && replacer.View() == C.Clock(seq(allocator.frameCount, _ => C.EMPTY_ENTRY), 0)
      ensures Agree(InitialState(allocator.frameCount, disk.layout.maxPageCount, Bytes(), disk.Disk()))
    {
      hide A.ValidBitmap, A.Allocated, T.ValidTable, C.ValidClock, D.Slots, Buffers;
      assert C.Tracked(replacer.View()) == map[];
      assert table.pages[..] == table.View().pages;
      assert meta == InitialState(allocator.frameCount, disk.layout.maxPageCount, Bytes(), disk.Disk()).meta;
    }

    /** A manager over a file with the given contents. */
    constructor (frameCount: nat, layout: D.Layout, contents: seq<Byte>, calls: seq<D.Transfer>)
      requires 0 < frameCount && D.Accepted(layout)
      ensures Valid() && Contents(s) == map[] && s.guards == map[]
      ensures fresh(disk) && fresh(allocator) && fresh(allocator.bitmap) && fresh(table) && fresh(table.pages)
      ensures fresh(replacer) && fresh(replacer.entries) && forall a :: a in allocator.frames ==> fresh(a)
      ensures |s.meta| == frameCount && disk.layout == layout && s.disk == D.Slots(layout, contents)
    {
      disk := new D.DiskManager(layout, contents, calls);
      allocator := new A.FrameAllocator(frameCount);
      table := new T.PageTable(layout.maxPageCount);
      replacer := new C.ClockReplacer(frameCount);
      meta := seq(frameCount, _ => FREE_META);
      new;
      hide Agree, InitialState, At, Contents;
      hide A.ValidBitmap, A.Allocated, T.ValidTable, C.ValidClock, D.Slots;
      assert Sized() by { hide A.FrameAllocator.Valid, T.PageTable.Valid, C.ClockReplacer.Valid; }
      hide Sized, Buffers, A.FrameAllocator.Valid, T.PageTable.Valid, C.ClockReplacer.Valid;
      s := InitialState(frameCount, layout.maxPageCount, Bytes(), disk.Disk());
      InitReachable(frameCount, layout.maxPageCount, Bytes(), disk.Disk());
      NewParts();
      InitialParts(frameCount, layout.maxPageCount, Bytes(), disk.Disk());
    }

    /** The components say nothing about guards, threads and the rest of a state. */
    lemma SameParts(x: State, y: State)
      requires Agree(x)
      requires y.table == x.table && y.meta == x.meta && y.inUse == x.inUse && y.tracked == x.tracked
      requires y.mem == x.mem && y.disk == x.disk
      ensures Agree(y)
    {
      hide TableIs, InUseIs, TrackedIs, MemIs, DiskIs, Buffers;
    }

    lemma Seen(x: State)
      requires Agree(x)
      ensures meta == x.meta && table.Valid() && table.pages[..] == x.table
      ensures |x.meta| == |x.mem| == |allocator.frames| && |x.disk| == |x.table| == disk.layout.maxPageCount
      ensures D.Accepted(disk.layout)
    {
      hide T.ValidTable, InUseIs, TrackedIs, DiskIs, Buffers;
    }

    lemma SeenTracked(x: State)
      requires Agree(x)
      ensures C.Tracked(replacer.View()) == x.tracked
    {
      hide T.ValidTable, TableIs, InUseIs, MemIs, DiskIs, Buffers;
    }

    /** The replacer's array is no other component's. */
    lemma Apart(x: State, f: FrameId)
      requires Agree(x)
      ensures (replacer.entries as object) != (table.pages as object)
      ensures (replacer.entries as object) != (allocator.bitmap as object)
      ensures f < |allocator.frames| ==> (replacer.entries as object) != (allocator.frames[f] as object)
    {
      hide TableIs, InUseIs, TrackedIs, MemIs, DiskIs;
    }

    // ----- One component at a time, where its operations cannot fail -----

    method SetMeta(f: FrameId, m: FrameMeta, ghost x: State)
      requires Agree(x) && f < |x.meta|
      modifies this`meta
      ensures Agree(x.(meta := x.meta[f := m]))
    {
      hide TableIs, InUseIs, TrackedIs, MemIs, DiskIs, Buffers;
      meta := meta[f := m];
    }

    method SetLoading(p: PageId, f: FrameId, ghost x: State)
      requires Agree(x) && p < |x.table| && CanSetLoading(x.table[p])
      modifies table.pages
      ensures Agree(x.(table := x.table[p := Entry(Loading, Some(f))]))
    {
      hide T.ValidTable, InUseIs, TrackedIs, MemIs, DiskIs;
      var _ := table.SetLoading(p, f);
    }

    method SetResident(p: PageId, f: FrameId, ghost x: State)
      requires Agree(x) && p < |x.table| && CanSetResident(x.table[p], f)
      modifies table.pages
      ensures Agree(x.(table := x.table[p := Entry(Resident, Some(f))]))
    {
      hide T.ValidTable, InUseIs, TrackedIs, MemIs, DiskIs;
      var _ := table.SetResident(p, f);
    }

    method SetNonResident(p: PageId, ghost x: State)
      requires Agree(x) && p < |x.table| && CanSetNonResident(x.table[p])
      modifies table.pages
      ensures Agree(x.(table := x.table[p := NON_RESIDENT_ENTRY]))
    {
      hide T.ValidTable, InUseIs, TrackedIs, MemIs, DiskIs;
      var _ := table.SetNonResident(p);
    }

    method SetEvicting(p: PageId, ghost x: State)
      requires Agree(x) && p < |x.table| && CanSetEvicting(x.table[p])
      modifies table.pages
      ensures Agree(x.(table := x.table[p := Entry(PageState.Evicting, x.table[p].frame)]))
    {
      hide T.ValidTable, InUseIs, TrackedIs, MemIs, DiskIs;
      var _ := table.SetEvicting(p);
    }

    method FreePageId(p: PageId, ghost x: State)
      requires Agree(x) && p < |x.table| && CanFree(x.table[p])
      modifies table, table.pages
      ensures Agree(x.(table := x.table[p := UNUSED_ENTRY]))
      ensures table.freeIds == old(table.freeIds) + [p] && table.next == old(table.next)
    {
      hide T.ValidTable, InUseIs, TrackedIs, MemIs, DiskIs;
      var _ := table.FreePageId(p);
    }

    method AllocatePageId(ghost x: State) returns (r: Option<PageId>)
      requires Agree(x)
      modifies table, table.pages
      ensures r.Some? ==> PageIs(x, r.value, Unused) && Agree(x.(table := x.table[r.value := NON_RESIDENT_ENTRY]))
      ensures r.None? ==> Agree(x) && forall p :: 0 <= p < |x.table| ==> x.table[p].state != Unused
      ensures r.Some? ==> IdTaken(old(table.freeIds), old(table.next), r.value, table.freeIds, table.next)
      ensures r.None? ==> table.freeIds == old(table.freeIds) && table.next == old(table.next)
    {
      hide T.ValidTable, InUseIs, TrackedIs, MemIs, DiskIs;
      T.ExhaustedIsExact(table.View());
      r := table.AllocatePageId();
    }

    method AllocateFrame(ghost x: State) returns (r: Option<FrameId>)
      requires Agree(x)
      modifies allocator, allocator.bitmap
      ensures r.Some? ==> r.value < |x.meta| && r.value !in x.inUse && Agree(x.(inUse := x.inUse + {r.value}))
      ensures r.None? ==> Agree(x) && NoFreeFrame(x)
    {
      hide TableIs, TrackedIs, MemIs, DiskIs, A.FirstFree, A.SetFrame, A.HasFree, A.ValidBitmap, A.Allocated;
      r := allocator.AllocateFrame();
    }

    method FreeFrame(f: FrameId, ghost x: State)
      requires Agree(x) && f in x.inUse
      modifies allocator, allocator.bitmap
      ensures Agree(x.(inUse := x.inUse - {f}))
    {
      hide TableIs, TrackedIs, MemIs, DiskIs;
      var _ := allocator.FreeFrame(f);
    }

    /** RecordAccess followed by SetEvictable. */
    method TouchFrame(f: FrameId, evictable: bool, ghost x: State)
      requires Agree(x) && f < |x.meta|
      modifies replacer`evictableCount, replacer.entries
      ensures Agree(x.(tracked := Touch(x.tracked, f, evictable)))
      ensures PutBack(old(replacer.View()), f, evictable, replacer.View())
    {
      hide TableIs, InUseIs, MemIs, DiskIs;
      C.OperationsMeetContract(replacer.View(), f, evictable);
      var _ := replacer.RecordAccess(f);
      C.OperationsMeetContract(replacer.View(), f, evictable);
      var _ := replacer.SetEvictable(f, evictable);
    }

    method SetEvictable(f: FrameId, evictable: bool, ghost x: State)
      requires Agree(x) && f < |x.meta| && R.CanSetEvictable(x.tracked, f)
      modifies replacer`evictableCount, replacer.entries
      ensures Agree(x.(tracked := R.SetEvictable(x.tracked, f, evictable)))
      ensures Flagged(old(replacer.View()), f, evictable, replacer.View())
    {
      hide TableIs, InUseIs, MemIs, DiskIs;
      C.OperationsMeetContract(replacer.View(), f, evictable);
      var _ := replacer.SetEvictable(f, evictable);
    }

    method Remove(f: FrameId, ghost x: State)
      requires Agree(x) && f < |x.meta|
      modifies replacer`evictableCount, replacer.entries
      ensures Agree(x.(tracked := R.Remove(x.tracked, f)))
    {
      hide TableIs, InUseIs, MemIs, DiskIs;
      C.OperationsMeetContract(replacer.View(), f, false);
      var _ := replacer.Remove(f);
    }

    method Victim(ghost x: State) returns (v: Option<FrameId>)
      requires Agree(x)
      modifies replacer, replacer.entries
      ensures R.VictimAllowed(x.tracked, v) && (v.Some? ==> v.value < |x.meta|)
      ensures C.ValidClock(old(replacer.View())) && C.VictimSpec(old(replacer.View()), v, replacer.View())
      ensures Agree(if v.Some? then x.(tracked := R.Remove(x.tracked, v.value)) else x)
    {
      hide TableIs, InUseIs, MemIs, DiskIs, C.VictimSpec;
      ghost var c := replacer.View();
      v := replacer.Victim();
      C.VictimMeetsContract(c, v, replacer.View());
    }

    /** Writes the page in `f` to its slot. */
    method WritePage(p: PageId, f: FrameId, ghost x: State) returns (ok: bool, ghost n: nat)
      requires Agree(x) && p < |x.disk| && f < |x.mem|
      modifies disk
      ensures n <= PAGE_SIZE && (ok <==> n == PAGE_SIZE)
      ensures Agree(x.(disk := x.disk[p := Splice(x.disk[p], x.mem[f], 0, n)]))
      ensures D.Accepted(disk.layout) && Transferred(disk.layout, old(disk.script), disk.script, ok, true)
    {
      hide T.ValidTable, TableIs, InUseIs, TrackedIs, D.WentWell, D.WentWrong;
      var r;
      r, n := disk.WritePage(p, allocator.frames[f]);
      ok := r == D.Done;
      if ok {
        n := PAGE_SIZE;
        assert Splice(x.disk[p], x.mem[f], 0, PAGE_SIZE) == x.mem[f];
      }
    }

    /** Reads the page into `f`. */
    method ReadPage(p: PageId, f: FrameId, ghost x: State) returns (ok: bool, ghost n: nat)
      requires Agree(x) && p < |x.disk| && f < |x.mem|
      modifies disk, allocator.frames[f]
      ensures n <= PAGE_SIZE && (ok <==> n == PAGE_SIZE)
      ensures Agree(x.(mem := x.mem[f := Splice(ZeroPage(), x.disk[p], 0, n)]))
      ensures D.Accepted(disk.layout) && Transferred(disk.layout, old(disk.script), disk.script, ok, false)
    {
      hide T.ValidTable, TableIs, InUseIs, TrackedIs, D.WentWell, D.WentWrong;
      var r;
      r, n := disk.ReadPage(p, allocator.frames[f]);
      ok := r == D.Done;
      if ok {
        n := PAGE_SIZE;
        assert Splice(ZeroPage(), x.disk[p], 0, PAGE_SIZE) == x.disk[p];
      }
    }

    method FillFrame(f: FrameId, bytes: Page, ghost x: State)
      requires Agree(x) && f < |x.mem|
      modifies allocator.frames[f]
      ensures Agree(x.(mem := x.mem[f := bytes]))
    {
      hide T.ValidTable, TableIs, InUseIs, TrackedIs;
      var frame := allocator.frames[f];
      forall i | 0 <= i < frame.Length { frame[i] := bytes[i]; }
      assert frame[..] == bytes;
    }

    // ----- Obtaining a frame -----

    method HasTransientFrame() returns (b: bool)
      ensures b <==> exists f :: 0 <= f < |meta| && Transient(meta[f])
    {
      for f := 0 to |meta|
        invariant forall g :: 0 <= g < f ==> !Transient(meta[g])
      {
        if Transient(meta[f]) { return true; }
      }
      return false;
    }

    /** Undoes the first part of an eviction whose write has failed; a page that is not
        evicting any more keeps its entry. */
    method RestoreEvictedFrame(f: FrameId, page: PageId, dirty: bool, epoch: nat, ghost x: State)
      requires Agree(x) && f < |x.meta| && page < |x.table|
      modifies this`meta, table.pages, replacer`evictableCount, replacer.entries
      ensures Agree(x.(table := if PageIs(x, page, PageState.Evicting) then x.table[page := Entry(Resident, Some(f))]
                                else x.table,
                       meta := x.meta[f := FrameMeta(Some(page), 0, dirty, epoch, ResidentFrame)],
                       tracked := Touch(x.tracked, f, true)))
      ensures PutBack(old(replacer.View()), f, true, replacer.View())
    {
      hide Agree, PutBack, C.ClockReplacer.View;
      Seen(x);
      Apart(x, f);
      var st := table.State(page);
      if st == Some(PageState.Evicting) {
        SetNonResident(page, x);
        ghost var x1 := x.(table := x.table[page := NON_RESIDENT_ENTRY]);
        SetResident(page, f, x1);
        assert x1.table[page := Entry(Resident, Some(f))] == x.table[page := Entry(Resident, Some(f))];
      }
      ghost var x2 := x.(table := if PageIs(x, page, PageState.Evicting) then x.table[page := Entry(Resident, Some(f))]
                                  else x.table);
      SetMeta(f, FrameMeta(Some(page), 0, dirty, epoch, ResidentFrame), x2);
      TouchFrame(f, true, x2.(meta := x2.meta[f := FrameMeta(Some(page), 0, dirty, epoch, ResidentFrame)]));
    }

    /** Empties the frame of the victim; when its page cannot be written, the page stays. */
    method EvictFrame(f: FrameId, ghost x: State) returns (r: Acquired, ghost n: nat)
      requires Obtainable(x, f) && f in x.inUse && VictimsResident(x)
      requires Agree(x.(tracked := R.Remove(x.tracked, f)))
      modifies this`meta, disk, table.pages, replacer`evictableCount, replacer.entries
      ensures r == GotFrame(f) || (r == VictimNotWritten(f) && x.meta[f].dirty && n < PAGE_SIZE)
      ensures Agree(if r.GotFrame? then InHand(x, f) else HalfWritten(x, f, n))
      ensures if r.GotFrame? then replacer.View() == old(replacer.View())
              else PutBack(old(replacer.View()), f, true, replacer.View())
      ensures D.Accepted(disk.layout) && Transferred(disk.layout, old(disk.script), disk.script, r.GotFrame?, true)
    {
      hide Agree, Transferred, PutBack, C.ClockReplacer.View;
      assert R.IsEvictable(x.tracked, f);
      ghost var x0 := x.(tracked := R.Remove(x.tracked, f));
      Seen(x0);
      Apart(x0, f);
      NothingTransferred(disk.layout, disk.script, true);
      var m := meta[f];
      var oldPage := m.page.value;
      SetEvicting(oldPage, x0);
      ghost var x1 := x0.(table := x.table[oldPage := Entry(PageState.Evicting, Some(f))]);
      SetMeta(f, m.(state := EvictingFrame), x1);
      ghost var x2 := x1.(meta := x.meta[f := m.(state := EvictingFrame)]);
      assert replacer.View() == old(replacer.View());
      n := 0;
      if m.dirty {
        var ok;
        ok, n := WritePage(oldPage, f, x2);
        if !ok {
          RestoreEvictedFrame(f, oldPage, m.dirty, m.epoch,
                              x2.(disk := x.disk[oldPage := Splice(x.disk[oldPage], x.mem[f], 0, n)]));
          assert x2.table[oldPage := Entry(Resident, Some(f))] == x.table;
          assert x2.meta[f := FrameMeta(Some(oldPage), 0, m.dirty, m.epoch, ResidentFrame)] == x.meta;
          assert Touch(x2.tracked, f, true) == x.tracked;
          return VictimNotWritten(f), n;
        }
      }
      CopiedAll(x, f);
      ghost var x3 := x2.(disk := if m.dirty then x.disk[oldPage := x.mem[f]] else x.disk);
      SetNonResident(oldPage, x3);
      SetMeta(f, FREE_META, x3.(table := x3.table[oldPage := NON_RESIDENT_ENTRY]));
      assert x1.table[oldPage := NON_RESIDENT_ENTRY] == x.table[oldPage := NON_RESIDENT_ENTRY];
      assert x2.meta[f := FREE_META] == x.meta[f := FREE_META];
      return GotFrame(f), n;
    }

    /** AcquireFrameLocked: a free frame, or else the victim's after its page has been
        written back. With no other thread about, no frame is in transit, so there is
        nothing to wait for. */
    method AcquireFrame(ghost x: State) returns (r: Acquired, ghost n: nat)
      requires Agree(x) && VictimsResident(x) && NoTransients(x)
      modifies this`meta, disk, allocator, allocator.bitmap, table.pages, replacer, replacer.entries
      ensures match r
              case GotFrame(f) => Obtainable(x, f) && Agree(InHand(x, f))
              case NoFrameAvailable => NoFreeFrame(x) && NoVictim(x) && Agree(x)
              case VictimNotWritten(f) =>
                && Obtainable(x, f) && f in x.inUse && x.meta[f].dirty && n < PAGE_SIZE
                && Agree(HalfWritten(x, f, n))
      ensures match r
              case GotFrame(f) => ChosenBy(old(replacer.View()), f in x.inUse, f, replacer.View())
              case NoFrameAvailable => replacer.View() == old(replacer.View())
              case VictimNotWritten(f) => Replaced(old(replacer.View()), f, replacer.View())
      ensures D.Accepted(disk.layout)
      ensures Transferred(disk.layout, old(disk.script), disk.script, !r.VictimNotWritten?, true)
    {
      hide Agree, Transferred, PutBack, C.ClockReplacer.View;
      Seen(x);
      Apart(x, 0);
      NothingTransferred(disk.layout, disk.script, true);
      n := 0;
      var free := AllocateFrame(x);
      if free.Some? {
        return GotFrame(free.value), n;
      }
      var victim := Victim(x);
      if victim.None? {
        Seen(x);
        var transient := HasTransientFrame();
        if transient {
          // the code would wait here
          assert false;
        }
        return NoFrameAvailable, n;
      }
      r, n := EvictFrame(victim.value, x);
    }

    /** NewPage gives its id back. */
    method GiveBack(p: PageId, ghost x: State, ghost y: State)
      requires Agree(x) && p < |x.table| && x.table[p] == NON_RESIDENT_ENTRY
      requires y == x.(table := x.table[p := UNUSED_ENTRY])
      modifies table, table.pages
      ensures Agree(y)
      ensures table.freeIds == old(table.freeIds) + [p] && table.next == old(table.next)
    {
      hide Agree;
      Seen(x);
      var st := table.State(p);
      if st == Some(NonResident) {
        FreePageId(p, x);
      }
    }

    /** Pins the frame for a new guard `g` on the page, which is resident in it. */
    method MakeGuard(p: PageId, f: FrameId, ghost g: GuardId) returns (guard: PageGuard)
      requires f < |allocator.frames| && g in s.guards && s.guards[g] == Guard(p, f, false)
      modifies this`holders
      ensures fresh(guard) && guard.Live() && guard.manager == this && guard.pageId == p && guard.id == g
      ensures holders == old(holders)[g := guard]
    {
      guard := new PageGuard(this, p, f, allocator.frames[f], g);
      holders := holders[g := guard];
    }

    // ----- NewPage -----

    /** The frame in hand becomes the home of the new page. */
    method Settle(p: PageId, f: FrameId, ghost b: State, ghost g: GuardId)
      requires Agree(b) && f < |b.meta| && f < |b.mem| && p < |b.table| && b.table[p] == NON_RESIDENT_ENTRY
      modifies this`meta, allocator.frames[f], table.pages, replacer`evictableCount, replacer.entries
      ensures Agree(Housed(b, p, f, g, ZeroPage(), true, NEW_PAGE_EPOCH))
      ensures PutBack(old(replacer.View()), f, false, replacer.View())
    {
      hide Agree, PutBack, C.ClockReplacer.View;
      Seen(b);
      Apart(b, f);
      FillFrame(f, ZeroPage(), b);
      ghost var b1 := b.(mem := b.mem[f := ZeroPage()]);
      SetMeta(f, FrameMeta(Some(p), 1, true, NEW_PAGE_EPOCH, ResidentFrame), b1);
      ghost var b2 := b1.(meta := b.meta[f := FrameMeta(Some(p), 1, true, NEW_PAGE_EPOCH, ResidentFrame)]);
      SetResident(p, f, b2);
      ghost var b3 := b2.(table := b.table[p := Entry(Resident, Some(f))]);
      TouchFrame(f, false, b3);
      SameParts(b3.(tracked := Touch(b.tracked, f, false)), Housed(b, p, f, g, ZeroPage(), true, NEW_PAGE_EPOCH));
    }

    /** The new page becomes resident in the frame in hand, with a guard. */
    method Publish(p: PageId, f: FrameId) returns (guard: PageGuard)
      requires At(s, Idle) && PageIs(s, p, Unused) && Obtainable(s, f) && (f in s.inUse ==> s.meta[f].page.value != p)
      requires Obtainable(s.(table := s.table[p := NON_RESIDENT_ENTRY]), f)
      requires Agree(InHand(s.(table := s.table[p := NON_RESIDENT_ENTRY]), f))
      modifies this, allocator.frames, table.pages, replacer`evictableCount, replacer.entries
      ensures RunsTo(old(s), s) && Valid()
      ensures fresh(guard) && guard.Live() && guard.manager == this && guard.pageId == p && guard.frameId == f
      ensures p !in old(Contents(s)) && Contents(s) == old(Contents(s))[p := ZeroPage()]
      ensures guard.id !in old(s.guards) && holders == old(holders)[guard.id := guard]
      ensures s.guards == old(s.guards)[guard.id := Guard(p, f, false)]
      ensures Placed(old(s), s, p, f, guard.id, true, 1)
      ensures PutBack(old(replacer.View()), f, false, replacer.View())
    {
      hide RunsTo, Agree, At, Contents, InHand, Housed, PutBack, C.ClockReplacer.View;
      ghost var x := s.(table := s.table[p := NON_RESIDENT_ENTRY]);
      ghost var g := FreshGuard(s.guards.Keys);
      SameHand(s, p, f, g);
      Seen(InHand(x, f));
      Settle(p, f, InHand(x, f), g);
      NewTakesFrame(s, p, f, g);
      HousedMem(InHand(s, f), p, f, g, ZeroPage(), true, NEW_PAGE_EPOCH);
      s := Housed(InHand(s, f), p, f, g, ZeroPage(), true, NEW_PAGE_EPOCH);
      guard := MakeGuard(p, f, g);
    }

    /** What NewPage does once it has an id: the page takes a frame, or the id goes back. */
    method PlacePage(p: PageId) returns (r: Status, guard: PageGuard?)
      requires At(s, Idle) && PageIs(s, p, Unused) && Agree(s.(table := s.table[p := NON_RESIDENT_ENTRY]))
      modifies this, disk, allocator, allocator.bitmap, allocator.frames, table, table.pages, replacer, replacer.entries
      ensures RunsTo(old(s), s)
      ensures Valid()
      ensures r == Ok ==>
                && guard != null && fresh(guard) && guard.Live() && guard.manager == this && guard.pageId == p
                && p !in old(Contents(s)) && Contents(s) == old(Contents(s))[p := ZeroPage()]
                && guard.id !in old(s.guards) && holders == old(holders)[guard.id := guard]
                && s.guards == old(s.guards)[guard.id := Guard(p, guard.frameId, false)]
      ensures r == Ok ==> Placed(old(s), s, p, guard.frameId, guard.id, true, 1)
      ensures r == Ok ==>
                Accessed(old(replacer.View()), guard.frameId in old(s).inUse, guard.frameId, replacer.View())
      ensures r == Ok ==> table.freeIds == old(table.freeIds) && table.next == old(table.next)
      ensures r != Ok ==> table.freeIds == old(table.freeIds) + [p] && table.next == old(table.next)
      ensures r == Thrown(FramesPinned) ==> replacer.View() == old(replacer.View())
      ensures r == Thrown(WriteFailed) ==> exists f: FrameId :: Replaced(old(replacer.View()), f, replacer.View())
      ensures r != Ok ==> guard == null && holders == old(holders) && s == old(s).(disk := s.disk)
      ensures r != Ok ==> Contents(s) == old(Contents(s))
      ensures r == Thrown(FramesPinned) <==> old(AllPinned(s))
      ensures r == Ok || r == Thrown(FramesPinned) || r == Thrown(WriteFailed)
      ensures r == Thrown(FramesPinned) ==> s == old(s)
      ensures D.Accepted(disk.layout)
      ensures Transferred(disk.layout, old(disk.script), disk.script, r != Thrown(WriteFailed), true)
    {
      hide RunsTo, Transferred, Agree, At, Contents, VictimsResident, NoTransients, InHand, Housed, Placed;
      hide PutBack, ChosenBy, Replaced, C.ClockReplacer.View;
      StaysPut(s);
      Apart(s.(table := s.table[p := NON_RESIDENT_ENTRY]), 0);
      VictimsAtRest(s);
      ghost var x := s.(table := s.table[p := NON_RESIDENT_ENTRY]);
      ReservationStays(s, p);
      var a, n := AcquireFrame(x);
      ghost var chosen := replacer.View();
      GivenBack(s, p);
      if a.NoFrameAvailable? {
        NothingLeft(s);
        GiveBack(p, x, s);
        return Thrown(FramesPinned), null;
      }
      ObtainableStays(s, p, a.f);
      SomethingLeft(s, a.f);
      if a.VictimNotWritten? {
        GiveBack(p, HalfWritten(x, a.f, n), HalfWritten(s, a.f, n));
        NewEvictionFails(s, p, a.f, n);
        s := HalfWritten(s, a.f, n);
        assert Replaced(old(replacer.View()), a.f, replacer.View());
        return Thrown(WriteFailed), null;
      }
      guard := Publish(p, a.f);
      return Ok, guard;
    }

    /** A new page is a page of zeros, pinned by the guard that is returned. Its id is the one
        that was given back last, or else the first that was never handed out. NewPage throws
        when all ids are taken, when all frames are pinned, and when the page that has to
        make room cannot be written, which does not happen on a sound disk; then the
        contents of the pool, the ids in use and all pins are as before, and what had to
        make room is where it was, dirty flag, epoch and all. */
    method NewPage() returns (r: Status, guard: PageGuard?)
      requires Valid()
      modifies this, disk, allocator, allocator.bitmap, allocator.frames, table, table.pages, replacer, replacer.entries
      ensures RunsTo(old(s), s)
      ensures Valid()
      ensures r == Ok ==>
                && guard != null && fresh(guard) && guard.Live() && guard.manager == this
                && guard.pageId !in old(Contents(s))
                && Contents(s) == old(Contents(s))[guard.pageId := ZeroPage()]
                && guard.id !in old(s.guards) && holders == old(holders)[guard.id := guard]
                && s.guards == old(s.guards)[guard.id := Guard(guard.pageId, guard.frameId, false)]
      ensures r == Ok ==> Placed(old(s), s, guard.pageId, guard.frameId, guard.id, true, 1)
      ensures r == Ok ==>
                Accessed(old(replacer.View()), guard.frameId in old(s).inUse, guard.frameId, replacer.View())
      ensures r == Ok ==>
                IdTaken(old(table.freeIds), old(table.next), guard.pageId, table.freeIds, table.next)
      ensures r != Ok && r != Thrown(IdsExhausted) ==>
                if old(table.freeIds) == [] then table.freeIds == [old(table.next)] && table.next == old(table.next) + 1
                else table.freeIds == old(table.freeIds) && table.next == old(table.next)
      ensures r == Thrown(IdsExhausted) ==> table.freeIds == old(table.freeIds) && table.next == old(table.next)
      ensures r == Thrown(IdsExhausted) || r == Thrown(FramesPinned) ==> replacer.View() == old(replacer.View())
      ensures r == Thrown(WriteFailed) ==> exists f: FrameId :: Replaced(old(replacer.View()), f, replacer.View())
      ensures r != Ok ==> guard == null && holders == old(holders) && s == old(s).(disk := s.disk)
      ensures r != Ok ==> Contents(s) == old(Contents(s))
      ensures r == Thrown(IdsExhausted) <==> old(forall p :: 0 <= p < |s.table| ==> s.table[p].state != Unused)
      ensures r == Thrown(FramesPinned) <==> r != Thrown(IdsExhausted) && old(AllPinned(s))
      ensures r == Ok || r == Thrown(IdsExhausted) || r == Thrown(FramesPinned) || r == Thrown(WriteFailed)
      ensures r == Thrown(IdsExhausted) || r == Thrown(FramesPinned) ==> s == old(s)
      ensures D.Accepted(disk.layout)
      ensures Transferred(disk.layout, old(disk.script), disk.script, r != Thrown(WriteFailed), true)
      ensures old(disk.Sound()) ==> disk.Sound()
      ensures old(disk.Sound()) ==> (r == Ok <==> r != Thrown(IdsExhausted) && !old(AllPinned(s)))
    {
      hide RunsTo, Transferred, D.Harmless, D.Fits, Agree, At, Contents, AllPinned, Accessed, Replaced, Placed;
      hide C.ClockReplacer.View;
      StaysPut(s);
      Seen(s);
      NothingTransferred(disk.layout, disk.script, true);
      if disk.Sound() { SoundTransfers(disk.layout, disk.script); }
      var id := AllocatePageId(s);
      if id.None? {
        return Thrown(IdsExhausted), null;
      }
      r, guard := PlacePage(id.value);
    }

    // ----- FetchPage -----

    /** PinResidentFrameLocked. */
    method PinResidentFrame(p: PageId, f: FrameId, ghost x: State) returns (ok: bool)
      requires Agree(x) && f < |x.meta| && MetaConsistent(x, p, f)
      modifies this`meta, replacer`evictableCount, replacer.entries
      ensures ok <==> x.meta[f].pins != MAX_PINS
      ensures Agree(if ok then x.(meta := x.meta[f := x.meta[f].(pins := x.meta[f].pins + 1)],
                                  tracked := Touch(x.tracked, f, false)) else x)
      ensures if ok then PutBack(old(replacer.View()), f, false, replacer.View())
              else replacer.View() == old(replacer.View())
    {
      hide Agree, PutBack, C.ClockReplacer.View;
      Seen(x);
      if meta[f].page != Some(p) || meta[f].state != ResidentFrame {
        // "inconsistent resident page metadata"
        assert false;
      }
      if meta[f].pins == MAX_PINS { return false; }
      SetMeta(f, meta[f].(pins := meta[f].pins + 1), x);
      TouchFrame(f, false, x.(meta := x.meta[f := x.meta[f].(pins := x.meta[f].pins + 1)]));
      return true;
    }

    method FetchResident(p: PageId) returns (r: Status, guard: PageGuard?)
      requires Valid() && PageIs(s, p, Resident)
      modifies this, replacer`evictableCount, replacer.entries
      ensures RunsTo(old(s), s)
      ensures Valid() && Contents(s) == old(Contents(s))
      ensures r == if PinsFull(old(s), p) then Thrown(PinOverflow) else Ok
      ensures r == Ok ==> Handed(guard) && guard.pageId == p && fresh(guard)
      ensures r == Ok ==> s.guards == old(s.guards)[guard.id := Guard(p, guard.frameId, false)]
      ensures r == Ok ==> guard.id !in old(s.guards) && holders == old(holders)[guard.id := guard]
      ensures r == Ok ==> Pinned(old(s), s, p, guard.frameId, guard.id)
      ensures r == Ok ==> Accessed(old(replacer.View()), false, guard.frameId, replacer.View())
      ensures r != Ok ==> replacer.View() == old(replacer.View())
      ensures r != Ok ==> guard == null && holders == old(holders) && s == old(s)
    {
      hide RunsTo, Agree, At, Contents, PutBack, C.ClockReplacer.View;
      ghost var clock := replacer.View();
      StaysPut(s);
      PageAtRest(s, p);
      Seen(s);
      var _, frame := table.FrameForPage(p);
      var f := frame.value;
      var ok := PinResidentFrame(p, f, s);
      if !ok { return Thrown(PinOverflow), null; }
      ghost var g := FreshGuard(s.guards.Keys);
      FetchHits(s, p, f, g);
      ghost var s' := s.(meta := s.meta[f := s.meta[f].(pins := s.meta[f].pins + 1)],
                         tracked := Touch(s.tracked, f, false), guards := s.guards[g := Guard(p, f, false)]);
      SameParts(s.(meta := s'.meta, tracked := s'.tracked), s');
      s := s';
      guard := MakeGuard(p, f, g);
      GuardBytes(guard);
      assert ChosenBy(clock, false, f, clock);
      return Ok, guard;
    }

    /** A guard that shows the contents of its page. */
    ghost predicate Handed(guard: PageGuard?)
      reads this`s, this`holders, guard, allocator.frames
    {
      && guard != null && guard.manager == this && guard.id in s.guards && guard.id in holders
      && holders[guard.id] == guard
      && s.guards[guard.id].page == guard.pageId && s.guards[guard.id].frame == guard.frameId
      && guard.frameId < |allocator.frames| && guard.page == allocator.frames[guard.frameId]
      && guard.pageId in Contents(s)
      && allocator.frames[guard.frameId][..] == Contents(s)[guard.pageId]
    }

    lemma GuardBytes(guard: PageGuard)
      requires Valid() && guard.Live() && guard.manager == this
      ensures Handed(guard)
    {
      hide Reachable, Contents, TableIs, InUseIs, TrackedIs, DiskIs, Buffers;
      GuardShows(s, guard.id);
    }

    /** Loads the page into the frame in hand. */
    method Load(p: PageId, f: FrameId, ghost b: State, ghost g: GuardId) returns (ok: bool, ghost n: nat)
      requires Agree(b) && f < |b.meta| && f < |b.mem| && p < |b.table| && |b.disk| == |b.table|
      requires b.table[p] == NON_RESIDENT_ENTRY && f in b.inUse
      modifies this`meta, disk, allocator, allocator.bitmap, allocator.frames[f]
      modifies table.pages, replacer`evictableCount, replacer.entries
      ensures n <= PAGE_SIZE && (ok <==> n == PAGE_SIZE)
      ensures Agree(if ok then Housed(b, p, f, g, b.disk[p], false, 0)
                    else Unloaded(b, p, f, n))
      ensures ok ==> PutBack(old(replacer.View()), f, false, replacer.View())
      ensures !ok ==> replacer.View() == old(replacer.View())
      ensures D.Accepted(disk.layout) && Transferred(disk.layout, old(disk.script), disk.script, ok, false)
    {
      hide Agree, Transferred, PutBack, C.ClockReplacer.View;
      Seen(b);
      Apart(b, f);
      SetLoading(p, f, b);
      ghost var b1 := b.(table := b.table[p := Entry(Loading, Some(f))]);
      var m := FrameMeta(Some(p), 1, false, 0, LoadingFrame);
      SetMeta(f, m, b1);
      ghost var b2 := b1.(meta := b.meta[f := m]);
      ok, n := ReadPage(p, f, b2);
      assert replacer.View() == old(replacer.View());
      ghost var b3 := b2.(mem := b.mem[f := Splice(ZeroPage(), b.disk[p], 0, n)]);
      if !ok {
        SetMeta(f, FREE_META, b3);
        ghost var b4 := b3.(meta := b3.meta[f := FREE_META]);
        FreeFrame(f, b4);
        SetNonResident(p, b4.(inUse := b.inUse - {f}));
        assert b1.table[p := NON_RESIDENT_ENTRY] == b.table;
        assert b4.meta == b.meta[f := FREE_META];
        return;
      }
      SetMeta(f, m.(state := ResidentFrame, dirty := false, epoch := 0), b3);
      ghost var b5 := b3.(meta := b3.meta[f := FrameMeta(Some(p), 1, false, 0, ResidentFrame)]);
      SetResident(p, f, b5);
      ghost var b6 := b5.(table := b5.table[p := Entry(Resident, Some(f))]);
      TouchFrame(f, false, b6);
      assert Splice(ZeroPage(), b.disk[p], 0, PAGE_SIZE) == b.disk[p];
      assert b6.table == b.table[p := Entry(Resident, Some(f))];
      assert b6.meta == b.meta[f := FrameMeta(Some(p), 1, false, 0, ResidentFrame)];
      SameParts(b6.(tracked := Touch(b.tracked, f, false)), Housed(b, p, f, g, b.disk[p], false, 0));
    }

    method FetchAbsent(p: PageId) returns (r: Status, guard: PageGuard?)
      requires Valid() && PageIs(s, p, NonResident)
      modifies this, disk, allocator, allocator.bitmap, allocator.frames, table.pages, replacer, replacer.entries
      ensures RunsTo(old(s), s)
      ensures Valid() && Contents(s) == old(Contents(s))
      ensures r == Ok || r == Thrown(FramesPinned) || r == Thrown(WriteFailed) || r == Thrown(ReadFailed)
      ensures r == Thrown(FramesPinned) <==> old(AllPinned(s))
      ensures r == Ok ==> Handed(guard) && guard.pageId == p && fresh(guard)
      ensures r == Ok ==> s.guards == old(s.guards)[guard.id := Guard(p, guard.frameId, false)]
      ensures r == Ok ==> guard.id !in old(s.guards) && holders == old(holders)[guard.id := guard]
      ensures r == Ok ==> Placed(old(s), s, p, guard.frameId, guard.id, false, 0)
      ensures r == Ok ==>
                Accessed(old(replacer.View()), guard.frameId in old(s).inUse, guard.frameId, replacer.View())
      ensures r == Thrown(FramesPinned) ==> replacer.View() == old(replacer.View())
      ensures r == Thrown(WriteFailed) ==> exists f: FrameId :: Replaced(old(replacer.View()), f, replacer.View())
      ensures r != Ok ==> guard == null && holders == old(holders)
      ensures r != Ok ==> s.guards == old(s.guards) && SamePins(old(s.meta), s.meta)
      ensures r == Thrown(FramesPinned) ==> s == old(s)
      ensures r == Thrown(WriteFailed) ==> s == old(s).(disk := s.disk)
      ensures D.Accepted(disk.layout)
      ensures r == Thrown(WriteFailed) ==> Transferred(disk.layout, old(disk.script), disk.script, false, true)
      ensures r != Thrown(WriteFailed) ==>
                Transferred(disk.layout, old(disk.script), disk.script, r != Thrown(ReadFailed), false)
    {
      hide RunsTo, Transferred, Agree, At, Contents, VictimsResident, NoTransients, InHand, Housed, Unloaded;
      hide PutBack, ChosenBy, Replaced, C.ClockReplacer.View;
      StaysPut(s);
      VictimsAtRest(s);
      ghost var script := disk.script;
      var a, n := AcquireFrame(s);
      ghost var chosen := replacer.View();
      if !a.VictimNotWritten? { WrittenAsRead(disk.layout, script, disk.script); }
      if a.NoFrameAvailable? {
        NothingLeft(s);
        return Thrown(FramesPinned), null;
      }
      var f := a.f;
      SomethingLeft(s, f);
      if a.VictimNotWritten? {
        FetchEvictionFails(s, p, f, n);
        s := HalfWritten(s, f, n);
        assert Replaced(old(replacer.View()), a.f, replacer.View());
        return Thrown(WriteFailed), null;
      }
      HandFacts(s, p, f);
      ghost var b := InHand(s, f);
      ghost var g := FreshGuard(s.guards.Keys);
      Seen(b);
      var ok;
      ghost var script' := disk.script;
      ok, n := Load(p, f, b, g);
      TransferredThen(disk.layout, script, script', disk.script, ok, false);
      if !ok {
        FetchLoadFails(s, p, f, n);
        UnloadedGuards(b, p, f, n);
        s := Unloaded(b, p, f, n);
        return Thrown(ReadFailed), null;
      }
      FetchLoads(s, p, f, g);
      HousedGuards(b, p, f, g, b.disk[p], false, 0);
      HousedMem(b, p, f, g, b.disk[p], false, 0);
      s := Housed(b, p, f, g, b.disk[p], false, 0);
      guard := MakeGuard(p, f, g);
      GuardBytes(guard);
      return Ok, guard;
    }

    /** FetchPage never changes the contents of the pool. It succeeds only for a page that
        exists, and the guard then shows the contents of that page; the frame counts as
        accessed, and a page in memory costs no access to the file. When it throws, guards
        and pins are as before; when it throws before a frame has been obtained, or because
        the victim cannot be written, nothing else has changed either, but for the file. */
    method FetchPage(p: PageId) returns (r: Status, guard: PageGuard?)
      requires Valid()
      modifies this, disk, allocator, allocator.bitmap, allocator.frames, table.pages, replacer, replacer.entries
      ensures RunsTo(old(s), s)
      ensures Valid() && Contents(s) == old(Contents(s))
      ensures r == Thrown(InvalidId) <==> p >= old(|s.table|)
      ensures r == Thrown(UnusedPage) <==> p < old(|s.table|) && p !in old(Contents(s))
      ensures r == Thrown(PinOverflow) <==> PinsFull(old(s), p)
      ensures r == Thrown(FramesPinned) <==> old(PageIs(s, p, NonResident) && AllPinned(s))
      ensures r == Ok ==> Handed(guard) && guard.pageId == p && fresh(guard)
      ensures r == Ok ==> s.guards == old(s.guards)[guard.id := Guard(p, guard.frameId, false)]
      ensures r == Ok ==> guard.id !in old(s.guards) && holders == old(holders)[guard.id := guard]
      ensures r == Ok ==>
                if old(PageIs(s, p, Resident)) then Pinned(old(s), s, p, guard.frameId, guard.id)
                else Placed(old(s), s, p, guard.frameId, guard.id, false, 0)
      ensures r == Ok ==>
                Accessed(old(replacer.View()), old(PageIs(s, p, NonResident)) && guard.frameId in old(s).inUse,
                         guard.frameId, replacer.View())
      ensures r != Ok && r != Thrown(WriteFailed) && r != Thrown(ReadFailed) ==> replacer.View() == old(replacer.View())
      ensures r == Thrown(WriteFailed) ==> exists f: FrameId :: Replaced(old(replacer.View()), f, replacer.View())
      ensures old(PageIs(s, p, Resident)) ==> disk.script == old(disk.script) && disk.bytes == old(disk.bytes)
      ensures r != Ok ==> guard == null && holders == old(holders)
      ensures r != Ok ==> s.guards == old(s.guards) && SamePins(old(s.meta), s.meta)
      ensures r != Ok && r != Thrown(WriteFailed) && r != Thrown(ReadFailed) ==> s == old(s)
      ensures r == Thrown(WriteFailed) ==> s == old(s).(disk := s.disk)
      ensures r != Thrown(IdsExhausted) && r != Thrown(PinnedPage)
      ensures D.Accepted(disk.layout)
      ensures r == Thrown(WriteFailed) ==> Transferred(disk.layout, old(disk.script), disk.script, false, true)
      ensures r != Thrown(WriteFailed) ==>
                Transferred(disk.layout, old(disk.script), disk.script, r != Thrown(ReadFailed), false)
      ensures old(disk.Sound()) ==> disk.Sound()
      ensures old(disk.Sound()) ==>
                (r == Ok <==> old(p in Contents(s) && !PinsFull(s, p) && !(PageIs(s, p, NonResident) && AllPinned(s))))
    {
      hide RunsTo, Transferred, D.Harmless, D.Fits, Agree, At, Contents, AllPinned, SamePins;
      hide Accessed, Replaced, Placed, Pinned, C.ClockReplacer.View;
      StaysPut(s);
      PageAtRest(s, p);
      SamePinsAsSelf(s.meta);
      Seen(s);
      NothingTransferred(disk.layout, disk.script, false);
      if disk.Sound() { SoundTransfers(disk.layout, disk.script); }
      var st := table.State(p);
      if st.None? { return Thrown(InvalidId), null; }
      match st.value
      case Unused => return Thrown(UnusedPage), null;
      case Resident => r, guard := FetchResident(p);
      case NonResident => r, guard := FetchAbsent(p);
      case Loading => assert false; // the code would wait here
      case Evicting => assert false; // and here
    }

    // ----- FlushPage -----

    /** UnpinFrameLocked. */
    method UnpinFrame(f: FrameId, ghost x: State)
      requires Agree(x) && f < |x.meta| && x.meta[f].state == ResidentFrame && x.meta[f].pins != 0 && f in x.tracked
      modifies this`meta, replacer`evictableCount, replacer.entries
      ensures Agree(x.(meta := x.meta[f := Unpinned(x.meta[f])], tracked := UnpinTracked(x.meta[f], x.tracked, f)))
      ensures if x.meta[f].pins == 1 then Flagged(old(replacer.View()), f, true, replacer.View())
              else replacer.View() == old(replacer.View())
    {
      hide Agree, Flagged, C.ClockReplacer.View;
      Seen(x);
      if meta[f].state != ResidentFrame || meta[f].pins == 0 {
        // "cannot unpin a nonresident frame", "pin count underflow"
        assert false;
      }
      SetMeta(f, meta[f].(pins := meta[f].pins - 1), x);
      ghost var x1 := x.(meta := x.meta[f := Unpinned(x.meta[f])]);
      Seen(x1);
      if meta[f].pins == 0 {
        SetEvictable(f, true, x1);
      }
    }

    /** The first critical section of a flush: the page is pinned without being accessed, and
        the dirty epoch is remembered. */
    method PinForFlush(p: PageId, f: FrameId, ghost x: State) returns (epoch: nat)
      requires Agree(x) && f < |x.meta| && MetaConsistent(x, p, f) && f in x.tracked && x.meta[f].pins < MAX_PINS
      modifies this`meta, replacer`evictableCount, replacer.entries
      ensures epoch == x.meta[f].epoch
      ensures Agree(x.(meta := x.meta[f := x.meta[f].(pins := x.meta[f].pins + 1)],
                       tracked := R.SetEvictable(x.tracked, f, false)))
      ensures Flagged(old(replacer.View()), f, false, replacer.View())
    {
      hide Agree, R.SetEvictable, Flagged, C.ClockReplacer.View;
      Seen(x);
      var m := meta[f];
      if m.page != Some(p) || m.state != ResidentFrame {
        // "inconsistent resident page metadata"
        assert false;
      }
      SetMeta(f, m.(pins := NextPins(m.pins)), x);
      SetEvictable(f, false, x.(meta := x.meta[f := m.(pins := m.pins + 1)]));
      return m.epoch;
    }

    /** The write of a dirty page, between two critical sections. */
    method FlushDirty(p: PageId, f: FrameId, ghost x: State) returns (ok: bool, ghost n: nat)
      requires Agree(x) && ResidentAt(x, p) && x.table[p].frame == Some(f) && MetaConsistent(x, p, f)
      requires f in x.tracked && (x.tracked[f] <==> x.meta[f].pins == 0) && x.meta[f].pins < MAX_PINS
      modifies this`meta, disk, replacer`evictableCount, replacer.entries
      ensures n <= PAGE_SIZE && (ok <==> n == PAGE_SIZE)
      ensures p < |x.disk| && f < |x.mem|
      ensures Agree(if ok then x.(disk := x.disk[p := x.mem[f]], meta := x.meta[f := x.meta[f].(dirty := false)])
                    else x.(disk := x.disk[p := Splice(x.disk[p], x.mem[f], 0, n)]))
      ensures replacer.View() == old(replacer.View())
      ensures D.Accepted(disk.layout) && Transferred(disk.layout, old(disk.script), disk.script, ok, true)
    {
      hide Agree, Transferred, UnpinTracked, R.SetEvictable, Flagged, C.Tracked, C.ClockReplacer.View;
      Seen(x);
      SeenTracked(x);
      ghost var clock := replacer.View();
      FlushUnpins(x.meta[f], x.tracked, f);
      var capturedEpoch := PinForFlush(p, f, x);
      ghost var flagged := replacer.View();
      ghost var x2 := x.(meta := x.meta[f := x.meta[f].(pins := x.meta[f].pins + 1)],
                         tracked := R.SetEvictable(x.tracked, f, false));
      ok, n := WritePage(p, f, x2);
      ghost var x3 := x2.(disk := x.disk[p := Splice(x.disk[p], x.mem[f], 0, n)]);
      if !ok {
        UnpinFrame(f, x3);
        FlaggedBack(clock, f, flagged, replacer.View());
        assert x3.meta[f := Unpinned(x3.meta[f])] == x.meta;
        return;
      }
      Seen(x3);
      if meta[f].page == Some(p) && meta[f].state == ResidentFrame && meta[f].epoch == capturedEpoch {
        SetMeta(f, meta[f].(dirty := false), x3);
      }
      ghost var x4 := x3.(meta := x3.meta[f := x3.meta[f].(dirty := false)]);
      UnpinFrame(f, x4);
      FlaggedBack(clock, f, flagged, replacer.View());
      assert Splice(x.disk[p], x.mem[f], 0, PAGE_SIZE) == x.mem[f];
      assert x4.meta[f := Unpinned(x4.meta[f])] == x.meta[f := x.meta[f].(dirty := false)];
    }

    /** FlushPage changes neither the contents of the pool nor any guard or pin. When it
        returns, the page is not dirty, and it is on disk unless somebody has an unmarked
        change; no other slot of the file and no other page is touched, nor the replacer. A
        page that is not dirty is not written. When the write fails the page is as dirty as
        before. */
    method FlushPage(p: PageId) returns (r: Status)
      requires Valid() && PinRoom(s, p)
      modifies this`meta, this`s, disk, replacer`evictableCount, replacer.entries
      ensures RunsTo(old(s), s)
      ensures Valid() && Contents(s) == old(Contents(s))
      ensures r == Thrown(InvalidId) <==> p >= |old(s).table|
      ensures r == Thrown(UnusedPage) <==> p < |old(s).table| && p !in old(Contents(s))
      ensures r == Ok ==> !Dirty(s, p) && (Marked(s, p) ==> OnDisk(s, p))
      ensures s == old(s).(disk := s.disk, meta := s.meta) && SamePins(old(s.meta), s.meta)
      ensures r != Ok ==> s == old(s).(disk := s.disk)
      ensures !Dirty(old(s), p) ==> s == old(s) && disk.bytes == old(disk.bytes) && disk.script == old(disk.script)
      ensures replacer.View() == old(replacer.View())
      ensures Dirty(s, p) <==> r != Ok && Dirty(old(s), p)
      ensures forall q: PageId :: q != p && Dirty(s, q) <==> q != p && Dirty(old(s), q)
      ensures |s.disk| == |old(s).disk| && forall q :: 0 <= q < |s.disk| && q != p ==> s.disk[q] == old(s).disk[q]
      ensures r == Ok || r == Thrown(InvalidId) || r == Thrown(UnusedPage) || r == Thrown(WriteFailed)
      ensures D.Accepted(disk.layout)
      ensures Transferred(disk.layout, old(disk.script), disk.script, r != Thrown(WriteFailed), true)
      ensures old(disk.Sound()) ==> disk.Sound() && (r == Ok <==> p in old(Contents(s)))
    {
      hide RunsTo, Transferred, D.Harmless, D.Fits, Agree, At, Contents, Dirty, Marked, OnDisk;
      hide ResidentAt, C.ClockReplacer.View;
      StaysPut(s);
      PageAtRest(s, p);
      SamePinsAsSelf(s.meta);
      Seen(s);
      NothingTransferred(disk.layout, disk.script, true);
      if disk.Sound() { SoundTransfers(disk.layout, disk.script); }
      var st := table.State(p);
      if st.None? { return Thrown(InvalidId); }
      match st.value
      case Unused => return Thrown(UnusedPage);
      case Loading => assert false; // the code would wait here
      case Evicting => assert false; // and here
      case NonResident =>
        NotResidentNotDirty(s, p);
        if Marked(s, p) { CleanIsOnDisk(s, p); }
        return Ok;
      case Resident =>
        r := FlushResident(p);
    }

    method FlushResident(p: PageId) returns (r: Status)
      requires Valid() && PinRoom(s, p) && PageIs(s, p, Resident)
      modifies this`meta, this`s, disk, replacer`evictableCount, replacer.entries
      ensures RunsTo(old(s), s)
      ensures Valid() && Contents(s) == old(Contents(s))
      ensures r == Ok ==> !Dirty(s, p) && (Marked(s, p) ==> OnDisk(s, p))
      ensures s == old(s).(disk := s.disk, meta := s.meta) && SamePins(old(s.meta), s.meta)
      ensures r != Ok ==> s == old(s).(disk := s.disk)
      ensures !Dirty(old(s), p) ==> s == old(s) && disk.bytes == old(disk.bytes) && disk.script == old(disk.script)
      ensures replacer.View() == old(replacer.View())
      ensures Dirty(s, p) <==> r != Ok && Dirty(old(s), p)
      ensures forall q: PageId :: q != p && Dirty(s, q) <==> q != p && Dirty(old(s), q)
      ensures |s.disk| == |old(s).disk| && forall q :: 0 <= q < |s.disk| && q != p ==> s.disk[q] == old(s).disk[q]
      ensures r == Ok || r == Thrown(WriteFailed)
      ensures D.Accepted(disk.layout)
      ensures Transferred(disk.layout, old(disk.script), disk.script, r != Thrown(WriteFailed), true)
    {
      hide RunsTo, Transferred, Agree, At, Contents, Marked, OnDisk, C.ClockReplacer.View;
      StaysPut(s);
      PageAtRest(s, p);
      Seen(s);
      NothingTransferred(disk.layout, disk.script, true);
      var _, frame := table.FrameForPage(p);
      var f := frame.value;
      if !meta[f].dirty {
        if Marked(s, p) { CleanIsOnDisk(s, p); }
        return Ok;
      }
      EvictableWhenUnpinned(s, p);
      var ok, n := FlushDirty(p, f, s);
      if !ok {
        FlushFails(s, p, f, n);
        s := s.(disk := s.disk[p := Splice(s.disk[p], s.mem[f], 0, n)]);
        return Thrown(WriteFailed);
      }
      FlushCleans(s, p, f);
      OthersStayDirty(s, p, f);
      s := s.(disk := s.disk[p := s.mem[f]], meta := s.meta[f := s.meta[f].(dirty := false)]);
      if Marked(s, p) { CleanIsOnDisk(s, p); }
      return Ok;
    }

    /** Run alone, FlushAllPages leaves no page dirty when all writes succeed, and then the
        file holds the whole contents of the pool, but for unmarked changes. */
    method FlushAllPages() returns (r: Status)
      requires Valid() && forall p: PageId :: PinRoom(s, p)
      modifies this`meta, this`s, disk, replacer`evictableCount, replacer.entries
      ensures RunsTo(old(s), s)
      ensures Valid() && Contents(s) == old(Contents(s))
      ensures s == old(s).(disk := s.disk, meta := s.meta) && SamePins(old(s.meta), s.meta)
      ensures r == Ok ==> forall p: PageId :: !Dirty(s, p)
      ensures |s.disk| == |old(s).disk|
      ensures forall q :: 0 <= q < |s.disk| && !Dirty(old(s), q) ==> s.disk[q] == old(s).disk[q]
      ensures r == Ok ==> forall p: PageId :: p in Contents(s) && Marked(s, p) ==> OnDisk(s, p)
      ensures r == Ok || r == Thrown(WriteFailed)
      ensures replacer.View() == old(replacer.View())
      ensures D.Accepted(disk.layout)
      ensures Transferred(disk.layout, old(disk.script), disk.script, r != Thrown(WriteFailed), true)
      ensures old(disk.Sound()) ==> disk.Sound() && r == Ok
    {
      hide RunsTo, Transferred, D.Harmless, D.Fits, Agree, At, Contents, Dirty, Marked, OnDisk;
      hide PinRoom, C.ClockReplacer.View;
      StaysPut(s);
      Seen(s);
      NothingTransferred(disk.layout, disk.script, true);
      if disk.Sound() { SoundTransfers(disk.layout, disk.script); }
      ghost var script := disk.script;
      SamePinsAsSelf(s.meta);
      var dirtyPages: seq<PageId> := [];
      for f := 0 to |meta|
        invariant Valid() && s == old(s) && meta == s.meta
        invariant Collected(s, f, dirtyPages) && disk.script == script && replacer.View() == old(replacer.View())
      {
        if meta[f].state == ResidentFrame && meta[f].dirty && meta[f].page.Some? {
          dirtyPages := dirtyPages + [meta[f].page.value];
        }
        if meta[f].state == ResidentFrame { ResidentFrameHasPage(s, f); }
      }
      CollectedAll(s, dirtyPages);
      for i := 0 to |dirtyPages|
        invariant Valid() && Contents(s) == old(Contents(s)) && RunsTo(old(s), s)
        invariant s == old(s).(disk := s.disk, meta := s.meta) && SamePins(old(s.meta), s.meta)
        invariant forall p: PageId :: Dirty(s, p) ==> p in dirtyPages[i..] && Dirty(old(s), p)
        invariant |s.disk| == |old(s).disk|
        invariant forall q :: 0 <= q < |s.disk| && !Dirty(old(s), q) ==> s.disk[q] == old(s).disk[q]
        invariant replacer.View() == old(replacer.View())
        invariant Transferred(disk.layout, script, disk.script, true, true)
      {
        assert dirtyPages[i..] == [dirtyPages[i]] + dirtyPages[i + 1..];
        RoomStays(old(s), s);
        PageAtRest(s, dirtyPages[i]);
        ghost var s1, script1 := s, disk.script;
        r := FlushPage(dirtyPages[i]);
        Chain(old(s), s1, s);
        TransferredThen(disk.layout, script, script1, disk.script, r != Thrown(WriteFailed), true);
        if r != Ok { return; }
      }
      AllCleanIsOnDisk(s);
      return Ok;
    }

    // ----- DeletePage -----

    /** DeletePage removes the page, and nothing but the page, from the contents of the
        pool; it refuses to do so exactly while a guard on the page lives, and it is happy
        with a page that does not exist. */
    method DeletePage(p: PageId) returns (r: Status)
      requires Valid()
      modifies this`meta, this`s, allocator, allocator.bitmap, table, table.pages
      modifies replacer`evictableCount, replacer.entries
      ensures RunsTo(old(s), s)
      ensures Valid()
      ensures r == Thrown(InvalidId) <==> p >= |old(s).table|
      ensures r == Thrown(PinnedPage) <==> exists g :: g in old(s).guards && old(s).guards[g].page == p
      ensures r == Ok || r == Thrown(InvalidId) || r == Thrown(PinnedPage)
      ensures r == Ok ==> Contents(s) == old(Contents(s)) - {p}
      ensures table.next == old(table.next)
      ensures table.freeIds ==
              if r == Ok && p in old(Contents(s)) then old(table.freeIds) + [p] else old(table.freeIds)
      ensures r != Ok ==> s == old(s)
      ensures s.guards == old(s).guards && s.disk == old(s).disk && s.mem == old(s).mem
    {
      hide RunsTo, Agree, At, Contents, ResidentAt;
      StaysPut(s);
      PageAtRest(s, p);
      GuardedIsResident(s, p);
      Seen(s);
      var st := table.State(p);
      if st.None? { return Thrown(InvalidId); }
      match st.value
      case Unused => return Ok;
      case Loading => assert false; // the code would wait here
      case Evicting => assert false; // and here
      case NonResident =>
        FreePageId(p, s);
        DeletesNonResident(s, p);
        s := s.(table := s.table[p := UNUSED_ENTRY]);
        return Ok;
      case Resident =>
        PinnedMeansGuarded(s, p);
        var _, frame := table.FrameForPage(p);
        var f := frame.value;
        if meta[f].page != Some(p) || meta[f].state != ResidentFrame {
          // "inconsistent resident page metadata"
          assert false;
        }
        if meta[f].pins != 0 { return Thrown(PinnedPage); }
        DropPage(p, f, s);
        DeletesResident(s, p, f);
        s := s.(table := s.table[p := UNUSED_ENTRY], meta := s.meta[f := FREE_META],
                inUse := s.inUse - {f}, tracked := R.Remove(s.tracked, f));
        return Ok;
    }

    method DropPage(p: PageId, f: FrameId, ghost x: State)
      requires Agree(x) && p < |x.table| && f < |x.meta| && f in x.inUse && x.table[p] == Entry(Resident, Some(f))
      modifies this`meta, allocator, allocator.bitmap, table, table.pages, replacer`evictableCount, replacer.entries
      ensures Agree(x.(table := x.table[p := UNUSED_ENTRY], meta := x.meta[f := FREE_META],
                       inUse := x.inUse - {f}, tracked := R.Remove(x.tracked, f)))
      ensures table.freeIds == old(table.freeIds) + [p] && table.next == old(table.next)
    {
      hide Agree;
      Remove(f, x);
      ghost var x1 := x.(tracked := R.Remove(x.tracked, f));
      SetMeta(f, FREE_META, x1);
      ghost var x2 := x1.(meta := x.meta[f := FREE_META]);
      FreeFrame(f, x2);
      ghost var x3 := x2.(inUse := x.inUse - {f});
      SetNonResident(p, x3);
      ghost var x4 := x3.(table := x.table[p := NON_RESIDENT_ENTRY]);
      FreePageId(p, x4);
      assert x4.table[p := UNUSED_ENTRY] == x.table[p := UNUSED_ENTRY];
    }

    // ----- What guards do -----

    /** DropPageGuard: none of its checks fails. */
    method DropPageGuard(p: PageId, f: FrameId, ghost g: GuardId)
      requires Valid() && g in s.guards && s.guards[g] == Guard(p, f, false)
      modifies this`meta, this`s, replacer`evictableCount, replacer.entries
      ensures RunsTo(old(s), s)
      ensures Valid() && Contents(s) == old(Contents(s)) && s.guards == old(s).guards - {g}
      ensures f < |old(s).meta| && old(s).meta[f].pins > 0
      ensures s.meta == old(s).meta[f := Unpinned(old(s).meta[f])]
      ensures if old(s).meta[f].pins == 1 then Flagged(old(replacer.View()), f, true, replacer.View())
              else replacer.View() == old(replacer.View())
    {
      hide RunsTo, Agree, At, Contents, Flagged, C.ClockReplacer.View;
      GuardAtRest(s, g);
      Seen(s);
      if meta[f].page != Some(p) {
        // "page guard refers to the wrong page"
        assert false;
      }
      UnpinFrame(f, s);
      Drops(s, g);
      ghost var s' := s.(meta := s.meta[f := Unpinned(s.meta[f])], guards := s.guards - {g},
                         tracked := UnpinTracked(s.meta[f], s.tracked, f));
      SameParts(s.(meta := s'.meta, tracked := s'.tracked), s');
      s := s';
    }

    method MarkDirty(p: PageId, f: FrameId, ghost g: GuardId)
      requires Valid() && g in s.guards && s.guards[g].page == p && s.guards[g].frame == f
      modifies this`meta, this`s
      ensures RunsTo(old(s), s)
      ensures Valid() && Contents(s) == old(Contents(s)) && Dirty(s, p)
      ensures s.guards == old(s).guards[g := Guard(p, f, false)]
      ensures f < |old(s).meta|
      ensures s.meta == old(s).meta[f := old(s).meta[f].(dirty := true, epoch := NextEpoch(old(s).meta[f].epoch))]
    {
      hide RunsTo, Agree, At, Contents;
      GuardAtRest(s, g);
      Seen(s);
      if meta[f].page != Some(p) || meta[f].state != ResidentFrame {
        // "cannot mark a nonresident page dirty"
        assert false;
      }
      var m := meta[f].(dirty := true, epoch := NextEpoch(meta[f].epoch));
      SetMeta(f, m, s);
      Sequential.Marks(s, g);
      ghost var s' := s.(meta := s.meta[f := m], guards := s.guards[g := Guard(p, f, false)]);
      SameParts(s.(meta := s'.meta), s');
      s := s';
    }

    /** A client changes the bytes behind its guard. */
    method ChangeBytes(f: FrameId, bytes: Page, ghost g: GuardId)
      requires Valid() && g in s.guards && s.guards[g].frame == f && f < |allocator.frames|
      modifies this`s, allocator.frames[f]
      ensures RunsTo(old(s), s)
      ensures Valid() && Contents(s) == old(Contents(s))[old(s).guards[g].page := bytes]
      ensures s.guards == old(s).guards[g := old(s).guards[g].(unmarked := true)]
      ensures s.meta == old(s).meta
    {
      hide RunsTo, Agree, At, Contents;
      GuardAtRest(s, g);
      FillFrame(f, bytes, s);
      Writes(s, g, bytes);
      ghost var s' := s.(mem := s.mem[f := bytes], guards := s.guards[g := s.guards[g].(unmarked := true)]);
      SameParts(s.(mem := s'.mem), s');
      s := s';
    }
  }

  // ----- Guards -----

  /** A movable handle on a pinned page. */
  class PageGuard {
    var manager: BufferManager?
    var pageId: PageId
    var frameId: FrameId
    var page: array?<Byte>
    ghost var id: GuardId

    /** The manager counts this guard, for this page in this frame. */
    ghost predicate Live()
      reads this, manager
    {
      && manager != null
      && id in manager.s.guards && id in manager.holders && manager.holders[id] == this
      && manager.s.guards[id].page == pageId && manager.s.guards[id].frame == frameId
      && frameId < |manager.allocator.frames| && page == manager.allocator.frames[frameId]
    }

    constructor (m: BufferManager?, p: PageId, f: FrameId, bytes: array?<Byte>, ghost g: GuardId)
      ensures manager == m && pageId == p && frameId == f && page == bytes && id == g
    {
      manager := m;
      pageId := p;
      frameId := f;
      page := bytes;
      id := g;
    }

    /** Empty, or counted by a manager that is in order and does not own the guard itself. */
    ghost predicate Usable()
      reads this, if manager == null then {} else manager.Footprint()
    {
      manager != null ==> Live() && manager.Valid() && this !in manager.Footprint()
    }

    /** The move constructor: the pin changes hands. */
    constructor Move(other: PageGuard)
      requires other.Usable()
      modifies other, if other.manager == null then {} else {other.manager}
      ensures Usable() && manager == old(other.manager) && id == old(other.id) && pageId == old(other.pageId)
      ensures other.manager == null
      ensures manager != null ==>
                && manager.s == old(other.manager.s)
                && manager.holders == old(other.manager.holders)[id := this]
    {
      hide BufferManager.Agree, At, Contents;
      manager := null;
      pageId := 0;
      frameId := 0;
      page := null;
      new;
      TakeOver(other);
    }

    /** Exchanges the fields of another guard for those of an empty one. */
    method TakeOver(other: PageGuard)
      requires this != other && manager == null && other.Usable()
      requires other.manager != null ==> this !in other.manager.Footprint()
      modifies this, other, if other.manager == null then {} else {other.manager}
      ensures Usable() && manager == old(other.manager) && id == old(other.id) && pageId == old(other.pageId)
      ensures other.manager == null
      ensures manager != null ==>
                && manager.s == old(other.manager.s)
                && manager.holders == old(other.manager.holders)[id := this]
    {
      hide BufferManager.Agree, At, Contents;
      manager := other.manager;
      pageId := other.pageId;
      frameId := other.frameId;
      page := other.page;
      id := other.id;
      other.Clear();
      if manager != null {
        manager.holders := manager.holders[id := this];
      }
    }

    method Clear()
      modifies this`manager, this`pageId, this`frameId, this`page
      ensures manager == null
    {
      manager := null;
      pageId := 0;
      frameId := 0;
      page := null;
    }

    /** Drop never throws, and dropping again does nothing. */
    method Drop()
      requires Usable() && (manager != null ==> !manager.s.guards[id].unmarked)
      modifies this, if manager == null then {} else manager.Footprint()
      ensures manager == null && id == old(id)
      ensures var m := old(manager);
              m != null ==> m.Valid() && Contents(m.s) == old(Contents(manager.s)) && m.holders == old(manager.holders)
                            && m.s.guards == old(manager.s.guards) - {id}
    {
      hide BufferManager.Agree, At, Contents;
      if manager == null { return; }
      var m := manager;
      var p := pageId;
      var f := frameId;
      Clear();
      m.DropPageGuard(p, f, id);
    }

    /** Move assignment: the old pin is given up, the other guard's is taken over, and
        assigning a guard to itself does nothing. */
    method MoveFrom(other: PageGuard)
      requires Usable() && other.Usable()
      requires manager != null ==> !manager.s.guards[id].unmarked && other !in manager.Footprint()
      requires other.manager != null ==> this !in other.manager.Footprint()
      requires manager != null && other.manager != null && manager != other.manager ==>
                 manager.Footprint() !! other.manager.Footprint()
      modifies this, other
      modifies if manager == null then {} else manager.Footprint()
      modifies if other.manager == null then {} else {other.manager}
      ensures this == other ==> manager == old(manager)
      ensures this != other ==> other.manager == null && manager == old(other.manager) && Usable()
      ensures this != other ==> id == old(other.id) && pageId == old(other.pageId)
      ensures var m := old(manager);
              this != other && m != null ==> m.Valid() && Contents(m.s) == old(Contents(manager.s))
                                             && m.s.guards == old(manager.s.guards) - {old(id)}
    {
      hide BufferManager.Agree, At, Contents;
      if this == other { return; }
      Drop();
      TakeOver(other);
    }

    /** MarkDirty through the guard; an empty guard throws. */
    method MarkDirty() returns (ok: bool)
      requires Usable()
      modifies if manager == null then {} else manager.Footprint()
      ensures ok <==> manager != null
      ensures ok ==> Usable() && Contents(manager.s) == old(Contents(manager.s)) && Dirty(manager.s, pageId)
      ensures ok ==> manager.s.guards == old(manager.s.guards)[id := Guard(pageId, frameId, false)]
    {
      hide BufferManager.Agree, At, Contents;
      if manager == null { return false; }
      manager.MarkDirty(pageId, frameId, id);
      return true;
    }

    /** A client overwrites the page behind the guard; an empty guard throws. */
    method Write(bytes: Page) returns (ok: bool)
      requires Usable()
      modifies if manager == null then {} else manager.Footprint()
      ensures ok <==> manager != null
      ensures ok ==> Usable() && Contents(manager.s) == old(Contents(manager.s))[pageId := bytes]
      ensures ok ==> manager.s.guards == old(manager.s.guards)[id := Guard(pageId, frameId, true)]
    {
      hide BufferManager.Agree, At, Contents;
      if manager == null { return false; }
      assert manager.allocator.frames[frameId] in manager.allocator.frames;
      manager.ChangeBytes(frameId, bytes, id);
      return true;
    }
  }
}
