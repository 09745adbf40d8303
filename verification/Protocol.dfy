/** The buffer manager as a transition system. A step is at most one critical
    section of the metadata mutex, or one chunk of disk I/O done without it, or one
    action of a client on a guard it owns. `Apply` follows the code branch by
    branch; every internal consistency check of the code is evaluated and raises
    `fault` when it fails. */
module Protocol {
  import opened Common
  import opened PageStates
  import R = ReplacerContract

  type ThreadId = nat
  type GuardId = nat

  datatype FrameState = Free | LoadingFrame | ResidentFrame | EvictingFrame

  datatype FrameMeta = FrameMeta(
    page: Option<PageId>, pins: nat, dirty: bool, epoch: nat, state: FrameState)

  const FREE_META := FrameMeta(None, 0, false, 0, Free)

  /** Largest values of the 32-bit pin count and the 64-bit dirty epoch. */
  const MAX_PINS: nat := 0xFFFF_FFFF
  const MAX_EPOCH: nat := 0xFFFF_FFFF_FFFF_FFFF

  function NextPins(pins: nat): nat { if pins == MAX_PINS then 0 else pins + 1 }

  function NextEpoch(epoch: nat): nat { if epoch == MAX_EPOCH then 0 else epoch + 1 }

  /** A live page guard. `unmarked` records a change of the bytes for which the
      holder has not called MarkDirty yet. */
  datatype Guard = Guard(page: PageId, frame: FrameId, unmarked: bool)

  /** On whose behalf a frame is being emptied. */
  datatype Requester = ForNew(page: PageId) | ForFetch(page: PageId)

  /** Where a thread stands between two steps. The `...Loop` points are the heads of
      the retry loops, reached on entry and after every wait; the `...Io` points are
      the windows in which the mutex is not held. */
  datatype Pc =
    | Idle
    | NewStart
    | NewLoop(page: PageId)
    | FetchLoop(page: PageId)
    | FlushLoop(page: PageId)
    | DeleteLoop(page: PageId)
    | EvictIo(req: Requester, frame: FrameId, victim: PageId, wasDirty: bool, wasEpoch: nat, copied: nat)
    | LoadIo(page: PageId, frame: FrameId, copied: nat)
    | FlushIo(page: PageId, frame: FrameId, epoch: nat, copied: nat)

  /** `reserved` and `owner` are bookkeeping: the thread whose NewPage holds an
      unpublished id, and the thread inside the I/O window of a transient frame.
      `waiting` are the threads blocked on the condition variable and not notified. */
  datatype State = State(
    table: seq<Entry>,
    meta: seq<FrameMeta>,
    inUse: set<FrameId>,
    tracked: R.Tracked,
    mem: seq<Page>,
    disk: seq<Page>,
    pcs: seq<Pc>,
    guards: map<GuardId, Guard>,
    waiting: set<ThreadId>,
    reserved: map<PageId, ThreadId>,
    owner: map<FrameId, ThreadId>,
    fault: bool)

  predicate Transient(m: FrameMeta) { m.state == LoadingFrame || m.state == EvictingFrame }

  predicate IsLoop(pc: Pc) { pc.NewLoop? || pc.FetchLoop? || pc.FlushLoop? || pc.DeleteLoop? }

  predicate IsIo(pc: Pc) { pc.EvictIo? || pc.LoadIo? || pc.FlushIo? }

  predicate IsStart(pc: Pc) { pc.NewStart? || pc.FetchLoop? || pc.FlushLoop? || pc.DeleteLoop? }

  /** The page whose Fetch or Delete is in flight. */
  function Target(pc: Pc): Option<PageId>
  {
    match pc
    case FetchLoop(p) => Some(p)
    case DeleteLoop(p) => Some(p)
    case EvictIo(ForFetch(p), _, _, _, _, _) => Some(p)
    case LoadIo(p, _, _) => Some(p)
    case _ => None
  }

  /** The id that a NewPage in flight has reserved. */
  function Reserves(pc: Pc): Option<PageId>
  {
    match pc
    case NewLoop(p) => Some(p)
    case EvictIo(ForNew(p), _, _, _, _, _) => Some(p)
    case _ => None
  }

  /** Every frame and page id that the state itself stores is a valid index. */
  ghost predicate WellFormed(s: State)
  {
    && |s.mem| == |s.meta|
    && |s.disk| == |s.table|
    && (forall p :: 0 <= p < |s.table| && s.table[p].frame.Some? ==> s.table[p].frame.value < |s.meta|)
    && (forall f :: 0 <= f < |s.meta| && s.meta[f].page.Some? ==> s.meta[f].page.value < |s.table|)
    && (forall f :: f in s.tracked ==> f < |s.meta|)
    && (forall f :: f in s.inUse ==> f < |s.meta|)
    && (forall f :: f in s.owner ==> f < |s.meta|)
    && (forall p :: p in s.reserved ==> p < |s.table|)
    && (forall g :: g in s.guards ==> s.guards[g].frame < |s.meta| && s.guards[g].page < |s.table|)
    && (forall t :: 0 <= t < |s.pcs| ==> PcInRange(s, s.pcs[t]))
  }

  predicate PcInRange(s: State, pc: Pc)
  {
    match pc
    case NewLoop(p) => p < |s.table|
    case EvictIo(req, f, victim, _, _, k) =>
      req.page < |s.table| && f < |s.meta| && victim < |s.table| && k <= PAGE_SIZE
    case LoadIo(p, f, k) => p < |s.table| && f < |s.meta| && k <= PAGE_SIZE
    case FlushIo(p, f, _, k) => p < |s.table| && f < |s.meta| && k <= PAGE_SIZE
    case _ => true
  }

  // ----- The steps -----

  datatype Step =
    // client actions
    | Invoke(t: ThreadId, op: Pc)
    | WriteBytes(g: GuardId, bytes: Page)
    | MarkDirty(g: GuardId)
    | DropGuard(g: GuardId)
    // NewPage
    | ReserveId(t: ThreadId, p: PageId)
    | NoIdLeft(t: ThreadId)
    | PublishInFree(t: ThreadId, f: FrameId, g: GuardId)
    // obtaining a frame, for NewPage and FetchPage
    | EvictBegin(t: ThreadId, f: FrameId)
    | EvictChunk(t: ThreadId, n: nat)
    | EvictFail(t: ThreadId)
    | EvictDone(t: ThreadId, g: GuardId)
    | WaitForFrame(t: ThreadId)
    | NoFrame(t: ThreadId)
    // FetchPage
    | FetchHit(t: ThreadId, g: GuardId)
    | LoadBegin(t: ThreadId, f: FrameId)
    | LoadChunk(t: ThreadId, n: nat)
    | LoadFail(t: ThreadId)
    | LoadDone(t: ThreadId, g: GuardId)
    // FlushPage
    | FlushBegin(t: ThreadId)
    | FlushChunk(t: ThreadId, n: nat)
    | FlushFail(t: ThreadId)
    | FlushDone(t: ThreadId)
    // DeletePage
    | DeleteResident(t: ThreadId)
    | DeleteNonResident(t: ThreadId)
    // any operation
    | ReturnAtOnce(t: ThreadId)
    | WaitForPage(t: ThreadId)
    | SpuriousWake(t: ThreadId)

  /** Thread `t` holds the mutex at the head of a retry loop. */
  predicate AtLoop(s: State, t: ThreadId)
  {
    t < |s.pcs| && IsLoop(s.pcs[t]) && t !in s.waiting
  }

  predicate PageIs(s: State, p: PageId, st: PageState)
  {
    p < |s.table| && s.table[p].state == st
  }

  /** Thread `t` is about to look for a frame. */
  predicate Acquiring(s: State, t: ThreadId)
  {
    && AtLoop(s, t)
    && (s.pcs[t].NewLoop? || (s.pcs[t].FetchLoop? && PageIs(s, s.pcs[t].page, NonResident)))
  }

  ghost predicate NoFreeFrame(s: State) { forall f :: 0 <= f < |s.meta| ==> f in s.inUse }

  ghost predicate NoVictim(s: State) { forall f :: 0 <= f < |s.meta| ==> !R.IsEvictable(s.tracked, f) }

  ghost predicate HasTransientFrame(s: State) { exists f :: 0 <= f < |s.meta| && Transient(s.meta[f]) }

  /** The metadata of `p`'s frame name `p` as resident; otherwise the code throws
      "inconsistent resident page metadata". */
  predicate MetaConsistent(s: State, p: PageId, f: FrameId)
    requires f < |s.meta|
  {
    s.meta[f].page == Some(p) && s.meta[f].state == ResidentFrame
  }

  /** Operations that return or throw without changing anything: an id out of range;
      fetching or flushing an unused page; a fetch that would overflow the pin count;
      flushing a nonresident or clean page; deleting an unused or pinned page. */
  predicate ReturnsAtOnce(s: State, pc: Pc)
  {
    match pc
    case FetchLoop(p) =>
      || p >= |s.table|
      || s.table[p].state == Unused
      || (ResidentAt(s, p) && MetaConsistent(s, p, s.table[p].frame.value)
          && s.meta[s.table[p].frame.value].pins == MAX_PINS)
    case FlushLoop(p) =>
      || p >= |s.table|
      || s.table[p].state == Unused || s.table[p].state == NonResident
      || (ResidentAt(s, p) && !s.meta[s.table[p].frame.value].dirty)
    case DeleteLoop(p) =>
      || p >= |s.table|
      || s.table[p].state == Unused
      || (ResidentAt(s, p) && MetaConsistent(s, p, s.table[p].frame.value)
          && s.meta[s.table[p].frame.value].pins != 0)
    case _ => false
  }

  predicate ChunkFits(copied: nat, n: nat) { 0 < n && copied + n <= PAGE_SIZE }

  /** The frame that the page table stores for a page is valid metadata to look at. */
  predicate ResidentAt(s: State, p: PageId)
  {
    && p < |s.table| && s.table[p].state == Resident
    && s.table[p].frame.Some? && s.table[p].frame.value < |s.meta|
  }

  predicate CanPublish(s: State, t: ThreadId, f: FrameId, g: GuardId)
  {
    && Acquiring(s, t) && s.pcs[t].NewLoop?
    && f < |s.meta| && f !in s.inUse && g !in s.guards
  }

  ghost predicate CanEvictBegin(s: State, t: ThreadId, f: FrameId)
  {
    && Acquiring(s, t) && NoFreeFrame(s)
    && f < |s.meta| && R.IsEvictable(s.tracked, f)
  }

  predicate CanEvictChunk(s: State, t: ThreadId, n: nat)
  {
    t < |s.pcs| && s.pcs[t].EvictIo? && s.pcs[t].wasDirty && ChunkFits(s.pcs[t].copied, n)
  }

  predicate CanEvictFail(s: State, t: ThreadId)
  {
    t < |s.pcs| && s.pcs[t].EvictIo? && s.pcs[t].wasDirty && s.pcs[t].copied < PAGE_SIZE
  }

  predicate CanEvictEnd(s: State, t: ThreadId)
  {
    t < |s.pcs| && s.pcs[t].EvictIo? && (s.pcs[t].wasDirty ==> s.pcs[t].copied == PAGE_SIZE)
  }

  predicate CanEvictDone(s: State, t: ThreadId, g: GuardId)
  {
    CanEvictEnd(s, t) && g !in s.guards
  }

  ghost predicate CanWaitForFrame(s: State, t: ThreadId)
  {
    Acquiring(s, t) && NoFreeFrame(s) && NoVictim(s) && HasTransientFrame(s)
  }

  ghost predicate CanNoFrame(s: State, t: ThreadId)
  {
    Acquiring(s, t) && NoFreeFrame(s) && NoVictim(s) && !HasTransientFrame(s)
  }

  predicate CanFetchHit(s: State, t: ThreadId, g: GuardId)
  {
    && AtLoop(s, t) && s.pcs[t].FetchLoop? && ResidentAt(s, s.pcs[t].page)
    && (MetaConsistent(s, s.pcs[t].page, s.table[s.pcs[t].page].frame.value)
        ==> s.meta[s.table[s.pcs[t].page].frame.value].pins != MAX_PINS)
    && g !in s.guards
  }

  predicate CanLoadBegin(s: State, t: ThreadId, f: FrameId)
  {
    Acquiring(s, t) && s.pcs[t].FetchLoop? && f < |s.meta| && f !in s.inUse
  }

  predicate CanLoadChunk(s: State, t: ThreadId, n: nat)
  {
    t < |s.pcs| && s.pcs[t].LoadIo? && ChunkFits(s.pcs[t].copied, n)
  }

  predicate CanLoadFail(s: State, t: ThreadId)
  {
    t < |s.pcs| && s.pcs[t].LoadIo? && s.pcs[t].copied < PAGE_SIZE
  }

  predicate CanLoadDone(s: State, t: ThreadId, g: GuardId)
  {
    t < |s.pcs| && s.pcs[t].LoadIo? && s.pcs[t].copied == PAGE_SIZE && g !in s.guards
  }

  predicate CanFlushBegin(s: State, t: ThreadId)
  {
    && AtLoop(s, t) && s.pcs[t].FlushLoop? && ResidentAt(s, s.pcs[t].page)
    && s.meta[s.table[s.pcs[t].page].frame.value].dirty
  }

  predicate CanFlushChunk(s: State, t: ThreadId, n: nat)
  {
    t < |s.pcs| && s.pcs[t].FlushIo? && ChunkFits(s.pcs[t].copied, n)
  }

  predicate CanFlushFail(s: State, t: ThreadId)
  {
    t < |s.pcs| && s.pcs[t].FlushIo? && s.pcs[t].copied < PAGE_SIZE
  }

  predicate CanFlushDone(s: State, t: ThreadId)
  {
    t < |s.pcs| && s.pcs[t].FlushIo? && s.pcs[t].copied == PAGE_SIZE
  }

  predicate CanDeleteResident(s: State, t: ThreadId)
  {
    && AtLoop(s, t) && s.pcs[t].DeleteLoop? && ResidentAt(s, s.pcs[t].page)
    && (MetaConsistent(s, s.pcs[t].page, s.table[s.pcs[t].page].frame.value)
        ==> s.meta[s.table[s.pcs[t].page].frame.value].pins == 0)
  }

  predicate CanDeleteNonResident(s: State, t: ThreadId)
  {
    AtLoop(s, t) && s.pcs[t].DeleteLoop? && PageIs(s, s.pcs[t].page, NonResident)
  }

  predicate CanWaitForPage(s: State, t: ThreadId)
  {
    && AtLoop(s, t) && !s.pcs[t].NewLoop?
    && (PageIs(s, s.pcs[t].page, Loading) || PageIs(s, s.pcs[t].page, Evicting))
  }

  ghost predicate CanNoIdLeft(s: State, t: ThreadId)
  {
    && t < |s.pcs| && s.pcs[t] == NewStart
    && (forall p :: 0 <= p < |s.table| ==> s.table[p].state != Unused)
  }

  /** The code can take this step. */
  ghost predicate Enabled(s: State, step: Step)
  {
    match step
    case Invoke(t, op) => t < |s.pcs| && s.pcs[t] == Idle && IsStart(op)
    case WriteBytes(g, _) => g in s.guards
    case MarkDirty(g) => g in s.guards
    case DropGuard(g) => g in s.guards
    case ReserveId(t, p) => t < |s.pcs| && s.pcs[t] == NewStart && PageIs(s, p, Unused)
    case NoIdLeft(t) => CanNoIdLeft(s, t)
    case PublishInFree(t, f, g) => CanPublish(s, t, f, g)
    case EvictBegin(t, f) => CanEvictBegin(s, t, f)
    case EvictChunk(t, n) => CanEvictChunk(s, t, n)
    case EvictFail(t) => CanEvictFail(s, t)
    case EvictDone(t, g) => CanEvictDone(s, t, g)
    case WaitForFrame(t) => CanWaitForFrame(s, t)
    case NoFrame(t) => CanNoFrame(s, t)
    case FetchHit(t, g) => CanFetchHit(s, t, g)
    case LoadBegin(t, f) => CanLoadBegin(s, t, f)
    case LoadChunk(t, n) => CanLoadChunk(s, t, n)
    case LoadFail(t) => CanLoadFail(s, t)
    case LoadDone(t, g) => CanLoadDone(s, t, g)
    case FlushBegin(t) => CanFlushBegin(s, t)
    case FlushChunk(t, n) => CanFlushChunk(s, t, n)
    case FlushFail(t) => CanFlushFail(s, t)
    case FlushDone(t) => CanFlushDone(s, t)
    case DeleteResident(t) => CanDeleteResident(s, t)
    case DeleteNonResident(t) => CanDeleteNonResident(s, t)
    case ReturnAtOnce(t) => AtLoop(s, t) && ReturnsAtOnce(s, s.pcs[t])
    case WaitForPage(t) => CanWaitForPage(s, t)
    case SpuriousWake(t) => t in s.waiting
  }

  ghost predicate Flushing(s: State, f: FrameId)
  {
    exists t :: 0 <= t < |s.pcs| && s.pcs[t].FlushIo? && s.pcs[t].frame == f
  }

  /** Moving the dirty epoch of `f` on does not deceive a flush: it does not wrap, or no
      flush has captured it. */
  ghost predicate EpochRoom(s: State, f: FrameId)
    requires f < |s.meta|
  {
    s.meta[f].epoch < MAX_EPOCH || !Flushing(s, f)
  }

  /** What the code expects of its callers.
      (a) An id is fetched or deleted only once its NewPage has returned, and it is
          not given out again while a Fetch or Delete of its previous life runs.
      (b) A holder that changed the bytes calls MarkDirty before it drops the guard.
      (c) A flush finds room for one more pin, and the dirty epoch of a frame does not pass
          the end of its range while a flush of the frame is in flight. */
  ghost predicate ClientRules(s: State, step: Step)
    requires WellFormed(s) && Enabled(s, step)
  {
    match step
    case Invoke(t, op) => Target(op).Some? ==> Target(op).value !in s.reserved
    case ReserveId(t, p) => forall u :: 0 <= u < |s.pcs| ==> Target(s.pcs[u]) != Some(p)
    case DropGuard(g) => !s.guards[g].unmarked
    case MarkDirty(g) => EpochRoom(s, s.guards[g].frame)
    case FlushBegin(t) => s.meta[s.table[s.pcs[t].page].frame.value].pins < MAX_PINS
    case _ => true
  }

  // ----- The effect of a step -----
  //
  // `fault` is raised by every check of the code that fails: the page table's
  // transition errors, "frame is not allocated", "cannot change evictability of an
  // unknown frame", the pin count checks and the tests of the frame metadata.

  function Unpinned(m: FrameMeta): FrameMeta
  {
    if m.pins == 0 then m else m.(pins := m.pins - 1)
  }

  /** UnpinFrameLocked and the SetEvictable inside it succeed. */
  predicate CanUnpin(m: FrameMeta, tracked: R.Tracked, f: FrameId)
  {
    m.state == ResidentFrame && m.pins != 0 && (m.pins == 1 ==> R.CanSetEvictable(tracked, f))
  }

  function UnpinTracked(m: FrameMeta, tracked: R.Tracked, f: FrameId): R.Tracked
  {
    if m.pins == 1 then R.SetEvictable(tracked, f, true) else tracked
  }

  /** RecordAccess followed by SetEvictable. */
  function Touch(tracked: R.Tracked, f: FrameId, evictable: bool): R.Tracked
  {
    R.SetEvictable(R.Access(tracked, f), f, evictable)
  }

  function ApplyGoto(s: State, t: ThreadId, pc: Pc): State
    requires t < |s.pcs|
  {
    s.(pcs := s.pcs[t := pc])
  }

  const NEW_PAGE_EPOCH: nat := 1

  /** The new page becomes resident in frame `f`, zero-filled, dirty and pinned once. */
  function ApplyPublish(s: State, t: ThreadId, f: FrameId, g: GuardId): State
    requires WellFormed(s) && CanPublish(s, t, f, g)
  {
    var p := s.pcs[t].page;
    s.(inUse := s.inUse + {f},
       mem := s.mem[f := ZeroPage()],
       meta := s.meta[f := FrameMeta(Some(p), 1, true, NEW_PAGE_EPOCH, ResidentFrame)],
       table := s.table[p := Entry(Resident, Some(f))],
       tracked := Touch(s.tracked, f, false),
       guards := s.guards[g := Guard(p, f, false)],
       waiting := {},
       pcs := s.pcs[t := Idle],
       reserved := s.reserved - {p},
       fault := s.fault || !CanSetResident(s.table[p], f))
  }

  function ApplyReserveId(s: State, t: ThreadId, p: PageId): State
    requires t < |s.pcs| && p < |s.table|
  {
    s.(table := s.table[p := NON_RESIDENT_ENTRY],
       pcs := s.pcs[t := NewLoop(p)],
       reserved := s.reserved[p := t])
  }

  function RequesterOf(pc: Pc): Requester
    requires pc.NewLoop? || pc.FetchLoop?
  {
    if pc.NewLoop? then ForNew(pc.page) else ForFetch(pc.page)
  }

  /** The victim leaves the replacer and its page is set evicting; the mutex is released. */
  function ApplyEvictStart(s: State, t: ThreadId, f: FrameId, req: Requester): State
    requires WellFormed(s) && t < |s.pcs| && f < |s.meta| && s.meta[f].page.Some?
  {
    var m := s.meta[f];
    var victim := m.page.value;
    s.(table := s.table[victim := Entry(Evicting, s.table[victim].frame)],
       meta := s.meta[f := FrameMeta(m.page, m.pins, m.dirty, m.epoch, EvictingFrame)],
       tracked := R.Remove(s.tracked, f),
       pcs := s.pcs[t := EvictIo(req, f, victim, m.dirty, m.epoch, 0)],
       owner := s.owner[f := t],
       fault := s.fault || m.pins != 0 || m.state != ResidentFrame
                || !CanSetEvicting(s.table[victim]) || f !in s.inUse)
  }

  /** "victim frame has no page" is thrown before anything else is looked at. */
  function ApplyEvictBegin(s: State, t: ThreadId, f: FrameId): State
    requires WellFormed(s) && Acquiring(s, t) && f < |s.meta|
  {
    if s.meta[f].page.None? then s.(fault := true) else ApplyEvictStart(s, t, f, RequesterOf(s.pcs[t]))
  }

  /** One chunk of the write of the victim: the frame's present bytes reach the disk. */
  function ApplyEvictChunk(s: State, t: ThreadId, n: nat): State
    requires WellFormed(s) && CanEvictChunk(s, t, n)
  {
    var pc := s.pcs[t];
    s.(disk := s.disk[pc.victim := Splice(s.disk[pc.victim], s.mem[pc.frame], pc.copied, n)],
       pcs := s.pcs[t := EvictIo(pc.req, pc.frame, pc.victim, pc.wasDirty, pc.wasEpoch, pc.copied + n)])
  }

  /** The table after a NewPage that fails has given its id back. */
  function WithoutReservation(table: seq<Entry>, req: Requester): seq<Entry>
    requires req.page < |table|
  {
    if req.ForNew? && table[req.page].state == NonResident then table[req.page := UNUSED_ENTRY] else table
  }

  /** The failed write is undone: the victim is resident again in the same frame with
      the dirty flag and epoch it had. The operation throws. */
  function ApplyEvictFail(s: State, t: ThreadId): State
    requires WellFormed(s) && CanEvictFail(s, t)
  {
    var pc := s.pcs[t];
    var restored := if s.table[pc.victim].state == Evicting
                    then s.table[pc.victim := Entry(Resident, Some(pc.frame))] else s.table;
    s.(table := WithoutReservation(restored, pc.req),
       meta := s.meta[pc.frame := FrameMeta(Some(pc.victim), 0, pc.wasDirty, pc.wasEpoch, ResidentFrame)],
       tracked := Touch(s.tracked, pc.frame, true),
       waiting := {},
       pcs := s.pcs[t := Idle],
       reserved := if pc.req.ForNew? then s.reserved - {pc.req.page} else s.reserved,
       owner := s.owner - {pc.frame})
  }

  /** The victim's page after a successful eviction. */
  function Unmapped(s: State, t: ThreadId): seq<Entry>
    requires WellFormed(s) && t < |s.pcs| && s.pcs[t].EvictIo?
  {
    s.table[s.pcs[t].victim := NON_RESIDENT_ENTRY]
  }

  predicate EvictFault(s: State, t: ThreadId)
    requires WellFormed(s) && t < |s.pcs| && s.pcs[t].EvictIo?
  {
    !CanSetNonResident(s.table[s.pcs[t].victim]) || s.pcs[t].frame !in s.inUse
  }

  /** The victim is gone and NewPage publishes in its frame. */
  function ApplyEvictPublish(s: State, t: ThreadId, g: GuardId): State
    requires WellFormed(s) && CanEvictDone(s, t, g) && s.pcs[t].req.ForNew?
  {
    var f := s.pcs[t].frame;
    var p := s.pcs[t].req.page;
    s.(mem := s.mem[f := ZeroPage()],
       meta := s.meta[f := FrameMeta(Some(p), 1, true, NEW_PAGE_EPOCH, ResidentFrame)],
       table := Unmapped(s, t)[p := Entry(Resident, Some(f))],
       tracked := Touch(s.tracked, f, false),
       guards := s.guards[g := Guard(p, f, false)],
       waiting := {},
       pcs := s.pcs[t := Idle],
       reserved := s.reserved - {p},
       owner := s.owner - {f},
       fault := s.fault || EvictFault(s, t) || !CanSetResident(Unmapped(s, t)[p], f))
  }

  /** The victim is gone and FetchPage goes on to load into its frame. */
  function ApplyEvictLoad(s: State, t: ThreadId): State
    requires WellFormed(s) && CanEvictEnd(s, t)
  {
    var f := s.pcs[t].frame;
    var p := s.pcs[t].req.page;
    s.(mem := s.mem[f := ZeroPage()],
       meta := s.meta[f := FrameMeta(Some(p), 1, false, 0, LoadingFrame)],
       table := Unmapped(s, t)[p := Entry(Loading, Some(f))],
       waiting := {},
       pcs := s.pcs[t := LoadIo(p, f, 0)],
       owner := s.owner[f := t],
       fault := s.fault || EvictFault(s, t))
  }

  /** The victim is gone, but meanwhile another thread has changed the state of the page
      to fetch: FetchPage gives the frame back and starts over. */
  function ApplyEvictRelease(s: State, t: ThreadId): State
    requires WellFormed(s) && CanEvictEnd(s, t)
  {
    var f := s.pcs[t].frame;
    s.(meta := s.meta[f := FREE_META],
       table := Unmapped(s, t),
       inUse := s.inUse - {f},
       waiting := {},
       pcs := s.pcs[t := FetchLoop(s.pcs[t].req.page)],
       owner := s.owner - {f},
       fault := s.fault || EvictFault(s, t))
  }

  function ApplyEvictDone(s: State, t: ThreadId, g: GuardId): State
    requires WellFormed(s) && CanEvictDone(s, t, g)
  {
    if s.pcs[t].req.ForNew? then ApplyEvictPublish(s, t, g)
    else if Unmapped(s, t)[s.pcs[t].req.page].state == NonResident then ApplyEvictLoad(s, t)
    else ApplyEvictRelease(s, t)
  }

  /** Every frame is pinned: NewPage gives its id back before it throws. */
  function ApplyAbandonNew(s: State, t: ThreadId): State
    requires WellFormed(s) && t < |s.pcs| && s.pcs[t].NewLoop?
  {
    s.(table := WithoutReservation(s.table, ForNew(s.pcs[t].page)),
       waiting := {},
       pcs := s.pcs[t := Idle],
       reserved := s.reserved - {s.pcs[t].page})
  }

  function ApplyNoFrame(s: State, t: ThreadId): State
    requires WellFormed(s) && Acquiring(s, t)
  {
    if s.pcs[t].NewLoop? then ApplyAbandonNew(s, t) else ApplyGoto(s, t, Idle)
  }

  function ApplyFetchHit(s: State, t: ThreadId, g: GuardId): State
    requires WellFormed(s) && CanFetchHit(s, t, g)
  {
    var p := s.pcs[t].page;
    var f := s.table[p].frame.value;
    var m := s.meta[f];
    s.(meta := s.meta[f := FrameMeta(m.page, m.pins + 1, m.dirty, m.epoch, m.state)],
       tracked := Touch(s.tracked, f, false),
       guards := s.guards[g := Guard(p, f, false)],
       pcs := s.pcs[t := Idle],
       fault := s.fault || !MetaConsistent(s, p, f) || f !in s.inUse)
  }

  /** The page is set loading into a free frame; the read starts by clearing the frame. */
  function ApplyLoadBegin(s: State, t: ThreadId, f: FrameId): State
    requires WellFormed(s) && CanLoadBegin(s, t, f)
  {
    var p := s.pcs[t].page;
    s.(inUse := s.inUse + {f},
       mem := s.mem[f := ZeroPage()],
       meta := s.meta[f := FrameMeta(Some(p), 1, false, 0, LoadingFrame)],
       table := s.table[p := Entry(Loading, Some(f))],
       pcs := s.pcs[t := LoadIo(p, f, 0)],
       owner := s.owner[f := t],
       fault := s.fault || !CanSetLoading(s.table[p]))
  }

  function ApplyLoadChunk(s: State, t: ThreadId, n: nat): State
    requires WellFormed(s) && CanLoadChunk(s, t, n)
  {
    var pc := s.pcs[t];
    s.(mem := s.mem[pc.frame := Splice(s.mem[pc.frame], s.disk[pc.page], pc.copied, n)],
       pcs := s.pcs[t := LoadIo(pc.page, pc.frame, pc.copied + n)])
  }

  function ApplyLoadFail(s: State, t: ThreadId): State
    requires WellFormed(s) && CanLoadFail(s, t)
  {
    var pc := s.pcs[t];
    s.(table := s.table[pc.page := NON_RESIDENT_ENTRY],
       meta := s.meta[pc.frame := FREE_META],
       inUse := s.inUse - {pc.frame},
       waiting := {},
       pcs := s.pcs[t := Idle],
       owner := s.owner - {pc.frame},
       fault := s.fault || !CanSetNonResident(s.table[pc.page]) || pc.frame !in s.inUse)
  }

  function ApplyLoadDone(s: State, t: ThreadId, g: GuardId): State
    requires WellFormed(s) && CanLoadDone(s, t, g)
  {
    var pc := s.pcs[t];
    s.(table := s.table[pc.page := Entry(Resident, Some(pc.frame))],
       meta := s.meta[pc.frame := s.meta[pc.frame].(state := ResidentFrame, dirty := false, epoch := 0)],
       tracked := Touch(s.tracked, pc.frame, false),
       guards := s.guards[g := Guard(pc.page, pc.frame, false)],
       waiting := {},
       pcs := s.pcs[t := Idle],
       owner := s.owner - {pc.frame},
       fault := s.fault || !CanSetResident(s.table[pc.page], pc.frame) || pc.frame !in s.inUse)
  }

  /** The flush pins the frame, remembers the dirty epoch and releases the mutex. */
  function ApplyFlushBegin(s: State, t: ThreadId): State
    requires WellFormed(s) && CanFlushBegin(s, t)
  {
    var p := s.pcs[t].page;
    var f := s.table[p].frame.value;
    s.(meta := s.meta[f := s.meta[f].(pins := NextPins(s.meta[f].pins))],
       tracked := R.SetEvictable(s.tracked, f, false),
       pcs := s.pcs[t := FlushIo(p, f, s.meta[f].epoch, 0)],
       fault := s.fault || !MetaConsistent(s, p, f) || f !in s.inUse || !R.CanSetEvictable(s.tracked, f))
  }

  function ApplyFlushChunk(s: State, t: ThreadId, n: nat): State
    requires WellFormed(s) && CanFlushChunk(s, t, n)
  {
    var pc := s.pcs[t];
    s.(disk := s.disk[pc.page := Splice(s.disk[pc.page], s.mem[pc.frame], pc.copied, n)],
       pcs := s.pcs[t := FlushIo(pc.page, pc.frame, pc.epoch, pc.copied + n)])
  }

  function ApplyFlushFail(s: State, t: ThreadId): State
    requires WellFormed(s) && CanFlushFail(s, t)
  {
    var f := s.pcs[t].frame;
    s.(meta := s.meta[f := Unpinned(s.meta[f])],
       tracked := UnpinTracked(s.meta[f], s.tracked, f),
       waiting := {},
       pcs := s.pcs[t := Idle],
       fault := s.fault || !CanUnpin(s.meta[f], s.tracked, f))
  }

  /** The page is marked clean only if nobody marked it dirty during the write. */
  function ApplyFlushDone(s: State, t: ThreadId): State
    requires WellFormed(s) && CanFlushDone(s, t)
  {
    var pc := s.pcs[t];
    var f := pc.frame;
    var m := if MetaConsistent(s, pc.page, f) && s.meta[f].epoch == pc.epoch
             then s.meta[f].(dirty := false) else s.meta[f];
    s.(meta := s.meta[f := Unpinned(m)],
       tracked := UnpinTracked(m, s.tracked, f),
       waiting := {},
       pcs := s.pcs[t := Idle],
       fault := s.fault || !CanUnpin(m, s.tracked, f))
  }

  function ApplyDeleteResident(s: State, t: ThreadId): State
    requires WellFormed(s) && CanDeleteResident(s, t)
  {
    var p := s.pcs[t].page;
    var f := s.table[p].frame.value;
    s.(table := s.table[p := UNUSED_ENTRY],
       meta := s.meta[f := FREE_META],
       inUse := s.inUse - {f},
       tracked := R.Remove(s.tracked, f),
       waiting := {},
       pcs := s.pcs[t := Idle],
       fault := s.fault || !MetaConsistent(s, p, f) || !CanSetNonResident(s.table[p]) || f !in s.inUse)
  }

  function ApplyDeleteNonResident(s: State, t: ThreadId): State
    requires CanDeleteNonResident(s, t)
  {
    s.(table := s.table[s.pcs[t].page := UNUSED_ENTRY], waiting := {}, pcs := s.pcs[t := Idle])
  }

  function ApplyWriteBytes(s: State, g: GuardId, bytes: Page): State
    requires WellFormed(s) && g in s.guards
  {
    var guard := s.guards[g];
    s.(mem := s.mem[guard.frame := bytes], guards := s.guards[g := guard.(unmarked := true)])
  }

  function ApplyMarkDirty(s: State, g: GuardId): State
    requires WellFormed(s) && g in s.guards
  {
    var guard := s.guards[g];
    var m := s.meta[guard.frame];
    s.(meta := s.meta[guard.frame := m.(dirty := true, epoch := NextEpoch(m.epoch))],
       guards := s.guards[g := guard.(unmarked := false)],
       fault := s.fault || !MetaConsistent(s, guard.page, guard.frame))
  }

  function ApplyDropGuard(s: State, g: GuardId): State
    requires WellFormed(s) && g in s.guards
  {
    var guard := s.guards[g];
    var f := guard.frame;
    s.(meta := s.meta[f := Unpinned(s.meta[f])],
       tracked := UnpinTracked(s.meta[f], s.tracked, f),
       guards := s.guards - {g},
       waiting := {},
       fault := s.fault || s.meta[f].page != Some(guard.page) || !CanUnpin(s.meta[f], s.tracked, f))
  }

  /** Actions of a client, not of the manager. */
  predicate OfClient(step: Step)
  {
    step.Invoke? || step.WriteBytes? || step.MarkDirty? || step.DropGuard?
  }

  /** Steps that go on with, or end, an I/O window. */
  predicate InWindow(step: Step)
  {
    || step.EvictChunk? || step.EvictFail? || step.EvictDone?
    || step.LoadChunk? || step.LoadFail? || step.LoadDone?
    || step.FlushChunk? || step.FlushFail? || step.FlushDone?
  }

  function ApplyOfClient(s: State, step: Step): State
    requires WellFormed(s) && Enabled(s, step) && OfClient(step)
  {
    match step
    case Invoke(t, op) => ApplyGoto(s, t, op)
    case WriteBytes(g, bytes) => ApplyWriteBytes(s, g, bytes)
    case MarkDirty(g) => ApplyMarkDirty(s, g)
    case DropGuard(g) => ApplyDropGuard(s, g)
  }

  function ApplyInWindow(s: State, step: Step): State
    requires WellFormed(s) && Enabled(s, step) && InWindow(step)
  {
    match step
    case EvictChunk(t, n) => ApplyEvictChunk(s, t, n)
    case EvictFail(t) => ApplyEvictFail(s, t)
    case EvictDone(t, g) => ApplyEvictDone(s, t, g)
    case LoadChunk(t, n) => ApplyLoadChunk(s, t, n)
    case LoadFail(t) => ApplyLoadFail(s, t)
    case LoadDone(t, g) => ApplyLoadDone(s, t, g)
    case FlushChunk(t, n) => ApplyFlushChunk(s, t, n)
    case FlushFail(t) => ApplyFlushFail(s, t)
    case FlushDone(t) => ApplyFlushDone(s, t)
  }

  function ApplyUnderMutex(s: State, step: Step): State
    requires WellFormed(s) && Enabled(s, step) && !OfClient(step) && !InWindow(step)
  {
    match step
    case ReserveId(t, p) => ApplyReserveId(s, t, p)
    case NoIdLeft(t) => ApplyGoto(s, t, Idle)
    case PublishInFree(t, f, g) => ApplyPublish(s, t, f, g)
    case EvictBegin(t, f) => ApplyEvictBegin(s, t, f)
    case WaitForFrame(t) => s.(waiting := s.waiting + {t})
    case NoFrame(t) => ApplyNoFrame(s, t)
    case FetchHit(t, g) => ApplyFetchHit(s, t, g)
    case LoadBegin(t, f) => ApplyLoadBegin(s, t, f)
    case FlushBegin(t) => ApplyFlushBegin(s, t)
    case DeleteResident(t) => ApplyDeleteResident(s, t)
    case DeleteNonResident(t) => ApplyDeleteNonResident(s, t)
    case ReturnAtOnce(t) => ApplyGoto(s, t, Idle)
    case WaitForPage(t) => s.(waiting := s.waiting + {t})
    case SpuriousWake(t) => s.(waiting := s.waiting - {t})
  }

  function Apply(s: State, step: Step): State
    requires WellFormed(s) && Enabled(s, step)
  {
    if OfClient(step) then ApplyOfClient(s, step)
    else if InWindow(step) then ApplyInWindow(s, step)
    else ApplyUnderMutex(s, step)
  }

  // ----- Runs -----

  /** A freshly constructed manager over an existing file of unused pages, with all
      client threads idle. */
  ghost predicate Init(s: State)
  {
    && |s.mem| == |s.meta| && |s.disk| == |s.table|
    && (forall p :: 0 <= p < |s.table| ==> s.table[p] == UNUSED_ENTRY)
    && (forall f :: 0 <= f < |s.meta| ==> s.meta[f] == FREE_META)
    && (forall t :: 0 <= t < |s.pcs| ==> s.pcs[t] == Idle)
    && s.inUse == {} && s.tracked == map[] && s.guards == map[]
    && s.waiting == {} && s.reserved == map[] && s.owner == map[]
    && !s.fault
  }

  /** `steps` can be taken one after the other from `s` by clients that keep the rules. */
  ghost predicate Legal(s: State, steps: seq<Step>)
    decreases |steps|
  {
    && WellFormed(s)
    && (steps == [] ||
        (Enabled(s, steps[0]) && ClientRules(s, steps[0]) && Legal(Apply(s, steps[0]), steps[1..])))
  }

  function Execute(s: State, steps: seq<Step>): (r: State)
    requires Legal(s, steps)
    decreases |steps|
  {
    if steps == [] then s else Execute(Apply(s, steps[0]), steps[1..])
  }
}
