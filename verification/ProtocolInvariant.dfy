/** The invariant of the protocol and the proof that every step of every thread,
    successful or failing, keeps it. */
module ProtocolInvariant {
  import opened Common
  import opened PageStates
  import opened Protocol
  import R = ReplacerContract

  // ----- The invariant, one page, frame, thread and guard at a time -----

  function FrameStateFor(st: PageState): FrameState
  {
    match st
    case Loading => LoadingFrame
    case Resident => ResidentFrame
    case Evicting => EvictingFrame
    case _ => Free
  }

  predicate Mapped(e: Entry)
  {
    e.state == Loading || e.state == Resident || e.state == Evicting
  }

  /** The page table and the frame metadata tell the same story about a page; a reserved
      id is in the hands of the NewPage that reserved it. */
  ghost predicate PageOk(s: State, p: PageId)
    requires p < |s.table|
  {
    && FrameStoredRight(s.table[p])
    && (Mapped(s.table[p]) ==>
          && s.table[p].frame.value < |s.meta|
          && s.meta[s.table[p].frame.value].page == Some(p)
          && s.meta[s.table[p].frame.value].state == FrameStateFor(s.table[p].state))
    && (p in s.reserved ==>
          && s.table[p].state == NonResident
          && s.reserved[p] < |s.pcs|
          && Reserves(s.pcs[s.reserved[p]]) == Some(p))
  }

  /** The frame of an I/O window on a transient frame. */
  function OwnedFrame(pc: Pc): Option<FrameId>
  {
    match pc
    case EvictIo(_, f, _, _, _, _) => Some(f)
    case LoadIo(_, f, _) => Some(f)
    case _ => None
  }

  function GuardsOn(guards: map<GuardId, Guard>, f: FrameId): set<GuardId>
  {
    set g | g in guards && guards[g].frame == f
  }

  /** Does this thread itself hold a pin on `f`, for a load or a flush in flight? */
  predicate PinsFrame(pc: Pc, f: FrameId)
  {
    (pc.LoadIo? && pc.frame == f) || (pc.FlushIo? && pc.frame == f)
  }

  function PinnersOn(pcs: seq<Pc>, f: FrameId): set<ThreadId>
  {
    set t | 0 <= t < |pcs| && PinsFrame(pcs[t], f)
  }

  /** Every change made through a guard on `f` has been marked. */
  ghost predicate AllMarked(guards: map<GuardId, Guard>, f: FrameId)
  {
    forall g :: g in guards && guards[g].frame == f ==> !guards[g].unmarked
  }

  /** A clean resident frame without unmarked changes equals its page on disk. */
  ghost predicate CleanOnDisk(s: State, f: FrameId)
    requires WellFormed(s) && f < |s.meta|
  {
    s.meta[f].state == ResidentFrame && s.meta[f].page.Some? && !s.meta[f].dirty && AllMarked(s.guards, f)
    ==> Agrees(s.mem[f], s.disk[s.meta[f].page.value], PAGE_SIZE)
  }

  /** The metadata, the page table, the allocator and the replacer agree about a frame;
      a transient frame is in the hands of the thread whose window it is; and the pin
      count is the number of guards, flushes in flight and loads in flight. */
  ghost predicate FrameOk(s: State, f: FrameId)
    requires WellFormed(s) && f < |s.meta|
  {
    && (s.meta[f].state == Free ==> s.meta[f] == FREE_META)
    && (s.meta[f].state != Free ==>
          && s.meta[f].page.Some?
          && s.table[s.meta[f].page.value].frame == Some(f))
    && (f in s.inUse <==> s.meta[f].state != Free)
    && (f in s.tracked <==> s.meta[f].state == ResidentFrame)
    && (f in s.tracked ==> (s.tracked[f] <==> s.meta[f].pins == 0))
    && (f in s.owner <==> Transient(s.meta[f]))
    && (f in s.owner ==> s.owner[f] < |s.pcs| && OwnedFrame(s.pcs[s.owner[f]]) == Some(f))
    && s.meta[f].pins == |GuardsOn(s.guards, f)| + |PinnersOn(s.pcs, f)|
    && CleanOnDisk(s, f)
  }

  predicate RequesterOk(s: State, t: ThreadId, req: Requester)
  {
    match req
    case ForNew(p) => p in s.reserved && s.reserved[p] == t
    case ForFetch(p) => p !in s.reserved
  }

  /** What holds while a thread stands at a program point: whose frame it works on, what
      the metadata say about it, and how far the disk and the frame agree. A flush knows
      the copied prefix to be on disk as long as the dirty epoch has not moved. */
  ghost predicate ThreadOk(s: State, t: ThreadId)
    requires WellFormed(s) && t < |s.pcs|
  {
    match s.pcs[t]
    case NewLoop(p) => p in s.reserved && s.reserved[p] == t
    case FetchLoop(p) => p !in s.reserved
    case DeleteLoop(p) => p !in s.reserved
    case EvictIo(req, f, p, dirty, epoch, k) =>
      && f in s.owner && s.owner[f] == t
      && s.meta[f] == FrameMeta(Some(p), 0, dirty, epoch, EvictingFrame)
      && (!dirty ==> k == 0)
      && Agrees(s.mem[f], s.disk[p], if dirty then k else PAGE_SIZE)
      && RequesterOk(s, t, req) && req.page != p
    case LoadIo(p, f, k) =>
      && f in s.owner && s.owner[f] == t
      && s.meta[f] == FrameMeta(Some(p), 1, false, 0, LoadingFrame)
      && Agrees(s.mem[f], s.disk[p], k)
    case FlushIo(p, f, e, k) =>
      && MetaConsistent(s, p, f) && e <= s.meta[f].epoch
      && (s.meta[f].epoch == e && AllMarked(s.guards, f) ==> Agrees(s.mem[f], s.disk[p], k))
    case _ => true
  }

  /** A live guard's page is resident in the guard's frame. */
  predicate GuardOk(s: State, g: GuardId)
    requires g in s.guards && s.guards[g].frame < |s.meta|
  {
    MetaConsistent(s, s.guards[g].page, s.guards[g].frame)
  }

  /** A thread blocked without a pending wake-up has somebody to wake it. */
  ghost predicate WaitersOk(s: State)
  {
    && (forall t :: t in s.waiting ==> t < |s.pcs| && IsLoop(s.pcs[t]))
    && (s.waiting != {} ==> s.owner.Keys != {})
  }

  ghost predicate Inv(s: State)
  {
    && WellFormed(s)
    && (forall p {:trigger PageOk(s, p)} :: 0 <= p < |s.table| ==> PageOk(s, p))
    && (forall f {:trigger FrameOk(s, f)} :: 0 <= f < |s.meta| ==> FrameOk(s, f))
    && (forall t {:trigger ThreadOk(s, t)} :: 0 <= t < |s.pcs| ==> ThreadOk(s, t))
    && (forall g {:trigger GuardOk(s, g)} :: g in s.guards ==> GuardOk(s, g))
    && WaitersOk(s)
    && !s.fault
  }

  lemma InitInv(s: State)
    requires Init(s)
    ensures Inv(s)
  {
    forall f | 0 <= f < |s.meta|
      ensures FrameOk(s, f)
    {
      assert GuardsOn(s.guards, f) == {};
      assert PinnersOn(s.pcs, f) == {};
    }
  }

  // ----- Counting pins -----

  lemma PinnersAfter(pcs: seq<Pc>, t: ThreadId, pc: Pc, f: FrameId)
    requires t < |pcs|
    ensures |PinnersOn(pcs[t := pc], f)| ==
            |PinnersOn(pcs, f)| - (if PinsFrame(pcs[t], f) then 1 else 0)
            + (if PinsFrame(pc, f) then 1 else 0)
  {
    hide PinsFrame;
    var others := PinnersOn(pcs, f) - {t};
    assert PinnersOn(pcs, f) == others + (if PinsFrame(pcs[t], f) then {t} else {});
    assert PinnersOn(pcs[t := pc], f) == others + (if PinsFrame(pc, f) then {t} else {});
  }

  lemma GuardsAfterAdd(guards: map<GuardId, Guard>, g: GuardId, guard: Guard)
    requires g !in guards
    ensures |GuardsOn(guards[g := guard], guard.frame)| == |GuardsOn(guards, guard.frame)| + 1
    ensures !guard.unmarked ==>
              (AllMarked(guards[g := guard], guard.frame) <==> AllMarked(guards, guard.frame))
  {
    if AllMarked(guards[g := guard], guard.frame) {
      forall h | h in guards && guards[h].frame == guard.frame ensures !guards[h].unmarked {
        assert guards[g := guard][h] == guards[h];
      }
    }
    assert GuardsOn(guards[g := guard], guard.frame) == GuardsOn(guards, guard.frame) + {g};
  }

  lemma GuardsAfterDrop(guards: map<GuardId, Guard>, g: GuardId)
    requires g in guards
    ensures |GuardsOn(guards, guards[g].frame)| == |GuardsOn(guards - {g}, guards[g].frame)| + 1
    ensures !guards[g].unmarked ==>
              (AllMarked(guards - {g}, guards[g].frame) <==> AllMarked(guards, guards[g].frame))
  {
    if AllMarked(guards - {g}, guards[g].frame) && !guards[g].unmarked {
      forall h | h in guards && guards[h].frame == guards[g].frame ensures !guards[h].unmarked {
        assert h == g || h in guards - {g};
      }
    }
    assert GuardsOn(guards, guards[g].frame) == GuardsOn(guards - {g}, guards[g].frame) + {g};
  }

  lemma GuardsAfterUpdate(guards: map<GuardId, Guard>, g: GuardId, guard: Guard)
    requires g in guards && guards[g].frame == guard.frame
    ensures GuardsOn(guards[g := guard], guard.frame) == GuardsOn(guards, guard.frame)
  {
  }

  // ----- Steps are local -----
  //
  // A step concerns at most one thread `t`, one frame `f` and two pages `p` and `q`. When
  // the rest of the state is untouched and these are closed under what they refer to, it
  // is enough to look at the invariant there. An index out of range stands for "none".

  /** Outside `t`, `f`, `p` and `q` nothing has changed. */
  ghost predicate Untouched(s: State, s': State, t: ThreadId, f: FrameId, p: PageId, q: PageId)
  {
    && |s'.table| == |s.table| && |s'.meta| == |s.meta| && |s'.pcs| == |s.pcs|
    && |s'.mem| == |s.mem| && |s'.disk| == |s.disk|
    && (forall r :: 0 <= r < |s.table| && r != p && r != q ==> s'.table[r] == s.table[r])
    && (forall r :: 0 <= r < |s.disk| && r != p && r != q ==> s'.disk[r] == s.disk[r])
    && (forall r :: r in s'.reserved ==>
          r == p || r == q || (r in s.reserved && s'.reserved[r] == s.reserved[r]))
    && (forall r :: r in s.reserved ==> r == p || r == q || r in s'.reserved)
    && (forall f' :: 0 <= f' < |s.meta| && f' != f ==> s'.meta[f'] == s.meta[f'])
    && (forall f' :: 0 <= f' < |s.mem| && f' != f ==> s'.mem[f'] == s.mem[f'])
    && (forall f' :: f' != f ==> (f' in s'.inUse <==> f' in s.inUse))
    && (forall f' :: f' in s'.tracked ==> f' == f || (f' in s.tracked && s'.tracked[f'] == s.tracked[f']))
    && (forall f' :: f' in s.tracked ==> f' == f || f' in s'.tracked)
    && (forall f' :: f' in s'.owner ==> f' == f || (f' in s.owner && s'.owner[f'] == s.owner[f']))
    && (forall f' :: f' in s.owner ==> f' == f || f' in s'.owner)
    && (forall t' :: 0 <= t' < |s.pcs| && t' != t ==> s'.pcs[t'] == s.pcs[t'])
    && (forall g :: g in s'.guards ==> s'.guards[g].frame == f || (g in s.guards && s'.guards[g] == s.guards[g]))
    && (forall g :: g in s.guards ==> s.guards[g].frame == f || g in s'.guards)
  }

  predicate PcWithin(pc: Pc, f: FrameId, p: PageId, q: PageId)
  {
    && (Reserves(pc).Some? ==> Reserves(pc).value == p || Reserves(pc).value == q)
    && (OwnedFrame(pc).Some? ==> OwnedFrame(pc).value == f)
    && ((pc.LoadIo? || pc.FlushIo?) ==> pc.frame == f)
  }

  /** The page is tied to no other frame than `f` and reserved by nobody else than `t`. */
  predicate PageWithin(s: State, t: ThreadId, f: FrameId, p: PageId)
  {
    && (p < |s.table| && s.table[p].frame.Some? ==> s.table[p].frame.value == f)
    && (p in s.reserved ==> s.reserved[p] == t)
  }

  /** `t`, `f`, `p` and `q` refer to nothing outside themselves, and belong to nobody else. */
  ghost predicate Closed(s: State, t: ThreadId, f: FrameId, p: PageId, q: PageId)
  {
    && PageWithin(s, t, f, p) && PageWithin(s, t, f, q)
    && (f < |s.meta| && s.meta[f].page.Some? ==> s.meta[f].page.value == p || s.meta[f].page.value == q)
    && (f in s.owner ==> s.owner[f] == t)
    && (t < |s.pcs| ==> PcWithin(s.pcs[t], f, p, q))
  }

  /** What changed still stores valid indices only. */
  ghost predicate InRange(s': State, t: ThreadId, f: FrameId, p: PageId, q: PageId)
  {
    && (p < |s'.table| && s'.table[p].frame.Some? ==> s'.table[p].frame.value < |s'.meta|)
    && (q < |s'.table| && s'.table[q].frame.Some? ==> s'.table[q].frame.value < |s'.meta|)
    && (p in s'.reserved ==> p < |s'.table|) && (q in s'.reserved ==> q < |s'.table|)
    && (f < |s'.meta| && s'.meta[f].page.Some? ==> s'.meta[f].page.value < |s'.table|)
    && (f in s'.tracked || f in s'.inUse || f in s'.owner ==> f < |s'.meta|)
    && (forall g :: g in s'.guards && s'.guards[g].frame == f ==> f < |s'.meta| && s'.guards[g].page < |s'.table|)
    && (t < |s'.pcs| ==> PcInRange(s', s'.pcs[t]))
  }

  lemma StaysWellFormed(s: State, s': State, t: ThreadId, f: FrameId, p: PageId, q: PageId)
    requires WellFormed(s) && Untouched(s, s', t, f, p, q) && InRange(s', t, f, p, q)
    ensures WellFormed(s')
  {
  }

  /** A frame that guards or flushes hold on to stays resident with its page; and while it
      is being flushed, if its dirty epoch stands still and nothing is unmarked, then
      whatever prefix was on disk before still is. */
  ghost predicate Steady(s: State, s': State, f: FrameId)
    requires WellFormed(s) && WellFormed(s') && |s'.meta| == |s.meta| && |s'.table| == |s.table|
  {
    f < |s.meta| && s.meta[f].state == ResidentFrame && s.meta[f].pins > 0 && s.meta[f].page.Some? ==>
      && s'.meta[f].state == ResidentFrame
      && s'.meta[f].page == s.meta[f].page
      && (Flushing(s, f) ==>
            && s.meta[f].epoch <= s'.meta[f].epoch
            && (s'.meta[f].epoch == s.meta[f].epoch && AllMarked(s'.guards, f) ==>
                  && AllMarked(s.guards, f)
                  && forall k :: Agrees(s.mem[f], s.disk[s.meta[f].page.value], k)
                                 ==> Agrees(s'.mem[f], s'.disk[s.meta[f].page.value], k)))
  }

  /** The invariant holds at what changed, and the rest cannot notice the change. */
  ghost predicate LocallyOk(s: State, s': State, t: ThreadId, f: FrameId, p: PageId, q: PageId)
    requires WellFormed(s) && WellFormed(s')
    requires |s'.table| == |s.table| && |s'.meta| == |s.meta| && |s'.pcs| == |s.pcs|
  {
    && Closed(s, t, f, p, q)
    && Steady(s, s', f)
    && (t < |s.pcs| ==> PcWithin(s'.pcs[t], f, p, q))
    && (forall r :: r in s'.reserved && r !in s.reserved ==>
          forall u :: 0 <= u < |s.pcs| ==> Target(s.pcs[u]) != Some(r))
    && (p < |s.table| ==> PageOk(s', p)) && (q < |s.table| ==> PageOk(s', q))
    && (f < |s.meta| ==> FrameOk(s', f))
    && (t < |s.pcs| ==> ThreadOk(s', t))
    && (forall g :: g in s'.guards && g !in s.guards ==> GuardOk(s', g))
    && (forall g :: g in s'.guards && g in s.guards ==>
          s'.guards[g].page == s.guards[g].page && s'.guards[g].frame == s.guards[g].frame)
    && WaitersOk(s')
    && !s'.fault
  }

  ghost predicate LocalStep(s: State, s': State, t: ThreadId, f: FrameId, p: PageId, q: PageId)
  {
    WellFormed(s) && WellFormed(s') && Untouched(s, s', t, f, p, q) && LocallyOk(s, s', t, f, p, q)
  }

  lemma PagesElsewhere(s: State, s': State, t: ThreadId, f: FrameId, p: PageId, q: PageId, r: PageId)
    requires Inv(s) && LocalStep(s, s', t, f, p, q) && r < |s.table| && r != p && r != q
    ensures PageOk(s', r)
  {
    assert PageOk(s, r);
  }

  lemma SameHolders(s: State, s': State, t: ThreadId, f: FrameId, p: PageId, q: PageId, f': FrameId)
    requires LocalStep(s, s', t, f, p, q) && f' != f
    ensures GuardsOn(s'.guards, f') == GuardsOn(s.guards, f')
    ensures PinnersOn(s'.pcs, f') == PinnersOn(s.pcs, f')
    ensures AllMarked(s'.guards, f') <==> AllMarked(s.guards, f')
  {
  }

  lemma FramesElsewhere(s: State, s': State, t: ThreadId, f: FrameId, p: PageId, q: PageId, f': FrameId)
    requires Inv(s) && LocalStep(s, s', t, f, p, q) && f' < |s.meta| && f' != f
    ensures FrameOk(s', f')
  {
    assert FrameOk(s, f');
    SameHolders(s, s', t, f, p, q, f');
  }

  lemma HolderPins(s: State, f: FrameId)
    requires Inv(s) && f < |s.meta|
    ensures forall g :: g in s.guards && s.guards[g].frame == f ==> s.meta[f].pins > 0
    ensures forall t :: 0 <= t < |s.pcs| && PinsFrame(s.pcs[t], f) ==> s.meta[f].pins > 0
  {
    assert FrameOk(s, f);
    if g :| g in s.guards && s.guards[g].frame == f { assert g in GuardsOn(s.guards, f); }
    if t :| 0 <= t < |s.pcs| && PinsFrame(s.pcs[t], f) { assert t in PinnersOn(s.pcs, f); }
  }

  lemma FlushesElsewhere(s: State, s': State, t: ThreadId, f: FrameId, p: PageId, q: PageId, t': ThreadId)
    requires Inv(s) && LocalStep(s, s', t, f, p, q) && t' < |s.pcs| && t' != t && s.pcs[t'].FlushIo?
    ensures ThreadOk(s', t')
  {
    var f' := s.pcs[t'].frame;
    assert ThreadOk(s, t');
    assert FrameOk(s, f');
    if f' == f {
      HolderPins(s, f);
    } else {
      SameHolders(s, s', t, f, p, q, f');
    }
  }

  lemma ThreadsElsewhere(s: State, s': State, t: ThreadId, f: FrameId, p: PageId, q: PageId, t': ThreadId)
    requires Inv(s) && LocalStep(s, s', t, f, p, q) && t' < |s.pcs| && t' != t && !s.pcs[t'].FlushIo?
    ensures ThreadOk(s', t')
  {
    assert ThreadOk(s, t');
    match s.pcs[t'] {
      case EvictIo(_, f', _, _, _, _) => assert FrameOk(s, f');
      case LoadIo(_, f', _) => assert FrameOk(s, f');
      case _ =>
    }
  }

  lemma GuardsElsewhere(s: State, s': State, t: ThreadId, f: FrameId, p: PageId, q: PageId, g: GuardId)
    requires Inv(s) && LocalStep(s, s', t, f, p, q) && g in s'.guards
    ensures GuardOk(s', g)
  {
    if g in s.guards {
      assert GuardOk(s, g);
      HolderPins(s, s.guards[g].frame);
    }
  }

  lemma LocalStepKeeps(s: State, s': State, t: ThreadId, f: FrameId, p: PageId, q: PageId)
    requires Inv(s) && WellFormed(s') && Untouched(s, s', t, f, p, q) && LocallyOk(s, s', t, f, p, q)
    ensures Inv(s') && LocalStep(s, s', t, f, p, q)
  {
    forall r | 0 <= r < |s'.table| ensures PageOk(s', r)
    {
      if r != p && r != q { PagesElsewhere(s, s', t, f, p, q, r); }
    }
    forall f' | 0 <= f' < |s'.meta| ensures FrameOk(s', f')
    {
      if f' != f { FramesElsewhere(s, s', t, f, p, q, f'); }
    }
    forall t' | 0 <= t' < |s'.pcs| ensures ThreadOk(s', t')
    {
      if t' != t {
        if s.pcs[t'].FlushIo? { FlushesElsewhere(s, s', t, f, p, q, t'); }
        else { ThreadsElsewhere(s, s', t, f, p, q, t'); }
      }
    }
    forall g | g in s'.guards ensures GuardOk(s', g)
    {
      GuardsElsewhere(s, s', t, f, p, q, g);
    }
  }

  // ----- Preservation, step by step -----

  /** The id that an eviction in flight holds for a NewPage, or else its victim. */
  function EvictReserved(pc: Pc): PageId
    requires pc.EvictIo?
  {
    if pc.req.ForNew? then pc.req.page else pc.victim
  }

  lemma WriteBytesLocal(s: State, g: GuardId, bytes: Page)
    requires Inv(s) && g in s.guards
    requires WellFormed(ApplyWriteBytes(s, g, bytes))
    ensures LocallyOk(s, ApplyWriteBytes(s, g, bytes), |s.pcs|, s.guards[g].frame, s.guards[g].page, s.guards[g].page)
  {
    var s' := ApplyWriteBytes(s, g, bytes);
    assert FrameOk(s, s.guards[g].frame) && GuardOk(s, g) && PageOk(s, s.guards[g].page);
    GuardsAfterUpdate(s.guards, g, s'.guards[g]);
    assert s'.guards[g].unmarked;
  }

  lemma WriteBytesKeeps(s: State, g: GuardId, bytes: Page)
    requires Inv(s) && g in s.guards
    ensures Inv(ApplyWriteBytes(s, g, bytes))
    ensures LocalStep(s, ApplyWriteBytes(s, g, bytes), |s.pcs|, s.guards[g].frame, s.guards[g].page, s.guards[g].page)
  {
    assert GuardOk(s, g);
    StaysWellFormed(s, ApplyWriteBytes(s, g, bytes), |s.pcs|, s.guards[g].frame, s.guards[g].page, s.guards[g].page);
    WriteBytesLocal(s, g, bytes);
    hide *;
    LocalStepKeeps(s, ApplyWriteBytes(s, g, bytes), |s.pcs|, s.guards[g].frame, s.guards[g].page, s.guards[g].page);
  }

  lemma MarkDirtyLocal(s: State, g: GuardId)
    requires Inv(s) && g in s.guards && EpochRoom(s, s.guards[g].frame)
    requires WellFormed(ApplyMarkDirty(s, g))
    ensures LocallyOk(s, ApplyMarkDirty(s, g), |s.pcs|, s.guards[g].frame, s.guards[g].page, s.guards[g].page)
  {
    var s' := ApplyMarkDirty(s, g);
    assert FrameOk(s, s.guards[g].frame) && GuardOk(s, g) && PageOk(s, s.guards[g].page);
    GuardsAfterUpdate(s.guards, g, s'.guards[g]);
  }

  lemma MarkDirtyKeeps(s: State, g: GuardId)
    requires Inv(s) && g in s.guards && EpochRoom(s, s.guards[g].frame)
    ensures Inv(ApplyMarkDirty(s, g))
    ensures LocalStep(s, ApplyMarkDirty(s, g), |s.pcs|, s.guards[g].frame, s.guards[g].page, s.guards[g].page)
  {
    assert GuardOk(s, g);
    StaysWellFormed(s, ApplyMarkDirty(s, g), |s.pcs|, s.guards[g].frame, s.guards[g].page, s.guards[g].page);
    MarkDirtyLocal(s, g);
    hide *;
    LocalStepKeeps(s, ApplyMarkDirty(s, g), |s.pcs|, s.guards[g].frame, s.guards[g].page, s.guards[g].page);
  }

  lemma DropGuardLocal(s: State, g: GuardId)
    requires Inv(s) && g in s.guards && !s.guards[g].unmarked
    requires WellFormed(ApplyDropGuard(s, g))
    ensures LocallyOk(s, ApplyDropGuard(s, g), |s.pcs|, s.guards[g].frame, s.guards[g].page, s.guards[g].page)
  {
    assert FrameOk(s, s.guards[g].frame) && GuardOk(s, g) && PageOk(s, s.guards[g].page);
    HolderPins(s, s.guards[g].frame);
    GuardsAfterDrop(s.guards, g);
  }

  lemma DropGuardKeeps(s: State, g: GuardId)
    requires Inv(s) && g in s.guards && !s.guards[g].unmarked
    ensures Inv(ApplyDropGuard(s, g))
    ensures LocalStep(s, ApplyDropGuard(s, g), |s.pcs|, s.guards[g].frame, s.guards[g].page, s.guards[g].page)
  {
    assert GuardOk(s, g);
    StaysWellFormed(s, ApplyDropGuard(s, g), |s.pcs|, s.guards[g].frame, s.guards[g].page, s.guards[g].page);
    DropGuardLocal(s, g);
    hide *;
    LocalStepKeeps(s, ApplyDropGuard(s, g), |s.pcs|, s.guards[g].frame, s.guards[g].page, s.guards[g].page);
  }

  lemma ReserveIdLocal(s: State, t: ThreadId, p: PageId)
    requires Inv(s) && t < |s.pcs| && s.pcs[t] == NewStart && PageIs(s, p, Unused)
    requires forall u :: 0 <= u < |s.pcs| ==> Target(s.pcs[u]) != Some(p)
    requires WellFormed(ApplyReserveId(s, t, p))
    ensures LocallyOk(s, ApplyReserveId(s, t, p), t, |s.meta|, p, p)
  {
    assert PageOk(s, p);
  }

  lemma ReserveIdKeeps(s: State, t: ThreadId, p: PageId)
    requires Inv(s) && t < |s.pcs| && s.pcs[t] == NewStart && PageIs(s, p, Unused)
    requires forall u :: 0 <= u < |s.pcs| ==> Target(s.pcs[u]) != Some(p)
    ensures Inv(ApplyReserveId(s, t, p))
    ensures LocalStep(s, ApplyReserveId(s, t, p), t, |s.meta|, p, p)
  {
    StaysWellFormed(s, ApplyReserveId(s, t, p), t, |s.meta|, p, p);
    ReserveIdLocal(s, t, p);
    hide *;
    LocalStepKeeps(s, ApplyReserveId(s, t, p), t, |s.meta|, p, p);
  }

  lemma GotoLocal(s: State, t: ThreadId, pc: Pc)
    requires Inv(s) && t < |s.pcs| && t !in s.waiting && !IsIo(s.pcs[t]) && !s.pcs[t].NewLoop?
    requires pc == Idle || (IsStart(pc) && (Target(pc).Some? ==> Target(pc).value !in s.reserved))
    requires WellFormed(ApplyGoto(s, t, pc))
    ensures LocallyOk(s, ApplyGoto(s, t, pc), t, |s.meta|, |s.table|, |s.table|)
  {
  }

  lemma GotoKeeps(s: State, t: ThreadId, pc: Pc)
    requires Inv(s) && t < |s.pcs| && t !in s.waiting && !IsIo(s.pcs[t]) && !s.pcs[t].NewLoop?
    requires pc == Idle || (IsStart(pc) && (Target(pc).Some? ==> Target(pc).value !in s.reserved))
    ensures Inv(ApplyGoto(s, t, pc))
    ensures LocalStep(s, ApplyGoto(s, t, pc), t, |s.meta|, |s.table|, |s.table|)
  {
    StaysWellFormed(s, ApplyGoto(s, t, pc), t, |s.meta|, |s.table|, |s.table|);
    GotoLocal(s, t, pc);
    hide *;
    LocalStepKeeps(s, ApplyGoto(s, t, pc), t, |s.meta|, |s.table|, |s.table|);
  }

  lemma PublishLocal(s: State, t: ThreadId, f: FrameId, g: GuardId)
    requires Inv(s) && CanPublish(s, t, f, g)
    requires WellFormed(ApplyPublish(s, t, f, g))
    ensures LocallyOk(s, ApplyPublish(s, t, f, g), t, f, s.pcs[t].page, s.pcs[t].page)
  {
    var s' := ApplyPublish(s, t, f, g);
    assert ThreadOk(s, t) && PageOk(s, s.pcs[t].page) && FrameOk(s, f);
    PinnersAfter(s.pcs, t, Idle, f);
    GuardsAfterAdd(s.guards, g, s'.guards[g]);
  }

  lemma PublishKeeps(s: State, t: ThreadId, f: FrameId, g: GuardId)
    requires Inv(s) && CanPublish(s, t, f, g)
    ensures Inv(ApplyPublish(s, t, f, g))
    ensures LocalStep(s, ApplyPublish(s, t, f, g), t, f, s.pcs[t].page, s.pcs[t].page)
  {
    assert ThreadOk(s, t);
    StaysWellFormed(s, ApplyPublish(s, t, f, g), t, f, s.pcs[t].page, s.pcs[t].page);
    PublishLocal(s, t, f, g);
    hide *;
    LocalStepKeeps(s, ApplyPublish(s, t, f, g), t, f, s.pcs[t].page, s.pcs[t].page);
  }

  lemma EvictStartPages(s: State, t: ThreadId, f: FrameId, req: Requester, v: PageId)
    requires Inv(s) && t < |s.pcs| && t !in s.waiting && !IsIo(s.pcs[t])
    requires req.page < |s.table| && RequesterOk(s, t, req)
    requires Reserves(s.pcs[t]) == if req.ForNew? then Some(req.page) else None
    requires f < |s.meta| && R.IsEvictable(s.tracked, f) && s.meta[f].page == Some(v)
    requires WellFormed(ApplyEvictStart(s, t, f, req))
    ensures PageOk(ApplyEvictStart(s, t, f, req), v)
    ensures req.ForNew? ==> PageOk(ApplyEvictStart(s, t, f, req), req.page)
    ensures Closed(s, t, f, v, if req.ForNew? then req.page else v)
  {
    assert FrameOk(s, f) && PageOk(s, req.page) && PageOk(s, v);
  }

  lemma EvictStartFrame(s: State, t: ThreadId, f: FrameId, req: Requester, v: PageId)
    requires Inv(s) && t < |s.pcs| && t !in s.waiting && !IsIo(s.pcs[t])
    requires req.page < |s.table| && RequesterOk(s, t, req)
    requires Reserves(s.pcs[t]) == if req.ForNew? then Some(req.page) else None
    requires f < |s.meta| && R.IsEvictable(s.tracked, f) && s.meta[f].page == Some(v)
    requires WellFormed(ApplyEvictStart(s, t, f, req))
    requires req.page != v
    ensures FrameOk(ApplyEvictStart(s, t, f, req), f)
    ensures ThreadOk(ApplyEvictStart(s, t, f, req), t)
    ensures Steady(s, ApplyEvictStart(s, t, f, req), f)
  {
    assert FrameOk(s, f) && PageOk(s, v);
    HolderPins(s, f);
    PinnersAfter(s.pcs, t, ApplyEvictStart(s, t, f, req).pcs[t], f);
  }

  lemma EvictStartConfined(s: State, t: ThreadId, f: FrameId, req: Requester, v: PageId)
    requires Inv(s) && t < |s.pcs| && t !in s.waiting && !IsIo(s.pcs[t])
    requires req.page < |s.table| && RequesterOk(s, t, req)
    requires Reserves(s.pcs[t]) == if req.ForNew? then Some(req.page) else None
    requires f < |s.meta| && R.IsEvictable(s.tracked, f) && s.meta[f].page == Some(v)
    ensures Untouched(s, ApplyEvictStart(s, t, f, req), t, f, v, (if req.ForNew? then req.page else v))
    ensures InRange(ApplyEvictStart(s, t, f, req), t, f, v, (if req.ForNew? then req.page else v))
  {
    assert FrameOk(s, f);
  }

  lemma EvictStartLocal(s: State, t: ThreadId, f: FrameId, req: Requester, v: PageId)
    requires Inv(s) && t < |s.pcs| && t !in s.waiting && !IsIo(s.pcs[t])
    requires req.page < |s.table| && RequesterOk(s, t, req)
    requires Reserves(s.pcs[t]) == if req.ForNew? then Some(req.page) else None
    requires f < |s.meta| && R.IsEvictable(s.tracked, f) && s.meta[f].page == Some(v)
    requires WellFormed(ApplyEvictStart(s, t, f, req))
    requires req.page != v
    ensures LocallyOk(s, ApplyEvictStart(s, t, f, req), t, f, v, (if req.ForNew? then req.page else v))
  {
    assert FrameOk(s, f) && PageOk(s, v);
    EvictStartPages(s, t, f, req, v);
    EvictStartFrame(s, t, f, req, v);
    hide Closed, Steady, PageOk, FrameOk, ThreadOk;
  }

  lemma EvictStartKeeps(s: State, t: ThreadId, f: FrameId, req: Requester, v: PageId)
    requires Inv(s) && t < |s.pcs| && t !in s.waiting && !IsIo(s.pcs[t])
    requires req.page < |s.table| && RequesterOk(s, t, req)
    requires Reserves(s.pcs[t]) == if req.ForNew? then Some(req.page) else None
    requires f < |s.meta| && R.IsEvictable(s.tracked, f) && s.meta[f].page == Some(v)
    requires req.page != v
    ensures Inv(ApplyEvictStart(s, t, f, req))
    ensures LocalStep(s, ApplyEvictStart(s, t, f, req), t, f, v, (if req.ForNew? then req.page else v))
  {
    EvictStartConfined(s, t, f, req, v);
    hide Untouched, InRange, WellFormed;
    StaysWellFormed(s, ApplyEvictStart(s, t, f, req), t, f, v, (if req.ForNew? then req.page else v));
    EvictStartLocal(s, t, f, req, v);
    hide *;
    LocalStepKeeps(s, ApplyEvictStart(s, t, f, req), t, f, v, (if req.ForNew? then req.page else v));
  }

  lemma EvictChunkLocal(s: State, t: ThreadId, n: nat)
    requires Inv(s) && CanEvictChunk(s, t, n)
    requires WellFormed(ApplyEvictChunk(s, t, n))
    ensures LocallyOk(s, ApplyEvictChunk(s, t, n), t, s.pcs[t].frame, s.pcs[t].victim, EvictReserved(s.pcs[t]))
  {
    var s' := ApplyEvictChunk(s, t, n);
    var pc := s.pcs[t];
    assert ThreadOk(s, t) && PageOk(s, pc.victim) && PageOk(s, pc.req.page) && FrameOk(s, pc.frame);
    PinnersAfter(s.pcs, t, s'.pcs[t], pc.frame);
  }

  lemma EvictChunkKeeps(s: State, t: ThreadId, n: nat)
    requires Inv(s) && CanEvictChunk(s, t, n)
    ensures Inv(ApplyEvictChunk(s, t, n))
    ensures LocalStep(s, ApplyEvictChunk(s, t, n), t, s.pcs[t].frame, s.pcs[t].victim, EvictReserved(s.pcs[t]))
  {
    StaysWellFormed(s, ApplyEvictChunk(s, t, n), t, s.pcs[t].frame, s.pcs[t].victim, EvictReserved(s.pcs[t]));
    EvictChunkLocal(s, t, n);
    hide *;
    LocalStepKeeps(s, ApplyEvictChunk(s, t, n), t, s.pcs[t].frame, s.pcs[t].victim, EvictReserved(s.pcs[t]));
  }

  lemma EvictFailLocal(s: State, t: ThreadId)
    requires Inv(s) && CanEvictFail(s, t)
    requires WellFormed(ApplyEvictFail(s, t))
    ensures LocallyOk(s, ApplyEvictFail(s, t), t, s.pcs[t].frame, s.pcs[t].victim, EvictReserved(s.pcs[t]))
  {
    var s' := ApplyEvictFail(s, t);
    var pc := s.pcs[t];
    assert ThreadOk(s, t) && PageOk(s, pc.victim) && PageOk(s, pc.req.page) && FrameOk(s, pc.frame);
    PinnersAfter(s.pcs, t, s'.pcs[t], pc.frame);
  }

  lemma EvictFailKeeps(s: State, t: ThreadId)
    requires Inv(s) && CanEvictFail(s, t)
    ensures Inv(ApplyEvictFail(s, t))
    ensures LocalStep(s, ApplyEvictFail(s, t), t, s.pcs[t].frame, s.pcs[t].victim, EvictReserved(s.pcs[t]))
  {
    StaysWellFormed(s, ApplyEvictFail(s, t), t, s.pcs[t].frame, s.pcs[t].victim, EvictReserved(s.pcs[t]));
    EvictFailLocal(s, t);
    hide *;
    LocalStepKeeps(s, ApplyEvictFail(s, t), t, s.pcs[t].frame, s.pcs[t].victim, EvictReserved(s.pcs[t]));
  }

  lemma EvictPublishConfined(s: State, t: ThreadId, g: GuardId)
    requires Inv(s) && CanEvictDone(s, t, g) && s.pcs[t].req.ForNew?
    ensures Untouched(s, ApplyEvictPublish(s, t, g), t, s.pcs[t].frame, s.pcs[t].victim, s.pcs[t].req.page)
    ensures InRange(ApplyEvictPublish(s, t, g), t, s.pcs[t].frame, s.pcs[t].victim, s.pcs[t].req.page)
  {
  }

  lemma EvictPublishLocal(s: State, t: ThreadId, g: GuardId)
    requires Inv(s) && CanEvictDone(s, t, g) && s.pcs[t].req.ForNew?
    requires WellFormed(ApplyEvictPublish(s, t, g))
    ensures LocallyOk(s, ApplyEvictPublish(s, t, g), t, s.pcs[t].frame, s.pcs[t].victim, s.pcs[t].req.page)
  {
    var pc := s.pcs[t];
    assert ThreadOk(s, t) && PageOk(s, pc.victim) && PageOk(s, pc.req.page) && FrameOk(s, pc.frame);
    EvictPublishFrame(s, t, g);
    hide FrameOk;
  }

  lemma EvictPublishFrame(s: State, t: ThreadId, g: GuardId)
    requires Inv(s) && CanEvictDone(s, t, g) && s.pcs[t].req.ForNew?
    requires WellFormed(ApplyEvictPublish(s, t, g))
    ensures FrameOk(ApplyEvictPublish(s, t, g), s.pcs[t].frame)
  {
    var s' := ApplyEvictPublish(s, t, g);
    var pc := s.pcs[t];
    assert ThreadOk(s, t) && FrameOk(s, pc.frame) && PageOk(s, pc.victim) && PageOk(s, pc.req.page);
    PinnersAfter(s.pcs, t, s'.pcs[t], pc.frame);
    GuardsAfterAdd(s.guards, g, s'.guards[g]);
  }

  lemma EvictPublishKeeps(s: State, t: ThreadId, g: GuardId)
    requires Inv(s) && CanEvictDone(s, t, g) && s.pcs[t].req.ForNew?
    ensures Inv(ApplyEvictPublish(s, t, g))
    ensures LocalStep(s, ApplyEvictPublish(s, t, g), t, s.pcs[t].frame, s.pcs[t].victim, s.pcs[t].req.page)
  {
    EvictPublishConfined(s, t, g);
    hide Untouched, InRange, WellFormed;
    StaysWellFormed(s, ApplyEvictPublish(s, t, g), t, s.pcs[t].frame, s.pcs[t].victim, s.pcs[t].req.page);
    EvictPublishLocal(s, t, g);
    hide *;
    LocalStepKeeps(s, ApplyEvictPublish(s, t, g), t, s.pcs[t].frame, s.pcs[t].victim, s.pcs[t].req.page);
  }

  lemma EvictLoadLocal(s: State, t: ThreadId)
    requires Inv(s) && CanEvictEnd(s, t) && s.pcs[t].req.ForFetch?
    requires Unmapped(s, t)[s.pcs[t].req.page].state == NonResident
    requires WellFormed(ApplyEvictLoad(s, t))
    ensures LocallyOk(s, ApplyEvictLoad(s, t), t, s.pcs[t].frame, s.pcs[t].victim, s.pcs[t].req.page)
  {
    var s' := ApplyEvictLoad(s, t);
    var pc := s.pcs[t];
    assert ThreadOk(s, t) && PageOk(s, pc.victim) && PageOk(s, pc.req.page) && FrameOk(s, pc.frame);
    PinnersAfter(s.pcs, t, s'.pcs[t], pc.frame);
  }

  lemma EvictLoadKeeps(s: State, t: ThreadId)
    requires Inv(s) && CanEvictEnd(s, t) && s.pcs[t].req.ForFetch?
    requires Unmapped(s, t)[s.pcs[t].req.page].state == NonResident
    ensures Inv(ApplyEvictLoad(s, t))
    ensures LocalStep(s, ApplyEvictLoad(s, t), t, s.pcs[t].frame, s.pcs[t].victim, s.pcs[t].req.page)
  {
    StaysWellFormed(s, ApplyEvictLoad(s, t), t, s.pcs[t].frame, s.pcs[t].victim, s.pcs[t].req.page);
    EvictLoadLocal(s, t);
    hide *;
    LocalStepKeeps(s, ApplyEvictLoad(s, t), t, s.pcs[t].frame, s.pcs[t].victim, s.pcs[t].req.page);
  }

  lemma EvictReleaseLocal(s: State, t: ThreadId)
    requires Inv(s) && CanEvictEnd(s, t) && s.pcs[t].req.ForFetch?
    requires WellFormed(ApplyEvictRelease(s, t))
    ensures LocallyOk(s, ApplyEvictRelease(s, t), t, s.pcs[t].frame, s.pcs[t].victim, s.pcs[t].victim)
  {
    var s' := ApplyEvictRelease(s, t);
    var pc := s.pcs[t];
    assert ThreadOk(s, t) && PageOk(s, pc.victim) && PageOk(s, pc.req.page) && FrameOk(s, pc.frame);
    PinnersAfter(s.pcs, t, s'.pcs[t], pc.frame);
  }

  lemma EvictReleaseKeeps(s: State, t: ThreadId)
    requires Inv(s) && CanEvictEnd(s, t) && s.pcs[t].req.ForFetch?
    ensures Inv(ApplyEvictRelease(s, t))
    ensures LocalStep(s, ApplyEvictRelease(s, t), t, s.pcs[t].frame, s.pcs[t].victim, s.pcs[t].victim)
  {
    StaysWellFormed(s, ApplyEvictRelease(s, t), t, s.pcs[t].frame, s.pcs[t].victim, s.pcs[t].victim);
    EvictReleaseLocal(s, t);
    hide *;
    LocalStepKeeps(s, ApplyEvictRelease(s, t), t, s.pcs[t].frame, s.pcs[t].victim, s.pcs[t].victim);
  }

  lemma AbandonNewLocal(s: State, t: ThreadId)
    requires Inv(s) && t < |s.pcs| && s.pcs[t].NewLoop? && t !in s.waiting
    requires WellFormed(ApplyAbandonNew(s, t))
    ensures LocallyOk(s, ApplyAbandonNew(s, t), t, |s.meta|, s.pcs[t].page, s.pcs[t].page)
  {
    assert ThreadOk(s, t) && PageOk(s, s.pcs[t].page);
  }

  lemma AbandonNewKeeps(s: State, t: ThreadId)
    requires Inv(s) && t < |s.pcs| && s.pcs[t].NewLoop? && t !in s.waiting
    ensures Inv(ApplyAbandonNew(s, t))
    ensures LocalStep(s, ApplyAbandonNew(s, t), t, |s.meta|, s.pcs[t].page, s.pcs[t].page)
  {
    StaysWellFormed(s, ApplyAbandonNew(s, t), t, |s.meta|, s.pcs[t].page, s.pcs[t].page);
    AbandonNewLocal(s, t);
    hide *;
    LocalStepKeeps(s, ApplyAbandonNew(s, t), t, |s.meta|, s.pcs[t].page, s.pcs[t].page);
  }

  lemma FetchHitLocal(s: State, t: ThreadId, g: GuardId, p: PageId, f: FrameId)
    requires Inv(s) && CanFetchHit(s, t, g) && s.pcs[t].page == p && s.table[p].frame == Some(f)
    requires WellFormed(ApplyFetchHit(s, t, g))
    ensures LocallyOk(s, ApplyFetchHit(s, t, g), t, f, p, p)
  {
    var s' := ApplyFetchHit(s, t, g);
    assert ThreadOk(s, t) && PageOk(s, p) && FrameOk(s, f);
    PinnersAfter(s.pcs, t, s'.pcs[t], f);
    GuardsAfterAdd(s.guards, g, s'.guards[g]);
    assert FrameOk(s', f) && PageOk(s', p);
  }

  lemma FetchHitKeeps(s: State, t: ThreadId, g: GuardId, p: PageId, f: FrameId)
    requires Inv(s) && CanFetchHit(s, t, g) && s.pcs[t].page == p && s.table[p].frame == Some(f)
    ensures Inv(ApplyFetchHit(s, t, g))
    ensures LocalStep(s, ApplyFetchHit(s, t, g), t, f, p, p)
  {
    StaysWellFormed(s, ApplyFetchHit(s, t, g), t, f, p, p);
    FetchHitLocal(s, t, g, p, f);
    hide *;
    LocalStepKeeps(s, ApplyFetchHit(s, t, g), t, f, p, p);
  }

  lemma LoadBeginLocal(s: State, t: ThreadId, f: FrameId)
    requires Inv(s) && CanLoadBegin(s, t, f)
    requires WellFormed(ApplyLoadBegin(s, t, f))
    ensures LocallyOk(s, ApplyLoadBegin(s, t, f), t, f, s.pcs[t].page, s.pcs[t].page)
  {
    var s' := ApplyLoadBegin(s, t, f);
    assert ThreadOk(s, t) && PageOk(s, s.pcs[t].page) && FrameOk(s, f);
    PinnersAfter(s.pcs, t, s'.pcs[t], f);
  }

  lemma LoadBeginKeeps(s: State, t: ThreadId, f: FrameId)
    requires Inv(s) && CanLoadBegin(s, t, f)
    ensures Inv(ApplyLoadBegin(s, t, f))
    ensures LocalStep(s, ApplyLoadBegin(s, t, f), t, f, s.pcs[t].page, s.pcs[t].page)
  {
    StaysWellFormed(s, ApplyLoadBegin(s, t, f), t, f, s.pcs[t].page, s.pcs[t].page);
    LoadBeginLocal(s, t, f);
    hide *;
    LocalStepKeeps(s, ApplyLoadBegin(s, t, f), t, f, s.pcs[t].page, s.pcs[t].page);
  }

  lemma LoadChunkLocal(s: State, t: ThreadId, n: nat)
    requires Inv(s) && CanLoadChunk(s, t, n)
    requires WellFormed(ApplyLoadChunk(s, t, n))
    ensures LocallyOk(s, ApplyLoadChunk(s, t, n), t, s.pcs[t].frame, s.pcs[t].page, s.pcs[t].page)
  {
    var s' := ApplyLoadChunk(s, t, n);
    var pc := s.pcs[t];
    assert ThreadOk(s, t) && PageOk(s, pc.page) && FrameOk(s, pc.frame);
    PinnersAfter(s.pcs, t, s'.pcs[t], pc.frame);
  }

  lemma LoadChunkKeeps(s: State, t: ThreadId, n: nat)
    requires Inv(s) && CanLoadChunk(s, t, n)
    ensures Inv(ApplyLoadChunk(s, t, n))
    ensures LocalStep(s, ApplyLoadChunk(s, t, n), t, s.pcs[t].frame, s.pcs[t].page, s.pcs[t].page)
  {
    StaysWellFormed(s, ApplyLoadChunk(s, t, n), t, s.pcs[t].frame, s.pcs[t].page, s.pcs[t].page);
    LoadChunkLocal(s, t, n);
    hide *;
    LocalStepKeeps(s, ApplyLoadChunk(s, t, n), t, s.pcs[t].frame, s.pcs[t].page, s.pcs[t].page);
  }

  lemma LoadFailLocal(s: State, t: ThreadId)
    requires Inv(s) && CanLoadFail(s, t)
    requires WellFormed(ApplyLoadFail(s, t))
    ensures LocallyOk(s, ApplyLoadFail(s, t), t, s.pcs[t].frame, s.pcs[t].page, s.pcs[t].page)
  {
    var s' := ApplyLoadFail(s, t);
    var pc := s.pcs[t];
    assert ThreadOk(s, t) && PageOk(s, pc.page) && FrameOk(s, pc.frame);
    PinnersAfter(s.pcs, t, s'.pcs[t], pc.frame);
  }

  lemma LoadFailKeeps(s: State, t: ThreadId)
    requires Inv(s) && CanLoadFail(s, t)
    ensures Inv(ApplyLoadFail(s, t))
    ensures LocalStep(s, ApplyLoadFail(s, t), t, s.pcs[t].frame, s.pcs[t].page, s.pcs[t].page)
  {
    StaysWellFormed(s, ApplyLoadFail(s, t), t, s.pcs[t].frame, s.pcs[t].page, s.pcs[t].page);
    LoadFailLocal(s, t);
    hide *;
    LocalStepKeeps(s, ApplyLoadFail(s, t), t, s.pcs[t].frame, s.pcs[t].page, s.pcs[t].page);
  }

  lemma LoadDoneLocal(s: State, t: ThreadId, g: GuardId)
    requires Inv(s) && CanLoadDone(s, t, g)
    requires WellFormed(ApplyLoadDone(s, t, g))
    ensures LocallyOk(s, ApplyLoadDone(s, t, g), t, s.pcs[t].frame, s.pcs[t].page, s.pcs[t].page)
  {
    var s' := ApplyLoadDone(s, t, g);
    var pc := s.pcs[t];
    assert ThreadOk(s, t) && PageOk(s, pc.page) && FrameOk(s, pc.frame);
    PinnersAfter(s.pcs, t, s'.pcs[t], pc.frame);
    GuardsAfterAdd(s.guards, g, s'.guards[g]);
  }

  lemma LoadDoneKeeps(s: State, t: ThreadId, g: GuardId)
    requires Inv(s) && CanLoadDone(s, t, g)
    ensures Inv(ApplyLoadDone(s, t, g))
    ensures LocalStep(s, ApplyLoadDone(s, t, g), t, s.pcs[t].frame, s.pcs[t].page, s.pcs[t].page)
  {
    StaysWellFormed(s, ApplyLoadDone(s, t, g), t, s.pcs[t].frame, s.pcs[t].page, s.pcs[t].page);
    LoadDoneLocal(s, t, g);
    hide *;
    LocalStepKeeps(s, ApplyLoadDone(s, t, g), t, s.pcs[t].frame, s.pcs[t].page, s.pcs[t].page);
  }

  lemma FlushBeginLocal(s: State, t: ThreadId, p: PageId, f: FrameId)
    requires Inv(s) && CanFlushBegin(s, t) && s.pcs[t].page == p && s.table[p].frame == Some(f)
    requires s.meta[f].pins < MAX_PINS
    requires WellFormed(ApplyFlushBegin(s, t))
    ensures LocallyOk(s, ApplyFlushBegin(s, t), t, f, p, p)
  {
    var s' := ApplyFlushBegin(s, t);
    assert ThreadOk(s, t) && PageOk(s, p) && FrameOk(s, f);
    PinnersAfter(s.pcs, t, s'.pcs[t], f);
  }

  lemma FlushBeginKeeps(s: State, t: ThreadId, p: PageId, f: FrameId)
    requires Inv(s) && CanFlushBegin(s, t) && s.pcs[t].page == p && s.table[p].frame == Some(f)
    requires s.meta[f].pins < MAX_PINS
    ensures Inv(ApplyFlushBegin(s, t))
    ensures LocalStep(s, ApplyFlushBegin(s, t), t, f, p, p)
  {
    StaysWellFormed(s, ApplyFlushBegin(s, t), t, f, p, p);
    FlushBeginLocal(s, t, p, f);
    hide *;
    LocalStepKeeps(s, ApplyFlushBegin(s, t), t, f, p, p);
  }

  lemma FlushChunkLocal(s: State, t: ThreadId, n: nat)
    requires Inv(s) && CanFlushChunk(s, t, n)
    requires WellFormed(ApplyFlushChunk(s, t, n))
    ensures LocallyOk(s, ApplyFlushChunk(s, t, n), t, s.pcs[t].frame, s.pcs[t].page, s.pcs[t].page)
  {
    var s' := ApplyFlushChunk(s, t, n);
    var pc := s.pcs[t];
    assert ThreadOk(s, t) && PageOk(s, pc.page) && FrameOk(s, pc.frame);
    PinnersAfter(s.pcs, t, s'.pcs[t], pc.frame);
  }

  lemma FlushChunkKeeps(s: State, t: ThreadId, n: nat)
    requires Inv(s) && CanFlushChunk(s, t, n)
    ensures Inv(ApplyFlushChunk(s, t, n))
    ensures LocalStep(s, ApplyFlushChunk(s, t, n), t, s.pcs[t].frame, s.pcs[t].page, s.pcs[t].page)
  {
    StaysWellFormed(s, ApplyFlushChunk(s, t, n), t, s.pcs[t].frame, s.pcs[t].page, s.pcs[t].page);
    FlushChunkLocal(s, t, n);
    hide *;
    LocalStepKeeps(s, ApplyFlushChunk(s, t, n), t, s.pcs[t].frame, s.pcs[t].page, s.pcs[t].page);
  }

  lemma FlushFailLocal(s: State, t: ThreadId)
    requires Inv(s) && CanFlushFail(s, t)
    requires WellFormed(ApplyFlushFail(s, t))
    ensures LocallyOk(s, ApplyFlushFail(s, t), t, s.pcs[t].frame, s.pcs[t].page, s.pcs[t].page)
  {
    var s' := ApplyFlushFail(s, t);
    var pc := s.pcs[t];
    assert ThreadOk(s, t) && PageOk(s, pc.page) && FrameOk(s, pc.frame);
    PinnersAfter(s.pcs, t, s'.pcs[t], pc.frame);
    HolderPins(s, pc.frame);
  }

  lemma FlushFailKeeps(s: State, t: ThreadId)
    requires Inv(s) && CanFlushFail(s, t)
    ensures Inv(ApplyFlushFail(s, t))
    ensures LocalStep(s, ApplyFlushFail(s, t), t, s.pcs[t].frame, s.pcs[t].page, s.pcs[t].page)
  {
    StaysWellFormed(s, ApplyFlushFail(s, t), t, s.pcs[t].frame, s.pcs[t].page, s.pcs[t].page);
    FlushFailLocal(s, t);
    hide *;
    LocalStepKeeps(s, ApplyFlushFail(s, t), t, s.pcs[t].frame, s.pcs[t].page, s.pcs[t].page);
  }

  lemma FlushDoneLocal(s: State, t: ThreadId)
    requires Inv(s) && CanFlushDone(s, t)
    requires WellFormed(ApplyFlushDone(s, t))
    ensures LocallyOk(s, ApplyFlushDone(s, t), t, s.pcs[t].frame, s.pcs[t].page, s.pcs[t].page)
  {
    var s' := ApplyFlushDone(s, t);
    var pc := s.pcs[t];
    assert ThreadOk(s, t) && PageOk(s, pc.page) && FrameOk(s, pc.frame);
    PinnersAfter(s.pcs, t, s'.pcs[t], pc.frame);
    HolderPins(s, pc.frame);
  }

  lemma FlushDoneKeeps(s: State, t: ThreadId)
    requires Inv(s) && CanFlushDone(s, t)
    ensures Inv(ApplyFlushDone(s, t))
    ensures LocalStep(s, ApplyFlushDone(s, t), t, s.pcs[t].frame, s.pcs[t].page, s.pcs[t].page)
  {
    StaysWellFormed(s, ApplyFlushDone(s, t), t, s.pcs[t].frame, s.pcs[t].page, s.pcs[t].page);
    FlushDoneLocal(s, t);
    hide *;
    LocalStepKeeps(s, ApplyFlushDone(s, t), t, s.pcs[t].frame, s.pcs[t].page, s.pcs[t].page);
  }

  lemma DeleteResidentLocal(s: State, t: ThreadId, p: PageId, f: FrameId)
    requires Inv(s) && CanDeleteResident(s, t) && s.pcs[t].page == p && s.table[p].frame == Some(f)
    requires WellFormed(ApplyDeleteResident(s, t))
    ensures LocallyOk(s, ApplyDeleteResident(s, t), t, f, p, p)
  {
    var s' := ApplyDeleteResident(s, t);
    assert ThreadOk(s, t) && PageOk(s, p) && FrameOk(s, f);
    PinnersAfter(s.pcs, t, s'.pcs[t], f);
  }

  lemma DeleteResidentKeeps(s: State, t: ThreadId, p: PageId, f: FrameId)
    requires Inv(s) && CanDeleteResident(s, t) && s.pcs[t].page == p && s.table[p].frame == Some(f)
    ensures Inv(ApplyDeleteResident(s, t))
    ensures LocalStep(s, ApplyDeleteResident(s, t), t, f, p, p)
  {
    StaysWellFormed(s, ApplyDeleteResident(s, t), t, f, p, p);
    DeleteResidentLocal(s, t, p, f);
    hide *;
    LocalStepKeeps(s, ApplyDeleteResident(s, t), t, f, p, p);
  }

  lemma DeleteNonResidentLocal(s: State, t: ThreadId)
    requires Inv(s) && CanDeleteNonResident(s, t)
    requires WellFormed(ApplyDeleteNonResident(s, t))
    ensures LocallyOk(s, ApplyDeleteNonResident(s, t), t, |s.meta|, s.pcs[t].page, s.pcs[t].page)
  {
    assert ThreadOk(s, t) && PageOk(s, s.pcs[t].page);
  }

  lemma DeleteNonResidentKeeps(s: State, t: ThreadId)
    requires Inv(s) && CanDeleteNonResident(s, t)
    ensures Inv(ApplyDeleteNonResident(s, t))
    ensures LocalStep(s, ApplyDeleteNonResident(s, t), t, |s.meta|, s.pcs[t].page, s.pcs[t].page)
  {
    StaysWellFormed(s, ApplyDeleteNonResident(s, t), t, |s.meta|, s.pcs[t].page, s.pcs[t].page);
    DeleteNonResidentLocal(s, t);
    hide *;
    LocalStepKeeps(s, ApplyDeleteNonResident(s, t), t, |s.meta|, s.pcs[t].page, s.pcs[t].page);
  }

  lemma WaitingKeeps(s: State, w: set<ThreadId>)
    requires Inv(s) && WaitersOk(s.(waiting := w))
    ensures Inv(s.(waiting := w))
  {
    var s' := s.(waiting := w);
    forall r | 0 <= r < |s'.table| ensures PageOk(s', r) { assert PageOk(s, r); }
    forall f | 0 <= f < |s'.meta| ensures FrameOk(s', f) { assert FrameOk(s, f); }
    forall t | 0 <= t < |s'.pcs| ensures ThreadOk(s', t) { assert ThreadOk(s, t); }
    forall g | g in s'.guards ensures GuardOk(s', g) { assert GuardOk(s, g); }
  }

  lemma EvictBeginKeeps(s: State, t: ThreadId, f: FrameId)
    requires Inv(s) && CanEvictBegin(s, t, f)
    ensures Inv(ApplyEvictBegin(s, t, f))
  {
    assert FrameOk(s, f) && ThreadOk(s, t) && PageOk(s, s.pcs[t].page);
    EvictStartKeeps(s, t, f, RequesterOf(s.pcs[t]), s.meta[f].page.value);
  }

  lemma EvictDoneKeeps(s: State, t: ThreadId, g: GuardId)
    requires Inv(s) && CanEvictDone(s, t, g)
    ensures Inv(ApplyEvictDone(s, t, g))
  {
    hide ApplyEvictPublish, ApplyEvictLoad, ApplyEvictRelease;
    if s.pcs[t].req.ForNew? {
      EvictPublishKeeps(s, t, g);
    } else if Unmapped(s, t)[s.pcs[t].req.page].state == NonResident {
      EvictLoadKeeps(s, t);
    } else {
      EvictReleaseKeeps(s, t);
    }
  }

  lemma NoFrameKeeps(s: State, t: ThreadId)
    requires Inv(s) && CanNoFrame(s, t)
    ensures Inv(ApplyNoFrame(s, t))
  {
    hide Inv, ApplyAbandonNew, ApplyGoto;
    if s.pcs[t].NewLoop? { AbandonNewKeeps(s, t); } else { GotoKeeps(s, t, Idle); }
  }

  lemma WaitForFrameKeeps(s: State, t: ThreadId)
    requires Inv(s) && CanWaitForFrame(s, t)
    ensures Inv(s.(waiting := s.waiting + {t}))
  {
    var f :| 0 <= f < |s.meta| && Transient(s.meta[f]);
    assert FrameOk(s, f);
    WaitingKeeps(s, s.waiting + {t});
  }

  lemma WaitForPageKeeps(s: State, t: ThreadId)
    requires Inv(s) && CanWaitForPage(s, t)
    ensures Inv(s.(waiting := s.waiting + {t}))
  {
    var p := s.pcs[t].page;
    assert PageOk(s, p);
    assert FrameOk(s, s.table[p].frame.value);
    WaitingKeeps(s, s.waiting + {t});
  }

  lemma ClientStepKeeps(s: State, step: Step)
    requires Inv(s) && Enabled(s, step) && ClientRules(s, step) && OfClient(step)
    ensures Inv(Apply(s, step))
  {
    hide Inv, ApplyGoto, ApplyWriteBytes, ApplyMarkDirty, ApplyDropGuard;
    match step
    case Invoke(t, op) => InvokeKeeps(s, t, op);
    case WriteBytes(g, bytes) => WriteBytesKeeps(s, g, bytes);
    case MarkDirty(g) => MarkDirtyKeeps(s, g);
    case DropGuard(g) => DropGuardKeeps(s, g);
  }

  lemma InvokeKeeps(s: State, t: ThreadId, op: Pc)
    requires Inv(s) && t < |s.pcs| && s.pcs[t] == Idle && IsStart(op)
    requires Target(op).Some? ==> Target(op).value !in s.reserved
    ensures Inv(ApplyGoto(s, t, op))
  {
    GotoKeeps(s, t, op);
  }

  lemma WindowStepKeeps(s: State, step: Step)
    requires Inv(s) && Enabled(s, step) && InWindow(step)
    ensures Inv(Apply(s, step))
  {
    hide Inv, ApplyEvictChunk, ApplyEvictFail, ApplyEvictDone, ApplyLoadChunk, ApplyLoadFail, ApplyLoadDone;
    hide ApplyFlushChunk, ApplyFlushFail, ApplyFlushDone;
    match step
    case EvictChunk(t, n) => EvictChunkKeeps(s, t, n);
    case EvictFail(t) => EvictFailKeeps(s, t);
    case EvictDone(t, g) => EvictDoneKeeps(s, t, g);
    case LoadChunk(t, n) => LoadChunkKeeps(s, t, n);
    case LoadFail(t) => LoadFailKeeps(s, t);
    case LoadDone(t, g) => LoadDoneKeeps(s, t, g);
    case FlushChunk(t, n) => FlushChunkKeeps(s, t, n);
    case FlushFail(t) => FlushFailKeeps(s, t);
    case FlushDone(t) => FlushDoneKeeps(s, t);
  }

  lemma MutexStepKeeps(s: State, step: Step)
    requires Inv(s) && Enabled(s, step) && ClientRules(s, step) && !OfClient(step) && !InWindow(step)
    ensures Inv(Apply(s, step))
  {
    hide Inv, ApplyReserveId, ApplyGoto, ApplyPublish, ApplyEvictBegin, ApplyNoFrame, ApplyFetchHit;
    hide ApplyLoadBegin, ApplyFlushBegin, ApplyDeleteResident, ApplyDeleteNonResident;
    match step
    case ReserveId(t, p) => ReserveIdKeeps(s, t, p);
    case NoIdLeft(t) => NoIdLeftKeeps(s, t);
    case PublishInFree(t, f, g) => PublishKeeps(s, t, f, g);
    case EvictBegin(t, f) => EvictBeginKeeps(s, t, f);
    case WaitForFrame(t) => WaitForFrameKeeps(s, t);
    case NoFrame(t) => NoFrameKeeps(s, t);
    case FetchHit(t, g) => FetchHitKeeps(s, t, g, s.pcs[t].page, s.table[s.pcs[t].page].frame.value);
    case LoadBegin(t, f) => LoadBeginKeeps(s, t, f);
    case FlushBegin(t) => FlushBeginKeeps(s, t, s.pcs[t].page, s.table[s.pcs[t].page].frame.value);
    case DeleteResident(t) => DeleteResidentKeeps(s, t, s.pcs[t].page, s.table[s.pcs[t].page].frame.value);
    case DeleteNonResident(t) => DeleteNonResidentKeeps(s, t);
    case ReturnAtOnce(t) => ReturnAtOnceKeeps(s, t);
    case WaitForPage(t) => WaitForPageKeeps(s, t);
    case SpuriousWake(t) => SpuriousWakeKeeps(s, t);
  }

  lemma NoIdLeftKeeps(s: State, t: ThreadId)
    requires Inv(s) && CanNoIdLeft(s, t)
    ensures Inv(ApplyGoto(s, t, Idle))
  {
    GotoKeeps(s, t, Idle);
  }

  lemma ReturnAtOnceKeeps(s: State, t: ThreadId)
    requires Inv(s) && AtLoop(s, t) && ReturnsAtOnce(s, s.pcs[t])
    ensures Inv(ApplyGoto(s, t, Idle))
  {
    GotoKeeps(s, t, Idle);
  }

  lemma SpuriousWakeKeeps(s: State, t: ThreadId)
    requires Inv(s) && t in s.waiting
    ensures Inv(s.(waiting := s.waiting - {t}))
  {
    WaitingKeeps(s, s.waiting - {t});
  }

  /** Whatever any thread does, in any interleaving, successfully or not. */
  lemma StepKeeps(s: State, step: Step)
    requires Inv(s) && Enabled(s, step) && ClientRules(s, step)
    ensures Inv(Apply(s, step))
  {
    hide Inv, Enabled, ClientRules, Apply;
    if OfClient(step) {
      ClientStepKeeps(s, step);
    } else if InWindow(step) {
      WindowStepKeeps(s, step);
    } else {
      MutexStepKeeps(s, step);
    }
  }
}
