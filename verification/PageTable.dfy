/** The page table: the state of every page id, and the stack of ids to hand out again. */
module PageTable {
  import opened Common
  import opened PageStates

  /** The table as a value. Ids from `next` on have never been handed out; `freeIds` is a
      stack whose top is its last element. */
  datatype Table = Table(pages: seq<Entry>, freeIds: seq<PageId>, next: nat)

  ghost predicate NoDuplicates(s: seq<PageId>)
  {
    forall i, j :: 0 <= i < j < |s| ==> s[i] != s[j]
  }

  /** The free list holds exactly the unused ids that were handed out before, each once;
      ids never handed out are unused; frames are stored where they belong. */
  ghost predicate ValidTable(t: Table)
  {
    && t.next <= |t.pages|
    && NoDuplicates(t.freeIds)
    && (forall p :: p in t.freeIds ==> p < t.next && t.pages[p].state == Unused)
    && (forall p :: 0 <= p < t.next && t.pages[p].state == Unused ==> p in t.freeIds)
    && (forall p :: t.next <= p < |t.pages| ==> t.pages[p].state == Unused)
    && (forall p :: 0 <= p < |t.pages| ==> FrameStoredRight(t.pages[p]))
  }

  function AllocatedPages(pages: seq<Entry>): set<PageId>
  {
    set p | 0 <= p < |pages| && pages[p].state != Unused
  }

  // ----- The operations on values -----

  /** The id that is handed out next. */
  function NextId(t: Table): Option<PageId>
  {
    if t.freeIds != [] then Some(t.freeIds[|t.freeIds| - 1])
    else if t.next < |t.pages| then Some(t.next) else None
  }

  function AllocateSpec(t: Table): Table
    requires ValidTable(t) && NextId(t).Some?
  {
    if t.freeIds != [] then
      assert t.freeIds[|t.freeIds| - 1] in t.freeIds;
      Table(t.pages[NextId(t).value := NON_RESIDENT_ENTRY], t.freeIds[..|t.freeIds| - 1], t.next)
    else
      Table(t.pages[t.next := NON_RESIDENT_ENTRY], [], t.next + 1)
  }

  function FreeSpec(t: Table, p: PageId): Table
    requires p < |t.pages|
  {
    Table(t.pages[p := UNUSED_ENTRY], t.freeIds + [p], t.next)
  }

  function UpdateSpec(t: Table, p: PageId, e: Entry): Table
    requires p < |t.pages|
  {
    t.(pages := t.pages[p := e])
  }

  /** The operations of the table. */
  datatype TableOp =
    | Allocate
    | Free(p: PageId)
    | SetLoading(p: PageId, f: FrameId)
    | SetResident(p: PageId, f: FrameId)
    | SetNonResident(p: PageId)
    | SetEvicting(p: PageId)

  predicate Permitted(t: Table, op: TableOp)
  {
    match op
    case Allocate => NextId(t).Some?
    case Free(p) => p < |t.pages| && CanFree(t.pages[p])
    case SetLoading(p, f) => p < |t.pages| && CanSetLoading(t.pages[p])
    case SetResident(p, f) => p < |t.pages| && CanSetResident(t.pages[p], f)
    case SetNonResident(p) => p < |t.pages| && CanSetNonResident(t.pages[p])
    case SetEvicting(p) => p < |t.pages| && CanSetEvicting(t.pages[p])
  }

  /** An operation that is not permitted throws and changes nothing. */
  function After(t: Table, op: TableOp): Table
    requires ValidTable(t)
  {
    if !Permitted(t, op) then t else
      match op
      case Allocate => AllocateSpec(t)
      case Free(p) => FreeSpec(t, p)
      case SetLoading(p, f) => UpdateSpec(t, p, Entry(Loading, Some(f)))
      case SetResident(p, f) => UpdateSpec(t, p, Entry(Resident, Some(f)))
      case SetNonResident(p) => UpdateSpec(t, p, NON_RESIDENT_ENTRY)
      case SetEvicting(p) => UpdateSpec(t, p, Entry(Evicting, t.pages[p].frame))
  }

  // ----- What the operations keep -----

  lemma PopKeepsDistinct(s: seq<PageId>)
    requires NoDuplicates(s) && s != []
    ensures NoDuplicates(s[..|s| - 1]) && s[|s| - 1] !in s[..|s| - 1]
    ensures forall p :: p in s <==> p in s[..|s| - 1] || p == s[|s| - 1]
  {
    assert s == s[..|s| - 1] + [s[|s| - 1]];
  }

  lemma PushKeepsDistinct(s: seq<PageId>, p: PageId)
    requires NoDuplicates(s) && p !in s
    ensures NoDuplicates(s + [p])
  {
  }

  lemma AllocateKeeps(t: Table)
    requires ValidTable(t) && NextId(t).Some?
    ensures ValidTable(AllocateSpec(t))
    ensures NextId(t).value < |t.pages| && t.pages[NextId(t).value].state == Unused
    ensures AllocatedPages(AllocateSpec(t).pages) == AllocatedPages(t.pages) + {NextId(t).value}
  {
    var p := NextId(t).value;
    if t.freeIds != [] {
      var k := |t.freeIds| - 1;
      assert p == t.freeIds[k] && p in t.freeIds;
      assert t.freeIds == t.freeIds[..k] + [p];
      PopKeepsDistinct(t.freeIds);
      var rest := AllocateSpec(t).freeIds;
      forall q | q in rest ensures q != p && q in t.freeIds { assert q in t.freeIds[..k]; }
    }
  }

  lemma FreeKeeps(t: Table, p: PageId)
    requires ValidTable(t) && p < |t.pages| && CanFree(t.pages[p])
    ensures ValidTable(FreeSpec(t, p))
    ensures AllocatedPages(FreeSpec(t, p).pages) == AllocatedPages(t.pages) - {p}
  {
    assert p !in t.freeIds;
    PushKeepsDistinct(t.freeIds, p);
  }

  lemma UpdateKeeps(t: Table, p: PageId, e: Entry)
    requires ValidTable(t) && p < |t.pages| && t.pages[p].state != Unused && e.state != Unused && FrameStoredRight(e)
    ensures ValidTable(UpdateSpec(t, p, e))
    ensures AllocatedPages(UpdateSpec(t, p, e).pages) == AllocatedPages(t.pages)
  {
  }

  lemma AfterKeeps(t: Table, op: TableOp)
    requires ValidTable(t)
    ensures ValidTable(After(t, op)) && |After(t, op).pages| == |t.pages|
    ensures AllocatedPages(After(t, op).pages) ==
            if !Permitted(t, op) then AllocatedPages(t.pages)
            else if op.Allocate? then AllocatedPages(t.pages) + {NextId(t).value}
            else if op.Free? then AllocatedPages(t.pages) - {op.p}
            else AllocatedPages(t.pages)
  {
    hide ValidTable, AllocatedPages;
    if Permitted(t, op) {
      match op
      case Allocate => AllocateKeeps(t);
      case Free(p) => FreeKeeps(t, p);
      case SetLoading(p, f) => UpdateKeeps(t, p, Entry(Loading, Some(f)));
      case SetResident(p, f) => UpdateKeeps(t, p, Entry(Resident, Some(f)));
      case SetNonResident(p) => UpdateKeeps(t, p, NON_RESIDENT_ENTRY);
      case SetEvicting(p) =>
        StoredRight(t, p);
        UpdateKeeps(t, p, Entry(Evicting, t.pages[p].frame));
    }
  }

  lemma StoredRight(t: Table, p: PageId)
    requires ValidTable(t) && p < |t.pages|
    ensures FrameStoredRight(t.pages[p])
  {
  }

  // ----- Counting -----

  function Elements(s: seq<PageId>): set<PageId>
  {
    set p | p in s
  }

  function Below(n: nat): (s: set<PageId>)
    ensures |s| == n && forall p :: p in s <==> 0 <= p < n
  {
    if n == 0 then {} else Below(n - 1) + {n - 1}
  }

  lemma {:induction false} DistinctCount(s: seq<PageId>)
    requires NoDuplicates(s)
    ensures |Elements(s)| == |s|
  {
    if s != [] {
      var k := |s| - 1;
      DistinctCount(s[..k]);
      assert s == s[..k] + [s[k]];
      assert Elements(s) == Elements(s[..k]) + {s[k]};
      assert s[k] !in s[..k];
    }
  }

  /** Conservation of ids: of the ids ever handed out, each is either allocated or on the
      free list. */
  lemma Conservation(t: Table)
    requires ValidTable(t)
    ensures |AllocatedPages(t.pages)| + |t.freeIds| == t.next
  {
    DistinctCount(t.freeIds);
    var taken := AllocatedPages(t.pages);
    assert taken + Elements(t.freeIds) == Below(t.next);
    assert taken * Elements(t.freeIds) == {};
  }

  /** Ids run out exactly when all of them are allocated. */
  lemma ExhaustedIsExact(t: Table)
    requires ValidTable(t)
    ensures NextId(t).None? <==> forall p :: 0 <= p < |t.pages| ==> t.pages[p].state != Unused
    ensures NextId(t).None? <==> |AllocatedPages(t.pages)| == |t.pages|
  {
    Conservation(t);
    if NextId(t).Some? { AllocateKeeps(t); }
    if NextId(t).None? {
      forall p | 0 <= p < |t.pages| ensures t.pages[p].state != Unused { }
    }
  }

  // ----- Which id comes next -----

  /** The free list is a stack: an id that is given back is the next one to be handed out,
      and then the table is as it was before it was given back. */
  lemma FreeThenAllocate(t: Table, p: PageId)
    requires ValidTable(t) && Permitted(t, Free(p))
    ensures var u := After(t, Free(p));
            && ValidTable(u) && NextId(u) == Some(p)
            && After(u, Allocate).freeIds == t.freeIds && After(u, Allocate).next == t.next
            && After(u, Allocate).pages == t.pages[p := NON_RESIDENT_ENTRY]
  {
    FreeKeeps(t, p);
    var u := After(t, Free(p));
    assert u.freeIds[..|u.freeIds| - 1] == t.freeIds;
    assert u.pages[p := NON_RESIDENT_ENTRY] == t.pages[p := NON_RESIDENT_ENTRY];
  }

  /** The other way round: of an id that has just been handed out and is given back, only
      its place is new, if it had never been handed out before. */
  lemma AllocateThenFree(t: Table)
    requires ValidTable(t) && NextId(t).Some?
    ensures var p := NextId(t).value; var u := After(t, Allocate);
            && ValidTable(u) && Permitted(u, Free(p)) && NextId(After(u, Free(p))) == Some(p)
            && (t.freeIds != [] ==> After(u, Free(p)).freeIds == t.freeIds && After(u, Free(p)).next == t.next)
            && (t.freeIds == [] ==> After(u, Free(p)).freeIds == [p] && After(u, Free(p)).next == t.next + 1)
  {
    AllocateKeeps(t);
    var u := After(t, Allocate);
    if t.freeIds != [] { assert t.freeIds == u.freeIds + [NextId(t).value]; }
  }

  /** With nothing to reuse, ids are handed out in order: the next one is the number of ids
      handed out so far. */
  lemma FreshIdsInOrder(t: Table)
    requires ValidTable(t) && t.freeIds == []
    ensures t.next == |AllocatedPages(t.pages)|
    ensures NextId(t) == if |AllocatedPages(t.pages)| < |t.pages| then Some(|AllocatedPages(t.pages)|) else None
    ensures NextId(t).Some? ==> After(t, Allocate).next == t.next + 1 && After(t, Allocate).freeIds == []
  {
    Conservation(t);
  }

  // ----- Runs -----

  function Run(t: Table, ops: seq<TableOp>): Table
    requires ValidTable(t)
    decreases |ops|
  {
    if ops == [] then t else AfterKeeps(t, ops[0]); Run(After(t, ops[0]), ops[1..])
  }

  /** The ids handed out in a run, in order. */
  function HandedOut(t: Table, ops: seq<TableOp>): seq<PageId>
    requires ValidTable(t)
    decreases |ops|
  {
    if ops == [] then [] else
      AfterKeeps(t, ops[0]);
      (if ops[0].Allocate? && NextId(t).Some? then [NextId(t).value] else []) + HandedOut(After(t, ops[0]), ops[1..])
  }

  /** No id is handed out while it is live: not in a run that does not free it. */
  lemma {:induction false} LiveIdStaysOut(t: Table, ops: seq<TableOp>, p: PageId)
    requires ValidTable(t) && p in AllocatedPages(t.pages)
    requires forall i :: 0 <= i < |ops| ==> ops[i] != Free(p)
    ensures p !in HandedOut(t, ops)
    ensures ValidTable(Run(t, ops)) && p in AllocatedPages(Run(t, ops).pages)
    decreases |ops|
  {
    if ops != [] {
      AfterKeeps(t, ops[0]);
      if ops[0].Allocate? && NextId(t).Some? { AllocateKeeps(t); }
      LiveIdStaysOut(After(t, ops[0]), ops[1..], p);
    }
  }

  lemma NextMoves(t: Table, op: TableOp)
    requires ValidTable(t)
    ensures Below(After(t, op).next) ==
            Below(t.next) + if op.Allocate? && NextId(t).Some? then {NextId(t).value} else {}
  {
    if op.Allocate? && t.freeIds != [] { assert NextId(t).value in t.freeIds; }
  }

  /** The ids ever handed out are exactly those below `next`. */
  lemma {:induction false} HandedOutBelowNext(t: Table, ops: seq<TableOp>)
    requires ValidTable(t)
    ensures Below(t.next) + Elements(HandedOut(t, ops)) == Below(Run(t, ops).next)
    decreases |ops|
  {
    hide ValidTable, After, NextId, Elements, Below;
    if ops != [] {
      var u := After(t, ops[0]);
      AfterKeeps(t, ops[0]);
      NextMoves(t, ops[0]);
      HandedOutBelowNext(u, ops[1..]);
      if ops[0].Allocate? && NextId(t).Some? {
        ElementsOfMore(NextId(t).value, HandedOut(u, ops[1..]));
      } else {
        assert HandedOut(t, ops) == HandedOut(u, ops[1..]);
      }
    } else {
      NoElements();
    }
  }

  lemma ElementsOfMore(p: PageId, s: seq<PageId>)
    ensures Elements([p] + s) == {p} + Elements(s)
  {
  }

  lemma NoElements()
    ensures Elements([]) == {}
  {
  }

  // ----- The class -----

  datatype Outcome = Done | OutOfRange | UnusedPage | WrongState

  class PageTable {
    const pages: array<Entry>
    var freeIds: seq<PageId>
    var next: nat
    var allocatedCount: nat

    ghost function View(): Table
      reads this, pages
    {
      Table(pages[..], freeIds, next)
    }

    ghost predicate Valid()
      reads this, pages
    {
      ValidTable(View()) && allocatedCount == |AllocatedPages(pages[..])|
    }

    constructor (maxPageCount: nat)
      requires 0 < maxPageCount
      ensures Valid() && fresh(pages)
      ensures View() == Table(seq(maxPageCount, _ => UNUSED_ENTRY), [], 0)
    {
      pages := new Entry[maxPageCount](_ => UNUSED_ENTRY);
      freeIds := [];
      next := 0;
      allocatedCount := 0;
      new;
      assert pages[..] == seq(maxPageCount, _ => UNUSED_ENTRY);
      assert AllocatedPages(pages[..]) == {};
    }

    /** What an operation on `p` answers when the state machine says `permitted`. */
    function Verdict(p: PageId, permitted: bool): Outcome
      reads pages
    {
      if p >= pages.Length then OutOfRange
      else if pages[p].state == Unused then UnusedPage
      else if permitted then Done else WrongState
    }

    /** Hands out an id that is not in use, and fails exactly when there is none. */
    method AllocatePageId() returns (r: Option<PageId>)
      requires Valid()
      modifies this, pages
      ensures Valid() && View() == After(old(View()), Allocate)
      ensures r == NextId(old(View()))
      ensures r.None? <==> old(allocatedCount) == pages.Length
      ensures r.Some? ==> r.value < pages.Length && old(pages[..])[r.value].state == Unused
      ensures old(freeIds) != [] ==> r.Some? && old(freeIds) == freeIds + [r.value] && next == old(next)
      ensures old(freeIds) == [] && r.Some? ==> r.value == old(next) && next == old(next) + 1 && freeIds == []
      ensures r.Some? ==> pages[..] == old(pages[..])[r.value := Entry(NonResident, None)]
      ensures r.None? ==> freeIds == old(freeIds) && next == old(next) && pages[..] == old(pages[..])
    {
      hide ValidTable, AllocatedPages;
      ghost var before := View();
      ExhaustedIsExact(before);
      AfterKeeps(before, Allocate);
      var p: PageId;
      if freeIds != [] {
        p := freeIds[|freeIds| - 1];
        freeIds := freeIds[..|freeIds| - 1];
      } else {
        if next == pages.Length {
          assert next <= |before.pages| by { NextInRange(before); }
          return None;
        }
        p := next;
        NextInRange(before);
        next := next + 1;
      }
      AllocateKeeps(before);
      FreshCount(before.pages, p);
      pages[p] := NON_RESIDENT_ENTRY;
      allocatedCount := allocatedCount + 1;
      return Some(p);
    }

    method FreePageId(p: PageId) returns (r: Outcome)
      requires Valid()
      modifies this, pages
      ensures Valid() && View() == After(old(View()), Free(p))
      ensures r == old(Verdict(p, p < pages.Length && CanFree(pages[p])))
      ensures r == Done ==> freeIds == old(freeIds) + [p] && next == old(next)
      ensures r == Done ==> p < pages.Length && pages[..] == old(pages[..])[p := Entry(Unused, None)]
      ensures r != Done ==> freeIds == old(freeIds) && next == old(next) && pages[..] == old(pages[..])
    {
      hide ValidTable, AllocatedPages;
      AfterKeeps(View(), Free(p));
      r := Verdict(p, p < pages.Length && CanFree(pages[p]));
      if r != Done { return; }
      FreshCount(pages[..], p);
      pages[p] := UNUSED_ENTRY;
      freeIds := freeIds + [p];
      allocatedCount := allocatedCount - 1;
    }

    method State(p: PageId) returns (r: Option<PageState>)
      requires Valid()
      ensures r == if p < pages.Length then Some(pages[p].state) else None
    {
      return if p < pages.Length then Some(pages[p].state) else None;
    }

    /** The frame of a page that is in use. */
    method FrameForPage(p: PageId) returns (r: Outcome, frame: Option<FrameId>)
      requires Valid()
      ensures r == Verdict(p, true)
      ensures r == Done ==> frame == pages[p].frame
      ensures r == Done ==> (frame.Some? <==> pages[p].state != NonResident)
    {
      r := Verdict(p, true);
      frame := if r == Done then pages[p].frame else None;
      if r == Done { StoredRight(View(), p); }
    }

    method SetLoading(p: PageId, f: FrameId) returns (r: Outcome)
      requires Valid()
      modifies pages
      ensures Valid() && View() == After(old(View()), TableOp.SetLoading(p, f))
      ensures r == old(Verdict(p, p < pages.Length && CanSetLoading(pages[p])))
    {
      hide ValidTable, AllocatedPages;
      AfterKeeps(View(), TableOp.SetLoading(p, f));
      r := Verdict(p, p < pages.Length && CanSetLoading(pages[p]));
      if r != Done { return; }
      pages[p] := Entry(Loading, Some(f));
    }

    method SetResident(p: PageId, f: FrameId) returns (r: Outcome)
      requires Valid()
      modifies pages
      ensures Valid() && View() == After(old(View()), TableOp.SetResident(p, f))
      ensures r == old(Verdict(p, p < pages.Length && CanSetResident(pages[p], f)))
    {
      hide ValidTable, AllocatedPages;
      AfterKeeps(View(), TableOp.SetResident(p, f));
      r := Verdict(p, p < pages.Length && CanSetResident(pages[p], f));
      if r != Done { return; }
      pages[p] := Entry(Resident, Some(f));
    }

    method SetNonResident(p: PageId) returns (r: Outcome)
      requires Valid()
      modifies pages
      ensures Valid() && View() == After(old(View()), TableOp.SetNonResident(p))
      ensures r == old(Verdict(p, p < pages.Length && CanSetNonResident(pages[p])))
    {
      hide ValidTable, AllocatedPages;
      AfterKeeps(View(), TableOp.SetNonResident(p));
      r := Verdict(p, p < pages.Length && CanSetNonResident(pages[p]));
      if r != Done { return; }
      pages[p] := NON_RESIDENT_ENTRY;
    }

    method SetEvicting(p: PageId) returns (r: Outcome)
      requires Valid()
      modifies pages
      ensures Valid() && View() == After(old(View()), TableOp.SetEvicting(p))
      ensures r == old(Verdict(p, p < pages.Length && CanSetEvicting(pages[p])))
    {
      hide ValidTable, AllocatedPages;
      AfterKeeps(View(), TableOp.SetEvicting(p));
      r := Verdict(p, p < pages.Length && CanSetEvicting(pages[p]));
      if r != Done { return; }
      pages[p] := Entry(Evicting, pages[p].frame);
    }
  }

  lemma NextInRange(t: Table)
    requires ValidTable(t)
    ensures t.next <= |t.pages|
  {
  }

  lemma FreshCount(pages: seq<Entry>, p: PageId)
    requires p < |pages|
    ensures pages[p].state == Unused ==> |AllocatedPages(pages) + {p}| == |AllocatedPages(pages)| + 1
    ensures pages[p].state != Unused ==> |AllocatedPages(pages) - {p}| == |AllocatedPages(pages)| - 1
  {
  }
}
