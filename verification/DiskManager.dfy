/** The page file: where the slot of a page lies, and the loops that move a page to and
    from its slot although each system call may move only a part of it. */
module DiskManager {
  import opened Common

  const MAX_U64: nat := 0xFFFF_FFFF_FFFF_FFFF
  const MAX_OFFSET: nat := 0x7FFF_FFFF_FFFF_FFFF

  type U64 = x: nat | x <= MAX_U64

  datatype Result<+T> = Ok(value: T) | Overflow | OutOfRange

  // ----- Checked arithmetic -----

  function CheckedAdd(lhs: U64, rhs: U64): Result<U64>
  {
    if lhs > MAX_U64 - rhs then Overflow else Ok(lhs + rhs)
  }

  lemma DivisionTest(lhs: nat, rhs: nat)
    requires lhs != 0
    ensures rhs > MAX_U64 / lhs <==> lhs * rhs > MAX_U64
  {
    var q := MAX_U64 / lhs;
    assert MAX_U64 == lhs * q + MAX_U64 % lhs;
    if rhs > q {
      assert lhs * rhs >= lhs * (q + 1) by { Monotone(lhs, q + 1, rhs); }
      assert lhs * (q + 1) == lhs * q + lhs;
    } else {
      Monotone(lhs, rhs, q);
    }
  }

  lemma Monotone(a: nat, x: nat, y: nat)
    requires x <= y
    ensures a * x <= a * y
  {
  }

  function CheckedMul(lhs: U64, rhs: U64): Result<U64>
  {
    if lhs != 0 && rhs > MAX_U64 / lhs then Overflow
    else
      assert lhs * rhs <= MAX_U64 by { if lhs != 0 { DivisionTest(lhs, rhs); } }
      Ok(lhs * rhs)
  }

  /** The checks are exact: they report an overflow when there is one, and only then. */
  lemma ChecksAreExact(lhs: U64, rhs: U64)
    ensures CheckedAdd(lhs, rhs) == if lhs + rhs <= MAX_U64 then Ok(lhs + rhs) else Overflow
    ensures CheckedMul(lhs, rhs) == if lhs * rhs <= MAX_U64 then Ok(lhs * rhs) else Overflow
    ensures CheckedOffset(lhs) == if lhs <= 0x7FFF_FFFF_FFFF_FFFF then Ok(lhs) else Overflow
  {
    if lhs != 0 { DivisionTest(lhs, rhs); }
  }

  function CheckedOffset(offset: U64): Result<U64>
  {
    if offset > MAX_OFFSET then Overflow else Ok(offset)
  }

  // ----- Layout -----

  /** Size in bytes of the header record. */
  const HEADER_RECORD: nat := 32

  /** The two options that determine the layout of the file. */
  datatype Layout = Layout(headerSize: U64, maxPageCount: U64)

  function ExpectedFileSize(l: Layout): Result<U64>
  {
    match CheckedMul(l.maxPageCount, PAGE_SIZE)
    case Ok(area) => CheckedAdd(l.headerSize, area)
    case e => e
  }

  /** The constructor accepts the options. */
  predicate Accepted(l: Layout)
  {
    && l.maxPageCount != 0
    && l.headerSize >= HEADER_RECORD
    && l.headerSize % PAGE_SIZE == 0
    && ExpectedFileSize(l).Ok?
  }

  function OffsetForPage(l: Layout, p: U64): Result<U64>
  {
    if p >= l.maxPageCount then OutOfRange
    else match CheckedMul(p, PAGE_SIZE)
         case Ok(offset) => CheckedAdd(l.headerSize, offset)
         case e => e
  }

  /** Where the slot of page `p` starts, when nothing overflows. */
  function Start(l: Layout, p: nat): nat
  {
    l.headerSize + p * PAGE_SIZE
  }

  /** Once the constructor has accepted the options, the slot of every page is free of
      overflow, lies behind the header page and inside the expected size of the file;
      and an offset is out of range exactly for the ids beyond the page count. */
  lemma SlotsFit(l: Layout, p: U64)
    requires Accepted(l)
    ensures OffsetForPage(l, p).OutOfRange? <==> p >= l.maxPageCount
    ensures p < l.maxPageCount ==>
              && OffsetForPage(l, p) == Ok(l.headerSize + p * PAGE_SIZE)
              && PAGE_SIZE <= l.headerSize
              && l.headerSize + p * PAGE_SIZE + PAGE_SIZE <= ExpectedFileSize(l).value <= MAX_U64
  {
    ChecksAreExact(l.maxPageCount, PAGE_SIZE);
    ChecksAreExact(p, PAGE_SIZE);
  }

  /** The options are accepted exactly if there is room for a page, the header takes whole
      pages and holds its record, and the size of the file is no overflow; then this is its
      size. */
  lemma AcceptedIsExact(l: Layout)
    ensures Accepted(l) <==>
            && 0 < l.maxPageCount && 32 <= l.headerSize && l.headerSize % 4096 == 0
            && l.headerSize + l.maxPageCount * 4096 <= 0xFFFF_FFFF_FFFF_FFFF
    ensures Accepted(l) ==> ExpectedFileSize(l) == Ok(l.headerSize + l.maxPageCount * 4096)
  {
    ChecksAreExact(l.maxPageCount, PAGE_SIZE);
    if ExpectedFileSize(l).Ok? { ChecksAreExact(l.headerSize, l.maxPageCount * PAGE_SIZE); }
  }

  /** The whole file can be addressed. */
  predicate Fits(l: Layout)
    requires Accepted(l)
  {
    ExpectedFileSize(l).value <= MAX_OFFSET
  }

  /** Slots of different pages do not overlap. */
  lemma SlotsDisjoint(l: Layout, p: nat, q: nat)
    requires p != q
    ensures Start(l, p) + PAGE_SIZE <= Start(l, q) || Start(l, q) + PAGE_SIZE <= Start(l, p)
  {
  }

  // ----- The bytes of the file -----

  /** Beyond its end a file reads as zeros. */
  function ByteAt(bytes: seq<Byte>, i: nat): Byte
  {
    if i < |bytes| then bytes[i] else 0
  }

  function Slot(bytes: seq<Byte>, start: nat): Page
  {
    seq(PAGE_SIZE, i requires 0 <= i < PAGE_SIZE => ByteAt(bytes, start + i))
  }

  /** A page never written, beyond the end of the file, reads as zeros. */
  lemma BeyondTheEnd(bytes: seq<Byte>, start: nat)
    requires |bytes| <= start
    ensures Slot(bytes, start) == ZeroPage()
  {
    forall i | 0 <= i < PAGE_SIZE ensures Slot(bytes, start)[i] == ZeroPage()[i] {
      assert Slot(bytes, start)[i] == ByteAt(bytes, start + i) == 0;
      assert ZeroPage()[i] == 0;
    }
  }

  /** Writing one chunk; a gap before it is filled with zeros. */
  function Written(bytes: seq<Byte>, offset: nat, chunk: seq<Byte>): (r: seq<Byte>)
    ensures forall i :: 0 <= i ==>
              ByteAt(r, i) == if offset <= i < offset + |chunk| then chunk[i - offset] else ByteAt(bytes, i)
    ensures |r| == if |chunk| == 0 || offset + |chunk| <= |bytes| then |bytes| else offset + |chunk|
  {
    if |chunk| == 0 then bytes
    else
      var padded := bytes + seq(if |bytes| < offset then offset - |bytes| else 0, _ => 0);
      padded[..offset] + chunk + (if |padded| <= offset + |chunk| then [] else padded[offset + |chunk|..])
  }

  /** `now` is `before` with the first `k` bytes of `data` at `offset`, and nothing else
      changed; the file has grown only as far as these bytes need. */
  ghost predicate PrefixWritten(before: seq<Byte>, now: seq<Byte>, offset: nat, data: seq<Byte>, k: nat)
    requires k <= |data|
  {
    && |now| == (if k == 0 || offset + k <= |before| then |before| else offset + k)
    && forall i :: 0 <= i ==>
         ByteAt(now, i) == if offset <= i < offset + k then data[i - offset] else ByteAt(before, i)
  }

  lemma PrefixGrows(before: seq<Byte>, now: seq<Byte>, offset: nat, data: seq<Byte>, k: nat, n: nat)
    requires k + n <= |data| && PrefixWritten(before, now, offset, data, k)
    ensures PrefixWritten(before, Written(now, offset + k, data[k..k + n]), offset, data, k + n)
  {
  }

  /** All slots of the file. */
  function Slots(l: Layout, bytes: seq<Byte>): (d: seq<Page>)
    ensures |d| == l.maxPageCount
  {
    seq(l.maxPageCount, p requires 0 <= p < l.maxPageCount => Slot(bytes, Start(l, p)))
  }

  /** A write of the slot of `p` that got as far as byte `k` changes these bytes of this
      slot, no other slot, and not the header. */
  lemma WriteIsConfined(l: Layout, before: seq<Byte>, now: seq<Byte>, p: nat, data: Page, k: nat)
    requires p < l.maxPageCount && k <= PAGE_SIZE
    requires PrefixWritten(before, now, Start(l, p), data, k)
    ensures Slots(l, now) == Slots(l, before)[p := Splice(Slots(l, before)[p], data, 0, k)]
    ensures forall i :: 0 <= i < l.headerSize ==> ByteAt(now, i) == ByteAt(before, i)
  {
    forall q | 0 <= q < l.maxPageCount
      ensures Slots(l, now)[q] == if q == p then Splice(Slots(l, before)[p], data, 0, k) else Slots(l, before)[q]
    {
      if q != p { SlotsDisjoint(l, p, q); }
      forall i | 0 <= i < PAGE_SIZE
        ensures Slot(now, Start(l, q))[i] ==
                if q == p then Splice(Slot(before, Start(l, p)), data, 0, k)[i] else Slot(before, Start(l, q))[i]
      {
        assert ByteAt(now, Start(l, q) + i) ==
               if Start(l, p) <= Start(l, q) + i < Start(l, p) + k then data[Start(l, q) + i - Start(l, p)]
               else ByteAt(before, Start(l, q) + i);
      }
    }
  }

  /** A completed write of the slot of `p`, byte by byte. */
  lemma WrittenBytes(l: Layout, before: seq<Byte>, now: seq<Byte>, p: nat, data: Page)
    requires PrefixWritten(before, now, Start(l, p), data, PAGE_SIZE)
    ensures forall i :: 0 <= i ==>
              ByteAt(now, i) == if 0 <= i - (l.headerSize + p * PAGE_SIZE) < PAGE_SIZE
                                then data[i - (l.headerSize + p * PAGE_SIZE)] else ByteAt(before, i)
  {
  }

  /** Round trip: a page whose write has completed is what its slot holds. */
  lemma RoundTrip(l: Layout, before: seq<Byte>, now: seq<Byte>, p: nat, data: Page)
    requires p < l.maxPageCount && PrefixWritten(before, now, Start(l, p), data, PAGE_SIZE)
    ensures Slots(l, now) == Slots(l, before)[p := data]
  {
    WriteIsConfined(l, before, now, p, data, PAGE_SIZE);
    assert Splice(Slots(l, before)[p], data, 0, PAGE_SIZE) == data;
  }

  // ----- System calls -----

  /** How one pread or pwrite ends: after some bytes, with EINTR, or with another error.
      A call for which nothing is scripted moves all it can. */
  datatype Transfer = Moved(n: nat) | Interrupted | Failed

  /** What a call can move is bounded by what it is asked to move. */
  function Clipped(t: Transfer, most: nat): Transfer
  {
    if t.Moved? && t.n > most then Moved(most) else t
  }

  /** The calls that end a transfer with an error; before the end of the file a read
      always moves something. */
  predicate Breaks(t: Transfer, writing: bool)
  {
    t == Failed || (writing && t == Moved(0))
  }

  /** All that can happen is short transfers and interruptions. */
  predicate Harmless(script: seq<Transfer>)
  {
    forall i :: 0 <= i < |script| ==> !Breaks(script[i], true)
  }

  /** `after` is what is left of `before`. */
  predicate Spent(before: seq<Transfer>, after: seq<Transfer>)
  {
    |after| <= |before| && after == before[|before| - |after|..]
  }

  /** None of the calls made in between has failed. */
  ghost predicate WentWell(before: seq<Transfer>, after: seq<Transfer>, writing: bool)
  {
    Spent(before, after) && forall i :: 0 <= i < |before| - |after| ==> !Breaks(before[i], writing)
  }

  /** The last of the calls made in between has failed, and no other. */
  ghost predicate WentWrong(before: seq<Transfer>, after: seq<Transfer>, writing: bool)
  {
    && Spent(before, after) && |after| < |before|
    && Breaks(before[|before| - |after| - 1], writing)
    && forall i :: 0 <= i < |before| - |after| - 1 ==> !Breaks(before[i], writing)
  }

  lemma NothingSpent(script: seq<Transfer>, writing: bool)
    ensures WentWell(script, script, writing)
  {
  }

  lemma OneMore(before: seq<Transfer>, now: seq<Transfer>, writing: bool)
    requires WentWell(before, now, writing) && now != []
    ensures if Breaks(now[0], writing) then WentWrong(before, now[1..], writing)
            else WentWell(before, now[1..], writing)
  {
    assert now[0] == before[|before| - |now|];
  }

  lemma WellThen(before: seq<Transfer>, mid: seq<Transfer>, after: seq<Transfer>, writing: bool)
    requires WentWell(before, mid, writing)
    ensures WentWell(mid, after, writing) ==> WentWell(before, after, writing)
    ensures WentWrong(mid, after, writing) ==> WentWrong(before, after, writing)
  {
    if Spent(mid, after) {
      assert forall i :: 0 <= i < |mid| ==> mid[i] == before[|before| - |mid| + i];
    }
  }

  lemma WrongIsNotWell(before: seq<Transfer>, after: seq<Transfer>, writing: bool)
    ensures !(WentWell(before, after, writing) && WentWrong(before, after, writing))
  {
  }

  /** Calls that went well for a write would have done so for a read. */
  lemma WellForReads(before: seq<Transfer>, after: seq<Transfer>)
    requires WentWell(before, after, true)
    ensures WentWell(before, after, false)
  {
  }

  /** With a harmless script nothing goes wrong, and what is left of it is harmless. */
  lemma HarmlessGoesWell(before: seq<Transfer>, after: seq<Transfer>, writing: bool)
    requires Harmless(before)
    ensures !WentWrong(before, after, writing)
    ensures Spent(before, after) ==> WentWell(before, after, writing) && Harmless(after)
  {
    if Spent(before, after) {
      assert forall i :: 0 <= i < |after| ==> after[i] == before[|before| - |after| + i];
    }
  }

  datatype Outcome = Done | InvalidPage | TooFar | IoError

  class DiskManager {
    const layout: Layout
    var bytes: seq<Byte>
    var script: seq<Transfer>

    ghost function Disk(): seq<Page>
      reads this`bytes
    {
      Slots(layout, bytes)
    }

    /** Every offset of an accepted layout fits the offset type, and nothing in the script
        makes a transfer fail. */
    ghost predicate Sound()
      reads this`script
    {
      Accepted(layout) && Fits(layout) && Harmless(script)
    }

    constructor (l: Layout, contents: seq<Byte>, calls: seq<Transfer>)
      ensures layout == l && bytes == contents && script == calls
    {
      layout := l;
      bytes := contents;
      script := calls;
    }

    /** The next system call. */
    method NextTransfer(most: nat) returns (t: Transfer)
      modifies this`script
      ensures if old(script) == [] then script == [] && t == Moved(most)
              else script == old(script)[1..] && t == Clipped(old(script[0]), most)
    {
      if script == [] { return Moved(most); }
      t := Clipped(script[0], most);
      script := script[1..];
    }

    /** Writes all of `data`, however small the steps and however often interrupted. It
        gives up exactly when a call fails or writes nothing, or when the file would grow
        beyond the largest offset. */
    method WriteFully(data: array<Byte>, offset: U64) returns (r: Outcome, ghost done: nat)
      requires offset + data.Length <= MAX_U64
      modifies this`bytes, this`script
      ensures r == Done || r == TooFar || r == IoError
      ensures done <= data.Length && (r == Done <==> done == data.Length)
      ensures PrefixWritten(old(bytes), bytes, offset, data[..], done)
      ensures if r == IoError then WentWrong(old(script), script, true) else WentWell(old(script), script, true)
      ensures r == TooFar ==> offset + done > MAX_OFFSET
      ensures r == IoError ==> offset + done <= MAX_OFFSET
      ensures offset > MAX_OFFSET && data.Length > 0 ==> r == TooFar && done == 0
    {
      hide PrefixWritten, WentWell, WentWrong;
      var total: nat := 0;
      StartsEmpty(bytes, offset, data[..]);
      NothingSpent(script, true);
      while total < data.Length
        invariant total <= data.Length && (offset > MAX_OFFSET ==> total == 0)
        invariant PrefixWritten(old(bytes), bytes, offset, data[..], total)
        invariant WentWell(old(script), script, true)
        decreases |script|, data.Length - total
      {
        var at := CheckedAdd(offset, total);
        if CheckedOffset(at.value).Overflow? { return TooFar, total; }
        if script != [] { OneMore(old(script), script, true); }
        var t := NextTransfer(data.Length - total);
        if t.Interrupted? { continue; }
        if t.Failed? || t.n == 0 { return IoError, total; }
        PrefixGrows(old(bytes), bytes, offset, data[..], total, t.n);
        bytes := Written(bytes, at.value, data[..][total..total + t.n]);
        total := total + t.n;
      }
      return Done, total;
    }

    /** Fills the buffer from the file, however small the steps and however often
        interrupted. At the end of the file it stops, and the rest of the buffer is left as
        it is. It gives up exactly when a call fails, or beyond the largest offset. */
    method ReadAtMost(data: array<Byte>, offset: U64) returns (r: Outcome, ghost done: nat)
      requires offset + data.Length <= MAX_U64
      modifies this`script, data
      ensures r == Done || r == TooFar || r == IoError
      ensures done <= data.Length && (r == Done ==> done == data.Length || |bytes| <= offset + done)
      ensures r != Done ==> done < data.Length
      ensures offset + done <= |bytes| || done == 0
      ensures forall i :: 0 <= i < data.Length ==>
                data[i] == if i < done then ByteAt(bytes, offset + i) else old(data[i])
      ensures if r == IoError then WentWrong(old(script), script, false) else WentWell(old(script), script, false)
      ensures r == TooFar ==> offset + done > MAX_OFFSET
      ensures r == IoError ==> offset + done <= MAX_OFFSET
      ensures offset > MAX_OFFSET && data.Length > 0 ==> r == TooFar && done == 0
    {
      hide WentWell, WentWrong;
      NothingSpent(script, false);
      var total: nat := 0;
      while total < data.Length
        invariant total <= data.Length && (offset + total <= |bytes| || total == 0)
        invariant offset > MAX_OFFSET ==> total == 0
        invariant forall i :: 0 <= i < data.Length ==>
                    data[i] == if i < total then ByteAt(bytes, offset + i) else old(data[i])
        invariant WentWell(old(script), script, false)
        decreases |script|, data.Length - total
      {
        var at := CheckedAdd(offset, total);
        if CheckedOffset(at.value).Overflow? { return TooFar, total; }
        var left := if at.value < |bytes| then |bytes| - at.value else 0;
        var most := if left < data.Length - total then left else data.Length - total;
        if script != [] { OneMore(old(script), script, false); }
        var t := NextTransfer(most);
        if t.Interrupted? { continue; }
        if t.Failed? { return IoError, total; }
        if most == 0 { return Done, total; }
        var n := if t.n == 0 then 1 else t.n;
        forall i | total <= i < total + n { data[i] := bytes[offset + i]; }
        total := total + n;
      }
      return Done, total;
    }

    /** The buffer receives the slot of the page. A failed read leaves a prefix of it, and
        zeros behind. */
    method ReadPage(p: U64, page: array<Byte>) returns (r: Outcome, ghost done: nat)
      requires Accepted(layout) && page.Length == PAGE_SIZE
      modifies this`script, page
      ensures r == InvalidPage <==> p >= layout.maxPageCount
      ensures r == InvalidPage ==> page[..] == old(page[..])
      ensures r == Done ==> page[..] == Disk()[p]
      ensures r == Done ==> forall i :: 0 <= i < PAGE_SIZE ==>
                page[i] == ByteAt(bytes, layout.headerSize + p * PAGE_SIZE + i)
      ensures r == TooFar || r == IoError ==>
                done < PAGE_SIZE && page[..] == Splice(ZeroPage(), Disk()[p], 0, done)
      ensures if r == IoError then WentWrong(old(script), script, false) else WentWell(old(script), script, false)
      ensures Fits(layout) ==> r != TooFar
    {
      hide WentWell, WentWrong;
      NothingSpent(script, false);
      SlotsFit(layout, p);
      if p >= layout.maxPageCount { return InvalidPage, 0; }
      forall i | 0 <= i < page.Length { page[i] := 0; }
      r, done := ReadAtMost(page, OffsetForPage(layout, p).value);
      forall i | 0 <= i < PAGE_SIZE ensures r == Done ==> page[i] == Disk()[p][i] {
        assert Disk()[p][i] == ByteAt(bytes, Start(layout, p) + i);
      }
      if r == Done { assert page[..] == Disk()[p]; }
      else { assert page[..] == Splice(ZeroPage(), Disk()[p], 0, done); }
    }

    /** The page goes to its slot. A failed write has changed a prefix of this slot at
        most; other slots and the header are never touched. */
    method WritePage(p: U64, page: array<Byte>) returns (r: Outcome, ghost done: nat)
      requires Accepted(layout) && page.Length == PAGE_SIZE
      modifies this`bytes, this`script
      ensures r == InvalidPage <==> p >= layout.maxPageCount
      ensures r == InvalidPage ==> bytes == old(bytes)
      ensures r == Done ==> Disk() == old(Disk())[p := page[..]]
      ensures r == Done ==> forall i :: 0 <= i ==>
                ByteAt(bytes, i) == if 0 <= i - (layout.headerSize + p * PAGE_SIZE) < PAGE_SIZE
                                    then page[i - (layout.headerSize + p * PAGE_SIZE)] else ByteAt(old(bytes), i)
      ensures r == TooFar || r == IoError ==>
                done < PAGE_SIZE && Disk() == old(Disk())[p := Splice(old(Disk())[p], page[..], 0, done)]
      ensures forall i :: 0 <= i < layout.headerSize ==> ByteAt(bytes, i) == ByteAt(old(bytes), i)
      ensures if r == IoError then WentWrong(old(script), script, true) else WentWell(old(script), script, true)
      ensures Fits(layout) ==> r != TooFar
    {
      hide WentWell, WentWrong, PrefixWritten, Slots;
      NothingSpent(script, true);
      SlotsFit(layout, p);
      if p >= layout.maxPageCount { return InvalidPage, 0; }
      r, done := WriteFully(page, OffsetForPage(layout, p).value);
      WriteIsConfined(layout, old(bytes), bytes, p, page[..], done);
      if r == Done {
        RoundTrip(layout, old(bytes), bytes, p, page[..]);
        WrittenBytes(layout, old(bytes), bytes, p, page[..]);
      }
    }
  }

  /** Writing a page and reading it back, the two calls one after the other: under any
      script of short transfers and interruptions both succeed, and the page comes back. */
  method WriteThenRead(d: DiskManager, p: U64, page: array<Byte>, back: array<Byte>) returns (w: Outcome, r: Outcome)
    requires d.Sound() && p < d.layout.maxPageCount && page.Length == PAGE_SIZE == back.Length && page != back
    modifies d, back
    ensures w == r == Done && back[..] == page[..] && d.Sound()
    ensures d.Disk() == old(d.Disk())[p := page[..]]
  {
    hide WentWell, WentWrong, Harmless;
    ghost var before := d.script;
    ghost var n;
    w, n := d.WritePage(p, page);
    HarmlessGoesWell(before, d.script, true);
    SpentWell(before, d.script, true);
    ghost var mid := d.script;
    r, n := d.ReadPage(p, back);
    HarmlessGoesWell(mid, d.script, false);
    SpentWell(mid, d.script, false);
  }

  lemma SpentWell(before: seq<Transfer>, after: seq<Transfer>, writing: bool)
    requires WentWell(before, after, writing) || WentWrong(before, after, writing)
    ensures Spent(before, after)
  {
  }

  lemma StartsEmpty(bytes: seq<Byte>, offset: nat, data: seq<Byte>)
    ensures PrefixWritten(bytes, bytes, offset, data, 0)
  {
  }
}
