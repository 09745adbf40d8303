/** The frames and the bitmap that says which of them are taken. The bits beyond the
    last frame are set once and for all, so that a search never finds them. */
module FrameAllocator {
  import opened Common
  import opened Words

  const BITS_PER_WORD: nat := 64

  function WordCount(n: nat): nat { (n + BITS_PER_WORD - 1) / BITS_PER_WORD }

  function WordIndex(f: nat): nat { f / BITS_PER_WORD }

  function BitIndex(f: nat): nat { f % BITS_PER_WORD }

  predicate IsSet(bitmap: seq<bv64>, f: nat)
    requires WordIndex(f) < |bitmap|
  {
    Bit(bitmap[WordIndex(f)], BitIndex(f))
  }

  ghost predicate ValidBitmap(bitmap: seq<bv64>, n: nat)
  {
    && 0 < n && |bitmap| == WordCount(n)
    && forall f {:trigger IsSet(bitmap, f)} :: n <= f < BITS_PER_WORD * |bitmap| ==> IsSet(bitmap, f)
  }

  /** The set that the bitmap stands for. */
  function Allocated(bitmap: seq<bv64>, n: nat): set<FrameId>
    requires |bitmap| == WordCount(n)
  {
    set f | 0 <= f < n && IsSet(bitmap, f)
  }

  function AllFrames(n: nat): (s: set<FrameId>)
    ensures |s| == n && forall f :: f in s <==> 0 <= f < n
  {
    if n == 0 then {} else AllFrames(n - 1) + {n - 1}
  }

  function SetFrame(bitmap: seq<bv64>, f: nat): seq<bv64>
    requires WordIndex(f) < |bitmap|
  {
    bitmap[WordIndex(f) := WithBit(bitmap[WordIndex(f)], BitIndex(f))]
  }

  function ClearFrame(bitmap: seq<bv64>, f: nat): seq<bv64>
    requires WordIndex(f) < |bitmap|
  {
    bitmap[WordIndex(f) := WithoutBit(bitmap[WordIndex(f)], BitIndex(f))]
  }

  lemma SetFrameBits(bitmap: seq<bv64>, f: nat, g: nat)
    requires WordIndex(f) < |bitmap| && WordIndex(g) < |bitmap|
    ensures IsSet(SetFrame(bitmap, f), g) == (IsSet(bitmap, g) || f == g)
  {
    hide Bit, WithBit;
    SetBit(bitmap[WordIndex(f)], BitIndex(f), BitIndex(g));
  }

  lemma ClearFrameBits(bitmap: seq<bv64>, f: nat, g: nat)
    requires WordIndex(f) < |bitmap| && WordIndex(g) < |bitmap|
    ensures IsSet(ClearFrame(bitmap, f), g) == (IsSet(bitmap, g) && f != g)
  {
    hide Bit, WithoutBit;
    ClearBit(bitmap[WordIndex(f)], BitIndex(f), BitIndex(g));
  }

  lemma SetFrameAdds(bitmap: seq<bv64>, n: nat, f: nat)
    requires ValidBitmap(bitmap, n) && f < n
    ensures ValidBitmap(SetFrame(bitmap, f), n)
    ensures Allocated(SetFrame(bitmap, f), n) == Allocated(bitmap, n) + {f}
  {
    hide IsSet, SetFrame;
    forall g | 0 <= g && WordIndex(g) < |bitmap|
      ensures |SetFrame(bitmap, f)| == |bitmap| && IsSet(SetFrame(bitmap, f), g) == (IsSet(bitmap, g) || f == g)
    {
      SetFrameLength(bitmap, f);
      SetFrameBits(bitmap, f, g);
    }
    SetFrameLength(bitmap, f);
  }

  lemma SetFrameLength(bitmap: seq<bv64>, f: nat)
    requires WordIndex(f) < |bitmap|
    ensures |SetFrame(bitmap, f)| == |bitmap| == |ClearFrame(bitmap, f)|
  {
  }

  lemma ClearFrameRemoves(bitmap: seq<bv64>, n: nat, f: nat)
    requires ValidBitmap(bitmap, n) && f < n
    ensures ValidBitmap(ClearFrame(bitmap, f), n)
    ensures Allocated(ClearFrame(bitmap, f), n) == Allocated(bitmap, n) - {f}
  {
    hide IsSet, ClearFrame;
    forall g | 0 <= g && WordIndex(g) < |bitmap|
      ensures |ClearFrame(bitmap, f)| == |bitmap| && IsSet(ClearFrame(bitmap, f), g) == (IsSet(bitmap, g) && f != g)
    {
      SetFrameLength(bitmap, f);
      ClearFrameBits(bitmap, f, g);
    }
    SetFrameLength(bitmap, f);
  }

  /** FreeFrame undoes AllocateFrame, word for word. */
  lemma FreeUndoesAllocate(bitmap: seq<bv64>, f: nat)
    requires WordIndex(f) < |bitmap| && !IsSet(bitmap, f)
    ensures ClearFrame(SetFrame(bitmap, f), f) == bitmap
  {
    hide Bit, WithBit, WithoutBit;
    ClearUndoesSet(bitmap[WordIndex(f)], BitIndex(f));
  }

  /** If all words are full then all frames are taken. */
  lemma AllWordsFull(bitmap: seq<bv64>, n: nat)
    requires ValidBitmap(bitmap, n)
    requires forall w :: 0 <= w < |bitmap| ==> bitmap[w] == FULL_WORD
    ensures Allocated(bitmap, n) == AllFrames(n)
  {
    hide Bit;
    forall f | 0 <= f < n ensures IsSet(bitmap, f) {
      FullWord(bitmap[WordIndex(f)]);
      assert Bit(bitmap[WordIndex(f)], BitIndex(f));
    }
  }

  // ----- The specification of AllocateFrame -----

  /** How many words lie between the start of the search and word `w`. */
  function Probes(start: nat, w: nat, words: nat): (r: nat)
    requires start < words && w < words
    ensures r < words
  {
    if start <= w then w - start else w + words - start
  }

  /** `f` is the lowest free frame of the first word with a free bit, searching cyclically
      from word `start` on. */
  ghost predicate FirstFree(bitmap: seq<bv64>, start: nat, f: nat)
    requires start < |bitmap| && WordIndex(f) < |bitmap|
  {
    && !IsSet(bitmap, f)
    && (forall j {:trigger Bit(bitmap[WordIndex(f)], j)} :: 0 <= j < BitIndex(f) ==> Bit(bitmap[WordIndex(f)], j))
    && (forall w :: 0 <= w < |bitmap| && Probes(start, w, |bitmap|) < Probes(start, WordIndex(f), |bitmap|)
          ==> bitmap[w] == FULL_WORD)
  }

  /** The specification leaves no choice. */
  lemma FirstFreeUnique(bitmap: seq<bv64>, start: nat, f: nat, g: nat)
    requires start < |bitmap| && WordIndex(f) < |bitmap| && WordIndex(g) < |bitmap|
    requires FirstFree(bitmap, start, f) && FirstFree(bitmap, start, g)
    ensures f == g
  {
    hide Bit;
    FullBit(BitIndex(f));
    FullBit(BitIndex(g));
    assert WordIndex(f) == WordIndex(g);
    assert BitIndex(f) == BitIndex(g);
  }

  /** Where the next search starts. */
  function NextStart(bitmap: seq<bv64>, w: nat): nat
    requires w < |bitmap|
  {
    if bitmap[w] != FULL_WORD then w else if w + 1 == |bitmap| then 0 else w + 1
  }

  lemma FirstFreeIsFrame(bitmap: seq<bv64>, n: nat, f: nat)
    requires ValidBitmap(bitmap, n) && WordIndex(f) < |bitmap| && !IsSet(bitmap, f)
    ensures f < n && f !in Allocated(bitmap, n)
  {
    hide IsSet;
  }

  lemma Modulo(a: nat, n: nat)
    requires 0 < n && a < 2 * n
    ensures a % n == if a < n then a else a - n
  {
    if a >= n { assert a == n * 1 + (a - n); }
  }

  lemma Location(w: nat, b: nat)
    requires b < BITS_PER_WORD
    ensures WordIndex(BITS_PER_WORD * w + b) == w && BitIndex(BITS_PER_WORD * w + b) == b
  {
  }

  lemma FrameWord(w: nat, b: nat)
    requires b < BITS_PER_WORD
    ensures (w * BITS_PER_WORD + b) / 64 == w
  {
  }

  /** Every frame has a word. */
  lemma WordOfFrame(f: nat, n: nat)
    requires f < n
    ensures WordIndex(f) < WordCount(n)
  {
  }

  /** Probing in steps of one from `start` on reaches every word exactly once. */
  lemma ProbeReaches(start: nat, probe: nat, words: nat)
    requires start < words && probe < words
    ensures var w := (start + probe) % words; w < words && Probes(start, w, words) == probe
    ensures forall w :: 0 <= w < words && Probes(start, w, words) == probe ==> w == (start + probe) % words
  {
    Modulo(start + probe, words);
  }

  /** The bits that the constructor sets are those that belong to no frame. */
  lemma MaskedTail(bitmap: seq<bv64>, n: nat)
    requires 0 < n && |bitmap| == WordCount(n) && n % BITS_PER_WORD != 0
    requires forall w :: 0 <= w < |bitmap| ==> bitmap[w] == 0
    ensures var last := |bitmap| - 1;
            var masked := bitmap[last := WithTail(bitmap[last], n % BITS_PER_WORD)];
            ValidBitmap(masked, n) && Allocated(masked, n) == {}
  {
    hide Bit, WithTail;
    var last := |bitmap| - 1;
    var masked := bitmap[last := WithTail(bitmap[last], n % BITS_PER_WORD)];
    forall f | 0 <= f < BITS_PER_WORD * |bitmap|
      ensures IsSet(masked, f) <==> f >= n
    {
      FullBit(BitIndex(f));
      TailBits(0, n % BITS_PER_WORD, BitIndex(f));
    }
  }

  lemma NoTail(bitmap: seq<bv64>, n: nat)
    requires 0 < n && |bitmap| == WordCount(n) && n % BITS_PER_WORD == 0
    requires forall w :: 0 <= w < |bitmap| ==> bitmap[w] == 0
    ensures ValidBitmap(bitmap, n) && Allocated(bitmap, n) == {}
  {
    hide Bit;
    forall f | 0 <= f < n ensures !IsSet(bitmap, f) { FullBit(BitIndex(f)); }
  }

  /** The lowest free bit of the first word that is not full. */
  lemma Taken(before: seq<bv64>, n: nat, start: nat, w: nat)
    requires ValidBitmap(before, n) && start < |before| && w < |before| && before[w] != FULL_WORD
    requires forall v :: 0 <= v < |before| && Probes(start, v, |before|) < Probes(start, w, |before|)
               ==> before[v] == FULL_WORD
    ensures var b := FirstFreeBit(before[w]);
            var f := w * BITS_PER_WORD + b;
            && b < BITS_PER_WORD && f < n && f !in Allocated(before, n)
            && WordIndex(f) == w && FirstFree(before, start, f)
            && before[w := WithBit(before[w], b)] == SetFrame(before, f)
            && ValidBitmap(SetFrame(before, f), n)
            && Allocated(SetFrame(before, f), n) == Allocated(before, n) + {f}
  {
    hide Bit, WithBit, FirstFreeBit;
    LowestFree(before[w]);
    var b := FirstFreeBit(before[w]);
    var f := w * BITS_PER_WORD + b;
    Location(w, b);
    FirstFreeIsFrame(before, n, f);
    SetFrameAdds(before, n, f);
  }

  /** Is there a free frame among the 64 of word `w`? */
  ghost predicate HasFree(taken: set<FrameId>, n: nat, w: nat)
  {
    exists f: FrameId :: f < n && f / 64 == w && f !in taken
  }

  /** A word is full exactly if all its frames are taken. */
  lemma FullInSets(bitmap: seq<bv64>, n: nat, w: nat)
    requires ValidBitmap(bitmap, n) && w < |bitmap|
    ensures bitmap[w] == FULL_WORD <==> !HasFree(Allocated(bitmap, n), n, w)
  {
    hide Bit;
    FullWord(bitmap[w]);
    if bitmap[w] == FULL_WORD {
      forall f: FrameId | f < n && f / 64 == w ensures f in Allocated(bitmap, n) {
        assert Bit(bitmap[w], BitIndex(f));
      }
    } else {
      var i :| 0 <= i < 64 && !Bit(bitmap[w], i);
      Location(w, i);
      FirstFreeIsFrame(bitmap, n, BITS_PER_WORD * w + i);
    }
  }

  /** The specification in terms of the set: no free frame of the same word is lower, and no
      word with a free frame comes earlier from the start of the search on, upwards and
      around the end. */
  lemma FirstFreeInSets(bitmap: seq<bv64>, n: nat, start: nat, f: FrameId, g: FrameId)
    requires ValidBitmap(bitmap, n) && start < |bitmap| && WordIndex(f) < |bitmap| && FirstFree(bitmap, start, f)
    requires g < n && g !in Allocated(bitmap, n)
    ensures f < n && f !in Allocated(bitmap, n)
    ensures g / 64 == f / 64 ==> f <= g
    ensures (f / 64 + |bitmap| - start) % |bitmap| <= (g / 64 + |bitmap| - start) % |bitmap|
  {
    hide Bit;
    FirstFreeIsFrame(bitmap, n, f);
    WordOfFrame(g, n);
    FullInSets(bitmap, n, g / 64);
    Modulo(f / 64 + |bitmap| - start, |bitmap|);
    Modulo(g / 64 + |bitmap| - start, |bitmap|);
  }

  /** The next search starts in the same word while it has a free frame, and in the next
      one otherwise. */
  lemma NextStartInSets(bitmap: seq<bv64>, n: nat, w: nat)
    requires ValidBitmap(bitmap, n) && w < |bitmap|
    ensures NextStart(bitmap, w) == if HasFree(Allocated(bitmap, n), n, w) then w else (w + 1) % |bitmap|
  {
    FullInSets(bitmap, n, w);
    Modulo(w + 1, |bitmap|);
  }

  lemma FullSet(s: set<FrameId>, n: nat)
    requires forall f :: f in s ==> 0 <= f < n
    requires |s| == n
    ensures s == AllFrames(n)
  {
    Subset(s, AllFrames(n));
  }

  lemma Subset(s: set<FrameId>, all: set<FrameId>)
    requires s <= all && |s| == |all|
    ensures s == all
  {
    assert |all - s| == |all| - |s|;
    assert all == s + (all - s);
  }

  // ----- The class -----

  datatype Outcome = Done | OutOfRange | NotAllocated

  class FrameAllocator {
    const frameCount: nat
    const frames: seq<array<Byte>>
    const bitmap: array<bv64>
    var allocatedCount: nat
    var nextSearchWord: nat

    /** The bitmap stands for a set whose size is the count field; every frame has its
        own buffer. */
    ghost predicate Valid()
      reads this, bitmap
    {
      && ValidBitmap(bitmap[..], frameCount)
      && allocatedCount == |Allocated(bitmap[..], frameCount)|
      && nextSearchWord < bitmap.Length
      && |frames| == frameCount
      && (forall f :: 0 <= f < frameCount ==> frames[f].Length == PAGE_SIZE)
      && (forall f, g :: 0 <= f < g < frameCount ==> frames[f] != frames[g])
    }

    ghost function InUse(): set<FrameId>
      requires Valid()
      reads this, bitmap
    {
      Allocated(bitmap[..], frameCount)
    }

    constructor (n: nat)
      requires 0 < n
      ensures Valid() && frameCount == n && InUse() == {}
      ensures fresh(bitmap) && forall a :: a in frames ==> fresh(a)
    {
      hide ValidBitmap, WithTail, Bit;
      var buffers: seq<array<Byte>> := [];
      while |buffers| < n
        invariant |buffers| <= n
        invariant forall f :: 0 <= f < |buffers| ==> fresh(buffers[f]) && buffers[f].Length == PAGE_SIZE
        invariant forall f, g :: 0 <= f < g < |buffers| ==> buffers[f] != buffers[g]
      {
        var a := new Byte[PAGE_SIZE](_ => 0);
        buffers := buffers + [a];
      }
      var words := new bv64[WordCount(n)](_ => 0);
      if n % BITS_PER_WORD != 0 {
        MaskedTail(words[..], n);
        words[words.Length - 1] := WithTail(words[words.Length - 1], n % BITS_PER_WORD);
      } else {
        NoTail(words[..], n);
      }
      frameCount := n;
      frames := buffers;
      bitmap := words;
      allocatedCount := 0;
      nextSearchWord := 0;
    }

    /** Finds a frame exactly when there is one: the lowest free frame of the first word
        that is not full, in cyclic order from where the last search or release left off.
        Its bit is the only one that changes. */
    method AllocateFrame() returns (r: Option<FrameId>)
      requires Valid()
      modifies this, bitmap
      ensures Valid()
      ensures r.None? <==> old(InUse()) == AllFrames(frameCount)
      ensures r.None? ==> bitmap[..] == old(bitmap[..]) && nextSearchWord == old(nextSearchWord)
      ensures r.Some? ==>
                && r.value < frameCount && WordIndex(r.value) < bitmap.Length
                && r.value !in old(InUse()) && InUse() == old(InUse()) + {r.value}
                && FirstFree(old(bitmap[..]), old(nextSearchWord), r.value)
                && bitmap[..] == SetFrame(old(bitmap[..]), r.value)
                && nextSearchWord == if HasFree(InUse(), frameCount, r.value / 64) then r.value / 64
                                     else (r.value / 64 + 1) % bitmap.Length
    {
      hide Bit, WithBit, FirstFreeBit;
      hide FirstFree, ValidBitmap, Probes, WordIndex, BitIndex, IsSet, AllFrames;
      if allocatedCount == frameCount {
        FullSet(InUse(), frameCount);
        return None;
      }
      ghost var before := bitmap[..];
      var wordCount := bitmap.Length;
      for probe := 0 to wordCount
        invariant Valid() && bitmap[..] == before
        invariant nextSearchWord == old(nextSearchWord)
        invariant forall w :: 0 <= w < wordCount && Probes(nextSearchWord, w, wordCount) < probe ==>
                    bitmap[w] == FULL_WORD
      {
        ProbeReaches(nextSearchWord, probe, wordCount);
        var wordIndex := (nextSearchWord + probe) % wordCount;
        var usedWord := bitmap[wordIndex];
        if usedWord != FULL_WORD {
          var bitIndex := FirstFreeBit(usedWord);
          var frameId := wordIndex * BITS_PER_WORD + bitIndex;
          Taken(before, frameCount, nextSearchWord, wordIndex);
          Modulo(wordIndex + 1, wordCount);
          bitmap[wordIndex] := WithBit(bitmap[wordIndex], bitIndex);
          allocatedCount := allocatedCount + 1;
          if bitmap[wordIndex] == FULL_WORD {
            nextSearchWord := (wordIndex + 1) % wordCount;
          } else {
            nextSearchWord := wordIndex;
          }
          assert bitmap[..] == SetFrame(before, frameId);
          FrameWord(wordIndex, bitIndex);
          NextStartInSets(bitmap[..], frameCount, wordIndex);
          return Some(frameId);
        }
      }
      AllWordsFull(before, frameCount);
      assert false;
      return None;
    }

    method FreeFrame(f: FrameId) returns (r: Outcome)
      requires Valid()
      modifies this, bitmap
      ensures Valid()
      ensures r == if f >= frameCount then OutOfRange else if f !in old(InUse()) then NotAllocated else Done
      ensures r == Done ==>
                && InUse() == old(InUse()) - {f} && WordIndex(f) < bitmap.Length
                && bitmap[..] == ClearFrame(old(bitmap[..]), f) && nextSearchWord == f / 64
      ensures r != Done ==> bitmap[..] == old(bitmap[..]) && nextSearchWord == old(nextSearchWord)
    {
      hide Bit, WithoutBit;
      var isTaken;
      r, isTaken := IsAllocated(f);
      if r != Done { return; }
      if !isTaken { return NotAllocated; }
      var wordIndex := WordIndex(f);
      ClearFrameRemoves(bitmap[..], frameCount, f);
      ghost var before := bitmap[..];
      bitmap[wordIndex] := WithoutBit(bitmap[wordIndex], BitIndex(f));
      assert bitmap[..] == ClearFrame(before, f);
      allocatedCount := allocatedCount - 1;
      nextSearchWord := wordIndex;
    }

    method IsAllocated(f: FrameId) returns (r: Outcome, taken: bool)
      requires Valid()
      ensures r == if f >= frameCount then OutOfRange else Done
      ensures r == Done ==> taken == (f in InUse())
    {
      hide Bit;
      if f >= frameCount { return OutOfRange, false; }
      WordOfFrame(f, frameCount);
      return Done, Bit(bitmap[WordIndex(f)], BitIndex(f));
    }
  }
}
