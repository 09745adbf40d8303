/** The CLOCK replacer: what a sweep of the hand does, stated without the sweep, and the
    class whose nested loops do it. */
module ClockReplacer {
  import opened Common
  import R = ReplacerContract

  datatype ClockEntry = ClockEntry(present: bool, evictable: bool, referenced: bool)

  const EMPTY_ENTRY := ClockEntry(false, false, false)

  /** The replacer as a value: its entries and the position of its hand. */
  datatype Clock = Clock(entries: seq<ClockEntry>, hand: nat)

  predicate Candidate(e: ClockEntry) { e.present && e.evictable }

  ghost predicate ValidClock(c: Clock)
  {
    && c.hand < |c.entries|
    && forall f :: 0 <= f < |c.entries| && c.entries[f].evictable ==> c.entries[f].present
  }

  /** How many advances bring the hand to `f`. */
  function Dist(hand: nat, f: nat, n: nat): nat
    requires hand < n && f < n
  {
    if hand <= f then f - hand else f + n - hand
  }

  function Advance(hand: nat, n: nat): nat
    requires hand < n
  {
    if hand + 1 == n then 0 else hand + 1
  }

  /** The hand moves upwards and comes back to 0 behind the last frame, and the distance of
      a frame is the number of such moves. */
  lemma ClockOrder(hand: nat, f: nat, k: nat, n: nat)
    requires hand < n && f < n && k < n
    ensures Advance(hand, n) == (hand + 1) % n
    ensures Dist(hand, f, n) == k <==> f == (hand + k) % n
  {
    Modulo(hand + 1, n);
    Modulo(hand + k, n);
  }

  lemma Modulo(a: nat, n: nat)
    requires 0 < n && a < 2 * n
    ensures a % n == if a < n then a else a - n
  {
    if a >= n { assert a == n * 1 + (a - n); }
  }

  function EvictableSet(entries: seq<ClockEntry>): set<nat>
  {
    set f | 0 <= f < |entries| && entries[f].evictable
  }

  // ----- The specification of Victim -----

  /** `v` is the first frame from the hand on, in clock order, among those in `pool`. */
  ghost predicate FirstOf(c: Clock, v: nat, pool: set<nat>)
    requires c.hand < |c.entries|
  {
    && v in pool && v < |c.entries|
    && forall f {:trigger f in pool} :: f in pool && f < |c.entries| ==>
         Dist(c.hand, v, |c.entries|) <= Dist(c.hand, f, |c.entries|)
  }

  function Unreferenced(entries: seq<ClockEntry>): set<nat>
  {
    set f | 0 <= f < |entries| && Candidate(entries[f]) && !entries[f].referenced
  }

  /** `c'` is `c` after the victim `v` has been removed, the hand stands behind `v`, and the
      evictable frames that the hand passed on its way to `v` - or all of them, if it went
      around once - have lost their reference bits. */
  ghost predicate Swept(c: Clock, v: nat, c': Clock, around: bool)
    requires c.hand < |c.entries| && v < |c.entries|
  {
    var n := |c.entries|;
    && |c'.entries| == n
    && c'.hand == Advance(v, n)
    && c'.entries[v] == EMPTY_ENTRY
    && forall f :: 0 <= f < n && f != v ==>
         c'.entries[f] == if Candidate(c.entries[f]) && (around || Dist(c.hand, f, n) < Dist(c.hand, v, n))
                          then ClockEntry(true, true, false) else c.entries[f]
  }

  /** What Victim does. Without an evictable frame it returns nothing and changes nothing.
      Otherwise it returns the first evictable unreferenced frame in clock order, giving
      the evictable frames it passes their second chance; if all evictable frames are
      referenced, all of them lose their reference bit and the first one is returned. */
  ghost predicate VictimSpec(c: Clock, result: Option<nat>, c': Clock)
    requires ValidClock(c)
  {
    if EvictableSet(c.entries) == {} then result == None && c' == c
    else
      && result.Some? && result.value < |c.entries|
      && if Unreferenced(c.entries) != {}
         then FirstOf(c, result.value, Unreferenced(c.entries)) && Swept(c, result.value, c', false)
         else FirstOf(c, result.value, EvictableSet(c.entries)) && Swept(c, result.value, c', true)
  }

  // ----- The specification of the other operations -----

  function AccessSpec(c: Clock, f: nat): Clock
    requires f < |c.entries|
  {
    c.(entries := c.entries[f := ClockEntry(true, c.entries[f].evictable, true)])
  }

  function EvictableSpec(c: Clock, f: nat, evictable: bool): Clock
    requires f < |c.entries|
  {
    c.(entries := c.entries[f := ClockEntry(true, evictable, c.entries[f].referenced)])
  }

  function RemoveSpec(c: Clock, f: nat): Clock
    requires f < |c.entries|
  {
    if c.entries[f].present then c.(entries := c.entries[f := EMPTY_ENTRY]) else c
  }

  // ----- Lemmas for the sweep -----

  /** An entry after the hand has passed it. */
  function Cleared(e: ClockEntry): ClockEntry
  {
    if Candidate(e) then ClockEntry(true, true, false) else e
  }

  /** Where `k` advances take the hand. */
  function Position(hand: nat, k: nat, n: nat): nat
    requires hand < n && k <= n
  {
    if hand + k < n then hand + k else hand + k - n
  }

  /** `now` is `c` in the middle of a sweep: the hand has made `scanned` advances in this
      pass. */
  ghost predicate MidSweep(c: Clock, now: seq<ClockEntry>, pass: nat, scanned: nat)
    requires c.hand < |c.entries|
  {
    var n := |c.entries|;
    && |now| == n
    && (forall f :: 0 <= f < n ==>
          now[f] == if pass == 0 && Dist(c.hand, f, n) >= scanned then c.entries[f] else Cleared(c.entries[f]))
    && (forall f :: 0 <= f < n && Dist(c.hand, f, n) < scanned ==>
          !Candidate(c.entries[f]) || (pass == 0 && c.entries[f].referenced))
    && (pass != 0 ==> Unreferenced(c.entries) == {})
  }

  lemma StartOfSweep(c: Clock)
    requires ValidClock(c)
    ensures MidSweep(c, c.entries, 0, 0)
  {
  }

  /** The hand moves on from an entry that is not the victim. */
  lemma PassBy(c: Clock, now: seq<ClockEntry>, pass: nat, scanned: nat)
    requires ValidClock(c) && MidSweep(c, now, pass, scanned) && scanned < |c.entries|
    requires var e := now[Position(c.hand, scanned, |c.entries|)]; Candidate(e) ==> e.referenced
    ensures var v := Position(c.hand, scanned, |c.entries|);
            MidSweep(c, now[v := Cleared(now[v])], pass, scanned + 1)
  {
    assert Dist(c.hand, Position(c.hand, scanned, |c.entries|), |c.entries|) == scanned;
  }

  lemma MidSweepSet(c: Clock, now: seq<ClockEntry>, pass: nat, scanned: nat)
    requires ValidClock(c) && MidSweep(c, now, pass, scanned)
    ensures EvictableSet(now) == EvictableSet(c.entries)
  {
  }

  /** A whole pass without a victim: in the first, everything evictable was referenced;
      in the second there is nothing evictable. */
  lemma PassOver(c: Clock, now: seq<ClockEntry>, pass: nat)
    requires ValidClock(c) && MidSweep(c, now, pass, |c.entries|)
    ensures pass != 0 ==> EvictableSet(c.entries) == {}
    ensures MidSweep(c, now, pass + 1, 0)
  {
    assert Unreferenced(c.entries) == {};
  }

  lemma VictimFound(c: Clock, now: seq<ClockEntry>, pass: nat, scanned: nat, c': Clock)
    requires ValidClock(c) && MidSweep(c, now, pass, scanned) && scanned < |c.entries|
    requires var v := Position(c.hand, scanned, |c.entries|);
             && Candidate(now[v]) && !now[v].referenced
             && c' == Clock(now[v := EMPTY_ENTRY], Advance(v, |c.entries|))
    ensures VictimSpec(c, Some(Position(c.hand, scanned, |c.entries|)), c')
  {
    var v := Position(c.hand, scanned, |c.entries|);
    assert Dist(c.hand, v, |c.entries|) == scanned;
    assert v in EvictableSet(c.entries);
    if pass == 0 { assert v in Unreferenced(c.entries); }
  }

  // ----- What the specification guarantees -----

  /** The specification leaves no choice. */
  lemma VictimUnique(c: Clock, r1: Option<nat>, c1: Clock, r2: Option<nat>, c2: Clock)
    requires ValidClock(c) && VictimSpec(c, r1, c1) && VictimSpec(c, r2, c2)
    ensures r1 == r2 && c1 == c2
  {
    if EvictableSet(c.entries) != {} {
      assert Dist(c.hand, r1.value, |c.entries|) == Dist(c.hand, r2.value, |c.entries|);
      assert c1.entries == c2.entries;
    }
  }

  function Tracked(c: Clock): R.Tracked
  {
    map f | 0 <= f < |c.entries| && c.entries[f].present :: c.entries[f].evictable
  }

  /** Victim meets the contract the buffer manager relies on: it fails exactly when no
      frame is evictable, and otherwise removes the evictable frame it returns. */
  lemma VictimMeetsContract(c: Clock, r: Option<nat>, c': Clock)
    requires ValidClock(c) && VictimSpec(c, r, c')
    ensures ValidClock(c') && R.VictimAllowed(Tracked(c), r)
    ensures Tracked(c') == if r.Some? then R.Remove(Tracked(c), r.value) else Tracked(c)
    ensures EvictableSet(c'.entries) == if r.Some? then EvictableSet(c.entries) - {r.value} else {}
  {
    if r.None? {
      forall f ensures !R.IsEvictable(Tracked(c), f) {
        assert f !in EvictableSet(c.entries);
      }
    }
  }

  lemma OperationsMeetContract(c: Clock, f: nat, evictable: bool)
    requires ValidClock(c) && f < |c.entries|
    ensures ValidClock(AccessSpec(c, f)) && Tracked(AccessSpec(c, f)) == R.Access(Tracked(c), f)
    ensures ValidClock(RemoveSpec(c, f)) && Tracked(RemoveSpec(c, f)) == R.Remove(Tracked(c), f)
    ensures c.entries[f].present <==> R.CanSetEvictable(Tracked(c), f)
    ensures c.entries[f].present ==>
              && ValidClock(EvictableSpec(c, f, evictable))
              && Tracked(EvictableSpec(c, f, evictable)) == R.SetEvictable(Tracked(c), f, evictable)
  {
  }

  // ----- No frame starves -----

  datatype ClockOp = AccessOp(g: nat) | EvictableOp(g: nat, b: bool) | RemoveOp(g: nat) | VictimOp(v: nat)

  ghost predicate ClockStep(c: Clock, op: ClockOp, c': Clock)
    requires ValidClock(c)
  {
    match op
    case AccessOp(g) => g < |c.entries| && c' == AccessSpec(c, g)
    case EvictableOp(g, b) => g < |c.entries| && c' == if c.entries[g].present then EvictableSpec(c, g, b) else c
    case RemoveOp(g) => g < |c.entries| && c' == RemoveSpec(c, g)
    case VictimOp(v) => VictimSpec(c, Some(v), c')
  }

  /** The operation is a Victim call, or concerns another frame than `f`. */
  predicate Leaves(op: ClockOp, f: nat)
  {
    if op.VictimOp? then op.v != f else op.g != f
  }

  /** What is left of `f`'s stay: the way of the hand to it, and a whole turn more while
      it is referenced. */
  function Stay(c: Clock, f: nat): nat
    requires c.hand < |c.entries| && f < |c.entries|
  {
    Dist(c.hand, f, |c.entries|) + if c.entries[f].referenced then |c.entries| else 0
  }

  lemma StepShortensStay(c: Clock, op: ClockOp, c': Clock, f: nat)
    requires ValidClock(c) && ClockStep(c, op, c') && f < |c.entries| && Candidate(c.entries[f]) && Leaves(op, f)
    ensures ValidClock(c') && |c'.entries| == |c.entries| && Candidate(c'.entries[f])
    ensures if op.VictimOp? then Stay(c', f) < Stay(c, f) else Stay(c', f) == Stay(c, f)
  {
    if op.VictimOp? {
      VictimMeetsContract(c, Some(op.v), c');
      assert f in EvictableSet(c.entries);
      if Unreferenced(c.entries) == {} { assert f !in Unreferenced(c.entries); }
      else if !c.entries[f].referenced { assert f in Unreferenced(c.entries); }
    }
  }

  /** The states `cs` are those of a run of `ops`. */
  ghost predicate ClockRun(cs: seq<Clock>, ops: seq<ClockOp>)
  {
    && |cs| == |ops| + 1
    && forall i :: 0 <= i < |ops| ==> ValidClock(cs[i]) && ClockStep(cs[i], ops[i], cs[i + 1])
  }

  function VictimCalls(ops: seq<ClockOp>): nat
  {
    if ops == [] then 0 else VictimCalls(ops[..|ops| - 1]) + if ops[|ops| - 1].VictimOp? then 1 else 0
  }

  /** Starvation bound: as long as a frame stays evictable and is not accessed, whatever
      happens to the other frames, fewer than 2n Victim calls can pass it over. */
  lemma {:induction false} NoStarvation(cs: seq<Clock>, ops: seq<ClockOp>, f: nat)
    requires ClockRun(cs, ops) && ValidClock(cs[0]) && f < |cs[0].entries| && Candidate(cs[0].entries[f])
    requires forall i :: 0 <= i < |ops| ==> Leaves(ops[i], f)
    ensures VictimCalls(ops) < 2 * |cs[0].entries|
    ensures ValidClock(cs[|ops|]) && |cs[|ops|].entries| == |cs[0].entries| && Candidate(cs[|ops|].entries[f])
    ensures VictimCalls(ops) + Stay(cs[|ops|], f) <= Stay(cs[0], f)
    decreases |ops|
  {
    if ops != [] {
      var k := |ops| - 1;
      assert ops[..k] + [ops[k]] == ops;
      NoStarvation(cs[..|cs| - 1], ops[..k], f);
      StepShortensStay(cs[k], ops[k], cs[k + 1], f);
    }
  }

  // ----- The second chance -----

  /** Only Victim takes a reference bit away from a frame that stays in the replacer. */
  lemma {:induction false} ReferenceStays(cs: seq<Clock>, ops: seq<ClockOp>, f: nat)
    requires ClockRun(cs, ops) && ValidClock(cs[0]) && f < |cs[0].entries| && cs[0].entries[f].referenced
    requires forall i :: 0 <= i < |ops| ==> !ops[i].VictimOp? && ops[i] != RemoveOp(f)
    ensures ValidClock(cs[|ops|]) && |cs[|ops|].entries| == |cs[0].entries| && cs[|ops|].hand == cs[0].hand
    ensures cs[|ops|].entries[f].referenced
    decreases |ops|
  {
    if ops != [] {
      assert ClockStep(cs[0], ops[0], cs[1]);
      OperationsMeetContract(cs[0], ops[0].g, ops[0].EvictableOp? && ops[0].b);
      ReferenceStays(cs[1..], ops[1..], f);
    }
  }

  /** CLOCK gives a second chance: after an access to `f`, and whatever accesses, flag
      changes and removals of other frames follow, the next Victim returns `f` exactly if
      `f` is evictable, every evictable frame is referenced, and `f` is the first of them
      in clock order. */
  lemma SecondChance(c: Clock, f: nat, cs: seq<Clock>, ops: seq<ClockOp>, r: Option<nat>, c': Clock)
    requires ValidClock(c) && f < |c.entries| && ClockRun(cs, ops) && cs[0] == AccessSpec(c, f)
    requires forall i :: 0 <= i < |ops| ==> !ops[i].VictimOp? && ops[i] != RemoveOp(f)
    requires ValidClock(cs[|ops|]) && VictimSpec(cs[|ops|], r, c')
    ensures var e := cs[|ops|]; var n := |e.entries|;
            && n == |c.entries| && e.hand == c.hand
            && (r == Some(f) <==>
                  && e.entries[f].evictable
                  && forall g :: 0 <= g < n && e.entries[g].evictable ==>
                       e.entries[g].referenced && Dist(e.hand, f, n) <= Dist(e.hand, g, n))
  {
    OperationsMeetContract(c, f, false);
    ReferenceStays(cs, ops, f);
    var e := cs[|ops|];
    assert f !in Unreferenced(e.entries);
    if r == Some(f) {
      forall g | 0 <= g < |e.entries| && e.entries[g].evictable
        ensures e.entries[g].referenced && Dist(e.hand, f, |e.entries|) <= Dist(e.hand, g, |e.entries|)
      {
        assert g in EvictableSet(e.entries);
        assert e.entries[g].referenced <==> g !in Unreferenced(e.entries);
      }
    } else if f in EvictableSet(e.entries) && Unreferenced(e.entries) == {} {
      assert r.value in EvictableSet(e.entries);
      assert Dist(e.hand, r.value, |e.entries|) != Dist(e.hand, f, |e.entries|);
    }
  }

  // ----- The class -----

  datatype Outcome = Done | OutOfRange | UnknownFrame

  class ClockReplacer {
    const entries: array<ClockEntry>
    var hand: nat
    var evictableCount: nat

    ghost function View(): Clock
      reads this, entries
    {
      Clock(entries[..], hand)
    }

    /** The count field is the number of evictable entries. */
    ghost predicate Valid()
      reads this, entries
    {
      ValidClock(View()) && evictableCount == |EvictableSet(entries[..])|
    }

    constructor (frameCount: nat)
      requires 0 < frameCount
      ensures Valid() && fresh(entries)
      ensures View() == Clock(seq(frameCount, _ => EMPTY_ENTRY), 0)
    {
      entries := new ClockEntry[frameCount](_ => EMPTY_ENTRY);
      hand := 0;
      evictableCount := 0;
      new;
      assert entries[..] == seq(frameCount, _ => EMPTY_ENTRY);
      assert EvictableSet(entries[..]) == {};
    }

    method RecordAccess(f: FrameId) returns (r: Outcome)
      requires Valid()
      modifies entries
      ensures Valid() && r == if f < entries.Length then Done else OutOfRange
      ensures View() == if r == Done then AccessSpec(old(View()), f) else old(View())
      ensures r == Done ==> entries[f] == ClockEntry(true, old(entries[f].evictable), true)
      ensures forall g :: 0 <= g < entries.Length && g != f ==> entries[g] == old(entries[g])
    {
      if f >= entries.Length { return OutOfRange; }
      entries[f] := ClockEntry(true, entries[f].evictable, true);
      assert EvictableSet(entries[..]) == EvictableSet(old(entries[..]));
      return Done;
    }

    method SetEvictable(f: FrameId, evictable: bool) returns (r: Outcome)
      requires Valid()
      modifies this`evictableCount, entries
      ensures Valid()
      ensures r == if f >= entries.Length then OutOfRange
                   else if !old(entries[f].present) then UnknownFrame else Done
      ensures View() == if r == Done then EvictableSpec(old(View()), f, evictable) else old(View())
      ensures r == Done ==> entries[f] == ClockEntry(true, evictable, old(entries[f].referenced))
      ensures forall g :: 0 <= g < entries.Length && (g != f || r != Done) ==> entries[g] == old(entries[g])
    {
      if f >= entries.Length { return OutOfRange; }
      if !entries[f].present { return UnknownFrame; }
      if entries[f].evictable == evictable {
        assert entries[..] == entries[..][f := ClockEntry(true, evictable, entries[f].referenced)];
        return Done;
      }
      ghost var before := EvictableSet(entries[..]);
      entries[f] := ClockEntry(true, evictable, entries[f].referenced);
      if evictable {
        assert EvictableSet(entries[..]) == before + {f};
        evictableCount := evictableCount + 1;
      } else {
        assert EvictableSet(entries[..]) == before - {f};
        evictableCount := evictableCount - 1;
      }
      return Done;
    }

    method Remove(f: FrameId) returns (r: Outcome)
      requires Valid()
      modifies this`evictableCount, entries
      ensures Valid() && r == if f < entries.Length then Done else OutOfRange
      ensures View() == if r == Done then RemoveSpec(old(View()), f) else old(View())
      ensures r == Done && old(entries[f].present) ==> entries[f] == ClockEntry(false, false, false)
      ensures r == Done && !old(entries[f].present) ==> entries[f] == old(entries[f])
      ensures forall g :: 0 <= g < entries.Length && g != f ==> entries[g] == old(entries[g])
    {
      if f >= entries.Length { return OutOfRange; }
      if !entries[f].present {
        return Done;
      }
      ghost var before := EvictableSet(entries[..]);
      if entries[f].evictable {
        evictableCount := evictableCount - 1;
      }
      entries[f] := EMPTY_ENTRY;
      assert EvictableSet(entries[..]) == before - {f};
      return Done;
    }

    method AdvanceHand()
      requires hand < entries.Length
      modifies this`hand
      ensures hand == Advance(old(hand), entries.Length)
    {
      hand := hand + 1;
      if hand == entries.Length {
        hand := 0;
      }
    }

    /** The two-pass sweep. */
    method Victim() returns (v: Option<FrameId>)
      requires Valid()
      modifies this, entries
      ensures Valid() && VictimSpec(old(View()), v, View())
    {
      if evictableCount == 0 {
        return None;
      }

      hide MidSweep, VictimSpec;
      ghost var c := View();
      StartOfSweep(c);
      var n := entries.Length;
      var pass := 0;
      while pass < 2
        invariant pass <= 1
        invariant hand == c.hand && evictableCount == |EvictableSet(c.entries)|
        invariant MidSweep(c, entries[..], pass, 0)
        decreases 2 - pass
      {
        var scanned := 0;
        while scanned < n
          invariant scanned <= n
          invariant hand == Position(c.hand, scanned, n) && evictableCount == |EvictableSet(c.entries)|
          invariant MidSweep(c, entries[..], pass, scanned)
        {
          ghost var now := entries[..];
          if entries[hand].present && entries[hand].evictable {
            if entries[hand].referenced {
              entries[hand] := ClockEntry(true, true, false);
            } else {
              MidSweepSet(c, now, pass, scanned);
              var victim := hand;
              var _ := Remove(victim);
              AdvanceHand();
              VictimFound(c, now, pass, scanned, View());
              return Some(victim);
            }
          }
          PassBy(c, now, pass, scanned);
          assert entries[..] == now[hand := Cleared(now[hand])];
          AdvanceHand();
          scanned := scanned + 1;
        }
        PassOver(c, entries[..], pass);
        pass := pass + 1;
      }
      assert false;
      return None;
    }
  }
}
