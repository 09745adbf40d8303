/** No thread sleeps without a reason: whoever waits without a notification on its way
    still waits for something that has not happened yet. */
module ProtocolWaiting {
  import opened Common
  import opened PageStates
  import opened Protocol
  import opened ProtocolInvariant
  import opened ProtocolTheorems
  import R = ReplacerContract

  /** Thread `t` has a reason to wait: it looks for a frame, and there is none free and
      none to evict while some frame is in transit; or its page is loading or evicting. */
  ghost predicate HasReason(s: State, t: ThreadId)
  {
    && t < |s.pcs| && IsLoop(s.pcs[t])
    && if s.pcs[t].NewLoop? || (s.pcs[t].FetchLoop? && PageIs(s, s.pcs[t].page, NonResident))
       then NoFreeFrame(s) && NoVictim(s) && HasTransientFrame(s)
       else PageIs(s, s.pcs[t].page, Loading) || PageIs(s, s.pcs[t].page, Evicting)
  }

  ghost predicate WaitersHaveReason(s: State)
  {
    forall t {:trigger HasReason(s, t)} :: t in s.waiting ==> HasReason(s, t)
  }

  lemma ClientStepReason(s: State, step: Step, t: ThreadId)
    requires Inv(s) && Enabled(s, step) && ClientRules(s, step) && OfClient(step)
    requires t in s.waiting && HasReason(s, t) && t in ApplyOfClient(s, step).waiting
    ensures HasReason(ApplyOfClient(s, step), t)
  {
    var s' := ApplyOfClient(s, step);
    if HasTransientFrame(s) {
      var f :| 0 <= f < |s.meta| && Transient(s.meta[f]);
      assert Transient(s'.meta[f]);
    }
  }

  lemma WindowStepReason(s: State, step: Step, t: ThreadId)
    requires Inv(s) && Enabled(s, step) && InWindow(step)
    requires t in s.waiting && HasReason(s, t) && t in ApplyInWindow(s, step).waiting
    ensures HasReason(ApplyInWindow(s, step), t)
  {
  }

  /** Whoever takes a frame finds nobody waiting for one. */
  lemma TakeStepReason(s: State, step: Step, t: ThreadId)
    requires Inv(s) && Enabled(s, step) && (step.EvictBegin? || step.LoadBegin?)
    requires t in s.waiting && HasReason(s, t)
    ensures HasReason(ApplyUnderMutex(s, step), t)
  {
    if step.EvictBegin? { assert FrameOk(s, step.f); }
  }

  /** A pin makes no frame evictable. */
  lemma PinStepReason(s: State, step: Step, t: ThreadId)
    requires Inv(s) && Enabled(s, step) && (step.FetchHit? || step.FlushBegin?)
    requires t in s.waiting && HasReason(s, t)
    ensures HasReason(ApplyUnderMutex(s, step), t)
  {
    var s' := ApplyUnderMutex(s, step);
    assert PageOk(s, s.pcs[step.t].page);
    if NoVictim(s) {
      forall f | 0 <= f < |s.meta| ensures !R.IsEvictable(s'.tracked, f) { assert !R.IsEvictable(s.tracked, f); }
      assert NoVictim(s');
    }
    if HasTransientFrame(s) {
      var f :| 0 <= f < |s.meta| && Transient(s.meta[f]);
      assert Transient(s'.meta[f]);
    }
  }

  lemma MutexStepReason(s: State, step: Step, t: ThreadId)
    requires Inv(s) && Enabled(s, step) && ClientRules(s, step) && !OfClient(step) && !InWindow(step)
    requires t in ApplyUnderMutex(s, step).waiting && (t in s.waiting ==> HasReason(s, t))
    ensures HasReason(ApplyUnderMutex(s, step), t)
  {
    var s' := ApplyUnderMutex(s, step);
    if step.EvictBegin? || step.LoadBegin? {
      TakeStepReason(s, step, t);
    } else if step.FetchHit? || step.FlushBegin? {
      PinStepReason(s, step, t);
    } else if t in s.waiting && HasTransientFrame(s) {
      var f :| 0 <= f < |s.meta| && Transient(s.meta[f]);
      assert Transient(s'.meta[f]);
    }
  }

  /** Every step leaves a reason to those who still wait. */
  lemma StepKeepsReasons(s: State, step: Step)
    requires Inv(s) && WaitersHaveReason(s) && Enabled(s, step) && ClientRules(s, step)
    ensures WaitersHaveReason(Apply(s, step))
  {
    var s' := Apply(s, step);
    forall t | t in s'.waiting ensures HasReason(s', t) {
      StepReason(s, step, t);
    }
  }

  lemma StepReason(s: State, step: Step, t: ThreadId)
    requires Inv(s) && Enabled(s, step) && ClientRules(s, step)
    requires t in Apply(s, step).waiting && (t in s.waiting ==> HasReason(s, t))
    ensures HasReason(Apply(s, step), t)
  {
    hide Inv, Enabled, ClientRules, HasReason, ApplyOfClient, ApplyInWindow, ApplyUnderMutex;
    OnlyWaitsAdd(s, step, t);
    if OfClient(step) {
      ClientStepReason(s, step, t);
    } else if InWindow(step) {
      WindowStepReason(s, step, t);
    } else {
      MutexStepReason(s, step, t);
    }
  }

  lemma OnlyWaitsAdd(s: State, step: Step, t: ThreadId)
    requires Inv(s) && Enabled(s, step) && t in Apply(s, step).waiting
    ensures OfClient(step) || InWindow(step) ==> t in s.waiting
  {
  }

  lemma {:induction false} RunKeepsReasons(s: State, steps: seq<Step>)
    requires Inv(s) && WaitersHaveReason(s) && Legal(s, steps)
    ensures WaitersHaveReason(Execute(s, steps))
    decreases |steps|
  {
    hide Inv, Enabled, ClientRules, Apply, WaitersHaveReason;
    if steps != [] {
      StepKeeps(s, steps[0]);
      StepKeepsReasons(s, steps[0]);
      RunKeepsReasons(Apply(s, steps[0]), steps[1..]);
    }
  }

  lemma ReachableReasons(s: State)
    requires Reachable(s)
    ensures WaitersHaveReason(s)
  {
    hide Inv, Enabled, ClientRules, Apply;
    var s0: State, steps: seq<Step> :| Init(s0) && Legal(s0, steps) && Execute(s0, steps) == s;
    InitInv(s0);
    RunKeepsReasons(s0, steps) by { hide Legal, Execute; }
  }
}
