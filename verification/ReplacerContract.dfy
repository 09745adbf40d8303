/** What the buffer manager relies on in a replacer: which frames it tracks and
    which of those may be chosen as a victim. The reference bits and the hand of
    the clock are below this view. */
module ReplacerContract {
  import opened Common

  /** Tracked frames; the value says whether the frame is evictable. */
  type Tracked = map<FrameId, bool>

  function Access(r: Tracked, f: FrameId): Tracked
  {
    if f in r then r else r[f := false]
  }

  predicate CanSetEvictable(r: Tracked, f: FrameId) { f in r }

  function SetEvictable(r: Tracked, f: FrameId, evictable: bool): Tracked
  {
    if f in r then r[f := evictable] else r
  }

  function Remove(r: Tracked, f: FrameId): Tracked
  {
    r - {f}
  }

  predicate IsEvictable(r: Tracked, f: FrameId) { f in r && r[f] }

  /** `Victim` may return `v`: an evictable frame when there is one. */
  ghost predicate VictimAllowed(r: Tracked, v: Option<FrameId>)
  {
    match v
    case Some(f) => IsEvictable(r, f)
    case None => forall f :: !IsEvictable(r, f)
  }
}
