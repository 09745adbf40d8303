/** The entries of the page table and the rules of its five-state machine. A rule
    names the condition under which the corresponding table operation succeeds;
    when it does not hold the operation throws and leaves the entry alone. */
module PageStates {
  import opened Common

  datatype PageState = Unused | NonResident | Loading | Resident | Evicting

  datatype Entry = Entry(state: PageState, frame: Option<FrameId>)

  const UNUSED_ENTRY := Entry(Unused, None)
  const NON_RESIDENT_ENTRY := Entry(NonResident, None)

  predicate CanFree(e: Entry) { e.state == NonResident }

  predicate CanSetLoading(e: Entry) { e.state == NonResident }

  predicate CanSetResident(e: Entry, f: FrameId)
  {
    && e.state != Unused && e.state != Resident && e.state != Evicting
    && (e.state == Loading ==> e.frame == Some(f))
  }

  predicate CanSetNonResident(e: Entry) { e.state != Unused }

  predicate CanSetEvicting(e: Entry) { e.state == Resident }

  /** A frame id is stored exactly while the page is tied to a frame. */
  predicate FrameStoredRight(e: Entry)
  {
    e.frame.Some? <==> (e.state == Loading || e.state == Resident || e.state == Evicting)
  }
}
