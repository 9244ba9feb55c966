/**
 * The page's activation table seen as a value: which (region, item) slots
 * exist, how `setActivationStatus` validates its path, and what one call, or a
 * sequence of calls, does to the snapshot of `active` flags.
 */
module PageSpec {
  import opened Outcomes
  import opened Activation

  // Regions ("components") and their items
  const NAVIGATION: string := "navigation"
  const HEADER: string := "header"
  const MAIN: string := "main"
  const FOOTER: string := "footer"
  const ITEM: string := "item"
  const LOGO: string := "logo"
  const ACTION: string := "action"
  const CONTENT: string := "content"
  const BLURB: string := "blurb"

  /** The five entries of the table. */
  datatype Slot = NavigationItem | HeaderLogo | HeaderAction | MainContent | FooterBlurb

  /** An address in the table: `state[region][item]`. */
  datatype Path = Path(region: string, item: string)

  /** Where each slot sits in the table. */
  function PathOf(s: Slot): Path {
    match s
    case NavigationItem => Path(NAVIGATION, ITEM)
    case HeaderLogo => Path(HEADER, LOGO)
    case HeaderAction => Path(HEADER, ACTION)
    case MainContent => Path(MAIN, CONTENT)
    case FooterBlurb => Path(FOOTER, BLURB)
  }

  /** The keys of the initial `state` object: region to item to the slot held there. */
  const Layout: map<string, map<string, Slot>> :=
    map[NAVIGATION := map[ITEM := NavigationItem],
        HEADER := map[LOGO := HeaderLogo, ACTION := HeaderAction],
        MAIN := map[CONTENT := MainContent],
        FOOTER := map[BLURB := FooterBlurb]]

  /** The four region names differ, and so do the two header items. */
  lemma NamesDistinct()
    ensures NAVIGATION != HEADER && NAVIGATION != MAIN && NAVIGATION != FOOTER
    ensures HEADER != MAIN && HEADER != FOOTER && MAIN != FOOTER
    ensures LOGO != ACTION
  {
  }

  /** Every slot is found in the layout at its own path. */
  lemma LayoutFindsSlot(s: Slot)
    ensures PathOf(s).region in Layout && PathOf(s).item in Layout[PathOf(s).region]
    ensures Layout[PathOf(s).region][PathOf(s).item] == s
  {
    NamesDistinct();
  }

  lemma LayoutFindsEverySlot()
    ensures forall s: Slot :: PathOf(s).region in Layout && PathOf(s).item in Layout[PathOf(s).region] &&
                              Layout[PathOf(s).region][PathOf(s).item] == s
  {
    forall s: Slot {
      LayoutFindsSlot(s);
    }
  }

  /** Every path of the layout holds the slot whose path it is. */
  lemma LayoutNamesSlot(r: string, i: string)
    requires r in Layout && i in Layout[r]
    ensures PathOf(Layout[r][i]) == Path(r, i)
  {
    NamesDistinct();
  }

  /** The `active` flag of every slot. */
  datatype Snapshot = Snapshot(navigationItem: bool, headerLogo: bool, headerAction: bool,
                               mainContent: bool, footerBlurb: bool)
  {
    function Get(s: Slot): bool {
      match s
      case NavigationItem => navigationItem
      case HeaderLogo => headerLogo
      case HeaderAction => headerAction
      case MainContent => mainContent
      case FooterBlurb => footerBlurb
    }

    /** The snapshot with one slot's flag replaced. */
    function Set(s: Slot, v: bool): (r: Snapshot)
      ensures r.Get(s) == v
      ensures forall q :: q != s ==> r.Get(q) == Get(q)
    {
      match s
      case NavigationItem => this.(navigationItem := v)
      case HeaderLogo => this.(headerLogo := v)
      case HeaderAction => this.(headerAction := v)
      case MainContent => this.(mainContent := v)
      case FooterBlurb => this.(footerBlurb := v)
    }
  }

  /** The flags the table starts with: only the header logo and the main content are active. */
  const InitialSnapshot: Snapshot := Snapshot(false, true, false, true, false)

  lemma InitialFlags()
    ensures forall s :: InitialSnapshot.Get(s) <==> s == HeaderLogo || s == MainContent
  {
  }

  /**
   * The guards of `setActivationStatus`, in the order the source checks them
   * (status, then region, then item), and the slot the path addresses.
   */
  function Validate(status: string, region: string, item: string): (r: Result<Slot>)
    ensures !IsStatus(status) ==> r == Failure(InvalidActivationStatus)
    ensures IsStatus(status) && region !in Layout ==> r == Failure(InvalidPageComponent)
    ensures IsStatus(status) && region in Layout && item !in Layout[region] ==> r == Failure(InvalidComponentItem)
    ensures r.Success? ==> IsStatus(status) && PathOf(r.value) == Path(region, item)
    ensures forall s :: IsStatus(status) && PathOf(s) == Path(region, item) ==> r == Success(s)
  {
    LayoutFindsEverySlot();
    if !IsStatus(status) then Failure(InvalidActivationStatus)
    else if region !in Layout then Failure(InvalidPageComponent)
    else if item !in Layout[region] then Failure(InvalidComponentItem)
    else
      LayoutNamesSlot(region, item);
      Success(Layout[region][item])
  }

  /**
   * The pre-bound handlers fix a status from the set and a path of the
   * layout, so their guards always pass and they address their own slot.
   */
  lemma BoundPathsValid(status: string, s: Slot)
    requires status == ACTIVATED || status == DEACTIVATED
    ensures Validate(status, PathOf(s).region, PathOf(s).item) == Success(s)
  {
  }

  /** One call `setActivationStatus(status)(region)(item)()`. */
  datatype Call = Call(status: string, region: string, item: string)

  function Addressed(c: Call): Result<Slot> {
    Validate(c.status, c.region, c.item)
  }

  /** What one call does: its outcome, the new snapshot, and whether `setState` ran. */
  datatype Effect = Effect(outcome: Result<()>, snapshot: Snapshot, notified: bool)

  /**
   * One call on a snapshot. After the guards, a slot that already holds the
   * status (`compareStatus`) is left alone and nobody is notified; otherwise
   * that one slot is toggled and one `setState` notification happens.
   */
  function Step(snap: Snapshot, c: Call): (e: Effect)
    ensures e.outcome.Failure? <==> Addressed(c).Failure?
    ensures e.outcome.Failure? ==> e.outcome.error == Addressed(c).error && e.snapshot == snap
    ensures e.outcome.Success? ==> e.snapshot.Get(Addressed(c).value) == (c.status == ACTIVATED)
    ensures forall q :: Addressed(c) != Success(q) ==> e.snapshot.Get(q) == snap.Get(q)
    ensures e.notified <==> e.snapshot != snap
  {
    match Addressed(c)
    case Failure(err) => Effect(Failure(err), snap, false)
    case Success(s) =>
      if KeyFor(snap.Get(s)) == c.status then Effect(Success(()), snap, false)
      else Effect(Success(()), snap.Set(s, c.status == ACTIVATED), true)
  }

  /** A repeated call changes nothing more and notifies nobody. */
  lemma StepIdempotent(snap: Snapshot, c: Call)
    ensures Step(Step(snap, c).snapshot, c).snapshot == Step(snap, c).snapshot
    ensures !Step(Step(snap, c).snapshot, c).notified
    ensures Step(Step(snap, c).snapshot, c).outcome == Step(snap, c).outcome
  {
  }

  /** The snapshot and the number of notifications after a sequence of calls. */
  datatype Trace = Trace(snapshot: Snapshot, notifications: nat)

  function Run(snap: Snapshot, calls: seq<Call>): (t: Trace)
    ensures t.notifications <= |calls|
    decreases |calls|
  {
    if calls == [] then Trace(snap, 0)
    else
      var e := Step(snap, calls[0]);
      var rest := Run(e.snapshot, calls[1..]);
      Trace(rest.snapshot, rest.notifications + if e.notified then 1 else 0)
  }

  /** Running `xs` then `ys` is running `xs + ys`. */
  lemma {:induction false} RunAppend(snap: Snapshot, xs: seq<Call>, ys: seq<Call>)
    ensures Run(snap, xs + ys).snapshot == Run(Run(snap, xs).snapshot, ys).snapshot
    ensures Run(snap, xs + ys).notifications ==
              Run(snap, xs).notifications + Run(Run(snap, xs).snapshot, ys).notifications
    decreases |xs|
  {
    if xs == [] {
      assert xs + ys == ys;
    } else {
      assert (xs + ys)[0] == xs[0];
      assert (xs + ys)[1..] == xs[1..] + ys;
      RunAppend(Step(snap, xs[0]).snapshot, xs[1..], ys);
    }
  }

  /** Items are independent: calls that address other slots never change `p`. */
  lemma {:induction false} RunLeavesOtherSlots(snap: Snapshot, calls: seq<Call>, p: Slot)
    requires forall i :: 0 <= i < |calls| ==> Addressed(calls[i]) != Success(p)
    ensures Run(snap, calls).snapshot.Get(p) == snap.Get(p)
    decreases |calls|
  {
    if calls != [] {
      RunLeavesOtherSlots(Step(snap, calls[0]).snapshot, calls[1..], p);
    }
  }

  /**
   * Reference definition of a slot's flag after a sequence of calls: the
   * status of the last accepted call that addressed it, or its initial flag.
   */
  function LastWritten(initial: bool, p: Slot, calls: seq<Call>): bool
    decreases |calls|
  {
    if calls == [] then initial
    else
      var c := calls[|calls| - 1];
      if Addressed(c) == Success(p) then c.status == ACTIVATED
      else LastWritten(initial, p, calls[..|calls| - 1])
  }

  /** The last accepted call on a slot decides its flag. */
  lemma {:induction false} RunLastWriteWins(snap: Snapshot, calls: seq<Call>, p: Slot)
    ensures Run(snap, calls).snapshot.Get(p) == LastWritten(snap.Get(p), p, calls)
    decreases |calls|
  {
    if calls != [] {
      var init, c := calls[..|calls| - 1], calls[|calls| - 1];
      assert calls == init + [c];
      RunAppend(snap, init, [c]);
      RunLastWriteWins(snap, init, p);
      var mid := Run(snap, init).snapshot;
      assert Run(mid, [c]).snapshot == Step(mid, c).snapshot;
    }
  }
}
