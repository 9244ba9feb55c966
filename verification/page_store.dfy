/**
 * The `Page` component's `state`: a two-level object region -> item ->
 * `Activator`, mutated in place by `setActivationStatus`. React's `setState`
 * is modelled as a synchronous update followed by one notification, counted
 * in `notifications`.
 */
module PageStore {
  import opened Outcomes
  import opened Activation
  import opened PageSpec

  type Table = map<string, map<string, Activator>>

  /** The table built by the `state` initialiser, for its five activators. */
  function InitialTable(nav: Activator, logo: Activator, action: Activator, content: Activator, blurb: Activator): Table {
    map[NAVIGATION := map[ITEM := nav], HEADER := map[LOGO := logo, ACTION := action],
        MAIN := map[CONTENT := content], FOOTER := map[BLURB := blurb]]
  }

  /** The initial table has the layout's keys, and holds at each path the activator of the layout's slot. */
  lemma InitialTableAt(nav: Activator, logo: Activator, action: Activator, content: Activator, blurb: Activator,
                       r: string, i: string)
    ensures var t := InitialTable(nav, logo, action, content, blurb);
      (r in t <==> r in Layout) && (r in t ==> (i in t[r] <==> i in Layout[r])) &&
      (r in t && i in t[r] ==>
         t[r][i] == match Layout[r][i]
                    case NavigationItem => nav
                    case HeaderLogo => logo
                    case HeaderAction => action
                    case MainContent => content
                    case FooterBlurb => blurb)
  {
    NamesDistinct();
  }

  class Page {
    var state: Table
    /** How many times `setState` has been called (each call re-renders the page). */
    var notifications: nat
    /** The five activators the table owns, one per slot. */
    ghost var navigationItem: Activator
    ghost var headerLogo: Activator
    ghost var headerAction: Activator
    ghost var mainContent: Activator
    ghost var footerBlurb: Activator
    ghost var Repr: set<Activator>

    /** The activator of a slot. */
    ghost function At(s: Slot): Activator
      reads this
    {
      match s
      case NavigationItem => navigationItem
      case HeaderLogo => headerLogo
      case HeaderAction => headerAction
      case MainContent => mainContent
      case FooterBlurb => footerBlurb
    }

    /** Five distinct, valid activators, one per slot, laid out as the initialiser put them. */
    ghost predicate Valid()
      reads this, Repr
    {
      state == InitialTable(navigationItem, headerLogo, headerAction, mainContent, footerBlurb) &&
      Repr == {navigationItem, headerLogo, headerAction, mainContent, footerBlurb} &&
      navigationItem != headerLogo && navigationItem != headerAction && navigationItem != mainContent &&
      navigationItem != footerBlurb && headerLogo != headerAction && headerLogo != mainContent &&
      headerLogo != footerBlurb && headerAction != mainContent && headerAction != footerBlurb &&
      mainContent != footerBlurb &&
      navigationItem.Valid() && headerLogo.Valid() && headerAction.Valid() && mainContent.Valid() &&
      footerBlurb.Valid()
    }

    /** The `active` flag of every slot, as the render method reads them. */
    ghost function Flags(): Snapshot
      reads this, Repr
      requires Valid()
    {
      Snapshot(navigationItem.active, headerLogo.active, headerAction.active, mainContent.active, footerBlurb.active)
    }

    /** The `state` initialiser. */
    constructor ()
      ensures Valid() && fresh(Repr)
      ensures Flags() == InitialSnapshot
      ensures notifications == 0
    {
      var nav := new Activator();
      var logo := new Activator(true);
      var action := new Activator();
      var content := new Activator(true);
      var blurb := new Activator();
      state := InitialTable(nav, logo, action, content, blurb);
      notifications := 0;
      navigationItem, headerLogo, headerAction, mainContent, footerBlurb := nav, logo, action, content, blurb;
      Repr := {nav, logo, action, content, blurb};
    }

    /**
     * `setActivationStatus(status)(component)(item)()`: validate the path,
     * return early if the activator already holds the status, otherwise
     * toggle it in place inside `setState`.
     */
    method SetActivationStatus(status: string, component: string, item: string) returns (r: Result<()>)
      requires Valid()
      modifies Repr, this`notifications
      ensures Valid() && Repr == old(Repr) && state == old(state)
      ensures var e := Step(old(Flags()), Call(status, component, item));
              r == e.outcome && Flags() == e.snapshot &&
              notifications == old(notifications) + if e.notified then 1 else 0
    {
      if !IsStatus(status) {
        return Failure(InvalidActivationStatus);
      }
      InitialTableAt(navigationItem, headerLogo, headerAction, mainContent, footerBlurb, component, item);
      if component !in state {
        return Failure(InvalidPageComponent);
      }
      var componentState := state[component];
      if item !in componentState {
        return Failure(InvalidComponentItem);
      }
      var target := componentState[item];
      ghost var s := Layout[component][item];
      ghost var before := Flags();
      assert Validate(status, component, item) == Success(s);
      assert target == At(s) && target.active == before.Get(s);
      if target.CompareStatus(status) {
        return Success(());
      }
      // the updater passed to setState, then React's notification
      var thrown := target.ToggleBasedOnStatus(status);
      notifications := notifications + 1;
      r := Success(());
      assert Flags() == before.Set(s, status == ACTIVATED);
    }

    /**
     * The handlers `setActivatedStatusFor<Region><Item>` (the ten bound
     * handlers are these two with the slot fixed): `setActivationStatus`
     * with the status ACTIVATED and a path that is always valid.
     */
    method SetActivatedStatusFor(s: Slot)
      requires Valid()
      modifies Repr, this`notifications
      ensures Valid() && Repr == old(Repr) && state == old(state)
      ensures Flags() == old(Flags()).Set(s, true)
      ensures notifications == old(notifications) + if old(Flags()).Get(s) then 0 else 1
    {
      var r := SetActivationStatus(ACTIVATED, PathOf(s).region, PathOf(s).item);
    }

    /** The handlers `setDeactivatedStatusFor<Region><Item>`. */
    method SetDeactivatedStatusFor(s: Slot)
      requires Valid()
      modifies Repr, this`notifications
      ensures Valid() && Repr == old(Repr) && state == old(state)
      ensures Flags() == old(Flags()).Set(s, false)
      ensures notifications == old(notifications) + if old(Flags()).Get(s) then 1 else 0
    {
      var r := SetActivationStatus(DEACTIVATED, PathOf(s).region, PathOf(s).item);
    }
  }

  /**
   * A fresh page: the footer blurb starts inactive, is activated (one
   * notification), activated again (none), then deactivated (one more).
   */
  method FooterBlurbScenario() returns (before: bool, activated: bool, deactivated: bool, notified: nat)
    ensures !before && activated && !deactivated && notified == 2
  {
    var page := new Page();
    before := page.state[FOOTER][BLURB].active;
    page.SetActivatedStatusFor(FooterBlurb);
    page.SetActivatedStatusFor(FooterBlurb);
    activated := page.state[FOOTER][BLURB].active;
    page.SetDeactivatedStatusFor(FooterBlurb);
    deactivated := page.state[FOOTER][BLURB].active;
    notified := page.notifications;
  }

  /** Each guard of `setActivationStatus` raises its own error, status first. */
  method GuardScenario() returns (badStatus: Result<()>, badRegion: Result<()>, badItem: Result<()>, badAll: Result<()>)
    ensures badStatus == Failure(InvalidActivationStatus)
    ensures badRegion == Failure(InvalidPageComponent)
    ensures badItem == Failure(InvalidComponentItem)
    ensures badAll == Failure(InvalidActivationStatus)
  {
    var page := new Page();
    assert !IsStatus("BOGUS") && IsStatus(ACTIVATED);
    assert "sidebar" !in Layout && HEADER in Layout && "bogus" !in Layout[HEADER];
    badStatus := page.SetActivationStatus("BOGUS", HEADER, LOGO);
    badRegion := page.SetActivationStatus(ACTIVATED, "sidebar", "x");
    badItem := page.SetActivationStatus(ACTIVATED, HEADER, "bogus");
    badAll := page.SetActivationStatus("BOGUS", "sidebar", "x");
  }
}
