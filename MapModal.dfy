/**
 * The map dialog of `components/MapModal.tsx`: category chips filter the
 * opportunities shown as markers; clicking a marker selects it and opens
 * a detail panel at the bottom, whose primary button applies or cancels
 * like the details dialog's (`OpportunityModal`) but with the differences
 * `PanelEffect` and `PanelButton` spell out.
 *
 * The panel is one component instance that stays mounted while some
 * opportunity is selected, even when the selection moves to another
 * marker; `mount` numbers the instances. Its delayed steps are `PanelTimer`
 * values that `FireTimer` runs in any order.
 */
module MapModal {
  import opened Types
  import opened Js
  import opened VolunteerContext
  import opened OpportunityModal

  // ---------------------------------------------------------------------------
  // Markers

  /** The chips: `'all'` or one category. */
  datatype CategoryFilter = All | Only(category: OpportunityCategory)

  /** `(opp.lat && opp.lng) && (selectedCategory === 'all' || opp.category === selectedCategory)`:
      a zero coordinate is falsy, so such an opportunity gets no marker. */
  predicate OnMap(f: CategoryFilter, o: Opportunity) {
    o.lat != 0.0 && o.lng != 0.0 && (f.All? || o.category == f.category)
  }

  /** `filteredOpportunities`, in the catalogue's order. */
  function Visible(opportunities: seq<Opportunity>, f: CategoryFilter): (r: seq<Opportunity>)
    ensures forall o :: o in r <==> o in opportunities && OnMap(f, o)
    ensures multiset(r) <= multiset(opportunities)
    ensures InOrderSelection(r, opportunities, o => OnMap(f, o))
  {
    FilterMembers(opportunities, o => OnMap(f, o));
    FilterInOrder(opportunities, o => OnMap(f, o));
    Filter(opportunities, o => OnMap(f, o))
  }

  lemma {:induction false} FilterBoth<T>(s: seq<T>, p: T -> bool, q: T -> bool, pq: T -> bool)
    requires forall x :: pq(x) == (p(x) && q(x))
    ensures Filter(Filter(s, p), q) == Filter(s, pq)
  {
    if s != [] {
      FilterBoth(s[1..], p, q, pq);
      if p(s[0]) {
        assert Filter(s, p)[1..] == Filter(s[1..], p);
      }
    }
  }

  /** Choosing a category keeps exactly the markers of that category that
      "all" shows, in the same order. */
  lemma CategoryNarrowsAll(opportunities: seq<Opportunity>, c: OpportunityCategory)
    ensures Visible(opportunities, Only(c))
      == Filter(Visible(opportunities, All), (o: Opportunity) => o.category == c)
  {
    FilterBoth(opportunities, o => OnMap(All, o), (o: Opportunity) => o.category == c,
               o => OnMap(Only(c), o));
  }

  // ---------------------------------------------------------------------------
  // The detail panel's primary button

  const PanelAppliedLabel: string := "تم التقديم!"

  /** The panel's `getButtonState`: the dialog's, except for the success
      label after applying. */
  function PanelButton(action: ActionStatus, status: Option<OpportunityStatus>): (b: ButtonState)
    ensures b.disabled == ButtonFor(action, status).disabled
    ensures action != SuccessReg ==> b == ButtonFor(action, status)
    ensures action == SuccessReg ==> b.text == PanelAppliedLabel
  {
    match action
    case Registering => ButtonState(SendingLabel, true)
    case Cancelling => ButtonState(CancellingLabel, true)
    case SuccessReg => ButtonState(PanelAppliedLabel, true)
    case SuccessCancel => ButtonState(CancelledLabel, true)
    case Idle =>
      if status == Some(Completed) then ButtonState(CompletedLabel, true)
      else if status == Some(Registered) then ButtonState(CancelLabel, false)
      else ButtonState(ApplyLabel, false)
  }

  /** The panel's `handlePrimaryAction`: nothing unless idle; the profile
      page without a volunteer (and the panel stays open); cancelling when
      REGISTERED; the application form, expanded, for every other status,
      COMPLETED included. */
  function PanelEffect(action: ActionStatus, hasVolunteer: bool, status: Option<OpportunityStatus>): Effect {
    if action != Idle then Ignored
    else if !hasVolunteer then ToProfile
    else if status == Some(Registered) then StartCancel
    else StartApplying
  }

  /** The panel's handler chooses as the dialog's does except for a
      COMPLETED record, where it opens the form instead of doing nothing;
      its button is disabled then, so a click cannot reach that case. */
  lemma PanelEffectLikeDialog(action: ActionStatus, hasVolunteer: bool, status: Option<OpportunityStatus>)
    ensures status != Some(Completed) ==>
      PanelEffect(action, hasVolunteer, status) == PrimaryEffect(action, hasVolunteer, status)
    ensures action == Idle && hasVolunteer && status == Some(Completed) ==>
      PanelEffect(action, hasVolunteer, status) == StartApplying
      && PrimaryEffect(action, hasVolunteer, status) == Ignored
      && PanelButton(action, status).disabled
  {
    if status.Some? {
      match status.value
      case Completed =>
      case Registered =>
      case Cancelled =>
    }
  }

  // ---------------------------------------------------------------------------
  // The panel's timers

  /** The job of a delayed step. */
  datatype Job = CancelJob | RegisterJob(text: string)

  /** A delayed step, with the panel instance and the opportunity it was
      started for. */
  datatype PanelTimer = PanelTimer(job: Job, mount: nat, forId: int)

  function Success(job: Job): ActionStatus {
    if job.CancelJob? then SuccessCancel else SuccessReg
  }

  /**
   * The status the panel shows after a timer fires, as written: the
   * timer's `setActionStatus` reaches the instance that started it while
   * that instance is mounted, whichever opportunity it shows by then
   * (moving to another marker resets the status to idle but does not stop
   * the timer).
   */
  function StatusAfterTimerAsWritten(t: PanelTimer, mount: nat, shown: Option<int>, status: ActionStatus): ActionStatus {
    if t.mount == mount && shown.Some? then Success(t.job) else status
  }

  /** A timer started for opportunity 1 lands on the panel of opportunity 2
      after the user moved there: the panel shows "cancelled" for an
      opportunity nothing was done to, and its button stays disabled (so it
      ignores every press) until another marker is chosen. */
  lemma StaleTimerLandsOnOtherPanel()
    ensures var s := StatusAfterTimerAsWritten(PanelTimer(CancelJob, 1, 1), 1, Some(2), Idle);
      && s == SuccessCancel
      && PanelButton(s, None) == ButtonState(CancelledLabel, true)
      && PanelEffect(s, true, None) == Ignored
  {
  }

  /** The status after a timer fires, as intended: only the panel showing
      the timer's opportunity in the instance that started it changes. */
  function StatusAfterTimer(t: PanelTimer, mount: nat, shown: Option<int>, status: ActionStatus): (r: ActionStatus)
    ensures r != status ==> t.mount == mount && shown == Some(t.forId)
    ensures t.mount == mount && shown == Some(t.forId) ==> r == Success(t.job)
  {
    if t.mount == mount && shown == Some(t.forId) then Success(t.job) else status
  }

  /** The two agree whenever the panel still shows the timer's opportunity. */
  lemma TimerFixAgrees(t: PanelTimer, mount: nat, shown: Option<int>, status: ActionStatus)
    requires shown.Some? ==> shown.value == t.forId
    ensures StatusAfterTimer(t, mount, shown, status) == StatusAfterTimerAsWritten(t, mount, shown, status)
  {
  }

  // ---------------------------------------------------------------------------
  // The dialog

  class MapScreen {
    const opportunities: seq<Opportunity>
    const context: VolunteerProvider
    var category: CategoryFilter
    var selected: Option<Opportunity>
    var expanded: bool
    var isClosing: bool
    var navigatedToProfile: bool
    // The detail panel, shown while an opportunity is selected.
    var mount: nat
    var actionStatus: ActionStatus
    var step: Step
    var applicationText: string
    var timers: seq<PanelTimer>

    /** The markers on the map. */
    function Markers(): seq<Opportunity>
      reads this
    {
      Visible(opportunities, category)
    }

    function ShownId(): Option<int>
      reads this
    {
      if selected.None? then None else Some(selected.value.id)
    }

    constructor (opportunities: seq<Opportunity>, context: VolunteerProvider)
      ensures this.opportunities == opportunities && this.context == context
      ensures category == All && selected == None && !expanded && !isClosing
      ensures !navigatedToProfile && mount == 0 && timers == []
      ensures actionStatus == Idle && step == Details && applicationText == ""
    {
      this.opportunities := opportunities;
      this.context := context;
      category := All;
      selected := None;
      expanded := false;
      isClosing := false;
      navigatedToProfile := false;
      mount := 0;
      actionStatus := Idle;
      step := Details;
      applicationText := "";
      timers := [];
    }

    method SelectCategory(c: CategoryFilter)
      modifies this
      ensures category == c
      ensures selected == old(selected) && expanded == old(expanded)
      ensures actionStatus == old(actionStatus) && timers == old(timers) && mount == old(mount)
    {
      category := c;
    }

    /**
     * `handleMarkerClick`: the selected marker toggles the panel's
     * expansion; another marker becomes the selection with the panel
     * collapsed, and the panel starts over (a new instance when none was
     * shown, the reset effect on the opportunity id otherwise).
     */
    method MarkerClick(o: Opportunity)
      modifies this
      ensures old(ShownId()) == Some(o.id) ==>
        expanded == !old(expanded) && selected == old(selected)
        && actionStatus == old(actionStatus) && step == old(step)
        && applicationText == old(applicationText) && mount == old(mount)
      ensures old(ShownId()) != Some(o.id) ==>
        selected == Some(o) && !expanded
        && actionStatus == Idle && step == Details && applicationText == ""
        && mount == (if old(selected).None? then old(mount) + 1 else old(mount))
      ensures timers == old(timers) && category == old(category) && isClosing == old(isClosing)
    {
      if ShownId() == Some(o.id) {
        expanded := !expanded;
      } else {
        if selected.None? {
          mount := mount + 1;
        }
        selected := Some(o);
        expanded := false;
        actionStatus := Idle;
        step := Details;
        applicationText := "";
      }
    }

    /** `handleMapClick`: no selection, so no panel. */
    method MapClick()
      modifies this
      ensures selected == None && !expanded
      ensures mount == old(mount) && timers == old(timers) && category == old(category)
      ensures actionStatus == old(actionStatus) && isClosing == old(isClosing)
    {
      selected := None;
      expanded := false;
    }

    /** The panel's `onCollapse`. */
    method Collapse()
      modifies this
      ensures !expanded
      ensures selected == old(selected) && mount == old(mount) && timers == old(timers)
      ensures actionStatus == old(actionStatus) && step == old(step)
    {
      expanded := false;
    }

    method HandleClose()
      modifies this
      ensures isClosing
      ensures selected == old(selected) && expanded == old(expanded) && timers == old(timers)
      ensures actionStatus == old(actionStatus) && step == old(step) && mount == old(mount)
    {
      isClosing := true;
    }

    method EditText(text: string)
      requires selected.Some?
      modifies this
      ensures applicationText == text
      ensures selected == old(selected) && expanded == old(expanded) && timers == old(timers)
      ensures actionStatus == old(actionStatus) && step == old(step) && mount == old(mount)
    {
      applicationText := text;
    }

    method BackToDetails()
      requires selected.Some?
      modifies this
      ensures step == Details
      ensures selected == old(selected) && expanded == old(expanded) && timers == old(timers)
      ensures actionStatus == old(actionStatus) && applicationText == old(applicationText)
    {
      step := Details;
    }

    /** The panel's `handlePrimaryAction`, acting as `PanelEffect` says. */
    method PrimaryAction() returns (effect: Effect)
      requires selected.Some?
      modifies this
      ensures selected == old(selected)
      ensures var id := selected.value.id;
        effect == PanelEffect(old(actionStatus), context.volunteer.Some?,
                              CurrentStatus(context.volunteer, id))
      ensures effect == Ignored ==>
        actionStatus == old(actionStatus) && step == old(step) && expanded == old(expanded)
        && timers == old(timers) && navigatedToProfile == old(navigatedToProfile)
      ensures effect == ToProfile ==>
        navigatedToProfile && isClosing == old(isClosing)
        && actionStatus == old(actionStatus) && step == old(step) && expanded == old(expanded)
        && timers == old(timers)
      ensures effect == StartCancel ==>
        actionStatus == Cancelling && timers == old(timers) + [PanelTimer(CancelJob, mount, selected.value.id)]
        && step == old(step) && expanded == old(expanded)
      ensures effect == StartApplying ==>
        step == Applying && expanded
        && actionStatus == old(actionStatus) && timers == old(timers)
      ensures mount == old(mount) && isClosing == old(isClosing)
      ensures applicationText == old(applicationText) && category == old(category)
    {
      var id := selected.value.id;
      effect := PanelEffect(actionStatus, context.volunteer.Some?, CurrentStatus(context.volunteer, id));
      match effect {
        case Ignored =>
        case ToProfile =>
          navigatedToProfile := true;
        case StartCancel =>
          actionStatus := Cancelling;
          timers := timers + [PanelTimer(CancelJob, mount, id)];
        case StartApplying =>
          step := Applying;
          expanded := true;
      }
    }

    /** The panel's `handleSubmitApplication`. */
    method SubmitApplication() returns (started: bool)
      requires selected.Some?
      modifies this
      ensures selected == old(selected)
      ensures started == CanSubmit(old(actionStatus), applicationText)
      ensures started ==>
        actionStatus == Registering
        && timers == old(timers) + [PanelTimer(RegisterJob(applicationText), mount, selected.value.id)]
      ensures !started ==> actionStatus == old(actionStatus) && timers == old(timers)
      ensures mount == old(mount) && step == old(step)
      ensures applicationText == old(applicationText) && expanded == old(expanded)
    {
      started := CanSubmit(actionStatus, applicationText);
      if started {
        actionStatus := Registering;
        timers := timers + [PanelTimer(RegisterJob(applicationText), mount, selected.value.id)];
      }
    }

    /** Timer `k` fires: its job runs on the current volunteer for the
        opportunity it was started for, and the panel's status follows
        `StatusAfterTimer`. */
    method FireTimer(k: nat)
      requires k < |timers|
      modifies this, context
      ensures var t := old(timers[k]);
        && timers == old(timers[..k] + timers[k + 1..])
        && (t.job.CancelJob? ==> context.volunteer == Cancel(old(context.volunteer), t.forId))
        && (t.job.RegisterJob? ==>
              context.volunteer == Register(old(context.volunteer), t.forId, t.job.text))
        && actionStatus == StatusAfterTimer(t, mount, ShownId(), old(actionStatus))
      ensures context.isAuthenticated == old(context.isAuthenticated)
      ensures old(context.Valid()) ==> context.Valid()
      ensures selected == old(selected) && mount == old(mount) && step == old(step)
      ensures expanded == old(expanded) && applicationText == old(applicationText)
    {
      var t := timers[k];
      timers := timers[..k] + timers[k + 1..];
      match t.job {
        case CancelJob =>
          context.CancelRegistration(t.forId);
        case RegisterJob(text) =>
          context.RegisterForOpportunity(t.forId, text);
      }
      actionStatus := StatusAfterTimer(t, mount, ShownId(), actionStatus);
    }
  }
}
