/**
 * The details dialog of `components/OpportunityModal.tsx`: its primary
 * button applies for the opportunity or cancels the registration, through
 * the session provider of `VolunteerContext`.
 *
 * The dialog's delayed steps (`setTimeout`) are a pending `Timer` that
 * `FireTimer` runs; `isClosing` stands for `handleClose` having run, after
 * which the parent's `onClose` follows. `navigatedToProfile` records the
 * `navigate('/profile')` call.
 */
module OpportunityModal {
  import opened Types
  import opened Js
  import opened VolunteerContext

  /** The five action statuses; all but `Idle` are transient. */
  datatype ActionStatus = Idle | Registering | Cancelling | SuccessReg | SuccessCancel

  datatype Step = Details | Applying

  /** The primary button's label and disabled flag. */
  datatype ButtonState = ButtonState(text: string, disabled: bool)

  const SendingLabel: string := "جاري الإرسال..."
  const CancellingLabel: string := "جاري الإلغاء..."
  const AppliedLabel: string := "تم التقديم بنجاح!"
  const CancelledLabel: string := "تم الإلغاء"
  const CompletedLabel: string := "مكتملة"
  const CancelLabel: string := "إلغاء التسجيل"
  const ApplyLabel: string := "التقديم الآن"

  /** `volunteer?.registeredOpportunities.find(o => o.opportunityId === id)?.status` */
  function CurrentStatus(volunteer: Option<Volunteer>, id: int): Option<OpportunityStatus> {
    if volunteer.None? then None
    else
      var r := RecordFor(volunteer.value.registeredOpportunities, id);
      if r.None? then None else Some(r.value.status)
  }

  /** `getButtonState`: a transient status decides alone and always
      disables; otherwise COMPLETED disables, REGISTERED offers to cancel
      and anything else offers to apply. */
  function ButtonFor(action: ActionStatus, status: Option<OpportunityStatus>): (b: ButtonState)
    ensures b.disabled <==> action != Idle || status == Some(Completed)
    ensures action == Idle && !b.disabled ==> (b.text == CancelLabel <==> status == Some(Registered))
    ensures action == Idle && !b.disabled ==> (b.text == ApplyLabel <==> status != Some(Registered))
    ensures action != Idle ==> b.text in {SendingLabel, CancellingLabel, AppliedLabel, CancelledLabel}
  {
    match action
    case Registering => ButtonState(SendingLabel, true)
    case Cancelling => ButtonState(CancellingLabel, true)
    case SuccessReg => ButtonState(AppliedLabel, true)
    case SuccessCancel => ButtonState(CancelledLabel, true)
    case Idle =>
      if status == Some(Completed) then ButtonState(CompletedLabel, true)
      else if status == Some(Registered) then ButtonState(CancelLabel, false)
      else ButtonState(ApplyLabel, false)
  }

  /** What a press of the primary button does. */
  datatype Effect = Ignored | ToProfile | StartCancel | StartApplying

  /** `handlePrimaryAction`'s choice: nothing unless idle; the profile page
      without a volunteer; cancelling when REGISTERED; the application form
      when there is no record or it is CANCELLED; nothing when COMPLETED. */
  function PrimaryEffect(action: ActionStatus, hasVolunteer: bool, status: Option<OpportunityStatus>): Effect {
    if action != Idle then Ignored
    else if !hasVolunteer then ToProfile
    else if status == Some(Registered) then StartCancel
    else if status.None? || status == Some(Cancelled) then StartApplying
    else Ignored
  }

  /** For a signed-in volunteer the button agrees with the handler: it is
      enabled exactly when pressing it does something, and it says "cancel"
      exactly when pressing it cancels. */
  lemma ButtonMatchesEffect(action: ActionStatus, status: Option<OpportunityStatus>)
    ensures ButtonFor(action, status).disabled <==> PrimaryEffect(action, true, status) == Ignored
    ensures PrimaryEffect(action, true, status) == StartCancel <==>
      !ButtonFor(action, status).disabled && ButtonFor(action, status).text == CancelLabel
    ensures PrimaryEffect(action, true, status) == StartApplying <==>
      !ButtonFor(action, status).disabled && ButtonFor(action, status).text == ApplyLabel
  {
    if action == Idle && status.Some? {
      match status.value
      case Completed =>
      case Registered =>
      case Cancelled =>
    }
  }

  /** The two `find` calls agree when two record lists carry the same ids in
      the same places. */
  lemma SameFind(a: seq<RegisteredOpportunity>, b: seq<RegisteredOpportunity>, id: int)
    requires |a| == |b|
    requires forall k :: 0 <= k < |a| ==> a[k].opportunityId == b[k].opportunityId
    ensures Js.FindIndex(a, For(id)) == Js.FindIndex(b, For(id))
  {
    assert forall k :: 0 <= k < |a| ==> For(id)(a[k]) == For(id)(b[k]);
  }

  /** After the cancel step the dialog, opened again, offers to apply: a
      REGISTERED status becomes CANCELLED. */
  lemma CancelledAfterCancel(v: Option<Volunteer>, id: int)
    requires CurrentStatus(v, id) == Some(Registered)
    ensures CurrentStatus(Cancel(v, id), id) == Some(Cancelled)
    ensures ButtonFor(Idle, CurrentStatus(Cancel(v, id), id)) == ButtonState(ApplyLabel, false)
  {
    var regs := v.value.registeredOpportunities;
    var after := CancelRecords(regs, id);
    SameFind(regs, after, id);
  }

  /** After the register step for an opportunity with no active record the
      dialog, opened again, offers to cancel: the status is REGISTERED. */
  lemma RegisteredAfterRegister(v: Option<Volunteer>, id: int, text: string)
    requires v.Some? && !HasActive(v.value.registeredOpportunities, id)
    ensures CurrentStatus(Register(v, id, text), id) == Some(Registered)
    ensures ButtonFor(Idle, CurrentStatus(Register(v, id, text), id)) == ButtonState(CancelLabel, false)
  {
    var r := RegisterRecords(v.value.registeredOpportunities, id, text);
    var x := r[|r| - 1];
    assert r == r[..|r| - 1] + [x];
    SoleRecord(r[..|r| - 1], id, x);
  }

  /** A delayed step waiting to run. */
  datatype Timer =
    | CancelDue                  // cancel, then report success
    | RegisterDue(text: string)  // register with the text of the submission
    | CloseDue                   // `handleClose` after a success

  /** The submit button's rule, also the handler's guard. */
  predicate CanSubmit(action: ActionStatus, text: string) {
    action == Idle && !IsBlank(text)
  }

  class Modal {
    const opportunity: Opportunity
    const context: VolunteerProvider
    var isClosing: bool
    var actionStatus: ActionStatus
    var step: Step
    var applicationText: string
    var navigatedToProfile: bool
    var pending: Option<Timer>

    /** Each transient status has its timer: cancelling waits for the
        cancel step, registering for the register step, and a success for
        the close. */
    predicate Valid()
      reads this
    {
      && (actionStatus == Idle ==> pending.None?)
      && (actionStatus == Cancelling <==> pending == Some(CancelDue))
      && (actionStatus == Registering <==> pending.Some? && pending.value.RegisterDue?)
      && (pending == Some(CloseDue) ==> actionStatus == SuccessReg || actionStatus == SuccessCancel)
    }

    function Button(): ButtonState
      reads this, context
    {
      ButtonFor(actionStatus, CurrentStatus(context.volunteer, opportunity.id))
    }

    constructor (opportunity: Opportunity, context: VolunteerProvider)
      ensures this.opportunity == opportunity && this.context == context
      ensures !isClosing && actionStatus == Idle && step == Details && applicationText == ""
      ensures !navigatedToProfile && pending == None
      ensures Valid()
    {
      this.opportunity := opportunity;
      this.context := context;
      isClosing := false;
      actionStatus := Idle;
      step := Details;
      applicationText := "";
      navigatedToProfile := false;
      pending := None;
    }

    /** `handleClose`, from the back button, Escape or a finished action. */
    method HandleClose()
      modifies this
      ensures isClosing
      ensures actionStatus == old(actionStatus) && step == old(step)
      ensures applicationText == old(applicationText) && pending == old(pending)
      ensures navigatedToProfile == old(navigatedToProfile)
      ensures old(Valid()) ==> Valid()
    {
      isClosing := true;
    }

    method EditText(text: string)
      modifies this
      ensures applicationText == text
      ensures isClosing == old(isClosing) && actionStatus == old(actionStatus) && step == old(step)
      ensures pending == old(pending) && navigatedToProfile == old(navigatedToProfile)
      ensures old(Valid()) ==> Valid()
    {
      applicationText := text;
    }

    /** The form's back button. */
    method BackToDetails()
      modifies this
      ensures step == Details
      ensures isClosing == old(isClosing) && actionStatus == old(actionStatus)
      ensures applicationText == old(applicationText)
      ensures pending == old(pending) && navigatedToProfile == old(navigatedToProfile)
      ensures old(Valid()) ==> Valid()
    {
      step := Details;
    }

    /** `handlePrimaryAction`, acting as `PrimaryEffect` says. */
    method PrimaryAction() returns (effect: Effect)
      modifies this
      ensures effect == PrimaryEffect(old(actionStatus), context.volunteer.Some?,
                                      CurrentStatus(context.volunteer, opportunity.id))
      ensures context.volunteer.Some? ==> (old(Button()).disabled <==> effect == Ignored)
      ensures effect == Ignored ==>
        isClosing == old(isClosing) && actionStatus == old(actionStatus) && step == old(step)
        && pending == old(pending) && navigatedToProfile == old(navigatedToProfile)
      ensures effect == ToProfile ==>
        navigatedToProfile && isClosing
        && actionStatus == old(actionStatus) && step == old(step) && pending == old(pending)
      ensures effect == StartCancel ==>
        actionStatus == Cancelling && pending == Some(CancelDue)
        && isClosing == old(isClosing) && step == old(step)
        && navigatedToProfile == old(navigatedToProfile)
      ensures effect == StartApplying ==>
        step == Applying
        && isClosing == old(isClosing) && actionStatus == old(actionStatus)
        && pending == old(pending) && navigatedToProfile == old(navigatedToProfile)
      ensures applicationText == old(applicationText)
      ensures old(Valid()) ==> Valid()
    {
      effect := PrimaryEffect(actionStatus, context.volunteer.Some?,
                              CurrentStatus(context.volunteer, opportunity.id));
      ButtonMatchesEffect(actionStatus, CurrentStatus(context.volunteer, opportunity.id));
      match effect {
        case Ignored =>
        case ToProfile =>
          navigatedToProfile := true;
          HandleClose();
        case StartCancel =>
          actionStatus := Cancelling;
          pending := Some(CancelDue);
        case StartApplying =>
          step := Applying;
      }
    }

    /** `handleSubmitApplication`: with an idle status and a non-blank text,
        registering starts with the text as it is now. */
    method SubmitApplication() returns (started: bool)
      modifies this
      ensures started == CanSubmit(old(actionStatus), old(applicationText))
      ensures started ==> actionStatus == Registering && pending == Some(RegisterDue(applicationText))
      ensures !started ==> actionStatus == old(actionStatus) && pending == old(pending)
      ensures isClosing == old(isClosing) && step == old(step)
      ensures applicationText == old(applicationText) && navigatedToProfile == old(navigatedToProfile)
      ensures old(Valid()) ==> Valid()
    {
      started := CanSubmit(actionStatus, applicationText);
      if started {
        actionStatus := Registering;
        pending := Some(RegisterDue(applicationText));
      }
    }

    /** The pending timer fires: the provider's `cancelRegistration` or
        `registerForOpportunity` runs on the current volunteer and the
        success is shown, with the close due next; or the close runs. */
    method FireTimer()
      modifies this, context
      ensures old(pending) == Some(CancelDue) ==>
        context.volunteer == Cancel(old(context.volunteer), opportunity.id)
        && actionStatus == SuccessCancel && pending == Some(CloseDue) && isClosing == old(isClosing)
      ensures old(pending).Some? && old(pending).value.RegisterDue? ==>
        context.volunteer == Register(old(context.volunteer), opportunity.id, old(pending).value.text)
        && actionStatus == SuccessReg && pending == Some(CloseDue) && isClosing == old(isClosing)
      ensures old(pending) == Some(CloseDue) ==>
        isClosing && pending == None && actionStatus == old(actionStatus)
        && context.volunteer == old(context.volunteer)
      ensures old(pending) == None ==>
        pending == None && isClosing == old(isClosing) && actionStatus == old(actionStatus)
        && context.volunteer == old(context.volunteer)
      ensures context.isAuthenticated == old(context.isAuthenticated)
      ensures old(context.Valid()) ==> context.Valid()
      ensures step == old(step) && applicationText == old(applicationText)
      ensures navigatedToProfile == old(navigatedToProfile)
      ensures old(Valid()) ==> Valid()
    {
      match pending {
        case None =>
        case Some(CancelDue) =>
          context.CancelRegistration(opportunity.id);
          actionStatus := SuccessCancel;
          pending := Some(CloseDue);
        case Some(RegisterDue(text)) =>
          context.RegisterForOpportunity(opportunity.id, text);
          actionStatus := SuccessReg;
          pending := Some(CloseDue);
        case Some(CloseDue) =>
          HandleClose();
          pending := None;
      }
    }
  }
}
