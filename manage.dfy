// Managing one membership (components/Account/Memberships/Manage.js): which
// actions are offered, the reactivate request with its busy flag and error,
// and the text about the latest period.

module MembershipManage {
  import opened Wrappers
  import opened Packages
  import opened Locale


  datatype Period = Period(endDate: string)

  /** `periods` are newest first: `periods[0]` is the latest. */
  datatype Membership = Membership(
    id: string,
    typeName: string,
    active: bool,
    renew: bool,
    overdue: bool,
    sequenceNumber: int,
    periods: seq<Period>)

  /** Specific key first, then the generic one: `memberships/<type>/manage/<action>` and `memberships/manage/<action>`. */
  function ActionLabel(typeName: string, action: string): (text: Text)
    ensures |text.keys| == 2 && text.default.None?
    ensures text.keys[0] == "memberships/" + typeName + "/manage/" + action
    ensures text.keys[1] == "memberships/manage/" + action
  {
    Translate(["memberships/" + typeName + "/manage/" + action, "memberships/manage/" + action], None)
  }

  /** What `Actions` renders. */
  datatype ActionsView =
    | Spinner
    | Offered(
        upgrade: bool,
        awaiting: bool,
        cancel: Option<Text>,
        reactivate: Option<Text>,
        prolong: Option<Text>,
        error: Option<string>)

  predicate CancelOffered(m: Membership) {
    m.active && m.renew
  }

  predicate ReactivateOffered(m: Membership) {
    !m.renew && |m.periods| > 0
  }

  /** `Actions.render` for the props and the state `updating`, `remoteError`. */
  function RenderActions(m: Membership, prolong: bool, waitingMemberships: bool,
                         updating: bool, remoteError: Option<string>): (v: ActionsView)
    ensures updating <==> v == Spinner
    ensures v.Offered? ==> (v.cancel.Some? <==> CancelOffered(m))
    ensures v.Offered? ==> (v.reactivate.Some? <==> ReactivateOffered(m))
    ensures v.Offered? ==> !(v.cancel.Some? && v.reactivate.Some?)
    ensures v.Offered? ==> (v.upgrade <==> CancelOffered(m) && m.typeName == MONTHLY_ABO)
    ensures v.Offered? ==> (v.awaiting <==> !prolong && CancelOffered(m) && waitingMemberships)
    ensures v.Offered? ==> (v.prolong.Some? <==> prolong)
    ensures v.Offered? ==> (v.error.Some? <==> Truthy(remoteError))
    ensures v.Offered? && v.cancel.Some? ==> v.cancel.value == ActionLabel(m.typeName, "cancel/link")
    ensures v.Offered? && v.reactivate.Some? ==> v.reactivate.value == ActionLabel(m.typeName, "reactivate")
    ensures v.Offered? && v.prolong.Some? ==> v.prolong.value == ActionLabel(m.typeName, "prolong/link")
    ensures v.Offered? && v.error.Some? ==> v.error == remoteError
  {
    if updating then Spinner
    else Offered(
      upgrade := m.active && m.renew && m.typeName == MONTHLY_ABO,
      awaiting := !prolong && m.active && m.renew && waitingMemberships,
      cancel := if m.active && m.renew then Some(ActionLabel(m.typeName, "cancel/link")) else None,
      reactivate := if !m.renew && |m.periods| > 0 then Some(ActionLabel(m.typeName, "reactivate")) else None,
      prolong := if prolong then Some(ActionLabel(m.typeName, "prolong/link")) else None,
      error := if Truthy(remoteError) then remoteError else None)
  }

  /**
   * Each offered action label resolves to the type-specific text when the
   * locale has one, else to the generic one.
   */
  lemma ActionLabelFallsBack(lookup: Lookup, m: Membership, prolong: bool, waitingMemberships: bool,
                             remoteError: Option<string>, action: string, shown: Option<Text>)
    requires var v := RenderActions(m, prolong, waitingMemberships, false, remoteError);
      (action == "cancel/link" && shown == v.cancel)
      || (action == "reactivate" && shown == v.reactivate)
      || (action == "prolong/link" && shown == v.prolong)
    requires shown.Some?
    ensures var specific := "memberships/" + m.typeName + "/manage/" + action;
      Resolve(lookup, shown.value) ==
        if lookup(specific).Some? then lookup(specific) else lookup("memberships/manage/" + action)
  {
    var text := ActionLabel(m.typeName, action);
    assert shown.value == text;
    SpecificKeyWins(lookup, text.keys[0], text.keys[1], None);
    assert text.keys == [text.keys[0], text.keys[1]];
  }

  /** The outcome of the reactivate mutation; a failure carries `errorToString(error)`. */
  datatype MutationOutcome = Resolved | Rejected(message: string)

  class Actions {
    var updating: bool
    var remoteError: Option<string>
    /** The ids passed to the reactivate mutation, in order. */
    var requests: seq<string>

    constructor ()
      ensures !updating && remoteError == None && requests == []
    {
      updating, remoteError, requests := false, None, [];
    }

    function View(m: Membership, prolong: bool, waitingMemberships: bool): (v: ActionsView)
      reads this
      ensures updating <==> v == Spinner
    {
      RenderActions(m, prolong, waitingMemberships, updating, remoteError)
    }

    /**
     * The reactivate link's click handler; the link exists only while nothing is
     * updating and the membership can be reactivated. The busy flag is set
     * before the mutation is sent; an earlier error is kept but hidden by the spinner.
     */
    method ClickReactivate(m: Membership)
      requires !updating && ReactivateOffered(m)
      modifies this
      ensures updating
      ensures remoteError == old(remoteError)
      ensures requests == old(requests) + [m.id]
    {
      updating := true;
      requests := requests + [m.id];
    }

    /** The mutation settles: the busy flag clears, and the error is cleared or set to the failure's text. */
    method Settle(outcome: MutationOutcome)
      requires updating
      modifies this`updating, this`remoteError
      ensures !updating
      ensures remoteError == (match outcome case Resolved => None case Rejected(msg) => Some(msg))
    {
      match outcome
      case Resolved =>
        updating, remoteError := false, None;
      case Rejected(msg) =>
        updating, remoteError := false, Some(msg);
    }
  }

  /** While the request is in flight nothing but the spinner shows. */
  lemma UpdatingShowsOnlySpinner(m: Membership, prolong: bool, waitingMemberships: bool, remoteError: Option<string>)
    ensures RenderActions(m, prolong, waitingMemberships, true, remoteError) == Spinner
  {
  }

  /** After a failure the membership can be reactivated again, and the error text shows beside the link. */
  lemma RejectedKeepsRetry(m: Membership, prolong: bool, waitingMemberships: bool, message: string)
    requires ReactivateOffered(m) && message != ""
    ensures var v := RenderActions(m, prolong, waitingMemberships, false, Some(message));
      v.Offered? && v.reactivate.Some? && v.error == Some(message)
  {
  }

  /** After a success no error shows. */
  lemma ResolvedShowsNoError(m: Membership, prolong: bool, waitingMemberships: bool)
    ensures var v := RenderActions(m, prolong, waitingMemberships, false, None);
      v.Offered? && v.error.None?
  {
  }

  // ---- Manage (components/Account/Memberships/Manage.js:155-190) ----

  datatype Title = GivenTitle(title: string) | KeyedTitle(text: Text)

  /** The paragraph about the latest period, with its raw end date (formatting is the locale layer's). */
  datatype PeriodNote = PeriodNote(renewText: Option<Text>, overdueText: Option<Text>, endDate: string)

  datatype ManageView = ManageView(title: Title, periodNote: Option<PeriodNote>, showActions: bool)

  function BoolText(b: bool): string {
    if b then "true" else "false"
  }

  function LatestPeriodNote(m: Membership): (note: Option<PeriodNote>)
    ensures note.Some? <==> |m.periods| > 0
    ensures note.Some? ==> note.value.endDate == m.periods[0].endDate
    ensures note.Some? ==> (note.value.renewText.Some? <==> m.active && !m.overdue)
    ensures note.Some? ==> (note.value.overdueText.Some? <==> m.overdue)
    ensures note.Some? ==> !(note.value.renewText.Some? && note.value.overdueText.Some?)
  {
    if |m.periods| == 0 then None
    else
      var latest := m.periods[0];
      Some(PeriodNote(
        if m.active && !m.overdue then
          Some(Translate([
            "memberships/" + m.typeName + "/latestPeriod/renew/" + BoolText(m.renew),
            "memberships/latestPeriod/renew/" + BoolText(m.renew)], Some("")))
        else None,
        if m.overdue then Some(T("memberships/latestPeriod/overdue")) else None,
        latest.endDate))
  }

  /** `Manage`: a truthy `title` prop wins over the type's title key. */
  function RenderManage(m: Membership, title: Option<string>, actions: bool): (v: ManageView)
    ensures Truthy(title) ==> v.title == GivenTitle(title.value)
    ensures !Truthy(title) ==> v.title.KeyedTitle? && v.title.text.keys == ["memberships/title/" + m.typeName]
    ensures v.periodNote == LatestPeriodNote(m)
    ensures v.showActions == actions
  {
    ManageView(
      if Truthy(title) then GivenTitle(title.value) else KeyedTitle(T("memberships/title/" + m.typeName)),
      LatestPeriodNote(m),
      actions)
  }
}
