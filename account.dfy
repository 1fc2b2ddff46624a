// The account overview (components/Account/index.js): the query-result mapper
// that derives the member's flags, and the conditions under which each
// section of the account page is shown.

module AccountOverview {
  import opened Wrappers
  import opened Packages

  const DONATE := "DONATE"
  const PROLONG := "PROLONG"

  datatype Reward = Reward(name: string)
  /** An option of the pledge a membership came from; `price` in cents. */
  datatype PledgeOption = PledgeOption(reward: Option<Reward>, price: int)
  datatype MembershipPledge = MembershipPledge(options: seq<PledgeOption>)
  datatype Membership = Membership(active: bool, pledge: MembershipPledge)
  datatype Package = Package(name: string)
  datatype Pledge = Pledge(package: Package)
  datatype AccessGrant = AccessGrant(email: string)

  /** `data.me`; a list the server leaves out is written as the empty list (both are falsy here). */
  datatype Member = Member(
    memberships: seq<Membership>,
    pledges: seq<Pledge>,
    accessGrants: seq<AccessGrant>)

  /** The `{ loading, error, me }` result of the belongings query. */
  datatype QueryData = QueryData(loading: bool, error: Option<string>, me: Option<Member>)

  datatype Flags = Flags(
    hasMemberships: bool,
    hasActiveMemberships: bool,
    hasPledges: bool,
    hasAccessGrants: bool,
    hasProlongPledge: bool,
    acceptedStatue: bool,
    recurringAmount: int)

  predicate IsReady(d: QueryData) {
    !d.loading && d.error.None? && d.me.Some?
  }

  predicate IsMonthly(o: PledgeOption) {
    o.reward.Some? && o.reward.value.name == MONTHLY_ABO
  }

  /** `memberships.some(m => m.active)` */
  function AnyActive(ms: seq<Membership>): (r: bool)
    ensures r <==> exists i :: 0 <= i < |ms| && ms[i].active
  {
    if ms == [] then false else ms[0].active || AnyActive(ms[1..])
  }

  /** `!!pledges.find(p => p.package.name === name)` */
  function AnyPackage(ps: seq<Pledge>, name: string): (r: bool)
    ensures r <==> exists i :: 0 <= i < |ps| && ps[i].package.name == name
  {
    if ps == [] then false else ps[0].package.name == name || AnyPackage(ps[1..], name)
  }

  /** `!!pledges.find(p => name !== 'MONTHLY_ABO' && name !== 'DONATE')` */
  function AnyStatutePackage(ps: seq<Pledge>): (r: bool)
    ensures r <==> exists i :: 0 <= i < |ps| && ps[i].package.name != MONTHLY_ABO && ps[i].package.name != DONATE
  {
    if ps == [] then false
    else (ps[0].package.name != MONTHLY_ABO && ps[0].package.name != DONATE) || AnyStatutePackage(ps[1..])
  }

  /**
   * `max(options.filter(monthly).map(o => o.price)) || 0`: the largest price of
   * a monthly option, or 0 when there is none (d3's `max` of nothing is
   * `undefined`, and `undefined || 0` is 0).
   */
  function MonthlyMax(os: seq<PledgeOption>): (r: int)
    ensures (forall i :: 0 <= i < |os| ==> !IsMonthly(os[i])) ==> r == 0
    ensures (exists i :: 0 <= i < |os| && IsMonthly(os[i])) ==>
      (exists i :: 0 <= i < |os| && IsMonthly(os[i]) && r == os[i].price) &&
      (forall i :: 0 <= i < |os| && IsMonthly(os[i]) ==> os[i].price <= r)
  {
    if os == [] then 0
    else
      var rest := MonthlyMax(os[1..]);
      if !IsMonthly(os[0]) then rest
      else if exists i :: 0 <= i < |os[1..]| && IsMonthly(os[1..][i]) then
        (if os[0].price > rest then os[0].price else rest)
      else os[0].price
  }

  /** `max(memberships.map(m => MonthlyMax(m.pledge.options)))` over a non-empty list. */
  function RecurringMax(ms: seq<Membership>): (r: int)
    requires |ms| > 0
    ensures exists i :: 0 <= i < |ms| && r == MonthlyMax(ms[i].pledge.options)
    ensures forall i :: 0 <= i < |ms| ==> MonthlyMax(ms[i].pledge.options) <= r
  {
    var here := MonthlyMax(ms[0].pledge.options);
    if |ms| == 1 then here
    else
      var rest := RecurringMax(ms[1..]);
      if here > rest then here else rest
  }

  /** The flags of the query-result mapper (components/Account/index.js:174-228). */
  function DeriveFlags(d: QueryData): (f: Flags)
    ensures !IsReady(d) ==> f == Flags(false, false, false, false, false, false, 0)
    ensures IsReady(d) ==>
      (f.hasMemberships <==> |d.me.value.memberships| > 0) &&
      (f.hasPledges <==> |d.me.value.pledges| > 0) &&
      (f.hasAccessGrants <==> |d.me.value.accessGrants| > 0)
    ensures f.hasActiveMemberships ==> f.hasMemberships
    ensures f.hasProlongPledge ==> f.hasPledges
    ensures f.acceptedStatue ==> f.hasPledges
    ensures !f.hasMemberships ==> f.recurringAmount == 0
  {
    if !IsReady(d) then Flags(false, false, false, false, false, false, 0)
    else
      var me := d.me.value;
      var hasMemberships := |me.memberships| > 0;
      var hasPledges := |me.pledges| > 0;
      Flags(
        hasMemberships,
        hasMemberships && AnyActive(me.memberships),
        hasPledges,
        |me.accessGrants| > 0,
        hasPledges && AnyPackage(me.pledges, PROLONG),
        hasPledges && AnyStatutePackage(me.pledges),
        if hasMemberships then RecurringMax(me.memberships) else 0)
  }

  /** `hasActiveMemberships` holds exactly when some membership is active. */
  lemma ActiveMembershipsIff(d: QueryData)
    requires IsReady(d)
    ensures DeriveFlags(d).hasActiveMemberships <==>
      exists i :: 0 <= i < |d.me.value.memberships| && d.me.value.memberships[i].active
  {
  }

  /** `hasProlongPledge` holds exactly when some pledge's package is PROLONG. */
  lemma ProlongPledgeIff(d: QueryData)
    requires IsReady(d)
    ensures DeriveFlags(d).hasProlongPledge <==>
      exists i :: 0 <= i < |d.me.value.pledges| && d.me.value.pledges[i].package.name == PROLONG
  {
  }

  /** `acceptedStatue` holds exactly when some pledge is neither a monthly subscription nor a donation. */
  lemma AcceptedStatueIff(d: QueryData)
    requires IsReady(d)
    ensures DeriveFlags(d).acceptedStatue <==>
      exists i :: 0 <= i < |d.me.value.pledges| &&
        d.me.value.pledges[i].package.name != MONTHLY_ABO &&
        d.me.value.pledges[i].package.name != DONATE
  {
  }

  /**
   * With memberships, `recurringAmount` is the largest contribution among them,
   * and a membership contributes the largest price of its monthly options, or 0
   * when it has none.
   */
  lemma RecurringAmountIsMax(d: QueryData)
    requires IsReady(d) && |d.me.value.memberships| > 0
    ensures var ms := d.me.value.memberships;
      var r := DeriveFlags(d).recurringAmount;
      (exists i :: 0 <= i < |ms| && r == MonthlyMax(ms[i].pledge.options)) &&
      (forall i, j :: 0 <= i < |ms| && 0 <= j < |ms[i].pledge.options| && IsMonthly(ms[i].pledge.options[j]) ==>
        ms[i].pledge.options[j].price <= r)
  {
    var ms := d.me.value.memberships;
    var r := DeriveFlags(d).recurringAmount;
    forall i, j | 0 <= i < |ms| && 0 <= j < |ms[i].pledge.options| && IsMonthly(ms[i].pledge.options[j])
      ensures ms[i].pledge.options[j].price <= r
    {
      assert MonthlyMax(ms[i].pledge.options) <= r;
    }
  }

  /** Without any monthly option anywhere, no payment source is needed. */
  lemma NoMonthlyOptionsNoRecurringAmount(d: QueryData)
    requires IsReady(d)
    requires forall i, j :: 0 <= i < |d.me.value.memberships| && 0 <= j < |d.me.value.memberships[i].pledge.options| ==>
      !IsMonthly(d.me.value.memberships[i].pledge.options[j])
    ensures DeriveFlags(d).recurringAmount == 0
  {
    var ms := d.me.value.memberships;
    if |ms| > 0 {
      var r := DeriveFlags(d).recurringAmount;
      var i :| 0 <= i < |ms| && r == MonthlyMax(ms[i].pledge.options);
      assert forall j :: 0 <= j < |ms[i].pledge.options| ==> !IsMonthly(ms[i].pledge.options[j]);
    }
  }

  // ---- Rendering (components/Account/index.js:77-166) ----

  /** What the page shows once the Loader lets `render` run and a member is signed in. */
  datatype Sections = Sections(
    accessGrants: bool,
    userGuidance: bool,
    title: bool,
    iosBox: bool,
    statement: bool,
    statementPackage: Option<string>,
    abos: bool,
    paymentSources: bool,
    paymentTotal: int,
    accessCampaigns: bool,
    updateEmail: bool,
    updateMe: bool,
    pledges: bool,
    pledgesHeading: bool,
    newsletter: bool,
    notifications: bool,
    authSettings: bool)

  datatype Screen = Loading | Failed | SignedOut | Overview(sections: Sections)

  /** The environment of the page: the signed-in flag of `withMe`, the `merci` prop, the native iOS app, APP_OPTIONS. */
  datatype Env = Env(signedIn: bool, merci: bool, inNativeIOSApp: bool, appOptions: bool)

  function RenderSections(f: Flags, env: Env): (s: Sections)
    ensures s.userGuidance <==> !f.hasAccessGrants && !f.hasMemberships && !env.inNativeIOSApp
    ensures s.accessGrants <==> f.hasAccessGrants && !f.hasActiveMemberships
    ensures s.paymentSources <==> s.abos && f.recurringAmount > 0
    ensures s.pledgesHeading <==> s.pledges && (f.hasPledges || !f.hasMemberships)
  {
    Sections(
      accessGrants := f.hasAccessGrants && !f.hasActiveMemberships,
      userGuidance := !f.hasAccessGrants && !f.hasMemberships && !env.inNativeIOSApp,
      title := !env.merci,
      iosBox := f.hasMemberships && env.inNativeIOSApp,
      statement := f.hasPledges,
      statementPackage := if f.hasProlongPledge then Some(PROLONG) else None,
      abos := !env.inNativeIOSApp,
      paymentSources := !env.inNativeIOSApp && f.recurringAmount > 0,
      paymentTotal := f.recurringAmount,
      accessCampaigns := true,
      updateEmail := true,
      updateMe := true,
      pledges := !env.inNativeIOSApp,
      pledgesHeading := !env.inNativeIOSApp && (f.hasPledges || !f.hasMemberships),
      newsletter := true,
      notifications := true,
      authSettings := env.appOptions)
  }

  /** `Account` composed with its mapper: the Loader first, then the signed-out page, then the sections. */
  function RenderAccount(d: QueryData, env: Env): (screen: Screen)
    ensures d.loading ==> screen == Loading
    ensures !d.loading && d.error.Some? ==> screen == Failed
    ensures !d.loading && d.error.None? && !env.signedIn ==> screen == SignedOut
    ensures !d.loading && d.error.None? && env.signedIn ==>
      screen == Overview(RenderSections(DeriveFlags(d), env))
  {
    if d.loading then Loading
    else if d.error.Some? then Failed
    else if !env.signedIn then SignedOut
    else Overview(RenderSections(DeriveFlags(d), env))
  }

  /** A member without memberships and without access grants outside the iOS app sees the guidance. */
  lemma GuidanceForNewMembers(d: QueryData, env: Env)
    requires IsReady(d) && env.signedIn && !env.inNativeIOSApp
    requires |d.me.value.memberships| == 0 && |d.me.value.accessGrants| == 0
    ensures RenderAccount(d, env).Overview?
    ensures RenderAccount(d, env).sections.userGuidance
    ensures RenderAccount(d, env).sections.pledgesHeading
    ensures !RenderAccount(d, env).sections.paymentSources
  {
  }

  /** The statement's package is PROLONG exactly for members with a PROLONG pledge, and absent otherwise. */
  lemma StatementPackageIff(d: QueryData, env: Env)
    requires IsReady(d) && env.signedIn
    ensures var s := RenderAccount(d, env).sections;
      (s.statementPackage == Some(PROLONG) <==>
        exists i :: 0 <= i < |d.me.value.pledges| && d.me.value.pledges[i].package.name == PROLONG) &&
      (s.statementPackage.Some? ==> s.statement)
  {
  }

  /** Payment sources show only for a positive recurring amount, outside the iOS app, with that amount as total. */
  lemma PaymentSourcesIff(d: QueryData, env: Env)
    requires !d.loading && d.error.None? && env.signedIn
    ensures var s := RenderAccount(d, env).sections;
      (s.paymentSources <==> !env.inNativeIOSApp && DeriveFlags(d).recurringAmount > 0) &&
      s.paymentTotal == DeriveFlags(d).recurringAmount
  {
  }
}
