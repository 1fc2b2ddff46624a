// The pledge list of the account page (components/Account/PledgeList.js): the
// pledges it lists, the options it shows, the candidate locale keys of each
// option and payment line, and the end date of additional periods.

module PledgeListView {
  import opened Wrappers
  import opened Locale
  import Seqs
  import Strings

  const DRAFT := "DRAFT"
  const PAYMENTSLIP := "PAYMENTSLIP"
  const WAITING := "WAITING"

  datatype Reward = Reward(name: string)
  datatype User = User(id: string, name: string)
  /** The membership an option bought, possibly for someone else. */
  datatype OptionMembership = OptionMembership(user: User, sequenceNumber: int)
  datatype Period = Period(endDate: string)

  /** A pledge option; an amount the server leaves out is written 0 (both are falsy). */
  datatype PledgeOption = PledgeOption(
    amount: int,
    minAmount: int,
    maxAmount: int,
    reward: Option<Reward>,
    membership: Option<OptionMembership>,
    additionalPeriods: Option<seq<Period>>)

  datatype Payment = Payment(paymentMethod: string, status: string, paperInvoice: bool, total: int, hrid: string)

  datatype Pledge = Pledge(
    id: string,
    status: string,
    packageName: string,
    options: seq<PledgeOption>,
    payments: seq<Payment>)

  datatype Me = Me(id: string, pledges: seq<Pledge>)
  datatype QueryData = QueryData(loading: bool, error: Option<string>, me: Option<Me>)

  predicate NotDraft(p: Pledge) {
    p.status != DRAFT
  }

  /** The props mapper: the pledges other than drafts, or none while loading, on error or when signed out. */
  function ListedPledges(d: QueryData): (ps: seq<Pledge>)
    ensures forall i :: 0 <= i < |ps| ==> ps[i].status != DRAFT
    ensures d.loading || d.error.Some? || d.me.None? ==> ps == []
  {
    var all := if !d.loading && d.error.None? && d.me.Some? then d.me.value.pledges else [];
    Seqs.Filter(NotDraft, all)
  }

  /** The listed pledges are exactly the non-draft ones, each as often as it occurs, in their order. */
  lemma ListedPledgesExact(d: QueryData, p: Pledge, before: seq<Pledge>, after: seq<Pledge>)
    requires !d.loading && d.error.None? && d.me.Some?
    requires d.me.value.pledges == before + after
    ensures multiset(ListedPledges(d))[p] == if p.status == DRAFT then 0 else multiset(d.me.value.pledges)[p]
    ensures ListedPledges(d) == Seqs.Filter(NotDraft, before) + Seqs.Filter(NotDraft, after)
  {
    Seqs.FilterCount(NotDraft, d.me.value.pledges, p);
    Seqs.FilterAppend(NotDraft, before, after);
  }

  /** `option.amount && option.minAmount !== option.maxAmount` */
  predicate Shown(o: PledgeOption) {
    o.amount != 0 && o.minAmount != o.maxAmount
  }

  predicate IsAboGive(o: PledgeOption, meId: string) {
    o.membership.Some? && o.membership.value.user.id != meId
  }

  /** `pledge/option/<package>/<reward>/label`, the stem of the package-specific label keys. */
  function PackageLabelStem(packageName: string, rewardName: string): Key {
    "pledge/option/" + packageName + "/" + rewardName + "/label"
  }

  /** `option/<reward>/label`, the stem of the generic label keys. */
  function RewardLabelStem(rewardName: string): Key {
    "option/" + rewardName + "/label"
  }

  /**
   * The label's candidate keys, most specific first: the two gift keys only
   * for a membership given to someone else, then for the package stem and
   * then for the generic stem the amount key, the `other` key and the stem
   * itself.
   */
  function LabelKeys(packageName: string, rewardName: string, amount: int, give: bool): (keys: seq<Key>)
    ensures |keys| == if give then 8 else 6
    ensures give ==> keys[0] == PackageLabelStem(packageName, rewardName) + "/give"
    ensures give ==> keys[1] == RewardLabelStem(rewardName) + "/give"
    ensures keys[|keys| - 6] == PackageLabelStem(packageName, rewardName) + "/" + Strings.IntToString(amount)
    ensures keys[|keys| - 5] == PackageLabelStem(packageName, rewardName) + "/other"
    ensures keys[|keys| - 4] == PackageLabelStem(packageName, rewardName)
    ensures keys[|keys| - 3] == RewardLabelStem(rewardName) + "/" + Strings.IntToString(amount)
    ensures keys[|keys| - 2] == RewardLabelStem(rewardName) + "/other"
    ensures keys[|keys| - 1] == RewardLabelStem(rewardName)
  {
    var prefix := PackageLabelStem(packageName, rewardName);
    var generic := RewardLabelStem(rewardName);
    var amountText := Strings.IntToString(amount);
    var gift := if give then [prefix + "/give", generic + "/give"] else [];
    gift +
    [ prefix + "/" + amountText,
      prefix + "/other",
      prefix,
      generic + "/" + amountText,
      generic + "/other",
      generic ]
  }

  /** `additionalPeriods && additionalPeriods.length && additionalPeriods[length - 1].endDate` */
  function EndDate(periods: Option<seq<Period>>): (r: Option<string>)
    ensures r.Some? <==> periods.Some? && |periods.value| > 0
    ensures r.Some? ==> r.value == periods.value[|periods.value| - 1].endDate
  {
    match periods
    case None => None
    case Some(ps) => if |ps| == 0 then None else Some(ps[|ps| - 1].endDate)
  }

  /**
   * One option line. `label` is `Err` when the option has no reward: the
   * template literal then dereferences `null` and rendering throws.
   */
  datatype OptionLine = OptionLine(
    amountPrefix: string,
    labelKeys: Result<seq<Key>, string>,
    endDate: Option<string>,
    endDateSuffix: bool)

  function RenderOption(packageName: string, o: PledgeOption, meId: string): (line: OptionLine)
    ensures line.amountPrefix != "" <==> o.maxAmount > 1
    ensures o.maxAmount > 1 ==> line.amountPrefix == Strings.IntToString(o.amount) + " "
    ensures line.labelKeys.Ok? <==> o.reward.Some?
    ensures o.reward.Some? ==>
      line.labelKeys == Ok(LabelKeys(packageName, o.reward.value.name, o.amount, IsAboGive(o, meId)))
    ensures line.endDate == EndDate(o.additionalPeriods)
    ensures line.endDateSuffix <==> Truthy(line.endDate)
  {
    var endDate := EndDate(o.additionalPeriods);
    OptionLine(
      if o.maxAmount > 1 then Strings.IntToString(o.amount) + " " else "",
      match o.reward
        case Some(r) => Ok(LabelKeys(packageName, r.name, o.amount, IsAboGive(o, meId)))
        case None => Err("TypeError: Cannot read property 'name' of null"),
      endDate,
      Truthy(endDate))
  }

  /** One payment line: the paper-invoice note for a waiting payment slip, and the status text. */
  datatype PaymentLine = PaymentLine(paperInvoiceKey: Option<Key>, status: Text, methodKey: Key)

  function RenderPayment(p: Payment): (line: PaymentLine)
    ensures line.paperInvoiceKey.Some? <==> p.paymentMethod == PAYMENTSLIP && p.status == WAITING
    ensures line.status.keys == [
      "account/pledges/payment/status/" + p.paymentMethod + "/" + p.status,
      "account/pledges/payment/status/generic/" + p.status]
  {
    PaymentLine(
      if p.paymentMethod == PAYMENTSLIP && p.status == WAITING then
        Some("account/pledges/payment/PAYMENTSLIP/paperInvoice/" + (if p.paperInvoice then "1" else "0"))
      else None,
      Translate([
        "account/pledges/payment/status/" + p.paymentMethod + "/" + p.status,
        "account/pledges/payment/status/generic/" + p.status], None),
      "account/pledges/payment/method/" + p.paymentMethod)
  }

  datatype PledgeItem = PledgeItem(
    highlighted: bool,
    titleKey: Key,
    options: seq<OptionLine>,
    payments: seq<PaymentLine>,
    isGivePackage: bool)

  function RenderPledge(p: Pledge, meId: string, highlightId: Option<string>): (item: PledgeItem)
    ensures |item.options| == |Seqs.Filter(Shown, p.options)|
    ensures forall i :: 0 <= i < |item.options| ==>
      item.options[i] == RenderOption(p.packageName, Seqs.Filter(Shown, p.options)[i], meId)
    ensures |item.payments| == |p.payments|
    ensures forall i :: 0 <= i < |item.payments| ==> item.payments[i] == RenderPayment(p.payments[i])
    ensures item.highlighted <==> highlightId == Some(p.id)
    ensures item.titleKey == "package/" + p.packageName + "/title"
    ensures item.isGivePackage <==> p.packageName == "ABO_GIVE"
  {
    var shown := Seqs.Filter(Shown, p.options);
    PledgeItem(
      highlightId == Some(p.id),
      "package/" + p.packageName + "/title",
      seq(|shown|, i requires 0 <= i < |shown| => RenderOption(p.packageName, shown[i], meId)),
      seq(|p.payments|, i requires 0 <= i < |p.payments| => RenderPayment(p.payments[i])),
      p.packageName == "ABO_GIVE")
  }

  /** An option is shown exactly when it has an amount and a choice of amounts. */
  lemma ShownOptionsExact(p: Pledge, o: PledgeOption)
    ensures o in Seqs.Filter(Shown, p.options) <==> o in p.options && o.amount != 0 && o.minAmount != o.maxAmount
  {
    Seqs.FilterMembers(Shown, p.options, o);
  }

  predicate EndsWithGive(k: Key) {
    |k| >= 5 && k[|k| - 5..] == "/give"
  }

  /**
   * The amount-specific key names the amount: options of one package and
   * reward with different amounts never share their most specific amount key.
   */
  lemma AmountKeysDistinct(packageName: string, rewardName: string, a: int, b: int, give: bool)
    requires a != b
    ensures var ka := LabelKeys(packageName, rewardName, a, give);
      var kb := LabelKeys(packageName, rewardName, b, give);
      ka[|ka| - 6] != kb[|kb| - 6]
  {
    var prefix := PackageLabelStem(packageName, rewardName) + "/";
    var ta, tb := Strings.IntToString(a), Strings.IntToString(b);
    if prefix + ta == prefix + tb {
      assert (prefix + ta)[|prefix|..] == ta && (prefix + tb)[|prefix|..] == tb;
      Strings.IntToStringInjective(a, b);
      assert false;
    }
  }

  /** The gift keys are among the candidates exactly for a membership given to someone else. */
  lemma {:induction false} GiftKeysIffGive(packageName: string, rewardName: string, amount: int, give: bool)
    ensures var keys := LabelKeys(packageName, rewardName, amount, give);
      (exists i :: 0 <= i < |keys| && EndsWithGive(keys[i])) <==> give
  {
    var keys := LabelKeys(packageName, rewardName, amount, give);
    var prefix := PackageLabelStem(packageName, rewardName);
    var generic := RewardLabelStem(rewardName);
    var amountText := Strings.IntToString(amount);
    var tail := [prefix + "/" + amountText, prefix + "/other", prefix,
                 generic + "/" + amountText, generic + "/other", generic];
    assert keys == (if give then [prefix + "/give", generic + "/give"] else []) + tail;
    forall i | 0 <= i < |tail| ensures tail[i][|tail[i]| - 1] != 'e' {
      var k := tail[i];
      if i == 0 || i == 3 {
        assert k[|k| - 1] == amountText[|amountText| - 1];
      } else if i == 1 || i == 4 {
        assert k[|k| - 1] == 'r';
      } else {
        assert k[|k| - 1] == 'l';
      }
    }
    if give {
      assert (prefix + "/give")[|prefix + "/give"| - 5..] == "/give";
      assert EndsWithGive(keys[0]);
    } else {
      forall i | 0 <= i < |keys| ensures !EndsWithGive(keys[i]) {
        assert keys[i] == tail[i];
      }
    }
  }
}
