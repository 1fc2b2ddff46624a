// Questionnaire results (components/Questionnaire/Results.js): which chart a
// question gets, and the rows each chart is given.

module QuestionnaireResults {
  import opened Wrappers
  import Seqs
  import Strings

  /**
   * Tick values and bucket edges are JavaScript numbers, taken here as exact
   * reals. Their text, `${x}`, is JavaScript's number-to-string conversion,
   * which is not part of this model: it is the parameter `numberText`.
   */
  datatype Tick = Tick(caption: string, value: real)
  /** A histogram bucket `[x0, x1)` with its count. */
  datatype Bucket = Bucket(x0: real, x1: real, count: int)
  datatype ChoiceOption = ChoiceOption(caption: string, category: Option<string>)
  datatype ChoiceResult = ChoiceResult(count: int, option: ChoiceOption)
  datatype DocumentMeta = DocumentMeta(title: string, path: string)
  datatype DocumentResult = DocumentResult(count: int, document: Option<DocumentMeta>)
  datatype Turnout = Turnout(submitted: int, skipped: int)

  /** The part of a question that depends on its `__typename`. */
  datatype Body =
    | TextBody
    | RangeBody(ticks: seq<Tick>, histogram: seq<Bucket>)
    | ChoiceBody(options: seq<string>, results: seq<ChoiceResult>)
    | DocumentBody(documentResults: seq<DocumentResult>)

  datatype Question = Question(id: string, text: string, turnout: Turnout, body: Body)

  // ---- Histogram (components/Questionnaire/Results.js:199-219) ----

  /** Does the tick label bucket `i` (the first bucket also by its lower edge)? */
  predicate TickMatches(t: Tick, b: Bucket, first: bool) {
    (first && t.value == b.x0) || t.value == b.x1
  }

  /** `ticks.find(...)`: the first matching tick. */
  function FindTick(ticks: seq<Tick>, b: Bucket, first: bool): (r: Option<nat>)
    ensures r.Some? ==> r.value < |ticks| && TickMatches(ticks[r.value], b, first)
    ensures r.Some? ==> forall j :: 0 <= j < r.value ==> !TickMatches(ticks[j], b, first)
    ensures r.None? ==> forall j :: 0 <= j < |ticks| ==> !TickMatches(ticks[j], b, first)
  {
    if ticks == [] then None
    else if TickMatches(ticks[0], b, first) then Some(0)
    else match FindTick(ticks[1..], b, first)
      case None => None
      case Some(j) => Some(j + 1)
  }

  /** A bar: its caption, and the count whose share of `submitted` is the value. */
  datatype ShareRow = ShareRow(caption: string, count: int, submitted: int)

  /** `tick ? tick.label : `${result.x0}`` */
  function BucketCaption(ticks: seq<Tick>, b: Bucket, first: bool, numberText: real -> string): (c: string)
    ensures c == numberText(b.x0) ||
      exists j :: 0 <= j < |ticks| && TickMatches(ticks[j], b, first) && c == ticks[j].caption
  {
    match FindTick(ticks, b, first)
    case Some(j) => ticks[j].caption
    case None => numberText(b.x0)
  }

  function HistogramRows(ticks: seq<Tick>, histogram: seq<Bucket>, submitted: int,
                         numberText: real -> string): (rows: seq<ShareRow>)
    ensures |rows| == |histogram|
    ensures forall i :: 0 <= i < |rows| ==>
      rows[i].count == histogram[i].count && rows[i].submitted == submitted &&
      rows[i].caption == BucketCaption(ticks, histogram[i], i == 0, numberText)
  {
    seq(|histogram|, i requires 0 <= i < |histogram| =>
      ShareRow(BucketCaption(ticks, histogram[i], i == 0, numberText), histogram[i].count, submitted))
  }

  /** A bucket's caption is the label of the first tick at its upper edge (or lower edge, for the first bucket), else its lower edge as text. */
  lemma BucketCaptionChoice(ticks: seq<Tick>, b: Bucket, first: bool, numberText: real -> string)
    ensures (exists j :: 0 <= j < |ticks| && TickMatches(ticks[j], b, first)) ==>
      exists j :: 0 <= j < |ticks| && TickMatches(ticks[j], b, first) &&
        BucketCaption(ticks, b, first, numberText) == ticks[j].caption &&
        forall k :: 0 <= k < j ==> !TickMatches(ticks[k], b, first)
    ensures (forall j :: 0 <= j < |ticks| ==> !TickMatches(ticks[j], b, first)) ==>
      BucketCaption(ticks, b, first, numberText) == numberText(b.x0)
  {
  }

  // ---- Sentiment bars (components/Questionnaire/Results.js:179-197) ----

  /** `options.findIndex(o => o.label === caption)` */
  function IndexOf(options: seq<string>, caption: string): (r: int)
    ensures -1 <= r < |options|
    ensures r >= 0 ==> options[r] == caption && forall j :: 0 <= j < r ==> options[j] != caption
    ensures r == -1 <==> caption !in options
  {
    if options == [] then -1
    else if options[0] == caption then 0
    else
      var rest := IndexOf(options[1..], caption);
      if rest == -1 then -1 else rest + 1
  }

  datatype SentimentRow = SentimentRow(index: int, caption: string, category: Option<string>, count: int, submitted: int)

  /** `mapResult`: the option's position among the declared options (-1 when absent), its label, category and count. */
  function SentimentRowOf(options: seq<string>, submitted: int, r: ChoiceResult): (row: SentimentRow)
    ensures row.caption == r.option.caption && row.category == r.option.category
    ensures row.count == r.count && row.submitted == submitted
    ensures row.index == -1 <==> r.option.caption !in options
    ensures row.index >= 0 ==> row.index < |options| && options[row.index] == r.option.caption
  {
    SentimentRow(IndexOf(options, r.option.caption), r.option.caption, r.option.category, r.count, submitted)
  }

  function RowIndex(row: SentimentRow): int {
    row.index
  }

  function UnsortedSentimentRows(options: seq<string>, results: seq<ChoiceResult>, submitted: int): (rows: seq<SentimentRow>)
    ensures |rows| == |results|
    ensures forall i :: 0 <= i < |rows| ==> rows[i] == SentimentRowOf(options, submitted, results[i])
  {
    seq(|results|, i requires 0 <= i < |results| => SentimentRowOf(options, submitted, results[i]))
  }

  /** `results.map(mapResult).sort((a, b) => ascending(a.index, b.index))` */
  function SentimentRows(options: seq<string>, results: seq<ChoiceResult>, submitted: int): (rows: seq<SentimentRow>)
    ensures Seqs.SortedBy(RowIndex, rows)
    ensures multiset(rows) == multiset(UnsortedSentimentRows(options, results, submitted))
  {
    Seqs.SortBy(RowIndex, UnsortedSentimentRows(options, results, submitted))
  }

  /**
   * Rows follow the declaration order of the options, whatever the order of the
   * results; results for the same option (or for no declared option) keep their order.
   */
  lemma SentimentRowsOrder(options: seq<string>, results: seq<ChoiceResult>, submitted: int, k: int)
    ensures var rows := SentimentRows(options, results, submitted);
      |rows| == |results| &&
      (forall i, j :: 0 <= i < j < |rows| ==> rows[i].index <= rows[j].index) &&
      Seqs.Filter(Seqs.KeyIs(RowIndex, k), rows) ==
        Seqs.Filter(Seqs.KeyIs(RowIndex, k), UnsortedSentimentRows(options, results, submitted))
  {
    var rows := SentimentRows(options, results, submitted);
    assert |rows| == |multiset(rows)|;
    Seqs.SortByStable(RowIndex, UnsortedSentimentRows(options, results, submitted), k);
    assert forall i, j :: 0 <= i < j < |rows| ==> RowIndex(rows[i]) <= RowIndex(rows[j]);
  }

  // ---- Ranked bars (components/Questionnaire/Results.js:149-177) ----

  datatype DocumentRow = DocumentRow(caption: string, href: string, value: string)

  predicate HasDocument(r: DocumentResult) {
    r.document.Some?
  }

  function DocumentRows(results: seq<DocumentResult>): (rows: seq<DocumentRow>)
    ensures var kept := Seqs.Filter(HasDocument, results);
      |rows| == |kept| &&
      forall i :: 0 <= i < |rows| ==>
        rows[i] == DocumentRow(kept[i].document.value.title, kept[i].document.value.path, Strings.IntToString(kept[i].count))
  {
    var kept := Seqs.Filter(HasDocument, results);
    seq(|kept|, i requires 0 <= i < |kept| =>
      DocumentRow(kept[i].document.value.title, kept[i].document.value.path, Strings.IntToString(kept[i].count)))
  }

  /** Dropping results without a document keeps the others, in order. */
  lemma DocumentRowsSplit(before: seq<DocumentResult>, after: seq<DocumentResult>)
    ensures DocumentRows(before + after) == DocumentRows(before) + DocumentRows(after)
  {
    Seqs.FilterAppend(HasDocument, before, after);
  }

  /** An explicit category, or the "Top n" tier of the row. */
  datatype Category = GivenCategory(name: string) | TopTier(tier: int)

  datatype RankedRow = RankedRow(caption: string, category: Category, value: string)

  /**
   * `1 + Math.floor(i / (len / 3))`. For `i < len` the quotient `3i / len` is
   * below 3, so the tier is decided by the third of the list row `i` falls in.
   */
  function Tier(i: nat, len: nat): (t: int)
    requires i < len
    ensures 1 <= t <= 3
    ensures (t - 1) * len <= 3 * i < t * len
  {
    if 3 * i < len then 1 else if 3 * i < 2 * len then 2 else 3
  }

  function RankedRows(results: seq<ChoiceResult>): (rows: seq<RankedRow>)
    ensures |rows| == |results|
    ensures forall i :: 0 <= i < |rows| ==>
      rows[i].caption == results[i].option.caption &&
      rows[i].value == Strings.IntToString(results[i].count) &&
      (Truthy(results[i].option.category) ==> rows[i].category == GivenCategory(results[i].option.category.value)) &&
      (!Truthy(results[i].option.category) ==> rows[i].category == TopTier(Tier(i, |results|)))
  {
    seq(|results|, i requires 0 <= i < |results| =>
      RankedRow(
        results[i].option.caption,
        if Truthy(results[i].option.category) then GivenCategory(results[i].option.category.value)
        else TopTier(Tier(i, |results|)),
        Strings.IntToString(results[i].count)))
  }

  /** Later rows never fall in an earlier tier. */
  lemma TierMonotone(i: nat, j: nat, len: nat)
    requires i <= j < len
    ensures Tier(i, len) <= Tier(j, len)
  {
  }

  /**
   * With a length that is a multiple of three, `len / 3` rows per tier: row `i`
   * is in tier `t` exactly when `(t - 1) * len/3 <= i < t * len/3`.
   */
  lemma TierOfMultipleOfThree(i: nat, k: nat, t: int)
    requires i < 3 * k
    ensures Tier(i, 3 * k) == t <==> (t - 1) * k <= i < t * k
  {
  }

  /** The tier caption `Top <len/3 * tier>`, for lengths where `len / 3` is whole. */
  function TopCaption(len: nat, tier: int): string
    requires len % 3 == 0
  {
    "Top " + Strings.IntToString(len / 3 * tier)
  }

  /**
   * For `3k` results, an uncategorised row in the first third is captioned
   * "Top k", in the second "Top 2k", in the last "Top 3k"; the three captions
   * differ when there are results.
   */
  lemma {:induction false} TopCaptionsOfThirds(results: seq<ChoiceResult>, k: nat, i: nat)
    requires |results| == 3 * k && i < |results| && !Truthy(results[i].option.category)
    ensures var rows := RankedRows(results);
      rows[i].category.TopTier? &&
      TopCaption(|results|, rows[i].category.tier) ==
        "Top " + Strings.IntToString(if i < k then k else if i < 2 * k then 2 * k else 3 * k)
    ensures k > 0 ==>
      TopCaption(3 * k, 1) != TopCaption(3 * k, 2) && TopCaption(3 * k, 2) != TopCaption(3 * k, 3) &&
      TopCaption(3 * k, 1) != TopCaption(3 * k, 3)
  {
    TopCaptionOfTier(k, i);
    CaptionsDiffer(k, 1, 2);
    CaptionsDiffer(k, 2, 3);
    CaptionsDiffer(k, 1, 3);
  }

  lemma TopCaptionOfTier(k: nat, i: nat)
    requires i < 3 * k
    ensures TopCaption(3 * k, Tier(i, 3 * k)) ==
      "Top " + Strings.IntToString(if i < k then k else if i < 2 * k then 2 * k else 3 * k)
  {
    var t := Tier(i, 3 * k);
    TopCaptionIs(k, t);
    if i < k {
      assert t == 1;
    } else if i < 2 * k {
      assert t == 2;
    } else {
      assert t == 3;
    }
  }

  /** With `3k` results, tier `t` is captioned `Top k·t`. */
  lemma TopCaptionIs(k: nat, t: int)
    ensures TopCaption(3 * k, t) == "Top " + Strings.IntToString(k * t)
  {
    assert (3 * k) / 3 == k;
  }

  lemma {:induction false} MulStrict(k: nat, t: int, u: int)
    requires k > 0 && t < u
    ensures k * t < k * u
  {
    if k > 1 {
      MulStrict(k - 1, t, u);
      assert k * t == (k - 1) * t + t;
      assert k * u == (k - 1) * u + u;
    }
  }

  lemma CaptionsDiffer(k: nat, t: int, u: int)
    requires t < u
    ensures k > 0 ==> TopCaption(3 * k, t) != TopCaption(3 * k, u)
  {
    if k > 0 {
      TopCaptionIs(k, t);
      TopCaptionIs(k, u);
      MulStrict(k, t, u);
      var a, b := Strings.IntToString(k * t), Strings.IntToString(k * u);
      Strings.IntToStringRoundTrip(k * t);
      Strings.IntToStringRoundTrip(k * u);
      assert a != b;
      assert ("Top " + a)[4..] == a && ("Top " + b)[4..] == b;
    }
  }

  // ---- Results (components/Questionnaire/Results.js:227-266) ----

  datatype Chart =
    | Histogram(rows: seq<ShareRow>, legend: seq<string>)
    | Sentiment(sentimentRows: seq<SentimentRow>)
    | RankedDocuments(documentRows: seq<DocumentRow>)
    | RankedChoices(rankedRows: seq<RankedRow>)

  datatype Block = Block(id: string, title: Option<string>, chart: Chart, turnout: Turnout)

  /**
   * `Crashed` is the render of a loaded query whose `questionnaire` is null
   * (an unknown slug): reading its `questions` throws.
   */
  datatype View = Loading | Failed | Crashed(message: string) | Shown(blocks: seq<Option<Block>>)

  function ChartFor(q: Question, numberText: real -> string): (c: Option<Chart>)
    ensures c.None? <==> q.body.TextBody?
    ensures c.Some? && c.value.Histogram? <==> q.body.RangeBody?
    ensures c.Some? && c.value.Sentiment? <==> q.body.ChoiceBody? && |q.body.options| == 5
    ensures c.Some? && c.value.RankedChoices? <==> q.body.ChoiceBody? && |q.body.options| != 5
    ensures c.Some? && c.value.RankedDocuments? <==> q.body.DocumentBody?
    ensures c.Some? && c.value.Histogram? ==>
      c.value.rows == HistogramRows(q.body.ticks, q.body.histogram, q.turnout.submitted, numberText) &&
      |c.value.legend| == |q.body.ticks| &&
      forall i :: 0 <= i < |q.body.ticks| ==> c.value.legend[i] == q.body.ticks[i].caption
    ensures c.Some? && c.value.Sentiment? ==>
      c.value.sentimentRows == SentimentRows(q.body.options, q.body.results, q.turnout.submitted)
    ensures c.Some? && c.value.RankedChoices? ==> c.value.rankedRows == RankedRows(q.body.results)
    ensures c.Some? && c.value.RankedDocuments? ==> c.value.documentRows == DocumentRows(q.body.documentResults)
  {
    match q.body
    case TextBody => None
    case RangeBody(ticks, histogram) =>
      Some(Histogram(HistogramRows(ticks, histogram, q.turnout.submitted, numberText),
                     seq(|ticks|, i requires 0 <= i < |ticks| => ticks[i].caption)))
    case ChoiceBody(options, results) =>
      if |options| == 5 then Some(Sentiment(SentimentRows(options, results, q.turnout.submitted)))
      else Some(RankedChoices(RankedRows(results)))
    case DocumentBody(results) => Some(RankedDocuments(DocumentRows(results)))
  }

  function RenderQuestion(q: Question, numberText: real -> string): (b: Option<Block>)
    ensures b.None? <==> q.body.TextBody?
    ensures b.Some? ==> ChartFor(q, numberText) == Some(b.value.chart)
    ensures b.Some? ==> b.value.id == q.id && b.value.turnout == q.turnout
    ensures b.Some? ==> (b.value.title.Some? <==> q.text != "")
  {
    match ChartFor(q, numberText)
    case None => None
    case Some(c) => Some(Block(q.id, if q.text != "" then Some(q.text) else None, c, q.turnout))
  }

  function RenderResults(loading: bool, error: Option<string>, questionnaire: Option<seq<Question>>,
                         numberText: real -> string): (v: View)
    ensures v == Loading <==> loading
    ensures v == Failed <==> !loading && error.Some?
    ensures v.Crashed? <==> !loading && error.None? && questionnaire.None?
    ensures v.Shown? <==> !loading && error.None? && questionnaire.Some?
    ensures v.Shown? ==> (|v.blocks| == |questionnaire.value| &&
      forall i :: 0 <= i < |questionnaire.value| ==>
        v.blocks[i] == RenderQuestion(questionnaire.value[i], numberText))
  {
    if loading then Loading
    else if error.Some? then Failed
    else match questionnaire
      case None => Crashed("TypeError: Cannot read property 'questions' of null")
      case Some(questions) =>
        Shown(seq(|questions|, i requires 0 <= i < |questions| => RenderQuestion(questions[i], numberText)))
  }
}
