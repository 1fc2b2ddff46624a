// The list of active discussions of the feedback page
// (components/Feedback/ActiveDiscussions.js): which discussions are listed,
// which row is selected, and what a click on a row does.

module FeedbackActiveDiscussions {
  import opened Wrappers
  import Seqs

  const MAX_ROWS := 5
  const DISCUSSION_TEMPLATE := "discussion"

  /** The part of a document's `meta` the list reads; `credits` is passed through untouched. */
  datatype DocumentMeta = DocumentMeta(
    title: Option<string>,
    credits: Option<string>,
    path: Option<string>,
    template: Option<string>)

  /** A discussion's document; its `meta` may be null (`None`). */
  datatype Document = Document(meta: Option<DocumentMeta>)

  datatype Discussion = Discussion(
    id: string,
    title: string,
    path: Option<string>,
    document: Option<Document>)

  /** What `onChange` receives for a row that gets selected. */
  datatype Selection = Selection(
    discussionId: string,
    title: Option<string>,
    credits: Option<string>,
    path: Option<string>)

  datatype Row = Row(id: string, caption: string, selected: bool, path: Option<string>, newPage: bool)

  /**
   * What a click on a row does: leave for the discussion's own page, report
   * a new selection, or throw while reading the fields of a null `meta`.
   */
  datatype ClickEffect = Navigate(route: string) | Change(selection: Option<Selection>) | Throw(message: string)

  datatype View = Loading | Failed | Rows(rows: seq<Row>)

  function NotIgnored(ignoreDiscussionId: Option<string>): Discussion -> bool {
    (d: Discussion) => ignoreDiscussionId != Some(d.id)
  }

  /** `filter(d => d.discussion.id !== ignoreDiscussionId).slice(0, 5)` */
  function Listed(active: seq<Discussion>, ignoreDiscussionId: Option<string>): (r: seq<Discussion>)
    ensures |r| <= MAX_ROWS
    ensures var kept := Seqs.Filter(NotIgnored(ignoreDiscussionId), active);
      |r| == if |kept| < MAX_ROWS then |kept| else MAX_ROWS
    ensures forall i :: 0 <= i < |r| ==> ignoreDiscussionId != Some(r[i].id)
    ensures r <= Seqs.Filter(NotIgnored(ignoreDiscussionId), active)
  {
    Seqs.Take(Seqs.Filter(NotIgnored(ignoreDiscussionId), active), MAX_ROWS)
  }

  /**
   * The listed discussions are the first five that are not ignored: every
   * listed one is in the data, and a discussion of the data that is not
   * ignored is missing only when five rows are already full.
   */
  lemma ListedExactly(active: seq<Discussion>, ignoreDiscussionId: Option<string>, d: Discussion)
    ensures d in Listed(active, ignoreDiscussionId) ==> d in active && ignoreDiscussionId != Some(d.id)
    ensures d in active && ignoreDiscussionId != Some(d.id) && d !in Listed(active, ignoreDiscussionId) ==>
      |Listed(active, ignoreDiscussionId)| == MAX_ROWS
  {
    var kept := Seqs.Filter(NotIgnored(ignoreDiscussionId), active);
    var r := Listed(active, ignoreDiscussionId);
    Seqs.FilterMembers(NotIgnored(ignoreDiscussionId), active, d);
    if d in r {
      var i :| 0 <= i < |r| && r[i] == d;
      assert kept[i] == d;
    }
  }

  /** `discussionId && discussionId === discussion.id` */
  predicate Selected(discussionId: Option<string>, d: Discussion) {
    Truthy(discussionId) && discussionId.value == d.id
  }

  /** `discussion.document ? discussion.document.meta : {}`, where `None` is a null `meta`. */
  function MetaOf(d: Discussion): Option<DocumentMeta> {
    match d.document
    case None => Some(DocumentMeta(None, None, None, None))
    case Some(doc) => doc.meta
  }

  /** `meta && meta.template === 'discussion' && discussion.path`, kept only when truthy. */
  function RowPath(d: Discussion): (p: Option<string>)
    ensures p.Some? <==>
      d.document.Some? && d.document.value.meta.Some? &&
      d.document.value.meta.value.template == Some(DISCUSSION_TEMPLATE) && Truthy(d.path)
    ensures p.Some? ==> p == d.path
  {
    var meta := MetaOf(d);
    if meta.Some? && meta.value.template == Some(DISCUSSION_TEMPLATE) && Truthy(d.path) then d.path
    else None
  }

  function RenderRow(d: Discussion, discussionId: Option<string>): (row: Row)
    ensures row.id == d.id && row.caption == d.title
    ensures row.selected <==> Selected(discussionId, d)
    ensures row.newPage <==> row.path.Some?
    ensures row.path == RowPath(d)
  {
    var path := RowPath(d);
    Row(d.id, d.title, Selected(discussionId, d), path, path.Some?)
  }

  /**
   * The selection reported for `d`. Without a document its meta is `{}`, so
   * every field is undefined; a document whose `meta` is null has none, since
   * reading `meta.title` throws.
   */
  function SelectionOf(d: Discussion): (s: Option<Selection>)
    ensures s.None? <==> d.document.Some? && d.document.value.meta.None?
    ensures s.Some? ==> s.value.discussionId == d.id
    ensures d.document.None? ==> s.Some? && s.value.title.None? && s.value.credits.None? && s.value.path.None?
    ensures d.document.Some? && d.document.value.meta.Some? ==>
      var m := d.document.value.meta.value;
      s.Some? && s.value.title == m.title && s.value.credits == m.credits && s.value.path == m.path
  {
    match MetaOf(d)
    case None => None
    case Some(meta) => Some(Selection(d.id, meta.title, meta.credits, meta.path))
  }

  /** `RowItem`'s click handler together with the `onClick` it is given. */
  function Click(d: Discussion, discussionId: Option<string>): (e: ClickEffect)
    ensures e.Navigate? <==> RowPath(d).Some?
    ensures e.Navigate? ==> e.route == d.path.value
    ensures e.Throw? <==> RowPath(d).None? && !Selected(discussionId, d) && SelectionOf(d).None?
    ensures e.Change? ==> (e.selection.None? <==> Selected(discussionId, d))
    ensures e.Change? && e.selection.Some? ==> e.selection == SelectionOf(d)
  {
    match RowPath(d)
    case Some(p) => Navigate(p)
    case None =>
      if Selected(discussionId, d) then Change(None)
      else match SelectionOf(d)
        case None => Throw("TypeError: Cannot read property 'title' of null")
        case Some(s) => Change(Some(s))
  }

  function RenderActiveDiscussions(loading: bool, error: Option<string>, active: seq<Discussion>,
                                   discussionId: Option<string>, ignoreDiscussionId: Option<string>): (v: View)
    ensures v.Rows? <==> !loading && error.None?
    ensures v.Rows? ==> |v.rows| == |Listed(active, ignoreDiscussionId)| && |v.rows| <= MAX_ROWS
    ensures v.Rows? ==> forall i :: 0 <= i < |v.rows| ==>
      v.rows[i] == RenderRow(Listed(active, ignoreDiscussionId)[i], discussionId)
    ensures v.Rows? ==> forall i, j :: 0 <= i < j < |v.rows| && v.rows[i].selected && v.rows[j].selected ==>
      v.rows[i].id == v.rows[j].id
  {
    if loading then Loading
    else if error.Some? then Failed
    else
      var listed := Listed(active, ignoreDiscussionId);
      Rows(seq(|listed|, i requires 0 <= i < |listed| => RenderRow(listed[i], discussionId)))
  }

  /**
   * Selecting and deselecting: a click on a row without its own page reports
   * the row's discussion; once the parent passes that id back in, the row is
   * the selected one and a second click reports no selection.
   */
  lemma ClickTogglesSelection(d: Discussion, discussionId: Option<string>)
    requires RowPath(d).None? && !Selected(discussionId, d) && d.id != ""
    requires SelectionOf(d).Some?
    ensures Click(d, discussionId) == Change(SelectionOf(d))
    ensures var next := Some(Click(d, discussionId).selection.value.discussionId);
      RenderRow(d, next).selected && Click(d, next) == Change(None)
  {
  }

  /**
   * A row whose document has a null `meta` has no path; a click on it throws
   * unless the row is selected, and then it deselects.
   */
  lemma NullMetaClick(d: Discussion, discussionId: Option<string>)
    requires d.document.Some? && d.document.value.meta.None?
    ensures RowPath(d).None?
    ensures Click(d, discussionId) == if Selected(discussionId, d) then Change(None) else Throw("TypeError: Cannot read property 'title' of null")
  {
  }

  /** A row with an empty id can never be selected, so its clicks always report it. */
  lemma EmptyIdNeverSelected(d: Discussion, discussionId: Option<string>)
    requires d.id == "" && RowPath(d).None?
    ensures !RenderRow(d, discussionId).selected
    ensures SelectionOf(d).Some? ==> Click(d, discussionId) == Change(SelectionOf(d))
    ensures SelectionOf(d).None? ==> Click(d, discussionId).Throw?
  {
  }
}
