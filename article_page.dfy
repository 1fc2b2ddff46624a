// The article page (components/Article/Page.js): the schema chosen for a
// document's template, the frame's meta and action bar, the linked
// discussion, what the page body shows, and the document path it queries.

module ArticlePage {
  import opened Wrappers
  import Strings

  /** The schema creators of the styleguide's templates. */
  datatype Schema = ArticleSchema | FormatSchema | DiscussionSchema | NewsletterSchema

  /** The keys of `schemaCreators`, in declaration order. */
  const SCHEMA_KEYS: seq<string> := ["editorial", "meta", "article", "format", "discussion", "editorialNewsletter"]

  const SCHEMA_CREATORS: map<string, Schema> := map[
    "editorial" := ArticleSchema,
    "meta" := ArticleSchema,
    "article" := ArticleSchema,
    "format" := FormatSchema,
    "discussion" := DiscussionSchema,
    "editorialNewsletter" := NewsletterSchema]

  const FORMAT := "format"

  /** `getSchemaCreator`: a falsy template means the first key; an unknown key throws. */
  function GetSchemaCreator(template: Option<string>): (r: Result<Schema, string>)
    ensures !Truthy(template) ==> r == Ok(ArticleSchema)
    ensures Truthy(template) ==> (r.Ok? <==> template.value in SCHEMA_CREATORS)
    ensures Truthy(template) && r.Ok? ==> r.value == SCHEMA_CREATORS[template.value]
    ensures Truthy(template) && r.Err? ==> r.error == "Unkown Schema " + template.value
  {
    var key := if Truthy(template) then template.value else SCHEMA_KEYS[0];
    if key in SCHEMA_CREATORS then Ok(SCHEMA_CREATORS[key]) else Err("Unkown Schema " + key)
  }

  /** The key list and the lookup table agree, so every listed template has a schema. */
  lemma SchemaKeysAreTheTable()
    ensures forall k :: k in SCHEMA_CREATORS <==> k in SCHEMA_KEYS
    ensures forall i :: 0 <= i < |SCHEMA_KEYS| ==> GetSchemaCreator(Some(SCHEMA_KEYS[i])).Ok?
  {
    assert SCHEMA_CREATORS.Keys == {"editorial", "meta", "article", "format", "discussion", "editorialNewsletter"};
  }

  /** Only the format template renders with the format schema; the three article templates share one. */
  lemma SchemaOfTemplate(template: string)
    requires template != ""
    ensures GetSchemaCreator(Some(template)) == Ok(FormatSchema) <==> template == FORMAT
    ensures GetSchemaCreator(Some(template)) == Ok(ArticleSchema) <==>
      template == "editorial" || template == "meta" || template == "article"
  {
  }

  datatype LinkedDiscussion = LinkedDiscussion(path: Option<string>, discussionId: Option<string>)

  datatype ArticleMeta = ArticleMeta(
    template: Option<string>,
    path: string,
    title: Option<string>,
    discussionId: Option<string>,
    discussion: Option<LinkedDiscussion>)

  datatype Article = Article(id: string, meta: ArticleMeta)

  /** The meta handed to the frame: the article's meta plus its absolute url. */
  datatype FrameMeta = FrameMeta(meta: ArticleMeta, url: string)

  datatype ActionBar = ActionBar(url: string, title: Option<string>, iconLink: Option<string>, discussionPath: Option<string>)

  /** `meta.discussionId || (discussion && discussion.meta.discussionId)`, up to truthiness. */
  function LinkedDiscussionId(meta: ArticleMeta): (r: Option<string>)
    ensures Truthy(meta.discussionId) ==> r == meta.discussionId
    ensures !Truthy(meta.discussionId) && meta.discussion.Some? && Truthy(meta.discussion.value.discussionId) ==>
      r == meta.discussion.value.discussionId
    ensures !Truthy(meta.discussionId) && (meta.discussion.None? || !Truthy(meta.discussion.value.discussionId)) ==>
      r.None?
  {
    OrElse(meta.discussionId, if meta.discussion.Some? then meta.discussion.value.discussionId else None)
  }

  /** The action bar; the discussion icon shows exactly for a truthy linked discussion id. */
  function RenderActionBar(frame: FrameMeta): (bar: ActionBar)
    ensures bar.url == frame.url && bar.title == frame.meta.title
    ensures bar.iconLink.Some? <==> Truthy(LinkedDiscussionId(frame.meta))
    ensures bar.iconLink.Some? ==> bar.iconLink == LinkedDiscussionId(frame.meta)
    ensures bar.discussionPath == if frame.meta.discussion.Some? then frame.meta.discussion.value.path else None
  {
    var linked := LinkedDiscussionId(frame.meta);
    ActionBar(
      frame.url,
      frame.meta.title,
      if Truthy(linked) then linked else None,
      if frame.meta.discussion.Some? then frame.meta.discussion.value.path else None)
  }

  /** What the page body (inside the loader) shows. */
  datatype Body =
    | Loading
    | Failed
    | NotFound(statusCode: int)
    | Crashed(message: string)
    | Rendered(
        schema: Schema,
        payNoteBefore: bool,
        discussion: Option<string>,
        feed: Option<string>,
        payNoteAfter: bool)

  datatype Page = Page(frameMeta: Option<FrameMeta>, actionBar: Option<ActionBar>, body: Body)

  function RenderBody(loading: bool, error: Option<string>, article: Option<Article>): (b: Body)
    ensures b == Loading <==> loading
    ensures b == Failed <==> !loading && error.Some?
    ensures b.NotFound? <==> !loading && error.None? && article.None?
    ensures b.NotFound? ==> b.statusCode == 404
    ensures b.Crashed? <==> !loading && error.None? && article.Some? && GetSchemaCreator(article.value.meta.template).Err?
    ensures b.Rendered? ==> article.Some? && b.schema == GetSchemaCreator(article.value.meta.template).value
    ensures b.Rendered? ==> var isFormat := article.value.meta.template == Some(FORMAT);
      b.payNoteBefore == !isFormat && b.payNoteAfter == !isFormat &&
      (b.feed.Some? <==> isFormat) && (b.feed.Some? ==> b.feed.value == article.value.id)
    ensures b.Rendered? ==> (b.discussion.Some? <==> Truthy(article.value.meta.discussionId))
    ensures b.Rendered? && b.discussion.Some? ==> b.discussion == article.value.meta.discussionId
  {
    if loading then Loading
    else if error.Some? then Failed
    else match article
      case None => NotFound(404)
      case Some(a) =>
        match GetSchemaCreator(a.meta.template)
        case Err(message) => Crashed(message)
        case Ok(schema) =>
          var isFormat := a.meta.template == Some(FORMAT);
          Rendered(
            schema,
            !isFormat,
            if Truthy(a.meta.discussionId) then a.meta.discussionId else None,
            if isFormat then Some(a.id) else None,
            !isFormat)
  }

  /** `ArticlePage.render`: the frame's meta and action bar exist whenever the article does, whatever the loader shows. */
  function RenderPage(publicBaseUrl: string, loading: bool, error: Option<string>, article: Option<Article>): (p: Page)
    ensures p.frameMeta.Some? <==> article.Some?
    ensures p.actionBar.Some? <==> article.Some?
    ensures p.frameMeta.Some? ==> p.frameMeta.value.url == publicBaseUrl + article.value.meta.path
    ensures p.actionBar.Some? ==> p.actionBar.value == RenderActionBar(p.frameMeta.value)
    ensures p.body == RenderBody(loading, error, article)
  {
    var frame := if article.Some? then Some(FrameMeta(article.value.meta, publicBaseUrl + article.value.meta.path)) else None;
    Page(
      frame,
      if frame.Some? then Some(RenderActionBar(frame.value)) else None,
      RenderBody(loading, error, article))
  }

  /** A page either shows the pay notes or the format feed, never both. */
  lemma PayNotesXorFeed(loading: bool, error: Option<string>, article: Option<Article>)
    ensures var b := RenderBody(loading, error, article);
      b.Rendered? ==> (b.payNoteBefore <==> b.feed.None?) && b.payNoteBefore == b.payNoteAfter
  {
  }

  /** A loaded query without an article answers 404, and still no frame meta is given. */
  lemma MissingArticleIs404(publicBaseUrl: string)
    ensures RenderPage(publicBaseUrl, false, None, None) == Page(None, None, NotFound(404))
  {
  }

  /** `asPath.split('?')[0]`: the document path queried for a url. */
  function DocumentPath(asPath: string): (path: string)
    ensures path <= asPath && '?' !in path
    ensures '?' !in asPath ==> path == asPath
  {
    Strings.BeforeFirst(asPath, '?')
  }

  /** The query string never reaches the document path: `p?q` is looked up as `p`. */
  lemma DocumentPathDropsQuery(path: string, query: string)
    requires '?' !in path
    ensures DocumentPath(path + "?" + query) == path
    ensures DocumentPath(DocumentPath(path + "?" + query)) == path
  {
    Strings.SplitJoin(path, '?', query);
    assert path + "?" + query == path + ['?'] + query;
  }
}
