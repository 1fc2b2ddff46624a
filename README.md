# republik-frontend: a Dafny model of its decision logic

This project models the parts of the Republik web front end (a React
application) that decide something. The rest of that front end is markup,
styling and GraphQL wiring. Each component below is one Dafny module. The
modules prove what the component promises about its output or its state.

- **Account overview** (`account.dfy`, module `AccountOverview`). The
  query-result mapper derives the member's flags: memberships, active
  memberships, pledges, access grants, a PROLONG pledge, an accepted statute,
  and the recurring monthly amount. The page then shows a section for each
  flag that is set.
- **Search controller** (`search.dfy`, module `SearchController`). The
  `Search` component is a class. Its fields are the component state, plus a
  log of the `showFeed` calls and router pushes it makes. Each handler is a
  method, proved equal to a transition function on a `State` value. Every
  transition keeps a consistency invariant. Lemmas relate the pushed
  `?search=` address to what the router reports back.
- **Sort buttons** (`sort.dfy`, module `SortButtons`). A `SortButton` is a
  class holding its own direction. Clicking a selected button toggles that
  direction, and the direction reported to the handler is the one stored.
- **Membership management** (`manage.dfy`, module `MembershipManage`). Rules
  decide which actions are offered. The `Actions` class tracks a reactivate
  request through `updating` and `remoteError`. `Manage` picks the text about
  the latest period.
- **Pledge list** (`pledge_list.dfy`, module `PledgeListView`). The list drops
  DRAFT pledges and filters the options. It builds the ordered lists of
  candidate locale keys for option labels and payment states, and it picks
  the end date of the last additional period.
- **Questionnaire results** (`results.dfy`, module `QuestionnaireResults`).
  The chart depends on the question type and on the number of options.
  Histogram buckets are matched to ticks. Sentiment rows are stably ordered
  by declaration index. Results without a document are dropped. Each ranked
  row gets a "Top n" tier. A loaded query without a questionnaire (an
  unknown slug) crashes the render, because its questions are read unguarded.
- **Active discussions** (`active_discussions.dfy`, module
  `FeedbackActiveDiscussions`). The list leaves out the ignored discussion and
  shows at most five. It marks the selected row and decides what a click
  does: navigate, select or deselect.
- **Article page** (`article_page.dfy`, module `ArticlePage`). It looks up the
  schema for the document template, which can fail with an error. It derives
  the linked discussion and the action bar, and builds the 404, format and
  pay-note branches of the body. It also computes the document path sent to
  the query.

`common.dfy` holds what the modules share:
- `Wrappers`: `Option`, `Result`, and JavaScript truthiness of an optional
  string.
- `Seqs`: a filter, and a stable insertion sort with its stability proof.
- `Strings`: integers as decimal text, with the parse round trip, and
  splitting at the first separator.
- `Locale`: the `t.first` fallback chain.
- `Packages`: the package name `MONTHLY_ABO`, which both the account overview
  and the membership actions compare against.

Conventions of the model:
- A locale lookup is modelled as the list of candidate keys it asks for,
  with its default (`Locale.Text`). `Locale.First` resolves that list against
  any lookup function `key -> Option<string>`, taking the first key that has
  a translation.
- The `Loader` component is not part of this model: the app's own
  `components/Loader` for the account page, the questionnaire results and the
  article page, and the styleguide's for the active discussions. Its
  behaviour is assumed to be: a spinner while loading, else the error, else
  the `render` callback.
- A list the server may leave out (`null`) is modelled as an empty sequence
  wherever the code treats both alike. Optional strings are `Option<string>`,
  and "truthy" means present and non-empty.

Two things the code does differ from what one might expect:
- A sort button does not cycle through none, ASC and DESC. Clicking a
  selected button swaps ASC and DESC, but sends any other direction,
  `undefined` included, to `null`, where it stays
  (components/Search/Sort.js:62-64; `SortButtons.ToggleOtherIsNull`).
- `updateUrl` appends the search query to the address without encoding it.
  When the router reads the address back, three characters change the query:
  - `#` starts the fragment, so the query is cut there;
  - `&` starts a new pair, so the query is cut there;
  - `+` is decoded as a space.
  A `%` followed by two hex digits is also decoded. The router's parser
  also trims white space from both ends of the whole address, so a query
  that ends in white space loses it. The component then replaces both
  queries with what it read (`SearchController.UnencodedQueryChanges`,
  `SearchController.TrailingWhiteSpaceChanges`). The round-trip lemma
  `SearchController.HrefRoundTrip` is therefore stated for queries without
  `&`, `#`, `+` and `%` that do not end in white space.

## Model

| member | source | states |
|---|---|---|
| AccountOverview.AnyActive | components/Account/index.js:185-189 | true exactly when some membership is active |
| AccountOverview.AnyPackage | components/Account/index.js:204-206 | true exactly when some pledge's package has the given name |
| AccountOverview.AnyStatutePackage | components/Account/index.js:207-213 | true exactly when some pledge's package is neither MONTHLY_ABO nor DONATE |
| AccountOverview.MonthlyMax | components/Account/index.js:221-223 | the largest price among the MONTHLY_ABO options, and 0 when there is none |
| AccountOverview.RecurringMax | components/Account/index.js:218-225 | it is the contribution of one membership, and no membership contributes more |
| AccountOverview.DeriveFlags | components/Account/index.js:174-228 | loading, errored or without `me`: every flag is false and the amount 0; once ready, `hasMemberships`, `hasPledges` and `hasAccessGrants` hold iff their lists are not empty; active memberships imply memberships; a PROLONG pledge or an accepted statute implies pledges; no memberships means amount 0 |
| AccountOverview.ActiveMembershipsIff | components/Account/index.js:185-189 | `hasActiveMemberships` holds iff some membership is active |
| AccountOverview.ProlongPledgeIff | components/Account/index.js:204-206 | `hasProlongPledge` holds iff some pledge's package is exactly PROLONG |
| AccountOverview.AcceptedStatueIff | components/Account/index.js:207-213 | `acceptedStatue` holds iff some pledge is neither MONTHLY_ABO nor DONATE |
| AccountOverview.RecurringAmountIsMax | components/Account/index.js:218-226 | `recurringAmount` is one membership's largest monthly price (or 0) and bounds every monthly price of every membership |
| AccountOverview.NoMonthlyOptionsNoRecurringAmount | components/Account/index.js:218-226 | without any MONTHLY_ABO option the recurring amount is 0 |
| AccountOverview.RenderSections | components/Account/index.js:97-160 | user guidance iff no grants, no memberships and not in the iOS app; access grants iff grants and no active membership; payment sources iff the subscriptions section shows and the amount is positive; the pledges heading iff the pledges section shows and there are pledges or no memberships |
| AccountOverview.RenderAccount | components/Account/index.js:77-95 | loading shows the spinner, else an error shows the error, else a signed-out visitor sees the sign-in screen, else the sections derived from the query's flags |
| AccountOverview.GuidanceForNewMembers | components/Account/index.js:97-145 | a member without memberships and grants, outside the iOS app, sees the guidance and the pledges heading and no payment sources |
| AccountOverview.StatementPackageIff | components/Account/index.js:114-116 | the statement's package is PROLONG iff some pledge is a PROLONG pledge, and only when the statement shows |
| AccountOverview.PaymentSourcesIff | components/Account/index.js:117-124 | payment sources show iff outside the iOS app with a positive recurring amount, and their total is that amount |
| SearchController.Initial | components/Search/index.js:26-35 | the initial state satisfies the invariant |
| SearchController.Searched | components/Search/index.js:37-48 | searching keeps the invariant |
| SearchController.Reset | components/Search/index.js:50-59 | resetting keeps the invariant |
| SearchController.FilterClicked | components/Search/index.js:85-100 | a filter click keeps the invariant: at most one filter, never an empty value |
| SearchController.SortClicked | components/Search/index.js:72-83 | a sort click keeps the invariant: no empty direction is stored |
| SearchController.Received | components/Search/index.js:119-131 | an incoming address keeps the invariant |
| SearchController.Typed | components/Search/index.js:142 | typing keeps the invariant |
| SearchController.HrefRoundTrip | components/Search/index.js:107-111 | the address pushed for a non-empty query without `&`, `#`, `+` and `%` that does not end in white space reports that query as its `search` parameter |
| SearchController.ClearHrefRoundTrip | components/Search/index.js:113-116 | the cleared address of a path without `?` and `#` reports an empty `search` parameter |
| SearchController.SearchedEchoIsNoop | components/Search/index.js:119-131 | after a search for a query without `&`, `#`, `+` and `%` that does not end in white space, receiving the address it pushed changes nothing |
| SearchController.ResetEchoIsNoop | components/Search/index.js:119-131 | after a reset, receiving the cleared address changes nothing |
| SearchController.Href | components/Search/index.js:107-111 | the address starts with the path, and is the path alone exactly when the query is empty; otherwise `?search=` and the query follow, unencoded |
| SearchController.ClearHref | components/Search/index.js:113-116 | the path followed by an empty `?search=` |
| SearchController.Unescape | components/Search/index.js:120-122 | the router's decoding of a query value never makes it longer |
| SearchController.UnescapeUnchanged | components/Search/index.js:120-122 | a value without `+` and `%` decodes to itself |
| SearchController.FragmentIgnored | components/Search/index.js:120-122 | whatever follows a `#` in an address does not change its `search` parameter |
| SearchController.SearchParamOfPair | components/Search/index.js:107-122 | the address `path?search=v`, possibly followed by further `&` pairs, reports `v` decoded; with no further pairs, `v` must not end in white space |
| SearchController.UnescapePlainPrefix | components/Search/index.js:120-122 | decoding leaves a prefix free of `&`, `#`, `+` and `%` unchanged |
| SearchController.UnescapePlus | components/Search/index.js:120-122 | a `+` between such plain parts decodes to a space |
| SearchController.SearchParamOfQuery | components/Search/index.js:120-122 | the `search` parameter of `path?qs` is read from `qs` without its trailing white space and cut at its first `#` |
| SearchController.SearchPairValue | components/Search/index.js:120-122 | a query string that starts with the pair `search=v` reports `v`, decoded |
| SearchController.AmpersandSearchParam | components/Search/index.js:107-111 | the address pushed for `a&b` reports `a` |
| SearchController.HashSearchParam | components/Search/index.js:107-111 | the address pushed for `a#b` reports `a` |
| SearchController.PlusSearchParam | components/Search/index.js:107-111 | the address pushed for `a+b`, where `b` does not end in white space, reports `a b` |
| SearchController.TrailingWhiteSpaceSearchParam | components/Search/index.js:107-111 | the address pushed for `a` followed by white space reports `a` |
| SearchController.TrailingWhiteSpaceChanges | components/Search/index.js:107-131 | searching for `a` followed by white space pushes an address whose `search` parameter is `a`; receiving it sets both queries to `a`, and the change hides the feed |
| SearchController.UnencodedQueryChanges | components/Search/index.js:107-131 | searching for `a&b` or `a#b` pushes an address whose `search` parameter is `a`, and for `a+b` one whose parameter is `a b`; receiving it, when not empty, sets both queries to that text |
| SearchController.FilterClickKeepsQueriesAndSort | components/Search/index.js:85-100 | a filter click changes only the filters, and leaves none exactly for a falsy value |
| SearchController.ReceivedSameQueryIsNoop | components/Search/index.js:119-131 | an empty search, or the one the input shows, changes nothing |
| SearchController.ResetIdempotent | components/Search/index.js:50-59 | resetting twice is resetting once |
| SearchController.Search.constructor | components/Search/index.js:26-35 | dirty, both queries empty, no filters, sort by publishedAt with no direction, nothing logged |
| SearchController.Search.UpdateUrl | components/Search/index.js:107-111 | pushes the path, plus `?search=` and the query when the query is not empty |
| SearchController.Search.ClearUrl | components/Search/index.js:113-116 | pushes the path with an empty `?search=` |
| SearchController.Search.OnSearch | components/Search/index.js:37-48 | hides the feed, submits the input, clears the filters, sorts by relevance, keeps the input, and pushes its address |
| SearchController.Search.OnReset | components/Search/index.js:50-59 | shows the feed, empties both queries and the filters, keeps the sort, and pushes the cleared address |
| SearchController.Search.OnClose | components/Search/index.js:61-64 | shows the feed and pushes the bare path; the state stays |
| SearchController.Search.OnSortClick | components/Search/index.js:72-83 | the sort becomes the key, with the direction only when it is truthy |
| SearchController.Search.OnFilterClick | components/Search/index.js:85-100 | sets one filter for a truthy value and none otherwise; without a submitted query it shows the feed exactly when no filter is left |
| SearchController.Search.ReceiveUrl | components/Search/index.js:119-131 | a non-empty search that differs from the input replaces both queries, clears the filters and hides the feed; anything else changes nothing |
| SearchController.Search.OnChange | components/Search/index.js:142 | the input becomes the value and the state dirty; the submitted query stays |
| SortButtons.Toggled | components/Search/Sort.js:61-64 | an unselected button keeps its direction; a selected one turns ASC into DESC and DESC into ASC, and anything else into null |
| SortButtons.IconFor | components/Search/Sort.js:53-54 | the up arrow iff ASC, the down arrow iff DESC |
| SortButtons.ColourFor | components/Search/Sort.js:55 | a disabled button is grey even when selected; the primary colour iff enabled and selected |
| SortButtons.ToggleSwapsAscDesc | components/Search/Sort.js:62-64 | a selected button swaps ASC and DESC, so two clicks restore the direction |
| SortButtons.ToggleOtherIsNull | components/Search/Sort.js:62-64 | any other direction of a selected button becomes null, and stays null |
| SortButtons.UnselectedKeepsDirection | components/Search/Sort.js:62-63 | an unselected button keeps its direction |
| SortButtons.SortButton.constructor | components/Search/Sort.js:45-47 | the direction starts as the `direction` prop |
| SortButtons.SortButton.Icon | components/Search/Sort.js:52-54 | the arrow shown follows the stored direction |
| SortButtons.SortButton.Click | components/Search/Sort.js:60-69 | a disabled button changes nothing and reports nothing; otherwise the stored direction is the toggled one, and the handler, when given, receives exactly that direction |
| MembershipManage.ActionLabel | components/Account/Memberships/Manage.js:63-66 | the type-specific key, then the generic key, with no default |
| MembershipManage.RenderActions | components/Account/Memberships/Manage.js:30-116 | while updating only the spinner; otherwise cancel iff active and renewing, reactivate iff not renewing with periods (never both), upgrade iff cancel and MONTHLY_ABO, awaiting iff not prolonging, cancel and waiting, prolong iff asked; each label is `ActionLabel` of its action (`cancel/link`, `reactivate`, `prolong/link`); the error iff truthy, and then it is the remote error |
| MembershipManage.ActionLabelFallsBack | components/Account/Memberships/Manage.js:60-108 | each offered label (cancel, reactivate, prolong) resolves to the type-specific text when the locale has one, else to the generic text |
| MembershipManage.Actions.constructor | components/Account/Memberships/Manage.js:21-29 | not updating, no error, no request sent |
| MembershipManage.Actions.View | components/Account/Memberships/Manage.js:37-39 | the spinner exactly while updating |
| MembershipManage.Actions.ClickReactivate | components/Account/Memberships/Manage.js:71-78 | sets the busy flag and sends one reactivate request for the membership's id |
| MembershipManage.Actions.Settle | components/Account/Memberships/Manage.js:79-90 | clears the busy flag; success clears the error, failure stores its text |
| MembershipManage.UpdatingShowsOnlySpinner | components/Account/Memberships/Manage.js:37-39 | while updating nothing but the spinner renders |
| MembershipManage.RejectedKeepsRetry | components/Account/Memberships/Manage.js:70-113 | after a failure with a message the reactivate link is offered again and the message shows |
| MembershipManage.ResolvedShowsNoError | components/Account/Memberships/Manage.js:79-113 | after a success no error shows |
| MembershipManage.LatestPeriodNote | components/Account/Memberships/Manage.js:157-186 | a note iff there is a period, about `periods[0]`; the renew text iff active and not overdue, the overdue text iff overdue, never both |
| MembershipManage.RenderManage | components/Account/Memberships/Manage.js:155-190 | a truthy title wins over the type's title key; the period note and the actions as above |
| PledgeListView.ListedPledges | components/Account/PledgeList.js:143-155 | no listed pledge is a draft; loading, errored or without `me` lists nothing |
| PledgeListView.ListedPledgesExact | components/Account/PledgeList.js:147-154 | each non-draft pledge is listed as often as it occurs, drafts never, in the original order |
| PledgeListView.LabelKeys | components/Account/PledgeList.js:77-86 | eight candidates with the two gift keys first for a gift, six without; then the package-specific amount, `other` and plain keys, then the generic amount, `other` and plain keys |
| PledgeListView.GiftKeysIffGive | components/Account/PledgeList.js:69-86 | a `/give` key is among the candidates iff the membership belongs to another user |
| PledgeListView.AmountKeysDistinct | components/Account/PledgeList.js:77-86 | options with different amounts never share their amount-specific label key |
| PledgeListView.EndDate | components/Account/PledgeList.js:70-72 | the last additional period's end date, absent when the list is missing or empty |
| PledgeListView.RenderOption | components/Account/PledgeList.js:67-95 | the amount prefix iff `maxAmount > 1`, and then it is the amount followed by a space; the label fails exactly when the option has no reward, and otherwise its keys are `LabelKeys` with the gift keys iff the option is a membership given to someone else; the end-date suffix iff the end date is truthy |
| PledgeListView.RenderPayment | components/Account/PledgeList.js:98-119 | the paper-invoice note iff a waiting payment slip; the status tries the method-specific key, then the generic one |
| PledgeListView.RenderPledge | components/Account/PledgeList.js:55-126 | the package's title key; one line per shown option, in order, each rendered from that option; one line per payment, rendered from that payment; highlighted iff the id matches; the `isGivePackage` flag passed to the gift component iff the package is ABO_GIVE |
| PledgeListView.ShownOptionsExact | components/Account/PledgeList.js:56-58 | an option is shown iff its amount is non-zero and its minimum and maximum differ |
| QuestionnaireResults.FindTick | components/Questionnaire/Results.js:201-204 | the first tick at the bucket's upper edge (or lower edge for the first bucket), and none when no tick matches |
| QuestionnaireResults.BucketCaption | components/Questionnaire/Results.js:200-206 | the caption is the label of a tick at the bucket's edge, or the lower edge as text |
| QuestionnaireResults.HistogramRows | components/Questionnaire/Results.js:200-217 | one row per bucket, with the bucket's count, the turnout and the bucket's caption |
| QuestionnaireResults.BucketCaptionChoice | components/Questionnaire/Results.js:200-206 | the caption is the first matching tick's label, else the lower edge as text |
| QuestionnaireResults.IndexOf | components/Questionnaire/Results.js:182-184 | the first index of the label among the options, and -1 iff it is absent |
| QuestionnaireResults.SentimentRowOf | components/Questionnaire/Results.js:180-189 | the result's label, category and count; the index is -1 iff the label is not among the options, and otherwise points at that option |
| QuestionnaireResults.SentimentRows | components/Questionnaire/Results.js:180-195 | sorted by option index, and a permutation of the mapped results |
| QuestionnaireResults.SentimentRowsOrder | components/Questionnaire/Results.js:190-195 | one row per result, ascending by index; rows with the same index keep the order of the results |
| QuestionnaireResults.DocumentRows | components/Questionnaire/Results.js:150-162 | exactly the results that have a document, in order, each with its title, path and count as text |
| QuestionnaireResults.DocumentRowsSplit | components/Questionnaire/Results.js:154-160 | the rows of two concatenated lists are the two lists' rows concatenated |
| QuestionnaireResults.Tier | components/Questionnaire/Results.js:164-169 | the tier lies in 1..3 and is one more than the whole part of `3i / len` |
| QuestionnaireResults.TierMonotone | components/Questionnaire/Results.js:164-170 | a later row is never in an earlier tier |
| QuestionnaireResults.TierOfMultipleOfThree | components/Questionnaire/Results.js:164-170 | for a length `3k`, row `i` is in tier `t` iff `(t-1)k <= i < tk` |
| QuestionnaireResults.RankedRows | components/Questionnaire/Results.js:164-176 | one row per result with its label and count as text; a truthy category is kept, otherwise the row's tier |
| QuestionnaireResults.TopCaptionsOfThirds | components/Questionnaire/Results.js:164-169 | for `3k` results, an uncategorised row is captioned `Top k`, `Top 2k` or `Top 3k` by its third, and the three captions differ |
| QuestionnaireResults.ChartFor | components/Questionnaire/Results.js:236-250 | no chart iff text; the histogram iff range; sentiment bars iff exactly five options; ranked bars for documents and other choices; each chart holds the rows built from the question's results |
| QuestionnaireResults.RenderQuestion | components/Questionnaire/Results.js:229-262 | nothing iff a text question; otherwise the question's chart, id and turnout, and a title iff the text is not empty |
| QuestionnaireResults.RenderResults | components/Questionnaire/Results.js:227-266 | the spinner while loading, the error after a failure, a crash when the questionnaire is null, otherwise one block per question in order |
| FeedbackActiveDiscussions.Listed | components/Feedback/ActiveDiscussions.js:76-80 | never the ignored id, a prefix of the non-ignored discussions, and exactly five of them or all when fewer |
| FeedbackActiveDiscussions.ListedExactly | components/Feedback/ActiveDiscussions.js:76-80 | every listed discussion is in the data and not ignored; one that is not ignored is missing only when five are listed |
| FeedbackActiveDiscussions.RowPath | components/Feedback/ActiveDiscussions.js:93-94 | a path iff the document has a `meta` whose template is `discussion` and the discussion's path is truthy |
| FeedbackActiveDiscussions.RenderRow | components/Feedback/ActiveDiscussions.js:90-110 | selected iff the given id is truthy and equals the row's; a new page iff it has a path |
| FeedbackActiveDiscussions.SelectionOf | components/Feedback/ActiveDiscussions.js:101-108 | the discussion's id with its document's title, credits and path, or none of them without a document; no selection at all when the document's `meta` is null |
| FeedbackActiveDiscussions.Click | components/Feedback/ActiveDiscussions.js:58-109 | navigates iff the row has a path; otherwise reports null iff the row is selected, else its selection, and throws exactly when an unselected row's `meta` is null |
| FeedbackActiveDiscussions.RenderActiveDiscussions | components/Feedback/ActiveDiscussions.js:72-118 | once loaded without error, one row per listed discussion, at most five, and at most one selected id |
| FeedbackActiveDiscussions.ClickTogglesSelection | components/Feedback/ActiveDiscussions.js:92-109 | clicking an unselected row whose `meta` is readable selects it, and clicking it again once selected deselects it |
| FeedbackActiveDiscussions.NullMetaClick | components/Feedback/ActiveDiscussions.js:93-108 | a document with a null `meta` gives the row no path; a click on it throws, unless the row is selected and the click deselects it |
| FeedbackActiveDiscussions.EmptyIdNeverSelected | components/Feedback/ActiveDiscussions.js:92 | a row with an empty id is never selected, so a click on it without a path reports it, or throws when its `meta` is null |
| ArticlePage.GetSchemaCreator | components/Article/Page.js:41-49 | a falsy template gives the article schema; a known template its schema; an unknown one the error `Unkown Schema <key>` |
| ArticlePage.SchemaKeysAreTheTable | components/Article/Page.js:32-39 | every listed template key has a schema, and no other key does |
| ArticlePage.SchemaOfTemplate | components/Article/Page.js:32-39 | the format schema iff `format`; the article schema iff `editorial`, `meta` or `article` |
| ArticlePage.LinkedDiscussionId | components/Article/Page.js:173-177 | the article's truthy discussion id, else the linked discussion's truthy id, else none |
| ArticlePage.RenderActionBar | components/Article/Page.js:179-185 | the article's url and title; the discussion icon iff the linked id is truthy |
| ArticlePage.RenderBody | components/Article/Page.js:195-232 | 404 iff loaded without error and no article; an unknown template fails; format shows the feed for the article and no pay notes, other templates both pay notes and no feed; the discussion iff the article's own id is truthy |
| ArticlePage.RenderPage | components/Article/Page.js:165-234 | frame meta and action bar iff there is an article, the url being the base url plus its path |
| ArticlePage.PayNotesXorFeed | components/Article/Page.js:212-229 | a rendered page shows the pay notes or the feed, never both |
| ArticlePage.MissingArticleIs404 | components/Article/Page.js:196-201 | a loaded query without an article is a 404 with no frame meta |
| ArticlePage.DocumentPath | components/Article/Page.js:240-246 | a prefix of the address without `?`, and the whole address when it has none |
| ArticlePage.DocumentPathDropsQuery | components/Article/Page.js:241-245 | `p?q` is queried as `p` |

## Left out

- Locale lookup (`t`, `t.first`, `t.elements`): only the candidate keys and the default are modelled. Interpolation and the formatters (`dayFormat`, `chfFormat`, `countFormat`, `errorToString`) are not part of this model; error texts are inputs.
- GraphQL queries, mutations and Apollo `compose`/`graphql`: query results are inputs. A mutation's outcome is an input to `MembershipManage.Actions.Settle`.
- The router (`Router.push`, `Router.pushRoute`) is not part of this model. A push is logged as an effect, or a click returns a `Navigate` effect. The router's query parser is modelled as Node's `url.parse(href, true)`: the address is trimmed of space, tab, CR, LF, form feed, no-break space and byte-order mark at both ends, then cut at `#`, the query follows the first `?`, and pairs are split at `&`, then at the first `=`. Keys and values are decoded: `+` becomes a space, and `%XY` becomes the character with code XY. Decoding multi-byte UTF-8 sequences is not modelled, and repeated keys are not gathered into an array. The browser's port of `url.parse` trims with `String.prototype.trim`, which also removes the vertical tab and other Unicode space separators; the model keeps those.
- `Loader` (components/Loader, and the styleguide's in the active discussions) is not part of this model. The model assumes it shows loading first, then the error, then the content.
- Piwik tracking in the pledge list, and the CSV/JSON download of charts: I/O.
- QuestionnaireResults.HistogramRows: the value `count / submitted` is a floating-point ratio. Rows keep the count and the turnout instead; SentimentRows does the same.
- QuestionnaireResults.RankedRows: an uncategorised row carries its tier (1..3) rather than the caption `Top <len/3 × tier>`. `TopCaption` builds that caption only for lengths that are multiples of three, because other lengths give fractional floating-point numbers.
- QuestionnaireResults.HistogramRows: tick values and bucket edges are JavaScript floating-point numbers. They are modelled as exact reals, so matching a tick to a bucket edge compares exactly. Rounding of the computed edges is not modelled. The edge's text, JavaScript's number-to-string conversion, is the parameter `numberText`.
- QuestionnaireResults.BucketCaptionChoice: the fallback caption is `numberText` of the lower edge, for whatever conversion the caller passes. JavaScript's own conversion is not part of this model.
- QuestionnaireResults.SentimentRows: stability relies on `Array.prototype.sort` being stable. The model's sort is a stable insertion sort.
- Scroll and resize measurement (`showSecondary`, `onScroll`, `measure`) on the article page, and the hash scroll on the account page: DOM-dependent.
- The order of asynchronous `setState` calls and of out-of-order responses. In the modelled handlers no read follows a write of the same field, so each handler is one atomic transition.
- Search: `showFeed` is assumed to be provided. Two of its calls are guarded by `this.props.showFeed &&` and the others are not. The unused `loading` state field, `onSubmit` (which only calls `onSearch`) and the `console.log` in `onSortClick` are not modelled.
- Manage: the unused `isCancelling`, `values`, `dirty` and `errors` state, the upgrade and cancel links' targets, and `createdAt`.
- A list the server leaves out (`null`) is modelled as an empty list, wherever the code treats both as falsy.
- ArticlePage.GetSchemaCreator: keys inherited from `Object.prototype` (such as `constructor`) are not modelled. In the code they would find a non-schema value instead of throwing.
- pages/prolong.js and components/Account/Access/Campaigns/Grant.js have no decision logic and are not modelled; neither is JSX layout or styling.
