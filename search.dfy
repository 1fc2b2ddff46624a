// The search controller (components/Search/index.js): its state, the handlers
// that change it, and the `?search=` address it pushes to the router.

module SearchController {
  import opened Wrappers
  import Seqs
  import Strings

  datatype Filter = Filter(key: string, value: string)

  /** `{ key }` or `{ key, direction }`. */
  datatype SortSpec = SortSpec(key: string, direction: Option<string>)

  /** What a handler does outside the state: call `showFeed`, or `Router.push` a shallow route. */
  datatype Effect = ShowFeed(visible: bool) | Push(href: string)

  /** The `this.state` fields the handlers use (the unused `loading` field is left out). */
  datatype State = State(
    dirty: bool,
    searchQuery: string,
    submittedQuery: string,
    filters: seq<Filter>,
    sort: SortSpec)

  /**
   * What every handler keeps: at most one filter and no empty filter value,
   * no empty sort direction, and a state that is not dirty has submitted what
   * the input shows.
   */
  ghost predicate Consistent(s: State) {
    && |s.filters| <= 1
    && (forall i :: 0 <= i < |s.filters| ==> s.filters[i].value != "")
    && s.sort.direction != Some("")
    && (!s.dirty ==> s.submittedQuery == s.searchQuery)
  }

  // ---- The transitions, as functions of the old state ----

  function Initial(): (s: State)
    ensures Consistent(s)
  {
    State(true, "", "", [], SortSpec("publishedAt", None))
  }

  function Searched(s: State): (r: State)
    ensures Consistent(s) ==> Consistent(r)
  {
    State(false, s.searchQuery, s.searchQuery, [], SortSpec("relevance", None))
  }

  function Reset(s: State): (r: State)
    ensures Consistent(s) ==> Consistent(r)
  {
    s.(dirty := false, searchQuery := "", submittedQuery := "", filters := [])
  }

  /** A falsy bucket value clears the filters. */
  function FilterClicked(s: State, key: string, value: string): (r: State)
    ensures Consistent(s) ==> Consistent(r)
  {
    s.(filters := if value != "" then [Filter(key, value)] else [])
  }

  /** A falsy direction is left out of the sort. */
  function SortClicked(s: State, key: string, direction: Option<string>): (r: State)
    ensures Consistent(s) ==> Consistent(r)
  {
    s.(sort := SortSpec(key, if Truthy(direction) then direction else None))
  }

  /** `componentWillReceiveProps` with the `search` parameter of the new address. */
  function Received(s: State, search: Option<string>): (r: State)
    ensures Consistent(s) ==> Consistent(r)
  {
    if Truthy(search) && search.value != s.searchQuery then
      s.(dirty := false, searchQuery := search.value, submittedQuery := search.value, filters := [])
    else s
  }

  /** The input's `onChange`. */
  function Typed(s: State, value: string): (r: State)
    ensures Consistent(s) ==> Consistent(r)
  {
    s.(dirty := true, searchQuery := value)
  }

  /** A received address takes effect only when its search is not empty and differs from the input. */
  function ReceivedChanges(s: State, search: Option<string>): bool {
    Truthy(search) && search.value != s.searchQuery
  }

  // ---- Addresses ----

  /** `updateUrl`: the query is appended unencoded, and only when it is not empty. */
  function Href(pathname: string, query: string): (href: string)
    ensures pathname <= href
    ensures href == pathname <==> query == ""
    ensures query != "" ==> href[|pathname|..] == "?search=" + query
  {
    pathname + (if query != "" then "?search=" + query else "")
  }

  /** `clearUrl` */
  function ClearHref(pathname: string): (href: string)
    ensures pathname <= href && href[|pathname|..] == "?search="
  {
    pathname + "?search="
  }

  /** The value of a hexadecimal digit. */
  function HexValue(c: char): (v: Option<nat>)
    ensures v.Some? ==> v.value < 16
  {
    if '0' <= c <= '9' then Some(c as nat - '0' as nat)
    else if 'a' <= c <= 'f' then Some(c as nat - 'a' as nat + 10)
    else if 'A' <= c <= 'F' then Some(c as nat - 'A' as nat + 10)
    else None
  }

  /**
   * The router's `querystring.unescape`: '+' is a space, `%XY` with two hex
   * digits is the character of code XY, and anything else, a malformed '%'
   * included, is kept as it is.
   */
  function Unescape(s: string): (r: string)
    ensures |r| <= |s|
  {
    if s == [] then []
    else if s[0] == '+' then [' '] + Unescape(s[1..])
    else if s[0] == '%' && |s| >= 3 && HexValue(s[1]).Some? && HexValue(s[2]).Some? then
      [(16 * HexValue(s[1]).value + HexValue(s[2]).value) as char] + Unescape(s[3..])
    else [s[0]] + Unescape(s[1..])
  }

  /**
   * The decoded value of the first pair of a query string whose decoded key
   * is `name`, pairs being separated by '&' and a key from its value by the
   * first '='.
   */
  function QueryValue(qs: string, name: string): Option<string>
    decreases |qs|
  {
    var pair := Strings.BeforeFirst(qs, '&');
    var key := Strings.BeforeFirst(pair, '=');
    if Unescape(key) == name then
      Some(match Strings.AfterFirst(pair, '=') case Some(v) => Unescape(v) case None => "")
    else match Strings.AfterFirst(qs, '&')
      case None => None
      case Some(more) => QueryValue(more, name)
  }

  /** The characters `url.parse` trims from both ends of an address: space, tab, CR, LF, form feed, NBSP and BOM. */
  predicate WhiteSpace(c: char) {
    c == ' ' || c == '\t' || c == '\r' || c == '\n' || c == '\U{000C}' || c == '\U{00A0}' || c == '\U{FEFF}'
  }

  predicate EndsInWhiteSpace(s: string) {
    |s| > 0 && WhiteSpace(s[|s| - 1])
  }

  /** `s` without its trailing white space. */
  function TrimEnd(s: string): (r: string)
    ensures r <= s && !EndsInWhiteSpace(r)
  {
    if EndsInWhiteSpace(s) then TrimEnd(s[..|s| - 1]) else s
  }

  /** `s` without its leading white space. */
  function TrimStart(s: string): (r: string)
    ensures |r| <= |s| && r == s[|s| - |r|..]
    ensures r == [] || !WhiteSpace(r[0])
  {
    if |s| > 0 && WhiteSpace(s[0]) then TrimStart(s[1..]) else s
  }

  function Trim(s: string): string {
    TrimStart(TrimEnd(s))
  }

  /**
   * The `search` parameter the router reports for an address: the address is
   * trimmed, then the fragment after '#' is cut off.
   */
  function SearchParam(href: string): Option<string> {
    match Strings.AfterFirst(Strings.BeforeFirst(Trim(href), '#'), '?')
    case None => None
    case Some(qs) => QueryValue(qs, "search")
  }

  /** Trailing white space after a part that does not end in it is trimmed alone. */
  lemma {:induction false} TrimEndAfter(p: string, t: string)
    requires |p| > 0 && !WhiteSpace(p[|p| - 1])
    ensures TrimEnd(p + t) == p + TrimEnd(t)
    decreases |t|
  {
    if t == [] {
      assert p + t == p;
    } else if WhiteSpace(t[|t| - 1]) {
      assert (p + t)[..|p + t| - 1] == p + t[..|t| - 1];
      TrimEndAfter(p, t[..|t| - 1]);
    } else {
      assert (p + t)[|p + t| - 1] == t[|t| - 1];
    }
  }

  /** Leading white space before a part that does not start with it is trimmed alone. */
  lemma {:induction false} TrimStartBefore(p: string, t: string)
    requires |t| > 0 && !WhiteSpace(t[0])
    ensures TrimStart(p + t) == TrimStart(p) + t
    decreases |p|
  {
    if p == [] {
      assert p + t == t;
    } else if WhiteSpace(p[0]) {
      assert (p + t)[1..] == p[1..] + t;
      TrimStartBefore(p[1..], t);
    } else {
      assert (p + t)[0] == p[0];
    }
  }

  /**
   * An address `p + [c] + t` around a character that is not white space is
   * trimmed at its two ends only.
   */
  lemma TrimAround(p: string, c: char, t: string)
    requires !WhiteSpace(c)
    ensures Trim(p + [c] + t) == TrimStart(p) + [c] + TrimEnd(t)
  {
    var front := p + [c];
    assert front[|front| - 1] == c;
    TrimEndAfter(front, t);
    var back := [c] + TrimEnd(t);
    assert back[0] == c;
    TrimStartBefore(p, back);
    Seqs.SeqAssoc(p, [c], TrimEnd(t));
    Seqs.SeqAssoc(TrimStart(p), [c], TrimEnd(t));
  }

  /** A slice of `s` holds no character `s` does not hold. */
  lemma SliceKeepsOut(s: string, k: nat, r: string, c: char)
    requires k + |r| <= |s| && r == s[k..k + |r|]
    requires c !in s
    ensures c !in r
  {
    assert forall i :: 0 <= i < |r| ==> r[i] == s[k + i];
  }

  /** Trimming the start adds no character. */
  lemma TrimStartKeepsOut(s: string, c: char)
    requires c !in s
    ensures c !in TrimStart(s)
  {
    var r := TrimStart(s);
    SliceKeepsOut(s, |s| - |r|, r, c);
  }

  /** Trimming adds no character. */
  lemma TrimKeepsOut(s: string, c: char)
    requires c !in s
    ensures c !in Trim(s)
  {
    var e := TrimEnd(s);
    SliceKeepsOut(s, 0, e, c);
    TrimStartKeepsOut(e, c);
  }

  lemma NoSeparator(s: string, c: char)
    requires c !in s
    ensures Strings.BeforeFirst(s, c) == s
    ensures Strings.AfterFirst(s, c).None?
  {
  }

  /** What the router's parser needs to know about the literal `?search=`. */
  lemma SearchLiteral()
    ensures "?search=" == ['?'] + "search="
    ensures "search=" == "search" + ['=']
    ensures '&' !in "search=" && '#' !in "search=" && '#' !in "?search="
    ensures Unescape("search") == "search"
  {
    LiteralSplits();
    LiteralHasNoSeparator();
    LiteralUnescapes();
  }

  lemma LiteralSplits()
    ensures "?search=" == ['?'] + "search="
    ensures "search=" == "search" + ['=']
  {
  }

  lemma LiteralHasNoSeparator()
    ensures '&' !in "search=" && '#' !in "search=" && '#' !in "?search="
  {
    var q := "?search=";
    assert forall i :: 0 <= i < |q| ==> q[i] != '&' && q[i] != '#';
    assert "search=" == q[1..];
  }

  lemma LiteralUnescapes()
    ensures Unescape("search") == "search"
  {
    var w := "search";
    assert forall i :: 0 <= i < |w| ==> w[i] != '+' && w[i] != '%';
    UnescapeUnchanged(w);
  }

  lemma Regroup<T>(p: seq<T>, c: seq<T>, s: seq<T>, v: seq<T>, t: seq<T>)
    ensures p + (c + s) + v + t == p + c + (s + v + t)
  {
  }

  lemma RegroupTail<T>(p: seq<T>, s: seq<T>, a: seq<T>, h: seq<T>, b: seq<T>)
    ensures p + (s + (a + h + b)) == p + s + a + (h + b)
  {
  }

  /**
   * The `search` parameter of `pathname?qs` is read from `qs` without its
   * trailing white space and without its fragment.
   */
  lemma SearchParamOfQuery(pathname: string, qs: string)
    requires '?' !in pathname && '#' !in pathname
    ensures SearchParam(pathname + ['?'] + qs) == QueryValue(Strings.BeforeFirst(TrimEnd(qs), '#'), "search")
  {
    var front, kept := TrimStart(pathname), TrimEnd(qs);
    var body := Strings.BeforeFirst(kept, '#');
    TrimmedQuery(pathname, qs);
    assert Strings.BeforeFirst(Trim(pathname + ['?'] + qs), '#') == front + ['?'] + body;
    Strings.SplitJoin(front, '?', body);
    SearchParamFrom(pathname + ['?'] + qs, body);
  }

  /** The trimmed address `pathname?qs`, up to its fragment. */
  lemma TrimmedQuery(pathname: string, qs: string)
    requires '?' !in pathname && '#' !in pathname
    ensures '?' !in TrimStart(pathname)
    ensures Strings.BeforeFirst(Trim(pathname + ['?'] + qs), '#')
      == TrimStart(pathname) + ['?'] + Strings.BeforeFirst(TrimEnd(qs), '#')
  {
    TrimAround(pathname, '?', qs);
    TrimStartKeepsOut(pathname, '?');
    TrimStartKeepsOut(pathname, '#');
    var lead := TrimStart(pathname) + ['?'];
    assert '#' !in lead;
    Strings.BeforeFirstAfter(lead, TrimEnd(qs), '#');
  }

  /** `SearchParam` reads the query `qs` that follows the first '?' of the trimmed address, up to its fragment. */
  lemma SearchParamFrom(href: string, qs: string)
    requires Strings.AfterFirst(Strings.BeforeFirst(Trim(href), '#'), '?') == Some(qs)
    ensures SearchParam(href) == QueryValue(qs, "search")
  {
  }

  /** Whatever follows a '#' is the fragment, and the router ignores it. */
  lemma FragmentIgnored(href: string, b: string)
    requires '#' !in href
    ensures SearchParam(href + (['#'] + b)) == SearchParam(href + ['#'])
  {
    var empty: string := [];
    assert href + (['#'] + b) == href + ['#'] + b;
    assert href + ['#'] == href + ['#'] + empty;
    TrimAround(href, '#', b);
    TrimAround(href, '#', empty);
    TrimStartKeepsOut(href, '#');
    Strings.SplitJoin(TrimStart(href), '#', TrimEnd(b));
    Strings.SplitJoin(TrimStart(href), '#', TrimEnd(empty));
    SearchParamSameQuery(href + (['#'] + b), href + ['#']);
  }

  /** Two addresses that agree up to the fragment once trimmed report the same search. */
  lemma SearchParamSameQuery(h1: string, h2: string)
    requires Strings.BeforeFirst(Trim(h1), '#') == Strings.BeforeFirst(Trim(h2), '#')
    ensures SearchParam(h1) == SearchParam(h2)
  {
  }

  /** A query string that starts with the pair `search=v` reports `v`, decoded. */
  lemma SearchPairValue(v: string, tail: string)
    requires '&' !in v
    requires tail == [] || tail[0] == '&'
    ensures QueryValue("search=" + v + tail, "search") == Some(Unescape(v))
  {
    var pair := "search=" + v;
    LiteralHasNoSeparator();
    assert '&' !in pair;
    FirstPair(pair, tail);
    SearchPairSplits(v);
    LiteralUnescapes();
    QueryValueHit(pair + tail, "search");
  }

  /** The first pair of `pair + tail` is `pair` when `tail` is empty or starts a new pair. */
  lemma FirstPair(pair: string, tail: string)
    requires '&' !in pair
    requires tail == [] || tail[0] == '&'
    ensures Strings.BeforeFirst(pair + tail, '&') == pair
  {
    if tail == [] {
      assert pair + tail == pair;
      NoSeparator(pair, '&');
    } else {
      assert tail == ['&'] + tail[1..];
      Seqs.SeqAssoc(pair, ['&'], tail[1..]);
      Strings.SplitJoin(pair, '&', tail[1..]);
    }
  }

  /** The pair `search=v` has the key `search` and the value `v`. */
  lemma SearchPairSplits(v: string)
    ensures Strings.BeforeFirst("search=" + v, '=') == "search"
    ensures Strings.AfterFirst("search=" + v, '=') == Some(v)
  {
    LiteralSplits();
    assert "search" + ['='] + v == "search=" + v;
    assert '=' !in "search" by {
      var w := "search";
      assert forall i :: 0 <= i < |w| ==> w[i] != '=';
    }
    Strings.SplitJoin("search", '=', v);
  }

  /** `QueryValue` answers from the first pair when its decoded key is the name asked for. */
  lemma QueryValueHit(qs: string, name: string)
    requires Unescape(Strings.BeforeFirst(Strings.BeforeFirst(qs, '&'), '=')) == name
    ensures QueryValue(qs, name) ==
      Some(match Strings.AfterFirst(Strings.BeforeFirst(qs, '&'), '=') case Some(v) => Unescape(v) case None => "")
  {
  }

  /** `search=v` ends in white space only when `v` does. */
  lemma SearchPairEnd(v: string)
    requires !EndsInWhiteSpace(v)
    ensures !EndsInWhiteSpace("search=" + v)
  {
    LiteralSplits();
    var pair := "search=" + v;
    assert pair[|pair| - 1] == if v == [] then '=' else v[|v| - 1];
  }

  /** White space at the end of an address is dropped, down to the last other character. */
  lemma {:induction false} TrimEndWhiteSpace(p: string, w: string)
    requires !EndsInWhiteSpace(p)
    requires forall i :: 0 <= i < |w| ==> WhiteSpace(w[i])
    ensures TrimEnd(p + w) == p
    decreases |w|
  {
    if w == [] {
      assert p + w == p;
    } else {
      assert (p + w)[|p + w| - 1] == w[|w| - 1];
      assert (p + w)[..|p + w| - 1] == p + w[..|w| - 1];
      TrimEndWhiteSpace(p, w[..|w| - 1]);
    }
  }

  /**
   * The query string `search=v` followed by further pairs reports `v`,
   * decoded, once trimmed and cut at the fragment; with no further pairs, `v`
   * must not end in white space.
   */
  lemma SearchPairTrimmed(v: string, tail: string)
    requires '&' !in v && '#' !in v && '#' !in tail
    requires tail == [] || tail[0] == '&'
    requires tail == [] ==> !EndsInWhiteSpace(v)
    ensures QueryValue(Strings.BeforeFirst(TrimEnd("search=" + v + tail), '#'), "search") == Some(Unescape(v))
  {
    LiteralHasNoSeparator();
    var pair := "search=" + v;
    assert '#' !in pair;
    var kept: string;
    if tail == [] {
      SearchPairEnd(v);
      kept := tail;
      assert TrimEnd(pair + tail) == pair + kept by {
        assert pair + tail == pair;
      }
    } else {
      var rest := tail[1..];
      assert tail == ['&'] + rest;
      Seqs.SeqAssoc(pair, ['&'], rest);
      TrimEndAfter(pair + ['&'], rest);
      kept := ['&'] + TrimEnd(rest);
      Seqs.SeqAssoc(pair, ['&'], TrimEnd(rest));
      SliceKeepsOut(rest, 0, TrimEnd(rest), '#');
    }
    assert '#' !in pair + kept;
    NoSeparator(pair + kept, '#');
    SearchPairValue(v, kept);
  }

  /**
   * The address `pathname?search=v` followed by further pairs reports `v`,
   * decoded; with no further pairs, `v` must not end in white space.
   */
  lemma SearchParamOfPair(pathname: string, v: string, tail: string)
    requires '?' !in pathname && '#' !in pathname && '&' !in v && '#' !in v && '#' !in tail
    requires tail == [] || tail[0] == '&'
    requires tail == [] ==> !EndsInWhiteSpace(v)
    ensures SearchParam(pathname + "?search=" + v + tail) == Some(Unescape(v))
  {
    SearchLiteral();
    Regroup(pathname, ['?'], "search=", v, tail);
    SearchParamOfQuery(pathname, "search=" + v + tail);
    SearchPairTrimmed(v, tail);
  }

  /**
   * A query of plain characters that does not end in white space, pushed
   * with `updateUrl`, is what the router reports back.
   */
  lemma HrefRoundTrip(pathname: string, query: string)
    requires '?' !in pathname && '#' !in pathname
    requires '&' !in query && '#' !in query && '+' !in query && '%' !in query && query != ""
    requires !EndsInWhiteSpace(query)
    ensures SearchParam(Href(pathname, query)) == Some(query)
  {
    var href := pathname + "?search=" + query;
    calc {
      SearchParam(Href(pathname, query));
      { Seqs.SeqAssoc(pathname, "?search=", query); assert href + [] == href; }
      SearchParam(href + []);
      { SearchParamOfPair(pathname, query, []); }
      Some(Unescape(query));
      { UnescapeUnchanged(query); }
      Some(query);
    }
  }

  /** The cleared address reports an empty search. */
  lemma ClearHrefRoundTrip(pathname: string)
    requires '?' !in pathname && '#' !in pathname
    ensures SearchParam(ClearHref(pathname)) == Some("")
  {
    var empty: string := [];
    assert ClearHref(pathname) == pathname + "?search=" + empty + empty;
    SearchParamOfPair(pathname, empty, empty);
    assert Unescape(empty) == empty;
  }

  /** After a search for a query that does not end in white space, the address it pushed comes back as a no-op. */
  lemma SearchedEchoIsNoop(s: State, pathname: string)
    requires '?' !in pathname && '#' !in pathname
    requires '&' !in s.searchQuery && '#' !in s.searchQuery && '+' !in s.searchQuery && '%' !in s.searchQuery
    requires !EndsInWhiteSpace(s.searchQuery)
    ensures Received(Searched(s), SearchParam(Href(pathname, s.searchQuery))) == Searched(s)
  {
    if s.searchQuery != "" {
      HrefRoundTrip(pathname, s.searchQuery);
    } else {
      assert Href(pathname, "") == pathname;
      TrimKeepsOut(pathname, '#');
      TrimKeepsOut(pathname, '?');
      NoSeparator(Trim(pathname), '#');
      NoSeparator(Trim(pathname), '?');
    }
  }

  /** After a reset, the cleared address comes back as a no-op. */
  lemma ResetEchoIsNoop(s: State, pathname: string)
    requires '?' !in pathname && '#' !in pathname
    ensures Received(Reset(s), SearchParam(ClearHref(pathname))) == Reset(s)
  {
    ClearHrefRoundTrip(pathname);
  }

  /** A character that travels through an address unchanged: no separator and nothing the router decodes. */
  predicate Plain(c: char) {
    c != '&' && c != '#' && c != '+' && c != '%'
  }

  /** A value without '+' and '%' decodes to itself. */
  lemma {:induction false} UnescapeUnchanged(s: string)
    requires '+' !in s && '%' !in s
    ensures Unescape(s) == s
  {
    if s != [] {
      assert s == [s[0]] + s[1..];
      UnescapeKeeps(s[0], s[1..]);
      UnescapeUnchanged(s[1..]);
    }
  }

  /** A character other than '+' and '%' is kept as it is. */
  lemma UnescapeKeeps(c: char, rest: string)
    requires c != '+' && c != '%'
    ensures Unescape([c] + rest) == [c] + Unescape(rest)
  {
    assert ([c] + rest)[0] == c && ([c] + rest)[1..] == rest;
  }

  /** Unescaping leaves a prefix of plain characters alone. */
  lemma {:induction false} UnescapePlainPrefix(a: string, t: string)
    requires forall i :: 0 <= i < |a| ==> Plain(a[i])
    ensures Unescape(a + t) == a + Unescape(t)
    decreases |a|
  {
    if a == [] {
      assert a + t == t;
    } else {
      var c, more := a[0], a[1..];
      assert Plain(c);
      assert forall i :: 0 <= i < |more| ==> Plain(more[i]) by {
        forall i | 0 <= i < |more| ensures Plain(more[i]) {
          assert more[i] == a[i + 1];
        }
      }
      assert a + t == [c] + (more + t);
      UnescapeKeeps(c, more + t);
      UnescapePlainPrefix(more, t);
      assert a == [c] + more;
    }
  }

  /** `a&b` is read back as `a`: the '&' starts a new pair. */
  lemma AmpersandSearchParam(pathname: string, a: string, b: string)
    requires '?' !in pathname && '#' !in pathname
    requires forall i :: 0 <= i < |a| ==> Plain(a[i])
    requires '#' !in b
    ensures SearchParam(Href(pathname, a + "&" + b)) == Some(a)
  {
    var tail := ['&'] + b;
    RegroupTail(pathname, "?search=", a, ['&'], b);
    assert Href(pathname, a + "&" + b) == pathname + "?search=" + a + tail;
    assert '&' !in a && '#' !in a && '+' !in a && '%' !in a;
    assert '#' !in tail;
    SearchParamOfPair(pathname, a, tail);
    UnescapeUnchanged(a);
  }

  /** A pushed address with a query is the path, '?' and the pair `search=query`. */
  lemma HrefQuery(pathname: string, query: string)
    requires query != ""
    ensures Href(pathname, query) == pathname + ['?'] + ("search=" + query)
  {
    LiteralSplits();
    Seqs.SeqAssoc(['?'], "search=", query);
    Seqs.SeqAssoc(pathname, ['?'], "search=" + query);
  }

  /** The query string `pair#b`, trimmed and cut at the fragment, is `pair`. */
  lemma PairBeforeFragment(pair: string, b: string)
    requires '#' !in pair
    ensures Strings.BeforeFirst(TrimEnd(pair + (['#'] + b)), '#') == pair
  {
    Seqs.SeqAssoc(pair, ['#'], b);
    TrimEndAfter(pair + ['#'], b);
    Strings.SplitJoin(pair, '#', TrimEnd(b));
  }

  /** The query string `search=a#b` reports `a`. */
  lemma SearchPairBeforeFragment(a: string, b: string)
    requires forall i :: 0 <= i < |a| ==> Plain(a[i])
    ensures QueryValue(Strings.BeforeFirst(TrimEnd("search=" + a + (['#'] + b)), '#'), "search") == Some(a)
  {
    LiteralHasNoSeparator();
    var pair := "search=" + a;
    assert '&' !in a && '#' !in a && '+' !in a && '%' !in a;
    assert '#' !in pair;
    PairBeforeFragment(pair, b);
    assert pair == pair + [];
    SearchPairValue(a, []);
    UnescapeUnchanged(a);
  }

  /** `a#b` is read back as `a`: the rest is the address's fragment. */
  lemma HashSearchParam(pathname: string, a: string, b: string)
    requires '?' !in pathname && '#' !in pathname
    requires forall i :: 0 <= i < |a| ==> Plain(a[i])
    ensures SearchParam(Href(pathname, a + "#" + b)) == Some(a)
  {
    var qs := "search=" + a + (['#'] + b);
    HrefQuery(pathname, a + "#" + b);
    assert a + "#" + b == a + (['#'] + b);
    Seqs.SeqAssoc("search=", a, ['#'] + b);
    SearchParamOfQuery(pathname, qs);
    SearchPairBeforeFragment(a, b);
  }

  /** A '+' between plain characters decodes to a space. */
  lemma UnescapePlus(a: string, b: string)
    requires forall i :: 0 <= i < |a| ==> Plain(a[i])
    requires forall i :: 0 <= i < |b| ==> Plain(b[i])
    ensures Unescape(a + "+" + b) == a + " " + b
  {
    var t := ['+'] + b;
    PlainUnescaped(b);
    UnescapePlusHead(b);
    UnescapePlainPrefix(a, t);
    calc {
      Unescape(a + "+" + b);
      { Seqs.SeqAssoc(a, "+", b); }
      Unescape(a + t);
      a + Unescape(t);
      a + ([' '] + b);
      { Seqs.SeqAssoc(a, " ", b); }
      a + " " + b;
    }
  }

  /** A value of plain characters decodes to itself. */
  lemma PlainUnescaped(b: string)
    requires forall i :: 0 <= i < |b| ==> Plain(b[i])
    ensures Unescape(b) == b
  {
    assert '+' !in b && '%' !in b;
    UnescapeUnchanged(b);
  }

  /** A leading '+' decodes to a space. */
  lemma UnescapePlusHead(rest: string)
    ensures Unescape(['+'] + rest) == [' '] + Unescape(rest)
  {
    assert (['+'] + rest)[0] == '+' && (['+'] + rest)[1..] == rest;
  }

  /** `a+b` is read back as `a b`: the router decodes '+' as a space (and trims white space at the end). */
  lemma PlusSearchParam(pathname: string, a: string, b: string)
    requires '?' !in pathname && '#' !in pathname
    requires forall i :: 0 <= i < |a| ==> Plain(a[i])
    requires forall i :: 0 <= i < |b| ==> Plain(b[i])
    requires !EndsInWhiteSpace(b)
    ensures SearchParam(Href(pathname, a + "+" + b)) == Some(a + " " + b)
  {
    var v := a + "+" + b;
    assert '#' !in v && '&' !in v && !EndsInWhiteSpace(v) by {
      assert forall i :: 0 <= i < |v| ==> v[i] == if i < |a| then a[i] else if i == |a| then '+' else b[i - |a| - 1];
    }
    var href := pathname + "?search=" + v;
    Seqs.SeqAssoc(pathname, "?search=", v);
    assert Href(pathname, v) == href + [];
    SearchParamOfPair(pathname, v, []);
    UnescapePlus(a, b);
  }

  /** The `search` parameter reported back for an unencoded `a&b`, `a#b` or `a+b`. */
  lemma UnencodedEcho(pathname: string, a: string, b: string, sep: char)
    requires '?' !in pathname && '#' !in pathname
    requires forall i :: 0 <= i < |a| ==> Plain(a[i])
    requires forall i :: 0 <= i < |b| ==> Plain(b[i])
    requires sep == '&' || sep == '#' || sep == '+'
    requires sep == '+' ==> !EndsInWhiteSpace(b)
    ensures SearchParam(Href(pathname, a + [sep] + b)) == Some(if sep == '+' then a + " " + b else a)
  {
    if sep == '&' {
      assert a + [sep] + b == a + "&" + b;
      assert '#' !in b;
      AmpersandSearchParam(pathname, a, b);
    } else if sep == '#' {
      assert a + [sep] + b == a + "#" + b;
      HashSearchParam(pathname, a, b);
    } else {
      assert a + [sep] + b == a + "+" + b;
      PlusSearchParam(pathname, a, b);
    }
  }

  /**
   * The query is not encoded: a search for `a&b` or `a#b` pushes an address
   * whose `search` parameter is `a`, and one for `a+b` an address whose
   * parameter is `a b`; receiving that address replaces both queries with it.
   */
  lemma UnencodedQueryChanges(s: State, pathname: string, a: string, b: string, sep: char)
    requires '?' !in pathname && '#' !in pathname
    requires forall i :: 0 <= i < |a| ==> Plain(a[i])
    requires forall i :: 0 <= i < |b| ==> Plain(b[i])
    requires sep == '&' || sep == '#' || sep == '+'
    requires sep == '+' ==> !EndsInWhiteSpace(b)
    requires s.searchQuery == a + [sep] + b
    ensures var echo := SearchParam(Href(pathname, s.searchQuery));
      echo == Some(if sep == '+' then a + " " + b else a) &&
      (Truthy(echo) ==> Received(Searched(s), echo).submittedQuery == echo.value &&
                        Received(Searched(s), echo).searchQuery == echo.value)
  {
    UnencodedEcho(pathname, a, b, sep);
    EchoTaken(Searched(s), SearchParam(Href(pathname, s.searchQuery)));
  }

  /** After a search, a truthy echo leaves both queries equal to it. */
  lemma EchoTaken(s: State, echo: Option<string>)
    requires s.submittedQuery == s.searchQuery
    ensures Truthy(echo) ==> Received(s, echo).submittedQuery == echo.value && Received(s, echo).searchQuery == echo.value
  {
  }

  /** The query string `search=a` followed by white space reports `a`. */
  lemma SearchPairBeforeWhiteSpace(a: string, w: string)
    requires forall i :: 0 <= i < |a| ==> Plain(a[i])
    requires !EndsInWhiteSpace(a)
    requires forall i :: 0 <= i < |w| ==> WhiteSpace(w[i])
    ensures QueryValue(Strings.BeforeFirst(TrimEnd("search=" + a + w), '#'), "search") == Some(a)
  {
    LiteralHasNoSeparator();
    var pair := "search=" + a;
    SearchPairEnd(a);
    TrimEndWhiteSpace(pair, w);
    assert '&' !in a && '#' !in a && '+' !in a && '%' !in a;
    assert '#' !in pair;
    NoSeparator(pair, '#');
    assert pair == pair + [];
    SearchPairValue(a, []);
    UnescapeUnchanged(a);
  }

  /** `a` followed by white space is read back as `a`: the router trims the address. */
  lemma TrailingWhiteSpaceSearchParam(pathname: string, a: string, w: string)
    requires '?' !in pathname && '#' !in pathname
    requires forall i :: 0 <= i < |a| ==> Plain(a[i])
    requires !EndsInWhiteSpace(a)
    requires |w| > 0 && forall i :: 0 <= i < |w| ==> WhiteSpace(w[i])
    ensures SearchParam(Href(pathname, a + w)) == Some(a)
  {
    var qs := "search=" + a + w;
    HrefQuery(pathname, a + w);
    Seqs.SeqAssoc("search=", a, w);
    SearchParamOfQuery(pathname, qs);
    SearchPairBeforeWhiteSpace(a, w);
  }

  /**
   * A search for a query that ends in white space pushes an address whose
   * `search` parameter is the query without it; receiving that address
   * replaces both queries with the trimmed one and hides the feed.
   */
  lemma TrailingWhiteSpaceChanges(s: State, pathname: string, a: string, w: string)
    requires '?' !in pathname && '#' !in pathname
    requires forall i :: 0 <= i < |a| ==> Plain(a[i])
    requires a != "" && !EndsInWhiteSpace(a)
    requires |w| > 0 && forall i :: 0 <= i < |w| ==> WhiteSpace(w[i])
    requires s.searchQuery == a + w
    ensures var echo := SearchParam(Href(pathname, s.searchQuery));
      echo == Some(a) && ReceivedChanges(Searched(s), echo) &&
      Received(Searched(s), echo) == Searched(s).(searchQuery := a, submittedQuery := a)
  {
    TrailingWhiteSpaceSearchParam(pathname, a, w);
    EchoReplaces(Searched(s), SearchParam(Href(pathname, s.searchQuery)), a);
  }

  /** After a search, a truthy echo other than the query replaces both queries with it. */
  lemma EchoReplaces(s: State, echo: Option<string>, a: string)
    requires s.submittedQuery == s.searchQuery && s.filters == [] && !s.dirty
    requires echo == Some(a) && a != "" && |a| < |s.searchQuery|
    ensures ReceivedChanges(s, echo) && Received(s, echo) == s.(searchQuery := a, submittedQuery := a)
  {
  }

  /** A filter click touches only the filters. */
  lemma FilterClickKeepsQueriesAndSort(s: State, key: string, value: string)
    ensures var r := FilterClicked(s, key, value);
      r.dirty == s.dirty && r.searchQuery == s.searchQuery &&
      r.submittedQuery == s.submittedQuery && r.sort == s.sort &&
      (r.filters == [] <==> value == "")
  {
  }

  /** Receiving a search the input already shows changes nothing. */
  lemma ReceivedSameQueryIsNoop(s: State, search: Option<string>)
    requires search == Some(s.searchQuery) || !Truthy(search)
    ensures Received(s, search) == s
  {
  }

  /** Resetting twice is resetting once. */
  lemma ResetIdempotent(s: State)
    ensures Reset(Reset(s)) == Reset(s)
  {
  }

  // ---- The component ----

  class Search {
    var dirty: bool
    var searchQuery: string
    var submittedQuery: string
    var filters: seq<Filter>
    var sort: SortSpec
    /** Every `showFeed` call and router push, in order. */
    var effects: seq<Effect>

    function Model(): State
      reads this
    {
      State(dirty, searchQuery, submittedQuery, filters, sort)
    }

    ghost predicate Valid()
      reads this
    {
      Consistent(Model())
    }

    constructor ()
      ensures Valid() && Model() == Initial() && effects == []
    {
      dirty, searchQuery, submittedQuery, filters := true, "", "", [];
      sort := SortSpec("publishedAt", None);
      effects := [];
    }

    /** `updateUrl` */
    method UpdateUrl(pathname: string)
      modifies this`effects
      ensures effects == old(effects) + [Push(Href(pathname, searchQuery))]
    {
      var href := pathname + (if searchQuery != "" then "?search=" + searchQuery else "");
      effects := effects + [Push(href)];
    }

    /** `clearUrl` */
    method ClearUrl(pathname: string)
      modifies this`effects
      ensures effects == old(effects) + [Push(ClearHref(pathname))]
    {
      effects := effects + [Push(pathname + "?search=")];
    }

    /** `onSearch`: hide the feed, commit the input, sort by relevance, push the address. */
    method OnSearch(pathname: string)
      requires Valid()
      modifies this
      ensures Valid() && Model() == Searched(old(Model()))
      ensures effects == old(effects) + [ShowFeed(false), Push(Href(pathname, old(searchQuery)))]
    {
      effects := effects + [ShowFeed(false)];
      dirty, submittedQuery, filters := false, searchQuery, [];
      sort := SortSpec("relevance", None);
      UpdateUrl(pathname);
    }

    /** `onReset`: show the feed, empty both queries and the filters, push the cleared address. */
    method OnReset(pathname: string)
      requires Valid()
      modifies this
      ensures Valid() && Model() == Reset(old(Model()))
      ensures effects == old(effects) + [ShowFeed(true), Push(ClearHref(pathname))]
    {
      effects := effects + [ShowFeed(true)];
      dirty, searchQuery, submittedQuery, filters := false, "", "", [];
      ClearUrl(pathname);
    }

    /** `onClose`: show the feed and push the bare path; the state stays. */
    method OnClose(pathname: string)
      modifies this`effects
      ensures effects == old(effects) + [ShowFeed(true), Push(pathname)]
    {
      effects := effects + [ShowFeed(true), Push(pathname)];
    }

    /** `onSortClick` */
    method OnSortClick(key: string, direction: Option<string>)
      requires Valid()
      modifies this`sort
      ensures Valid() && Model() == SortClicked(old(Model()), key, direction)
    {
      if direction.Some? && direction.value != "" {
        sort := SortSpec(key, direction);
      } else {
        sort := SortSpec(key, None);
      }
    }

    /** `onFilterClick`: without a submitted query the feed shows exactly when no filter is left. */
    method OnFilterClick(key: string, value: string)
      requires Valid()
      modifies this`filters, this`effects
      ensures Valid() && Model() == FilterClicked(old(Model()), key, value)
      ensures effects == old(effects) +
        (if submittedQuery == "" then [ShowFeed(value == "")] else [])
    {
      var next := if value != "" then [Filter(key, value)] else [];
      filters := next;
      if submittedQuery == "" {
        effects := effects + [ShowFeed(|next| == 0)];
      }
    }

    /** `componentWillReceiveProps` with the `search` parameter of the new address. */
    method ReceiveUrl(search: Option<string>)
      requires Valid()
      modifies this
      ensures Valid() && Model() == Received(old(Model()), search)
      ensures effects == old(effects) +
        (if ReceivedChanges(old(Model()), search) then [ShowFeed(false)] else [])
    {
      if search.Some? && search.value != "" && search.value != searchQuery {
        effects := effects + [ShowFeed(false)];
        dirty, searchQuery, submittedQuery, filters := false, search.value, search.value, [];
      }
    }

    /** The input's `onChange`. */
    method OnChange(value: string)
      requires Valid()
      modifies this`dirty, this`searchQuery
      ensures Valid() && Model() == Typed(old(Model()), value)
    {
      dirty, searchQuery := true, value;
    }
  }
}
