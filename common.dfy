// Shared vocabulary of the model: optional values, sequence helpers that stand
// for JavaScript's Array.prototype.filter and a stable sort, number-to-text
// conversion, splitting at a character, the locale fallback chain, and the
// package names more than one view compares against.

module Wrappers {
  /** JavaScript's `null`/`undefined` versus a present value. */
  datatype Option<+T> = None | Some(value: T)

  /** A value, or the message of the exception the source would throw. */
  datatype Result<+T, +E> = Ok(value: T) | Err(error: E)

  /** JavaScript truthiness of an optional string: present and not empty. */
  predicate Truthy(s: Option<string>) {
    s.Some? && s.value != ""
  }

  /** `a || b` on optional strings, with every falsy value written `None`. */
  function OrElse(a: Option<string>, b: Option<string>): (r: Option<string>)
    ensures Truthy(a) ==> r == a
    ensures !Truthy(a) ==> (r == if Truthy(b) then b else None)
  {
    if Truthy(a) then a else if Truthy(b) then b else None
  }
}

module Packages {
  /** The package name of the monthly membership, shared by the account overview and the membership actions. */
  const MONTHLY_ABO := "MONTHLY_ABO"
}

module Seqs {
  /** `s.filter(p)`: the elements of `s` that satisfy `p`, in their order. */
  function Filter<T>(p: T -> bool, s: seq<T>): (r: seq<T>)
    ensures |r| <= |s|
    ensures forall i :: 0 <= i < |r| ==> p(r[i])
  {
    if s == [] then [] else (if p(s[0]) then [s[0]] else []) + Filter(p, s[1..])
  }

  /** Filtering keeps the order: it distributes over concatenation. */
  lemma {:induction false} FilterAppend<T>(p: T -> bool, s: seq<T>, t: seq<T>)
    ensures Filter(p, s + t) == Filter(p, s) + Filter(p, t)
  {
    if s == [] {
      assert s + t == t;
    } else {
      assert (s + t)[1..] == s[1..] + t;
      FilterAppend(p, s[1..], t);
    }
  }

  /** Filtering keeps every kept element as often as it occurs. */
  lemma {:induction false} FilterCount<T>(p: T -> bool, s: seq<T>, x: T)
    ensures multiset(Filter(p, s))[x] == if p(x) then multiset(s)[x] else 0
  {
    if s != [] {
      FilterCount(p, s[1..], x);
      assert s == [s[0]] + s[1..];
      assert multiset(s) == multiset([s[0]]) + multiset(s[1..]);
    }
  }

  /** Exactly the elements of `s` that satisfy `p` are kept. */
  lemma {:induction false} FilterMembers<T>(p: T -> bool, s: seq<T>, x: T)
    ensures x in Filter(p, s) <==> x in s && p(x)
  {
    FilterCount(p, s, x);
    assert x in Filter(p, s) <==> x in multiset(Filter(p, s));
    assert x in s <==> x in multiset(s);
  }

  /** `s.slice(0, n)`. */
  function Take<T>(s: seq<T>, n: nat): (r: seq<T>)
    ensures |r| <= n && |r| <= |s|
    ensures r <= s
    ensures |s| <= n ==> r == s
    ensures |s| > n ==> |r| == n
  {
    if |s| <= n then s else s[..n]
  }

  predicate SortedBy<T>(key: T -> int, s: seq<T>) {
    forall i, j :: 0 <= i < j < |s| ==> key(s[i]) <= key(s[j])
  }

  /** Places `x` after every element whose key is not larger, keeping the order of equal keys. */
  function Insert<T>(key: T -> int, x: T, s: seq<T>): (r: seq<T>)
    requires SortedBy(key, s)
    ensures SortedBy(key, r)
    ensures multiset(r) == multiset(s) + multiset{x}
    ensures |r| == |s| + 1
  {
    if s == [] then [x]
    else if key(x) < key(s[0]) then [x] + s
    else
      var rest := Insert(key, x, s[1..]);
      assert s == [s[0]] + s[1..];
      ConsSorted(key, s[0], rest, x, s[1..]);
      [s[0]] + rest
  }

  /** A head that comes first in `[h] + tail` and before `x` also comes first once `x` joins the tail. */
  lemma ConsSorted<T>(key: T -> int, h: T, rest: seq<T>, x: T, tail: seq<T>)
    requires SortedBy(key, rest) && SortedBy(key, [h] + tail)
    requires multiset(rest) == multiset(tail) + multiset{x}
    requires key(h) <= key(x)
    ensures SortedBy(key, [h] + rest)
  {
    forall k | 0 <= k < |rest| ensures key(h) <= key(rest[k]) {
      assert rest[k] in multiset(rest);
      if rest[k] != x {
        assert rest[k] in multiset(tail);
        var j :| 0 <= j < |tail| && tail[j] == rest[k];
        assert ([h] + tail)[0] == h && ([h] + tail)[j + 1] == tail[j];
        assert key(([h] + tail)[0]) <= key(([h] + tail)[j + 1]);
      }
    }
    forall i, j | 0 <= i < j < |[h] + rest| ensures key(([h] + rest)[i]) <= key(([h] + rest)[j]) {
      assert ([h] + rest)[j] == rest[j - 1];
      if i > 0 {
        assert ([h] + rest)[i] == rest[i - 1];
      } else {
        assert ([h] + rest)[i] == h;
        assert key(h) <= key(rest[j - 1]);
      }
    }
  }

  /**
   * A stable sort in ascending key order, the behaviour of `Array.prototype.sort`
   * with a numeric comparator since ECMAScript 2019.
   */
  function SortBy<T>(key: T -> int, s: seq<T>): (r: seq<T>)
    ensures SortedBy(key, r)
    ensures multiset(r) == multiset(s)
    ensures |r| == |s|
  {
    if s == [] then []
    else
      var r := Insert(key, s[|s| - 1], SortBy(key, s[..|s| - 1]));
      assert s == s[..|s| - 1] + [s[|s| - 1]];
      r
  }

  /** The test "has key k". */
  function KeyIs<T>(key: T -> int, k: int): T -> bool {
    y => key(y) == k
  }

  lemma FilterNone<T>(p: T -> bool, s: seq<T>)
    requires forall i :: 0 <= i < |s| ==> !p(s[i])
    ensures Filter(p, s) == []
  {
    if Filter(p, s) != [] {
      FilterMembers(p, s, Filter(p, s)[0]);
    }
  }

  lemma SortedTail<T>(key: T -> int, s: seq<T>)
    requires s != [] && SortedBy(key, s)
    ensures SortedBy(key, s[1..])
    ensures forall i :: 0 <= i < |s| ==> key(s[0]) <= key(s[i])
  {
  }

  /** Inserting an element keeps the relative order of the elements of any one key. */
  lemma {:induction false} InsertStable<T>(key: T -> int, x: T, s: seq<T>, k: int)
    requires SortedBy(key, s)
    ensures Filter(KeyIs(key, k), Insert(key, x, s))
         == Filter(KeyIs(key, k), s) + Filter(KeyIs(key, k), [x])
  {
    var p := KeyIs(key, k);
    if s == [] {
    } else if key(x) < key(s[0]) {
      InsertFrontStable(key, x, s, k);
    } else {
      var tail := s[1..];
      SortedTail(key, s);
      InsertStable(key, x, tail, k);
      InsertLaterStable(key, x, s, k);
    }
  }

  lemma InsertFrontStable<T>(key: T -> int, x: T, s: seq<T>, k: int)
    requires s != [] && SortedBy(key, s) && key(x) < key(s[0])
    ensures Filter(KeyIs(key, k), Insert(key, x, s))
         == Filter(KeyIs(key, k), s) + Filter(KeyIs(key, k), [x])
  {
    var p := KeyIs(key, k);
    assert Insert(key, x, s) == [x] + s;
    FilterAppend(p, [x], s);
    if key(x) == k {
      SortedTail(key, s);
      FilterNone(p, s);
    }
  }

  lemma InsertUnfold<T>(key: T -> int, x: T, s: seq<T>)
    requires s != [] && SortedBy(key, s) && key(s[0]) <= key(x)
    ensures SortedBy(key, s[1..])
    ensures Insert(key, x, s) == [s[0]] + Insert(key, x, s[1..])
  {
  }

  lemma InsertLaterStable<T>(key: T -> int, x: T, s: seq<T>, k: int)
    requires s != [] && SortedBy(key, s) && key(s[0]) <= key(x)
    requires SortedBy(key, s[1..])
    requires Filter(KeyIs(key, k), Insert(key, x, s[1..]))
          == Filter(KeyIs(key, k), s[1..]) + Filter(KeyIs(key, k), [x])
    ensures Filter(KeyIs(key, k), Insert(key, x, s))
         == Filter(KeyIs(key, k), s) + Filter(KeyIs(key, k), [x])
  {
    InsertUnfold(key, x, s);
    ConsStable(KeyIs(key, k), s, Insert(key, x, s[1..]), [x]);
  }

  /** Filtering `[s[0]] + rest` where `rest` filters like `s[1..] + extra` gives `s` then `extra`. */
  lemma ConsStable<T>(p: T -> bool, s: seq<T>, rest: seq<T>, extra: seq<T>)
    requires s != []
    requires Filter(p, rest) == Filter(p, s[1..]) + Filter(p, extra)
    ensures Filter(p, [s[0]] + rest) == Filter(p, s) + Filter(p, extra)
  {
    ConsFilter(p, s[0], s[1..], rest, extra);
    assert [s[0]] + s[1..] == s;
  }

  lemma ConsFilter<T>(p: T -> bool, h: T, tail: seq<T>, rest: seq<T>, extra: seq<T>)
    requires Filter(p, rest) == Filter(p, tail) + Filter(p, extra)
    ensures Filter(p, [h] + rest) == Filter(p, [h] + tail) + Filter(p, extra)
  {
    var fh, ft, fr, fe := Filter(p, [h]), Filter(p, tail), Filter(p, rest), Filter(p, extra);
    calc {
      Filter(p, [h] + rest);
      { FilterAppend(p, [h], rest); }
      fh + fr;
      fh + (ft + fe);
      { SeqAssoc(fh, ft, fe); }
      (fh + ft) + fe;
      { FilterAppend(p, [h], tail); }
      Filter(p, [h] + tail) + fe;
    }
  }

  lemma SeqAssoc<T>(a: seq<T>, b: seq<T>, c: seq<T>)
    ensures a + (b + c) == (a + b) + c
  {
  }

  /** SortBy is stable: the elements of one key keep their input order. */
  lemma {:induction false} SortByStable<T>(key: T -> int, s: seq<T>, k: int)
    ensures Filter(KeyIs(key, k), SortBy(key, s)) == Filter(KeyIs(key, k), s)
  {
    if s != [] {
      var init, last := s[..|s| - 1], s[|s| - 1];
      var sorted := SortBy(key, init);
      SortByUnfold(key, s);
      SortByStable(key, init, k);
      InsertStable(key, last, sorted, k);
      SnocFilter(KeyIs(key, k), s, Insert(key, last, sorted), sorted);
    }
  }

  lemma SortByUnfold<T>(key: T -> int, s: seq<T>)
    requires s != []
    ensures SortBy(key, s) == Insert(key, s[|s| - 1], SortBy(key, s[..|s| - 1]))
  {
  }

  /** `r` filters like `s` when it filters like its init, sorted, followed by its last element. */
  lemma SnocFilter<T>(p: T -> bool, s: seq<T>, r: seq<T>, sorted: seq<T>)
    requires s != []
    requires Filter(p, sorted) == Filter(p, s[..|s| - 1])
    requires Filter(p, r) == Filter(p, sorted) + Filter(p, [s[|s| - 1]])
    ensures Filter(p, r) == Filter(p, s)
  {
    var init, last := s[..|s| - 1], [s[|s| - 1]];
    FilterAppend(p, init, last);
    assert init + last == s;
  }
}

module Strings {
  import opened Wrappers

  predicate IsDigit(c: char) {
    '0' <= c <= '9'
  }

  function DigitChar(d: nat): (c: char)
    requires d < 10
    ensures IsDigit(c)
  {
    ('0' as int + d) as char
  }

  function DigitValue(c: char): (d: nat)
    requires IsDigit(c)
    ensures d < 10 && DigitChar(d) == c
  {
    c as int - '0' as int
  }

  /** Decimal text of a natural number, as `String(n)` writes it. */
  function NatToString(n: nat): (s: string)
    ensures |s| >= 1
    ensures forall i :: 0 <= i < |s| ==> IsDigit(s[i])
  {
    if n < 10 then [DigitChar(n)] else NatToString(n / 10) + [DigitChar(n % 10)]
  }

  /** Decimal text of an integer, as `String(n)` or a template literal writes it. */
  function IntToString(n: int): (s: string)
    ensures |s| >= 1 && IsDigit(s[|s| - 1])
  {
    if n < 0 then "-" + NatToString(-n) else NatToString(n)
  }

  /** Reads back a string of decimal digits. */
  function ParseNat(s: string): (n: nat)
    requires forall i :: 0 <= i < |s| ==> IsDigit(s[i])
  {
    if s == [] then 0 else 10 * ParseNat(s[..|s| - 1]) + DigitValue(s[|s| - 1])
  }

  function ParseInt(s: string): int
    requires |s| >= 1
    requires forall i :: 1 <= i < |s| ==> IsDigit(s[i])
    requires s[0] == '-' || IsDigit(s[0])
  {
    if s[0] == '-' then -(ParseNat(s[1..]) as int) else ParseNat(s)
  }

  lemma {:induction false} NatToStringRoundTrip(n: nat)
    ensures ParseNat(NatToString(n)) == n
  {
    if n >= 10 {
      var s := NatToString(n);
      NatToStringRoundTrip(n / 10);
      assert s[..|s| - 1] == NatToString(n / 10);
    }
  }

  /** The decimal text determines the number: distinct amounts give distinct keys. */
  lemma IntToStringRoundTrip(n: int)
    ensures ParseInt(IntToString(n)) == n
  {
    var s := IntToString(n);
    if n < 0 {
      assert s[1..] == NatToString(-n);
      NatToStringRoundTrip(-n);
    } else {
      NatToStringRoundTrip(n);
    }
  }

  lemma IntToStringInjective(a: int, b: int)
    requires IntToString(a) == IntToString(b)
    ensures a == b
  {
    IntToStringRoundTrip(a);
    IntToStringRoundTrip(b);
  }

  /** Index of the first `c` in `s`, or `|s|` when there is none. */
  function IndexOfChar(s: string, c: char): (k: nat)
    ensures k <= |s|
    ensures k < |s| ==> s[k] == c
    ensures forall i :: 0 <= i < k ==> s[i] != c
  {
    if s == [] then 0
    else if s[0] == c then 0
    else 1 + IndexOfChar(s[1..], c)
  }

  /** `s.split(c)[0]`: everything before the first `c`. */
  function BeforeFirst(s: string, c: char): (r: string)
    ensures r <= s
    ensures c !in r
    ensures |r| == |s| || s[|r|] == c
  {
    s[..IndexOfChar(s, c)]
  }

  /** What follows the first `c`, if `s` holds one. */
  function AfterFirst(s: string, c: char): (r: Option<string>)
    ensures r.None? <==> c !in s
    ensures r.Some? ==> s == BeforeFirst(s, c) + [c] + r.value
  {
    var k := IndexOfChar(s, c);
    if k == |s| then None else Some(s[k + 1..])
  }

  /** Before the first `c` of `p + s`, where `p` holds no `c`, is `p` and what precedes the first `c` of `s`. */
  lemma BeforeFirstAfter(p: string, s: string, c: char)
    requires c !in p
    ensures BeforeFirst(p + s, c) == p + BeforeFirst(s, c)
  {
    var ps := p + s;
    var j := IndexOfChar(s, c);
    assert forall i :: 0 <= i < |p| ==> ps[i] == p[i];
    assert forall i :: 0 <= i < j ==> ps[|p| + i] == s[i];
    assert j < |s| ==> ps[|p| + j] == c;
    assert IndexOfChar(ps, c) == |p| + j;
    assert ps[..|p| + j] == p + s[..j];
  }

  /** Splitting `p + [c] + q` at its first `c`, where `p` holds no `c`, gives back `p` and `q`. */
  lemma {:induction false} SplitJoin(p: string, c: char, q: string)
    requires c !in p
    ensures BeforeFirst(p + [c] + q, c) == p
    ensures AfterFirst(p + [c] + q, c) == Some(q)
  {
    var s := p + [c] + q;
    assert s[|p|] == c;
  }
}

module Locale {
  import opened Wrappers

  type Key = string

  /** The translation table: a key has a text, or it is missing. */
  type Lookup = Key -> Option<string>

  /** A text the view asks the locale layer for: candidate keys, most specific first. */
  datatype Text = Translate(keys: seq<Key>, default: Option<string>)

  /** `t(key)` */
  function T(key: Key): (r: Text)
    ensures r.keys == [key] && r.default.None?
  {
    Translate([key], None)
  }

  /** Index of the first key that has a translation. */
  function FirstHit(lookup: Lookup, keys: seq<Key>): (r: Option<nat>)
    ensures r.Some? ==> r.value < |keys| && lookup(keys[r.value]).Some?
    ensures r.Some? ==> forall j :: 0 <= j < r.value ==> lookup(keys[j]).None?
    ensures r.None? ==> forall j :: 0 <= j < |keys| ==> lookup(keys[j]).None?
  {
    if keys == [] then None
    else if lookup(keys[0]).Some? then Some(0)
    else match FirstHit(lookup, keys[1..])
      case None => None
      case Some(i) => Some(i + 1)
  }

  /**
   * `t.first(keys, substitutions, default)`: the translation of the first key
   * that has one, else the default; `None` when neither exists (what the
   * locale layer then shows is not part of this model).
   */
  function First(lookup: Lookup, keys: seq<Key>, default: Option<string>): (r: Option<string>)
    ensures (exists i :: 0 <= i < |keys| && lookup(keys[i]).Some?) ==>
      exists i :: 0 <= i < |keys| && r == lookup(keys[i]) && r.Some? &&
        forall j :: 0 <= j < i ==> lookup(keys[j]).None?
    ensures (forall i :: 0 <= i < |keys| ==> lookup(keys[i]).None?) ==> r == default
  {
    match FirstHit(lookup, keys)
    case Some(i) => lookup(keys[i])
    case None => default
  }

  function Resolve(lookup: Lookup, text: Text): Option<string> {
    First(lookup, text.keys, text.default)
  }

  /** A generic key behind a specific one is used only when the specific key is missing. */
  lemma SpecificKeyWins(lookup: Lookup, specific: Key, generic: Key, default: Option<string>)
    ensures lookup(specific).Some? ==> First(lookup, [specific, generic], default) == lookup(specific)
    ensures lookup(specific).None? ==>
      First(lookup, [specific, generic], default) == if lookup(generic).Some? then lookup(generic) else default
  {
    var keys := [specific, generic];
    assert keys[0] == specific && keys[1] == generic;
  }
}
