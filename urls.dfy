/** The URL builders of the request helpers in src/stores/app-api-data.ts.
    Every request URL is the base URL, the literal "api/", the path, and one of
    three tails: a single `?key=value`, a `&`-joined list of `key=value` pairs,
    or a `/`-joined list of path segments. Keys and values are concatenated raw,
    without any escaping. */
module Urls {
  import opened Values
  import opened Strings

  /** The literal placed between the base URL and the path. */
  const ApiSegment: string := "api/"

  /** An element of a query array. The source probes its argument objects for the
      own properties `key`, `value` and `body`; each is modelled as present or absent,
      and `None` is an absent property, which a template literal renders as
      `undefined` (see Show). */
  datatype Item = Item(key: Option<string>, value: Option<string>, body: Option<Json>)

  /** `{ key: k, value: v }` */
  function KeyValue(k: string, v: string): Item { Item(Some(k), Some(v), None) }

  /** `{ body: b }` */
  function BodyItem(b: Json): Item { Item(None, None, Some(b)) }

  /** How a template literal or `+` renders a string property that may be undefined. */
  function Show(p: Option<string>): string
  {
    if p.Some? then p.value else "undefined"
  }

  /** `apiServerUrl + 'api/' + path`: the whole URL of postByBody and putByBody,
      and the common prefix of every other URL. */
  function Endpoint(base: string, path: string): string
  {
    base + ApiSegment + path
  }

  /** `${item.key}=${item.value}` */
  function Pair(item: Item): string
  {
    Show(item.key) + "=" + Show(item.value)
  }

  /** `items.map(item => `${item.key}=${item.value}`)` */
  function Pairs(items: seq<Item>): (pairs: seq<string>)
    ensures |pairs| == |items|
    ensures forall i :: 0 <= i < |items| ==> pairs[i] == Pair(items[i])
  {
    if |items| == 0 then [] else [Pair(items[0])] + Pairs(items[1..])
  }

  /** `items.filter(item => 'key' in item)`: the items that carry a key, in input order. */
  function Keyed(items: seq<Item>): (kept: seq<Item>)
    ensures |kept| <= |items|
    ensures forall x :: x in kept <==> x in items && x.key.Some?
  {
    if |items| == 0 then []
    else if items[0].key.Some? then [items[0]] + Keyed(items[1..])
    else Keyed(items[1..])
  }

  /** Filtering distributes over concatenation, so the kept items keep their input order. */
  lemma {:induction false} KeyedAppend(a: seq<Item>, b: seq<Item>)
    ensures Keyed(a + b) == Keyed(a) + Keyed(b)
    decreases |a|
  {
    if |a| > 0 {
      assert (a + b)[1..] == a[1..] + b;
      KeyedAppend(a[1..], b);
    } else {
      assert a + b == b;
    }
  }

  /** The `&`-joined query string of the given items, every item rendered. */
  function QueryString(items: seq<Item>): string
  {
    Join("&", Pairs(items))
  }

  /** getByQuery: a non-empty key adds `?key=value`; an empty key (falsy) adds nothing. */
  function GetByQueryUrl(base: string, path: string, key: string, value: string): string
  {
    if key != "" then Endpoint(base, path) + "?" + key + "=" + value
    else Endpoint(base, path)
  }

  /** getByQueryMulti: every item of the array is rendered, with no filter. */
  function GetByQueryMultiUrl(base: string, path: string, items: seq<Item>): string
  {
    Endpoint(base, path) + "?" + QueryString(items)
  }

  /** postByQueryMulti, putByQueryMulti and the array form of deleteByQuery:
      only the items carrying a key are rendered. */
  function KeyedQueryUrl(base: string, path: string, items: seq<Item>): string
  {
    Endpoint(base, path) + "?" + QueryString(Keyed(items))
  }

  /** getByPath: the values joined by `/` after a `/`. */
  function GetByPathUrl(base: string, path: string, values: seq<string>): string
  {
    Endpoint(base, path) + "/" + Join("/", values)
  }

  /** `items.find(item => 'body' in item)`, projected to its body. */
  function FindBody(items: seq<Item>): (found: Option<Json>)
    ensures found.Some? <==> exists i :: 0 <= i < |items| && items[i].body.Some?
    ensures found.Some? ==>
      exists i :: 0 <= i < |items| && items[i].body == found &&
        forall j :: 0 <= j < i ==> items[j].body.None?
  {
    if |items| == 0 then None
    else if items[0].body.Some? then items[0].body
    else
      var found := FindBody(items[1..]);
      assert forall i :: 1 <= i < |items| ==> items[i] == items[1..][i - 1];
      if found.Some? then
        ghost var i :| 0 <= i < |items[1..]| && items[1..][i].body == found &&
          forall j :: 0 <= j < i ==> items[1..][j].body.None?;
        assert items[i + 1].body == found;
        assert forall j :: 0 <= j < i + 1 ==> items[j].body.None? by {
          forall j | 0 <= j < i + 1 ensures items[j].body.None? {
            if j > 0 { assert items[j] == items[1..][j - 1]; }
          }
        }
        found
      else found
  }

  /** The request body of postByQueryMulti and putByQueryMulti: the body of the
      first item carrying one, or `{}` when there is none. */
  function SelectBody(items: seq<Item>): Json
  {
    match FindBody(items)
    case Some(b) => b
    case None => EmptyObject
  }

  /** The three shapes deleteByQuery tells apart at run time. */
  datatype DeleteQuery =
    | PathQuery(segment: string)   // a string: appended as a path segment
    | ObjectQuery(item: Item)      // a single object: one `?key=value`
    | ArrayQuery(items: seq<Item>) // an array: the keyed items, `&`-joined

  /** deleteByQuery's URL, by the shape of its query argument. */
  function DeleteUrl(base: string, path: string, query: DeleteQuery): string
  {
    match query
    case PathQuery(segment) => Endpoint(base, path) + "/" + segment
    case ArrayQuery(items) => KeyedQueryUrl(base, path, items)
    case ObjectQuery(item) => Endpoint(base, path) + "?" + Show(item.key) + "=" + Show(item.value)
  }

  /** `item` has both `key` and `value` own properties. */
  predicate HasKeyAndValue(item: Item)
  {
    item.key.Some? && item.value.Some?
  }

  /** `items.every(HasKeyAndValue)`; true of the empty array. */
  function EveryHasKeyAndValue(items: seq<Item>): (all: bool)
    ensures all <==> forall i :: 0 <= i < |items| ==> HasKeyAndValue(items[i])
  {
    if |items| == 0 then true
    else
      assert forall i :: 1 <= i < |items| ==> items[i] == items[1..][i - 1];
      HasKeyAndValue(items[0]) && EveryHasKeyAndValue(items[1..])
  }

  /** The validation guard of getByQueryMulti, postByQueryMulti and putByQueryMulti. */
  predicate GuardRejects(items: seq<Item>)
  {
    |items| == 0 && !EveryHasKeyAndValue(items)
  }

  /** The guard can never fire: the only arrays of length zero make `every` vacuously true. */
  lemma GuardNeverRejects(items: seq<Item>)
    ensures !GuardRejects(items)
  {
  }

  // ---------------------------------------------------------------------------
  // Reading the URLs back

  /** The part of `s` before the first `c`, and the part after it
      (the whole string and "" if there is no `c`). */
  function SplitFirst(c: char, s: string): (string, string)
    decreases |s|
  {
    if |s| == 0 then ("", "")
    else if s[0] == c then ("", s[1..])
    else
      var (k, v) := SplitFirst(c, s[1..]);
      ([s[0]] + k, v)
  }

  /** A query string read back as its `&`-separated pieces, each cut at its first `=`. */
  function ParseQuery(q: string): (pairs: seq<(string, string)>)
  {
    var pieces := Split('&', q);
    seq(|pieces|, i requires 0 <= i < |pieces| => SplitFirst('=', pieces[i]))
  }

  /** The key and value text each item contributes. */
  function Rendered(items: seq<Item>): (pairs: seq<(string, string)>)
    ensures |pairs| == |items|
  {
    seq(|items|, i requires 0 <= i < |items| => (Show(items[i].key), Show(items[i].value)))
  }

  /** A key free of `&` and `=` and a value free of `&` survive the round trip. */
  predicate Unambiguous(item: Item)
  {
    '&' !in Show(item.key) && '=' !in Show(item.key) && '&' !in Show(item.value)
  }

  lemma {:induction false} SplitFirstPair(k: string, v: string)
    requires '=' !in k
    ensures SplitFirst('=', k + "=" + v) == (k, v)
    decreases |k|
  {
    var s := k + "=" + v;
    if |k| == 0 {
      assert s == "=" + v;
      assert s[1..] == v;
    } else {
      assert '=' !in k[1..] by {
        forall j | 0 <= j < |k[1..]| ensures k[1..][j] != '=' { assert k[1..][j] == k[j + 1]; }
      }
      assert s[1..] == k[1..] + "=" + v;
      SplitFirstPair(k[1..], v);
      assert [k[0]] + k[1..] == k;
    }
  }

  /** A non-empty query string built from unambiguous items parses back into
      exactly their keys and values, in order. */
  lemma QueryStringRoundTrip(items: seq<Item>)
    requires |items| >= 1
    requires forall i :: 0 <= i < |items| ==> Unambiguous(items[i])
    ensures ParseQuery(QueryString(items)) == Rendered(items)
  {
    var pairs := Pairs(items);
    forall i | 0 <= i < |pairs| ensures '&' !in pairs[i] {
      assert pairs[i] == Show(items[i].key) + "=" + Show(items[i].value);
    }
    SplitJoin('&', pairs);
    forall i | 0 <= i < |items|
      ensures SplitFirst('=', pairs[i]) == (Show(items[i].key), Show(items[i].value))
    {
      SplitFirstPair(Show(items[i].key), Show(items[i].value));
    }
  }

  /** The query tail of a multi-query URL. */
  lemma QueryUrlRoundTrip(base: string, path: string, items: seq<Item>)
    requires |items| >= 1
    requires forall i :: 0 <= i < |items| ==> Unambiguous(items[i])
    ensures var url, n := GetByQueryMultiUrl(base, path, items), |Endpoint(base, path)| + 1;
      n <= |url| && url[..n] == Endpoint(base, path) + "?" && ParseQuery(url[n..]) == Rendered(items)
  {
    var url, n := GetByQueryMultiUrl(base, path, items), |Endpoint(base, path)| + 1;
    assert url[n..] == QueryString(items);
    QueryStringRoundTrip(items);
  }

  /** The query tail of postByQueryMulti, putByQueryMulti and an array deleteByQuery:
      when at least one item carries a key, and the keyed items are unambiguous, it
      parses back into exactly the keyed items, in input order. Items without a key
      are dropped by the filter, so nothing is asked of them. */
  lemma KeyedQueryUrlRoundTrip(base: string, path: string, items: seq<Item>)
    requires |Keyed(items)| >= 1
    requires forall i :: 0 <= i < |items| && items[i].key.Some? ==> Unambiguous(items[i])
    ensures var url, n := KeyedQueryUrl(base, path, items), |Endpoint(base, path)| + 1;
      n <= |url| && url[..n] == Endpoint(base, path) + "?" && ParseQuery(url[n..]) == Rendered(Keyed(items))
  {
    var kept := Keyed(items);
    forall i | 0 <= i < |kept| ensures Unambiguous(kept[i]) {
      assert kept[i] in items;
      var j :| 0 <= j < |items| && items[j] == kept[i];
    }
    assert KeyedQueryUrl(base, path, items) == GetByQueryMultiUrl(base, path, kept);
    QueryUrlRoundTrip(base, path, kept);
  }

  /** The three URL shapes of deleteByQuery read back: a segment free of `/` as the
      one path segment after `/`, an unambiguous object as its one pair, and an array
      with a keyed item, whose keyed items are unambiguous, as its keyed items. */
  lemma DeleteUrlRoundTrip(base: string, path: string, query: DeleteQuery)
    ensures query.PathQuery? && '/' !in query.segment ==>
      var url, n := DeleteUrl(base, path, query), |Endpoint(base, path)| + 1;
      n <= |url| && url[..n] == Endpoint(base, path) + "/" && Split('/', url[n..]) == [query.segment]
    ensures query.ObjectQuery? && Unambiguous(query.item) ==>
      var url, n := DeleteUrl(base, path, query), |Endpoint(base, path)| + 1;
      n <= |url| && url[..n] == Endpoint(base, path) + "?" && ParseQuery(url[n..]) == Rendered([query.item])
    ensures (query.ArrayQuery? && |Keyed(query.items)| >= 1 &&
             forall i :: 0 <= i < |query.items| && query.items[i].key.Some? ==> Unambiguous(query.items[i])) ==>
      var url, n := DeleteUrl(base, path, query), |Endpoint(base, path)| + 1;
      n <= |url| && url[..n] == Endpoint(base, path) + "?" && ParseQuery(url[n..]) == Rendered(Keyed(query.items))
  {
    var n := |Endpoint(base, path)| + 1;
    match query
    case PathQuery(segment) =>
      if '/' !in segment {
        var url := DeleteUrl(base, path, query);
        assert url[n..] == segment;
        SplitWithoutSeparator('/', segment);
      }
    case ObjectQuery(item) =>
      if Unambiguous(item) {
        assert [item][1..] == [];
        assert QueryString([item]) == Pair(item);
        assert DeleteUrl(base, path, query) == GetByQueryMultiUrl(base, path, [item]);
        QueryUrlRoundTrip(base, path, [item]);
      }
    case ArrayQuery(items) =>
      if |Keyed(items)| >= 1 && forall i :: 0 <= i < |items| && items[i].key.Some? ==> Unambiguous(items[i]) {
        KeyedQueryUrlRoundTrip(base, path, items);
      }
  }

  /** The path tail of getByPath: at least one value, none containing `/`,
      splits back into the values. */
  lemma PathUrlRoundTrip(base: string, path: string, values: seq<string>)
    requires |values| >= 1
    requires forall i :: 0 <= i < |values| ==> '/' !in values[i]
    ensures var url, n := GetByPathUrl(base, path, values), |Endpoint(base, path)| + 1;
      n <= |url| && url[..n] == Endpoint(base, path) + "/" && Split('/', url[n..]) == values
  {
    var url, n := GetByPathUrl(base, path, values), |Endpoint(base, path)| + 1;
    assert url[n..] == Join("/", values);
    SplitJoin('/', values);
  }

  /** The single query of getByQuery reads back as exactly one pair when the key
      is non-empty and the pair is unambiguous; an empty key leaves no query at all,
      whatever the value. */
  lemma SingleQueryRoundTrip(base: string, path: string, key: string, value: string)
    ensures key == "" ==> GetByQueryUrl(base, path, key, value) == Endpoint(base, path)
    ensures (key != "" && '&' !in key && '=' !in key && '&' !in value) ==>
      var url, n := GetByQueryUrl(base, path, key, value), |Endpoint(base, path)| + 1;
      n <= |url| && url[..n] == Endpoint(base, path) + "?" && ParseQuery(url[n..]) == [(key, value)]
  {
    if key != "" && '&' !in key && '=' !in key && '&' !in value {
      var items := [KeyValue(key, value)];
      assert GetByQueryUrl(base, path, key, value) == GetByQueryMultiUrl(base, path, items);
      QueryUrlRoundTrip(base, path, items);
    }
  }

  /** With no values, getByPath leaves a trailing `/`. */
  lemma EmptyPathHasTrailingSlash(base: string, path: string)
    ensures GetByPathUrl(base, path, []) == Endpoint(base, path) + "/"
  {
  }

  /** Raw concatenation: a value holding `&` smuggles in a second parameter, so
      two different argument lists produce the same URL. */
  lemma NoEscaping(base: string, path: string)
    ensures GetByQueryUrl(base, path, "a", "1&b=2")
         == GetByQueryMultiUrl(base, path, [KeyValue("a", "1"), KeyValue("b", "2")])
  {
    assert QueryString([KeyValue("a", "1"), KeyValue("b", "2")]) == "a=1&b=2";
  }

  /** A single keyed object deletes the same URL as a one-element array holding it;
      without a key the object renders "undefined" while the array drops it. */
  lemma DeleteObjectVersusArray(base: string, path: string, item: Item)
    ensures item.key.Some? ==>
      DeleteUrl(base, path, ObjectQuery(item)) == DeleteUrl(base, path, ArrayQuery([item]))
    ensures item.key.None? ==>
      DeleteUrl(base, path, ObjectQuery(item)) == Endpoint(base, path) + "?undefined=" + Show(item.value) &&
      DeleteUrl(base, path, ArrayQuery([item])) == Endpoint(base, path) + "?"
  {
    assert [item][1..] == [];
    if item.key.Some? {
      assert Keyed([item]) == [item];
      assert QueryString([item]) == Pair(item);
    } else {
      assert Keyed([item]) == [];
      assert QueryString([]) == "";
    }
  }

  /** The single-query and plain URLs the store's unit tests expect, for a base URL `base`. */
  lemma ExpectedSingleUrls(base: string)
    ensures GetByQueryUrl(base, "test", "key", "value") == base + "api/test?key=value"
    ensures GetByQueryUrl(base, "test", "", "") == base + "api/test"
    ensures Endpoint(base, "test") == base + "api/test"
  {
  }

  /** The postByBody URL the integration test expects. */
  lemma ExpectedPostBodyUrl(base: string)
    ensures Endpoint(base, "users") == base + "api/users"
  {
  }

  /** The query string of the integration test's two-parameter query. */
  lemma ExpectedQueryString()
    ensures QueryString([KeyValue("status", "active"), KeyValue("type", "user")]) == "status=active&type=user"
  {
    assert Pair(KeyValue("status", "active")) == "status=active";
    assert Pair(KeyValue("type", "user")) == "type=user";
    assert Pairs([KeyValue("status", "active"), KeyValue("type", "user")]) == ["status=active", "type=user"];
  }

  /** The multi-query URL the integration test expects. */
  lemma ExpectedMultiUrl(base: string)
    ensures GetByQueryMultiUrl(base, "users", [KeyValue("status", "active"), KeyValue("type", "user")])
         == base + "api/" + "users" + "?" + "status=active&type=user"
  {
    ExpectedQueryString();
  }

  /** The path URL the integration test expects. */
  lemma ExpectedPathUrl(base: string)
    ensures GetByPathUrl(base, "users", ["1", "profile"]) == base + "api/users/1/profile"
  {
    assert Join("/", ["1", "profile"]) == "1/profile";
  }

  /** The URL and body of the integration test's postByQueryMulti call. */
  lemma ExpectedPostQuery(base: string)
    ensures var items := [KeyValue("action", "update"), BodyItem(JObject([("name", JString("updated name"))]))];
      KeyedQueryUrl(base, "users", items) == base + "api/" + "users" + "?" + "action=update" &&
      SelectBody(items) == JObject([("name", JString("updated name"))])
  {
    var kv, b := KeyValue("action", "update"), BodyItem(JObject([("name", JString("updated name"))]));
    assert [kv, b][1..] == [b] && [b][1..] == [];
    assert Keyed([b]) == [];
    assert Keyed([kv, b]) == [kv];
    assert QueryString([kv]) == "action=update";
  }
}
