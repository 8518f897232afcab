/**
 * A URL as the WHATWG URL parser leaves it: the components the rule engine reads or
 * writes, with the query as its list of name/value pairs. `URLSearchParams`'s
 * `delete`, `set` and `get` (section 6.2 of the WHATWG URL Standard) are functions on
 * that list; `UrlObject` is the mutable `URL` object the redirect builders change in place.
 */
module UrlModel {
  import opened Wrappers
  import opened ArrayOps

  /** A parsed hostname: the URL Standard forbids '/' in a host. */
  type Hostname = h: string | '/' !in h

  /** The query as `URLSearchParams` sees it: name/value pairs in order. */
  type Query = seq<(string, string)>

  /**
   * A parsed URL. `opaquePath` marks a URL whose path is one opaque string rather than a
   * list of segments (`mailto:a@b`, `data:,x`); the `pathname` setter leaves such a URL alone.
   */
  datatype Url = Url(
    scheme: string, host: Hostname, port: string,
    path: string, opaquePath: bool, query: Query, fragment: string)

  /** A URL string as handed to the engine: it either parses, or `new URL(...)` throws. */
  datatype Href = Parsed(url: Url) | Unparsable(text: string)

  /** The test "this pair is not called `name`". */
  function NameIsNot(name: string): ((string, string)) -> bool
  {
    (pair: (string, string)) => pair.0 != name
  }

  /** The test "this pair is called `name`". */
  function NameIs(name: string): ((string, string)) -> bool
  {
    (pair: (string, string)) => pair.0 == name
  }

  /** `searchParams.delete(name)`: removes every pair called `name`, keeping the others in order. */
  function QueryDelete(q: Query, name: string): (r: Query)
    ensures |r| <= |q|
    ensures forall j :: 0 <= j < |r| ==> r[j] in q && r[j].0 != name
    ensures forall j :: 0 <= j < |q| && q[j].0 != name ==> q[j] in r
  {
    Filter(q, NameIsNot(name))
  }

  /** The pairs called `name`, in order. */
  function Named(q: Query, name: string): (r: Query)
    ensures forall j :: 0 <= j < |r| ==> r[j] in q && r[j].0 == name
    ensures forall j :: 0 <= j < |q| && q[j].0 == name ==> q[j] in r
  {
    Filter(q, NameIs(name))
  }

  /**
   * `searchParams.set(name, value)`: when a pair called `name` exists, the first one takes
   * `value` and the later ones are removed; otherwise `(name, value)` is appended.
   */
  function QuerySet(q: Query, name: string, value: string): (r: Query)
    ensures Named(r, name) == [(name, value)]
    ensures QueryDelete(r, name) == QueryDelete(q, name)
    ensures (forall j :: 0 <= j < |q| ==> q[j].0 != name) ==> r == q + [(name, value)]
  {
    if q == [] then [(name, value)]
    else if q[0].0 == name then
      SetReplacesHead(q, name, value);
      [(name, value)] + QueryDelete(q[1..], name)
    else
      var tail := QuerySet(q[1..], name, value);
      SetKeepsHead(q, tail, name, value);
      assert (forall j :: 0 <= j < |q| ==> q[j].0 != name) ==> forall j :: 0 <= j < |q| - 1 ==> q[1..][j].0 != name;
      [q[0]] + tail
  }

  /** The head case of `set`: the first pair called `name` takes `value`, the later ones go. */
  lemma SetReplacesHead(q: Query, name: string, value: string)
    requires q != [] && q[0].0 == name
    ensures Named([(name, value)] + QueryDelete(q[1..], name), name) == [(name, value)]
    ensures QueryDelete([(name, value)] + QueryDelete(q[1..], name), name) == QueryDelete(q, name)
  {
    var rest := QueryDelete(q[1..], name);
    NamedOfDeleted(q[1..], name);
    QueryDeleteIdempotent(q[1..], name);
    FilterOfCons((name, value), rest, NameIs(name));
    FilterOfCons((name, value), rest, NameIsNot(name));
    FilterOfCons(q[0], q[1..], NameIsNot(name));
    assert [q[0]] + q[1..] == q;
  }

  /** The step case of `set`: a first pair with another name stays in front. */
  lemma SetKeepsHead(q: Query, tail: Query, name: string, value: string)
    requires q != [] && q[0].0 != name
    requires Named(tail, name) == [(name, value)]
    requires QueryDelete(tail, name) == QueryDelete(q[1..], name)
    ensures Named([q[0]] + tail, name) == [(name, value)]
    ensures QueryDelete([q[0]] + tail, name) == QueryDelete(q, name)
  {
    FilterOfCons(q[0], tail, NameIs(name));
    FilterOfCons(q[0], tail, NameIsNot(name));
    FilterOfCons(q[0], q[1..], NameIsNot(name));
    assert [q[0]] + q[1..] == q;
  }

  /** `set` leaves a first pair with another name in front. */
  lemma QuerySetPastHead(q: Query, name: string, value: string)
    requires q != [] && q[0].0 != name
    ensures QuerySet(q, name, value) == [q[0]] + QuerySet(q[1..], name, value)
  {
  }

  /** `set` leaves a prefix without pairs called `name` in front. */
  lemma {:induction false} QuerySetPastPrefix(q: Query, name: string, value: string, k: nat)
    requires k <= |q|
    requires forall j :: 0 <= j < k ==> q[j].0 != name
    ensures QuerySet(q, name, value) == q[..k] + QuerySet(q[k..], name, value)
  {
    if k == 0 {
      assert q[..0] + QuerySet(q[0..], name, value) == QuerySet(q, name, value);
    } else {
      SlicesOfTail(q, k);
      QuerySetPastPrefix(q[1..], name, value, k - 1);
      QuerySetPastHead(q, name, value);
      ConcatAssoc([q[0]], q[1..][..k - 1], QuerySet(q[k..], name, value));
    }
  }

  /**
   * Where `set` puts the pair when `name` is present: in place of the first pair called `name`,
   * with the pairs before it untouched and the later pairs called `name` removed.
   */
  lemma QuerySetInPlace(q: Query, name: string, value: string, k: nat)
    requires k < |q| && q[k].0 == name
    requires forall j :: 0 <= j < k ==> q[j].0 != name
    ensures QuerySet(q, name, value) == q[..k] + [(name, value)] + QueryDelete(q[k + 1..], name)
  {
    QuerySetPastPrefix(q, name, value, k);
    assert q[k..][1..] == q[k + 1..];
    assert QuerySet(q[k..], name, value) == [(name, value)] + QueryDelete(q[k + 1..], name);
  }

  /** `searchParams.get(name)`: the value of the first pair called `name`, if any. */
  function QueryGet(q: Query, name: string): (r: Option<string>)
    ensures r.None? <==> forall j :: 0 <= j < |q| ==> q[j].0 != name
    ensures r.Some? ==> exists k :: 0 <= k < |q| && q[k] == (name, r.value) && forall j :: 0 <= j < k ==> q[j].0 != name
  {
    if q == [] then None
    else if q[0].0 == name then Some(q[0].1)
    else
      var r := QueryGet(q[1..], name);
      assert forall j :: 1 <= j < |q| ==> q[j] == q[1..][j - 1];
      r
  }

  /** After `delete`, no pair called `name` is left. */
  lemma NamedOfDeleted(q: Query, name: string)
    ensures Named(QueryDelete(q, name), name) == []
  {
    FilterDropsAll(QueryDelete(q, name), NameIs(name));
  }

  /** `delete` twice is `delete` once. */
  lemma QueryDeleteIdempotent(q: Query, name: string)
    ensures QueryDelete(QueryDelete(q, name), name) == QueryDelete(q, name)
  {
    FilterKeepsAll(QueryDelete(q, name), NameIsNot(name));
  }

  /** `delete` distributes over concatenation of pair lists. */
  lemma QueryDeleteAppend(a: Query, b: Query, name: string)
    ensures QueryDelete(a + b, name) == QueryDelete(a, name) + QueryDelete(b, name)
  {
    FilterAppend(a, b, NameIsNot(name));
  }

  /** `get` reads the value of the only pair called `name`. */
  lemma {:induction false} QueryGetOfSingle(q: Query, name: string, value: string)
    requires Named(q, name) == [(name, value)]
    ensures QueryGet(q, name) == Some(value)
  {
    if q != [] {
      if q[0].0 != name {
        QueryGetOfSingle(q[1..], name, value);
      }
    }
  }

  /**
   * The `URL` object the source builds with `new URL(originalUrl)` and then changes in
   * place through `url.searchParams` and `url.pathname`.
   */
  class UrlObject {
    var scheme: string
    var host: Hostname
    var port: string
    var path: string
    var opaquePath: bool
    var query: Query
    var fragment: string

    /** The record the object currently holds (what `url.toString()` serialises). */
    function Record(): Url
      reads this
    {
      Url(scheme, host, port, path, opaquePath, query, fragment)
    }

    /** `new URL(...)` on a string that parses to `u`. */
    constructor (u: Url)
      ensures Record() == u
    {
      scheme, host, port := u.scheme, u.host, u.port;
      path, opaquePath, query, fragment := u.path, u.opaquePath, u.query, u.fragment;
    }

    /** `url.searchParams.delete(name)`. */
    method DeleteSearchParam(name: string)
      modifies this
      ensures Record() == old(Record()).(query := QueryDelete(old(query), name))
    {
      query := QueryDelete(query, name);
    }

    /** `url.searchParams.set(name, value)`. */
    method SetSearchParam(name: string, value: string)
      modifies this
      ensures Record() == old(Record()).(query := QuerySet(old(query), name, value))
    {
      query := QuerySet(query, name, value);
    }

    /** `url.pathname = p`: ignored when the URL has an opaque path. */
    method SetPathname(p: string)
      modifies this
      ensures old(opaquePath) ==> Record() == old(Record())
      ensures !old(opaquePath) ==> Record() == old(Record()).(path := p)
    {
      if !opaquePath {
        path := p;
      }
    }
  }
}
