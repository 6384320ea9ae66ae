/** `DefaultSdkHttpFullRequest`, the immutable wire request, and its
    `Builder`. The builder keeps headers in a case-sensitive `HashMap`; the
    built request keeps them in a case-insensitive `TreeMap`, modelled here as
    a map from the folded name to the entry (original name and values). */
module HttpRequest {
  import opened Wrappers
  import opened HeaderNames
  import opened QueryParams

  datatype HttpMethod = GET | POST | PUT | DELETE | HEAD | PATCH | OPTIONS

  /** The endpoint `URI` and the content `InputStream` are opaque values. */
  datatype Uri = Uri(id: nat)
  datatype Content = Content(id: nat)

  /** One entry of the built header map: the name as stored and its values. */
  datatype Header = Header(name: string, values: seq<string>)

  datatype FullRequest = FullRequest(
    headers: map<string, Header>,
    resourcePath: Option<string>,
    queryParameters: Params,
    endpoint: Option<Uri>,
    httpMethod: Option<HttpMethod>,
    content: Option<Content>)

  /** Every header entry is filed under the folded form of its own name. */
  predicate CaseInsensitive(headers: map<string, Header>)
  {
    forall f :: f in headers ==> Fold(headers[f].name) == f
  }

  /** A request as the builder produces it. */
  type Request = r: FullRequest | CaseInsensitive(r.headers)
    witness FullRequest(map[], None, [], None, None, None)

  datatype Builder = Builder(
    headers: map<string, seq<string>>,
    resourcePath: Option<string>,
    queryParameters: Params,
    endpoint: Option<Uri>,
    httpMethod: Option<HttpMethod>,
    content: Option<Content>)

  /** No two builder keys differ only in case. */
  predicate CaseDistinct(headers: map<string, seq<string>>)
  {
    forall a, b :: a in headers && b in headers && Fold(a) == Fold(b) ==> a == b
  }

  /** `getValuesForHeader`: a case-insensitive lookup, null when absent. */
  function ValuesForHeader(r: Request, name: string): Option<seq<string>>
  {
    if Fold(name) in r.headers then Some(r.headers[Fold(name)].values) else None
  }

  /** `DefaultSdkHttpFullRequest.builder()`. */
  function NewBuilder(): (b: Builder)
    ensures forall name :: ValuesForHeader(Build(b), name) == None
    ensures Build(b).queryParameters == []
  {
    var b := Builder(map[], None, [], None, None, None);
    assert FoldHeaders(b.headers) == map[];
    b
  }

  /** `Builder.header(key, values)`: a case-sensitive put. */
  function SetHeader(b: Builder, key: string, values: seq<string>): (r: Builder)
    ensures r.headers.Keys == b.headers.Keys + {key}
    ensures r.headers[key] == values
    ensures forall k :: k in b.headers && k != key ==> r.headers[k] == b.headers[k]
    ensures r == b.(headers := r.headers)
  {
    b.(headers := b.headers[key := values])
  }

  /** `Builder.headers(map)`: replaces all headers with a copy of `headers`. */
  function SetHeaders(b: Builder, headers: map<string, seq<string>>): (r: Builder)
    ensures r.headers == headers
    ensures r == b.(headers := headers)
  {
    b.(headers := headers)
  }

  /** `Builder.queryParameter(name, values)`. */
  function SetQueryParameter(b: Builder, name: string, values: seq<string>): (r: Builder)
    ensures Get(r.queryParameters, name) == Some(values)
    ensures forall n :: n != name ==> Get(r.queryParameters, n) == Get(b.queryParameters, n)
    ensures name in Names(b.queryParameters) ==> Names(r.queryParameters) == Names(b.queryParameters)
    ensures name !in Names(b.queryParameters) ==> Names(r.queryParameters) == Names(b.queryParameters) + [name]
    ensures r == b.(queryParameters := r.queryParameters)
  {
    var ps := Put(b.queryParameters, name, values);
    PutGet(b.queryParameters, name, values, name);
    forall n | n != name
      ensures Get(ps, n) == Get(b.queryParameters, n)
    {
      PutGet(b.queryParameters, name, values, n);
    }
    b.(queryParameters := ps)
  }

  /** `Builder.queryParameters(map)`: replaces all parameters, keeping the
      given map's order. */
  function SetQueryParameters(b: Builder, ps: Params): (r: Builder)
    ensures r.queryParameters == ps
    ensures r == b.(queryParameters := ps)
  {
    b.(queryParameters := ps)
  }

  /** `Builder.removeQueryParameter(name)`. */
  function RemoveQueryParameter(b: Builder, name: string): (r: Builder)
    ensures Get(r.queryParameters, name) == None
    ensures forall n :: n != name ==> Get(r.queryParameters, n) == Get(b.queryParameters, n)
    ensures forall k :: 0 <= k < |b.queryParameters| && b.queryParameters[k].name == name ==>
              r.queryParameters == b.queryParameters[..k] + b.queryParameters[k + 1..]
    ensures name !in Names(b.queryParameters) ==> r == b
    ensures r == b.(queryParameters := r.queryParameters)
  {
    var ps := Remove(b.queryParameters, name);
    RemoveSpec(b.queryParameters, name);
    b.(queryParameters := ps)
  }

  /** `Builder.clearQueryParameters()`. */
  function ClearQueryParameters(b: Builder): (r: Builder)
    ensures forall n :: Get(r.queryParameters, n) == None
    ensures r == b.(queryParameters := [])
  {
    b.(queryParameters := [])
  }

  /** The builder keys whose folded form is `f`. */
  function Spellings(headers: map<string, seq<string>>, f: string): set<string>
  {
    set k | k in headers && Fold(k) == f
  }

  /** Copying the builder's headers into the case-insensitive map. Where
      builder keys collide ignoring case, the source's `TreeMap` keeps the
      first key `HashMap` iteration reaches with the last one's values; the
      model keeps the least name with its own values, and promises only that
      the surviving name is one of them. */
  function FoldHeaders(headers: map<string, seq<string>>): (h: map<string, Header>)
    ensures CaseInsensitive(h)
    ensures forall k :: k in headers ==> Fold(k) in h
    ensures forall f :: f in h ==> h[f].name in headers && Fold(h[f].name) == f
    ensures CaseDistinct(headers) ==> forall f :: f in h ==> h[f].values == headers[h[f].name]
  {
    map f | f in FoldedNames(headers) :: Survivor(headers, f)
  }

  function FoldedNames(headers: map<string, seq<string>>): set<string>
  {
    set k | k in headers :: Fold(k)
  }

  /** The entry kept for the folded name `f`. */
  function Survivor(headers: map<string, seq<string>>, f: string): (e: Header)
    requires f in FoldedNames(headers)
    ensures e.name in headers && Fold(e.name) == f && e.values == headers[e.name]
  {
    SpellingsNonEmpty(headers, f);
    var n := Least(Spellings(headers, f));
    Header(n, headers[n])
  }

  lemma SpellingsNonEmpty(headers: map<string, seq<string>>, f: string)
    requires f in FoldedNames(headers)
    ensures Spellings(headers, f) != {}
  {
    var k :| k in headers && Fold(k) == f;
    assert k in Spellings(headers, f);
  }

  /** `Builder.build()`. */
  function Build(b: Builder): (r: Request)
    ensures r.resourcePath == b.resourcePath && r.endpoint == b.endpoint
    ensures r.httpMethod == b.httpMethod && r.content == b.content
    ensures r.queryParameters == b.queryParameters
  {
    FullRequest(FoldHeaders(b.headers), b.resourcePath, b.queryParameters, b.endpoint, b.httpMethod, b.content)
  }

  /** Header lookup on a built request ignores case: a name is found exactly
      when some builder key matches it ignoring case, and then (when no two
      builder keys differ only in case) it gives that key's values. */
  lemma BuildLookup(b: Builder, name: string)
    ensures ValuesForHeader(Build(b), name).Some? <==> exists k :: k in b.headers && Fold(k) == Fold(name)
    ensures CaseDistinct(b.headers) ==>
              forall k :: k in b.headers && Fold(k) == Fold(name) ==> ValuesForHeader(Build(b), name) == Some(b.headers[k])
  {
    var h := FoldHeaders(b.headers);
    if Fold(name) in h {
      assert h[Fold(name)].name in b.headers && Fold(h[Fold(name)].name) == Fold(name);
    }
  }

  /** `toBuilder()`: a builder holding this request's state, headers under
      the names they were stored with. */
  function ToBuilder(r: Request): (b: Builder)
    ensures CaseDistinct(b.headers)
    ensures b.queryParameters == r.queryParameters
    ensures b.resourcePath == r.resourcePath && b.endpoint == r.endpoint
    ensures b.httpMethod == r.httpMethod && b.content == r.content
  {
    var hs := map f | f in r.headers :: r.headers[f].name := r.headers[f].values;
    Builder(hs, r.resourcePath, r.queryParameters, r.endpoint, r.httpMethod, r.content)
  }

  /** `toBuilder().build()` gives back the same request. */
  lemma BuildToBuilder(r: Request)
    ensures Build(ToBuilder(r)) == r
  {
    var b := ToBuilder(r);
    var h := FoldHeaders(b.headers);
    assert forall f :: f in r.headers ==> r.headers[f].name in b.headers;
    forall f | f in r.headers
      ensures f in h && h[f] == r.headers[f]
    {
      var n := r.headers[f].name;
      assert Fold(n) == f;
    }
    forall f | f in h
      ensures f in r.headers
    {
      var n := h[f].name;
      var g :| g in r.headers && r.headers[g].name == n;
      assert Fold(n) == g;
    }
    assert h == r.headers;
  }

  /** Building and copying back gives the same builder, when no two of its
      header keys differ only in case. */
  lemma ToBuilderBuild(b: Builder)
    requires CaseDistinct(b.headers)
    ensures ToBuilder(Build(b)) == b
  {
    var r := Build(b);
    var c := ToBuilder(r);
    forall k | k in b.headers
      ensures k in c.headers && c.headers[k] == b.headers[k]
    {
      assert Fold(k) in r.headers;
      var e := r.headers[Fold(k)];
      assert e.name in b.headers && Fold(e.name) == Fold(k);
    }
    forall k | k in c.headers
      ensures k in b.headers
    {
      var f :| f in r.headers && r.headers[f].name == k;
    }
    assert c.headers == b.headers;
  }

  /** Putting `key` into builder headers adds `key`'s folded name and
      keeps every other folded name's spellings. */
  lemma PutSpellings(headers: map<string, seq<string>>, key: string, values: seq<string>)
    ensures FoldedNames(headers[key := values]) == FoldedNames(headers) + {Fold(key)}
    ensures forall f :: f != Fold(key) ==> Spellings(headers[key := values], f) == Spellings(headers, f)
  {
    var nb := headers[key := values];
    assert key in nb;
    forall f | f in FoldedNames(nb)
      ensures f in FoldedNames(headers) + {Fold(key)}
    {
      var k :| k in nb && Fold(k) == f;
      if k != key {
        assert k in headers;
      }
    }
    forall f | f in FoldedNames(headers)
      ensures f in FoldedNames(nb)
    {
      var k :| k in headers && Fold(k) == f;
      assert k in nb;
    }
  }

  /** Putting `key` leaves the folded entry of every other name as it was. */
  lemma FoldPutOther(headers: map<string, seq<string>>, key: string, values: seq<string>, f: string)
    requires f != Fold(key)
    ensures f in FoldHeaders(headers[key := values]) <==> f in FoldHeaders(headers)
    ensures f in FoldHeaders(headers) ==> FoldHeaders(headers[key := values])[f] == FoldHeaders(headers)[f]
  {
    PutSpellings(headers, key, values);
  }

  /** Putting `key` when no other key folds like it files exactly that key
      and its values under the folded name. */
  lemma FoldPutOwn(headers: map<string, seq<string>>, key: string, values: seq<string>)
    requires forall k :: k in headers && Fold(k) == Fold(key) ==> k == key
    ensures Fold(key) in FoldHeaders(headers[key := values])
    ensures FoldHeaders(headers[key := values])[Fold(key)] == Header(key, values)
  {
    PutSpellings(headers, key, values);
    assert Spellings(headers[key := values], Fold(key)) == {key};
  }

  /** On the built request, `header(key, values)` leaves every entry whose
      folded name differs from `key`'s exactly as it was, and files some
      entry under `key`'s folded name. */
  lemma SetHeaderKeepsOthers(b: Builder, key: string, values: seq<string>)
    ensures Fold(key) in Build(SetHeader(b, key, values)).headers
    ensures forall f :: f != Fold(key) ==>
              (f in Build(SetHeader(b, key, values)).headers <==> f in Build(b).headers)
    ensures forall f :: f != Fold(key) && f in Build(b).headers ==>
              Build(SetHeader(b, key, values)).headers[f] == Build(b).headers[f]
  {
    var nb := b.headers[key := values];
    assert SetHeader(b, key, values).headers == nb;
    PutSpellings(b.headers, key, values);
    forall f | f != Fold(key)
      ensures f in FoldHeaders(nb) <==> f in FoldHeaders(b.headers)
      ensures f in FoldHeaders(b.headers) ==> FoldHeaders(nb)[f] == FoldHeaders(b.headers)[f]
    {
      FoldPutOther(b.headers, key, values, f);
    }
  }

  /** Putting `key` when no other key folds like it updates the folded map
      at exactly `key`'s folded name. */
  lemma FoldPut(headers: map<string, seq<string>>, key: string, values: seq<string>)
    requires forall k :: k in headers && Fold(k) == Fold(key) ==> k == key
    ensures FoldHeaders(headers[key := values]) == FoldHeaders(headers)[Fold(key) := Header(key, values)]
  {
    var h1 := FoldHeaders(headers[key := values]);
    var e := FoldHeaders(headers)[Fold(key) := Header(key, values)];
    forall f
      ensures f in h1 <==> f in e
      ensures f in e ==> h1[f] == e[f]
    {
      if f == Fold(key) {
        FoldPutOwn(headers, key, values);
      } else {
        FoldPutOther(headers, key, values, f);
      }
    }
    assert h1 == e;
  }

  /** When no other builder key differs from `key` only in case, the built
      request files exactly `key` and `values` under `key`'s folded name. */
  lemma SetHeaderFiles(b: Builder, key: string, values: seq<string>)
    requires forall k :: k in b.headers && Fold(k) == Fold(key) ==> k == key
    ensures Build(SetHeader(b, key, values)).headers == Build(b).headers[Fold(key) := Header(key, values)]
  {
    FoldPut(b.headers, key, values);
  }
}
