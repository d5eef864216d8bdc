/** Filtering, ordering and paging of the discovery index (bazaar/discovery.go, bazaar/store.go). */
module Discovery {
  import opened Base
  import opened Text
  import opened Ordering

  datatype Accept = Accept(scheme: Bytes, payTo: Bytes)

  datatype Resource = Resource(url: Bytes, tool: Bytes, kind: Bytes, accepts: seq<Accept>, networks: seq<Bytes>,
                               serviceName: Bytes, description: Bytes, tags: seq<Bytes>)

  function Key(r: Resource): (Bytes, Bytes) { (r.url, r.tool) }

  /** The index is keyed by (URL, tool name). */
  ghost predicate Keyed(index: map<(Bytes, Bytes), Resource>) { forall k <- index :: Key(index[k]) == k }

  datatype Filter = Filter(kind: Bytes, payTo: Bytes, scheme: Bytes, network: Bytes, query: Bytes)

  predicate Contains(s: Bytes, q: Bytes) { exists i :: 0 <= i <= |s| && HasPrefix(s[i..], q) }

  predicate MatchesQuery(r: Resource, query: Bytes) {
    var q := ToLower(query);
    || Contains(ToLower(r.serviceName), q) || Contains(ToLower(r.description), q)
    || Contains(ToLower(r.url), q) || Contains(ToLower(r.tool), q)
    || exists tag <- r.tags :: Contains(ToLower(tag), q)
  }

  predicate Matches(r: Resource, f: Filter) {
    && (f.kind == [] || EqualFold(r.kind, f.kind))
    && (f.network == [] || exists n <- r.networks :: EqualFold(n, f.network))
    && (f.scheme == [] || exists a <- r.accepts :: EqualFold(a.scheme, f.scheme))
    && (f.payTo == [] || exists a <- r.accepts :: EqualFold(a.payTo, f.payTo))
    && (f.query == [] || MatchesQuery(r, f.query))
  }

  lemma ContainsExactly(s: Bytes, q: Bytes)
    ensures Contains(s, q) <==> exists before: Bytes, after: Bytes :: s == before + q + after
  {
    if Contains(s, q) {
      var i :| 0 <= i <= |s| && HasPrefix(s[i..], q);
      assert s == s[..i] + q + s[i + |q|..];
    }
    forall before: Bytes, after: Bytes | s == before + q + after ensures Contains(s, q) {
      assert s[|before|..][..|q|] == q && HasPrefix(s[|before|..], q);
    }
  }

  const ANY := Filter([], [], [], [], [])

  /** Criteria narrow independently and ignore case, an empty one accepts everything, the query is a substring. */
  lemma MatchesExactly(r: Resource, f: Filter)
    ensures Matches(r, ANY)
    ensures Matches(r, f) <==>
              && Matches(r, ANY.(kind := f.kind)) && Matches(r, ANY.(network := f.network))
              && Matches(r, ANY.(scheme := f.scheme)) && Matches(r, ANY.(payTo := f.payTo))
              && Matches(r, ANY.(query := f.query))
    ensures f.kind != [] ==> (Matches(r, ANY.(kind := f.kind)) <==> ToLower(r.kind) == ToLower(f.kind))
    ensures f.network != [] ==>
              (Matches(r, ANY.(network := f.network)) <==>
                exists n :: n in r.networks && ToLower(n) == ToLower(f.network))
    ensures f.scheme != [] ==>
              (Matches(r, ANY.(scheme := f.scheme)) <==>
                exists a :: a in r.accepts && ToLower(a.scheme) == ToLower(f.scheme))
    ensures f.payTo != [] ==>
              (Matches(r, ANY.(payTo := f.payTo)) <==>
                exists a :: a in r.accepts && ToLower(a.payTo) == ToLower(f.payTo))
    ensures f.query != [] ==>
              (Matches(r, ANY.(query := f.query)) <==>
                exists text :: (text in [r.serviceName, r.description, r.url, r.tool] || text in r.tags)
                               && Contains(ToLower(text), ToLower(f.query)))
  {
    var texts := [r.serviceName, r.description, r.url, r.tool];
    assert texts[0] in texts && texts[1] in texts && texts[2] in texts && texts[3] in texts;
  }

  /** Not after, in (URL, tool name) order. */
  predicate ByKey(a: Resource, b: Resource) {
    if a.url != b.url then LessEq(a.url, b.url) else LessEq(a.tool, b.tool)
  }

  function Selected(all: seq<Resource>, f: Filter): (out: seq<Resource>)
    ensures forall r :: r in out <==> r in all && Matches(r, f)
  {
    if all == [] then []
    else
      var prev, last := Selected(all[..|all| - 1], f), all[|all| - 1];
      assert all == all[..|all| - 1] + [last];
      if Matches(last, f) then prev + [last] else prev
  }

  function Filtered(all: seq<Resource>, f: Filter): seq<Resource> { Sort(Selected(all, f), ByKey) }

  method FilterResources(all: seq<Resource>, f: Filter) returns (out: seq<Resource>)
    ensures out == Filtered(all, f)
  {
    out := [];
    for i := 0 to |all|
      invariant out == Selected(all[..i], f)
    {
      assert all[..i + 1][..i] == all[..i];
      if !Matches(all[i], f) {
        continue;
      }
      out := out + [all[i]];
    }
    assert all[..|all|] == all;
    out := Sort(out, ByKey);
  }

  function ClampPageSize(limit: int): (n: int)
    ensures 1 <= n <= 100 && (1 <= limit <= 100 ==> n == limit)
  {
    if limit <= 0 || limit > 100 then 100 else limit
  }

  function Paginate(rs: seq<Resource>, offset: int, limit: int): seq<Resource> {
    var offset := if offset < 0 then 0 else offset;
    if offset >= |rs| then []
    else
      var rest := rs[offset..];
      if 0 < limit < |rest| then rest[..limit] else rest
  }

  /** For every offset and limit the page is the stretch from the offset on, cut to a positive limit. */
  lemma PageExactly(rs: seq<Resource>, offset: int, limit: int)
    ensures var page := Paginate(rs, offset, limit);
            var from := if offset <= 0 then 0 else offset;
            && (from >= |rs| ==> page == [])
            && (from < |rs| ==> |page| == (if limit <= 0 || limit >= |rs| - from then |rs| - from else limit))
            && forall i :: 0 <= i < |page| ==> page[i] == rs[from + i]
  {
  }

  // --- one order for every enumeration ---

  ghost predicate DistinctKeys(rs: seq<Resource>) {
    forall i, j :: 0 <= i < |rs| && 0 <= j < |rs| && i != j ==> Key(rs[i]) != Key(rs[j])
  }

  /** rs lists the stored index in some order, as ranging over a Go map does. */
  ghost predicate Enumerates(rs: seq<Resource>, index: map<(Bytes, Bytes), Resource>) {
    DistinctKeys(rs) && forall r :: r in rs <==> Key(r) in index && index[Key(r)] == r
  }

  class Index {
    var resources: map<(Bytes, Bytes), Resource>

    ghost predicate Valid()
      reads this
    {
      Keyed(resources)
    }

    constructor ()
      ensures Valid() && resources == map[]
    {
      resources := map[];
    }

    method PutResource(r: Resource)
      requires Valid()
      modifies this
      ensures Valid() && resources == old(resources)[Key(r) := r]
    {
      resources := resources[Key(r) := r];
    }

    /** Ranging over the map: each stored resource once, in an order nothing is known about. */
    method Resources() returns (out: seq<Resource>)
      requires Valid()
      ensures Enumerates(out, resources)
    {
      out := [];
      var keys := resources.Keys;
      while keys != {}
        invariant keys <= resources.Keys && DistinctKeys(out)
        invariant forall r :: r in out <==> Key(r) in resources && Key(r) !in keys && resources[Key(r)] == r
        decreases keys
      {
        var k :| k in keys;
        keys := keys - {k};
        assert forall r :: r in out ==> Key(r) != k;
        out := out + [resources[k]];
      }
    }
  }

  /** The matching resources of the index in strict (URL, tool name) order, each once. */
  ghost predicate Listing(l: seq<Resource>, index: map<(Bytes, Bytes), Resource>, f: Filter) {
    && (forall r :: r in l <==> Key(r) in index && index[Key(r)] == r && Matches(r, f))
    && (forall i, j :: 0 <= i < j < |l| ==> ByKey(l[i], l[j]) && Key(l[i]) != Key(l[j]))
  }

  lemma ByKeyIsOrder()
    ensures TotalOrder(ByKey)
  {
    forall a, b ensures ByKey(a, b) || ByKey(b, a) {
      LessEqTotal(a.url, b.url);
      LessEqTotal(a.tool, b.tool);
    }
    forall a, b, c | ByKey(a, b) && ByKey(b, c) ensures ByKey(a, c) {
      ByKeyTransitive(a, b, c);
    }
  }

  lemma ByKeyTransitive(a: Resource, b: Resource, c: Resource)
    requires ByKey(a, b) && ByKey(b, c)
    ensures ByKey(a, c)
  {
    if a.url == b.url && b.url == c.url {
      LessEqTransitive(a.tool, b.tool, c.tool);
    } else if a.url != b.url && b.url != c.url {
      LessEqTransitive(a.url, b.url, c.url);
      LessEqTotal(a.url, b.url);
    }
  }

  lemma SameKey(a: Resource, b: Resource)
    requires ByKey(a, b) && ByKey(b, a)
    ensures Key(a) == Key(b)
  {
    LessEqTotal(a.url, b.url);
    LessEqTotal(a.tool, b.tool);
  }

  lemma DistinctIsStrict(rs: seq<Resource>)
    requires DistinctKeys(rs)
    ensures Strict(rs, ByKey)
  {
    forall i, j | 0 <= i < |rs| && 0 <= j < |rs| && i != j ensures !(ByKey(rs[i], rs[j]) && ByKey(rs[j], rs[i])) {
      if ByKey(rs[i], rs[j]) && ByKey(rs[j], rs[i]) {
        SameKey(rs[i], rs[j]);
      }
    }
  }

  lemma {:induction false} CountOnce(rs: seq<Resource>, r: Resource)
    requires DistinctKeys(rs)
    ensures multiset(rs)[r] == if r in rs then 1 else 0
  {
    if rs != [] {
      var init, last := rs[..|rs| - 1], rs[|rs| - 1];
      assert rs == init + [last];
      CountOnce(init, r);
      if r == last {
        assert r !in init;
      }
    }
  }

  lemma SameMultiset(a: seq<Resource>, b: seq<Resource>)
    requires DistinctKeys(a) && DistinctKeys(b) && forall r :: r in a <==> r in b
    ensures multiset(a) == multiset(b)
  {
    forall r ensures multiset(a)[r] == multiset(b)[r] {
      CountOnce(a, r);
      CountOnce(b, r);
    }
  }

  lemma {:induction false} SelectedDistinct(all: seq<Resource>, f: Filter)
    requires DistinctKeys(all)
    ensures DistinctKeys(Selected(all, f))
  {
    if all != [] {
      var init, last := all[..|all| - 1], all[|all| - 1];
      SelectedDistinct(init, f);
      forall r | r in Selected(init, f) ensures Key(r) != Key(last) {
        var i :| 0 <= i < |init| && init[i] == r;
        assert all[i] == r;
      }
    }
  }

  /** Every enumeration order filters and sorts to the one listing. */
  lemma FilteredIsListing(all: seq<Resource>, index: map<(Bytes, Bytes), Resource>, f: Filter, l: seq<Resource>)
    requires Enumerates(all, index) && Listing(l, index, f)
    ensures Filtered(all, f) == l
  {
    var out := Selected(all, f);
    SelectedDistinct(all, f);
    assert DistinctKeys(l);
    SameMultiset(out, l);
    ByKeyIsOrder();
    SortSorted(out, ByKey);
    DistinctIsStrict(l);
    SortIsUnique(l, Filtered(all, f), ByKey);
  }

  /** And it is a listing, so one exists. */
  lemma FilteredListed(all: seq<Resource>, index: map<(Bytes, Bytes), Resource>, f: Filter)
    requires Enumerates(all, index)
    ensures Listing(Filtered(all, f), index, f)
  {
    var out, l := Selected(all, f), Filtered(all, f);
    ByKeyIsOrder();
    SortSorted(out, ByKey);
    SameElements(l, out);
    SelectedDistinct(all, f);
    forall i, j | 0 <= i < j < |l| ensures Key(l[i]) != Key(l[j]) {
      OnceEach(out, l, i, j);
    }
  }

  lemma CountTwice(b: seq<Resource>, i: nat, j: nat)
    requires i < j < |b| && b[i] == b[j]
    ensures multiset(b)[b[i]] >= 2
  {
    assert b == b[..i] + [b[i]] + b[i + 1..j] + [b[j]] + b[j + 1..];
  }

  lemma OnceEach(a: seq<Resource>, b: seq<Resource>, i: nat, j: nat)
    requires DistinctKeys(a) && multiset(a) == multiset(b) && i < j < |b|
    ensures Key(b[i]) != Key(b[j])
  {
    SameElements(a, b);
    assert b[i] in a && b[j] in a;
    CountOnce(a, b[i]);
    if b[i] == b[j] {
      CountTwice(b, i, j);
    }
  }

  // --- paging ---

  /** The pages at offset, offset + limit, …, each cut from the list that its own read computed. */
  function Pages(lists: seq<seq<Resource>>, offset: int, limit: int): seq<Resource>
    decreases lists
  {
    if lists == [] then []
    else Paginate(lists[0], offset, ClampPageSize(limit)) + Pages(lists[1..], offset + limit, limit)
  }

  lemma PageThenRest(l: seq<Resource>, offset: nat, limit: int)
    requires limit >= 1
    ensures offset >= |l| ==> Paginate(l, offset, limit) == []
    ensures offset < |l| && offset + limit >= |l| ==> Paginate(l, offset, limit) == l[offset..]
    ensures offset + limit < |l| ==> Paginate(l, offset, limit) + l[offset + limit..] == l[offset..]
  {
  }

  lemma {:induction false} PagesBeyond(lists: seq<seq<Resource>>, l: seq<Resource>, offset: nat, limit: int)
    requires 1 <= limit <= 100 && offset >= |l| && forall i :: 0 <= i < |lists| ==> lists[i] == l
    ensures Pages(lists, offset, limit) == []
    decreases lists
  {
    if lists != [] {
      PageThenRest(l, offset, limit);
      PagesBeyond(lists[1..], l, offset + limit, limit);
    }
  }

  /** The entries that n pages cover. */
  function Span(n: nat, limit: nat): nat { if n == 0 then 0 else limit + Span(n - 1, limit) }

  lemma {:induction false} SpanIsProduct(n: nat, limit: nat)
    ensures Span(n, limit) == n * limit
  {
    if n > 0 {
      SpanIsProduct(n - 1, limit);
      assert n * limit == (n - 1) * limit + limit;
    }
  }

  lemma {:induction false} PagesFrom(lists: seq<seq<Resource>>, l: seq<Resource>, offset: nat, limit: int)
    requires 1 <= limit <= 100 && forall i :: 0 <= i < |lists| ==> lists[i] == l
    requires offset <= |l| <= offset + Span(|lists|, limit)
    ensures Pages(lists, offset, limit) == l[offset..]
    decreases lists
  {
    if lists != [] {
      PageThenRest(l, offset, limit);
      if offset + limit < |l| {
        PagesFrom(lists[1..], l, offset + limit, limit);
      } else {
        PagesBeyond(lists[1..], l, offset + limit, limit);
      }
    }
  }

  /** Reading enough pages at successive offsets gives the whole listing, even if the order changes between reads. */
  lemma PagesConcatenate(alls: seq<seq<Resource>>, index: map<(Bytes, Bytes), Resource>, f: Filter,
                         l: seq<Resource>, limit: int)
    requires 1 <= limit <= 100 && Listing(l, index, f) && forall all <- alls :: Enumerates(all, index)
    requires |alls| * limit >= |l|
    ensures Pages(Map(all => Filtered(all, f), alls), 0, limit) == l
  {
    var lists := Map(all => Filtered(all, f), alls);
    forall i | 0 <= i < |alls| ensures lists[i] == l {
      assert alls[i] in alls;
      FilteredIsListing(alls[i], index, f, l);
    }
    SpanIsProduct(|lists|, limit);
    PagesFrom(lists, l, 0, limit);
  }
}
