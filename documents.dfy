/**
  The document phase of performExport (lines 209-258): for every key of the
  index map, a scan search whose scroll pages are written hit by hit, one packet
  per fetched field and one for the source unless `_source` is itself a field.
 */
module DocumentStream {
  import opened Wrappers
  import opened Archive
  import opened Cluster
  import opened Knapsack
  import SpecResolver

  type IndexMap = SpecResolver.IndexMap

  function FieldPacket(req: ExportRequest, hit: Hit, f: (string, string)): Packet
  {
    Packet(req.mapIndex(hit.index), req.mapType(hit.index, hit.typeName), Some(hit.id), Some(f.0), f.1)
  }

  function SourcePacket(req: ExportRequest, hit: Hit): Packet
  {
    Packet(req.mapIndex(hit.index), req.mapType(hit.index, hit.typeName), Some(hit.id), Some("_source"), hit.source)
  }

  function FieldPackets(req: ExportRequest, hit: Hit, fs: Assoc<string>): seq<Packet>
    decreases |fs|
  {
    if fs == [] then []
    else FieldPackets(req, hit, fs[..|fs| - 1]) + [FieldPacket(req, hit, fs[|fs| - 1])]
  }

  /** Lines 231-250: the packets of one hit. */
  function HitPackets(req: ExportRequest, hit: Hit): seq<Packet>
  {
    FieldPackets(req, hit, hit.fields) + (if HasKey(hit.fields, "_source") then [] else [SourcePacket(req, hit)])
  }

  /** Lines 230-251: the packets of the hits of one page, hit after hit. */
  function PagePackets(req: ExportRequest, hits: seq<Hit>): seq<Packet>
    decreases |hits|
  {
    if hits == [] then []
    else PagePackets(req, hits[..|hits| - 1]) + HitPackets(req, hits[|hits| - 1])
  }

  /**
    Lines 220-252, from the k-th check of the loop on, `sid` being the scroll id
    of the last response: the loop goes on while there is a scroll id and the
    thread is not interrupted; a scroll call that throws ends the export, one
    that returns no hits ends this index.
   */
  function ScrollFrom(req: ExportRequest, c: Client, index: string, pages: seq<Result<Page>>, k: nat,
                      sid: Option<string>): Emission
    decreases |pages| - k
  {
    if sid.None? || c.interrupted(index, k) || k >= |pages| then Emission([], None)
    else match pages[k]
      case Err(e) => Emission([], Some(e))
      case Ok(page) =>
        if |page.hits| == 0 then Emission([], None)
        else Emission(PagePackets(req, page.hits), None).Then(ScrollFrom(req, c, index, pages, k + 1, page.scrollId))
  }

  /** Lines 218-252: the search for one index and its scroll; the hits of the initial response are not written. */
  function IndexDocuments(req: ExportRequest, c: Client, sr: SearchRequest, index: string): Emission
  {
    match c.search(sr)
    case Err(e) => Emission([], Some(e))
    case Ok(run) => ScrollFrom(req, c, index, run.pages, 0, run.first.scrollId)
  }

  /** Lines 210-213: the request's search, or a match-all search over all indices and types. */
  function InitialSearch(req: ExportRequest): SearchRequest
  {
    if req.searchRequest.Some? then req.searchRequest.value else SearchRequest([], {}, "match_all")
  }

  /**
    Lines 215-222: the one search request, changed for the next index: its
    target becomes that index unless the index is `_all`, and its types become
    the index's types.
   */
  function Prepared(sr: SearchRequest, indices: IndexMap, index: string): SearchRequest
  {
    SearchRequest(if index == "_all" then sr.indices else [index], SpecResolver.TypesOf(indices, index), sr.query)
  }

  /** The search request as it is when the search for the last index of `order` is sent. */
  function RequestAfter(sr: SearchRequest, indices: IndexMap, order: seq<string>): SearchRequest
    decreases |order|
  {
    if order == [] then sr
    else Prepared(RequestAfter(sr, indices, order[..|order| - 1]), indices, order[|order| - 1])
  }

  /** Lines 214-253: the keys of the map in the order `order`, until one throws. */
  function DocEmission(req: ExportRequest, c: Client, sr: SearchRequest, indices: IndexMap, order: seq<string>): Emission
    decreases |order|
  {
    if order == [] then Emission([], None)
    else DocEmission(req, c, sr, indices, order[..|order| - 1])
           .Then(IndexDocuments(req, c, RequestAfter(sr, indices, order), order[|order| - 1]))
  }

  /** `order` lists every key of the set exactly once: an iteration order of a HashMap's key set. */
  ghost predicate IsEnumeration(order: seq<string>, keys: set<string>)
  {
    && (forall k :: k in order <==> k in keys)
    && (forall i, j :: 0 <= i < j < |order| ==> order[i] != order[j])
  }

  /** Some iteration order of a set. */
  ghost function Enumerate(s: set<string>): (r: seq<string>)
    ensures IsEnumeration(r, s)
    decreases s
  {
    if s == {} then []
    else
      var x :| x in s;
      var rest := Enumerate(s - {x});
      assert forall j :: 0 <= j < |rest| ==> rest[j] != x;
      [x] + rest
  }

  // ---------------------------------------------------------------------------
  // Properties of one hit and one page

  lemma {:induction false} FieldPacketsAt(req: ExportRequest, hit: Hit, fs: Assoc<string>)
    ensures |FieldPackets(req, hit, fs)| == |fs|
    ensures forall j :: 0 <= j < |fs| ==> FieldPackets(req, hit, fs)[j] == FieldPacket(req, hit, fs[j])
    decreases |fs|
  {
    if fs != [] {
      FieldPacketsAt(req, hit, fs[..|fs| - 1]);
    }
  }

  /**
    A hit gives one packet per fetched field, in the order of its fields, then
    one source packet exactly when `_source` is not among the fields; every
    packet carries the renamed index and type and the hit's id.
   */
  lemma HitPacketsShape(req: ExportRequest, hit: Hit)
    ensures var ps := HitPackets(req, hit);
      && |ps| == |hit.fields| + (if HasKey(hit.fields, "_source") then 0 else 1)
      && (forall j :: 0 <= j < |hit.fields| ==> ps[j] == FieldPacket(req, hit, hit.fields[j]))
      && (!HasKey(hit.fields, "_source") ==> ps[|hit.fields|] == SourcePacket(req, hit))
      && (forall j :: 0 <= j < |ps| ==>
            && ps[j].index == req.mapIndex(hit.index)
            && ps[j].typeName == req.mapType(hit.index, hit.typeName)
            && ps[j].id == Some(hit.id)
            && ps[j].field.Some?)
  {
    FieldPacketsAt(req, hit, hit.fields);
    var ps := HitPackets(req, hit);
    var fp := FieldPackets(req, hit, hit.fields);
    assert forall j :: 0 <= j < |fp| ==> ps[j] == fp[j];
  }

  /** A hit with the fields f1 and f2 and no `_source` field gives three packets. */
  lemma HitExample(req: ExportRequest, hit: Hit, v1: string, v2: string)
    requires hit.fields == [("f1", v1), ("f2", v2)]
    ensures HitPackets(req, hit) == [FieldPacket(req, hit, ("f1", v1)), FieldPacket(req, hit, ("f2", v2)),
                                     SourcePacket(req, hit)]
  {
    assert !HasKey(hit.fields, "_source") by {
      assert hit.fields[0].0 != "_source" && hit.fields[1].0 != "_source";
    }
    FieldPacketsAt(req, hit, hit.fields);
  }

  lemma {:induction false} PagePacketsAreDocuments(req: ExportRequest, hits: seq<Hit>)
    ensures AllDocuments(PagePackets(req, hits))
    decreases |hits|
  {
    if hits != [] {
      PagePacketsAreDocuments(req, hits[..|hits| - 1]);
      HitPacketsShape(req, hits[|hits| - 1]);
      var a, b := PagePackets(req, hits[..|hits| - 1]), HitPackets(req, hits[|hits| - 1]);
      assert forall j :: |a| <= j < |a + b| ==> (a + b)[j] == b[j - |a|];
    }
  }

  /** The number of packets of a page: per hit, its fields, plus one unless `_source` is a field. */
  function PacketCount(hits: seq<Hit>): nat
    decreases |hits|
  {
    if hits == [] then 0
    else PacketCount(hits[..|hits| - 1]) + |hits[|hits| - 1].fields| +
         (if HasKey(hits[|hits| - 1].fields, "_source") then 0 else 1)
  }

  lemma {:induction false} PagePacketsCount(req: ExportRequest, hits: seq<Hit>)
    ensures |PagePackets(req, hits)| == PacketCount(hits)
    decreases |hits|
  {
    if hits != [] {
      PagePacketsCount(req, hits[..|hits| - 1]);
      HitPacketsShape(req, hits[|hits| - 1]);
    }
  }

  // ---------------------------------------------------------------------------
  // Properties of the scroll loop

  function OkHits(r: Result<Page>): seq<Hit>
  {
    if r.Ok? then r.value.hits else []
  }

  /** The packets of the pages k up to n, page after page. */
  function PagesFrom(req: ExportRequest, pages: seq<Result<Page>>, k: nat, n: nat): seq<Packet>
    requires k <= n <= |pages|
    decreases n - k
  {
    if k == n then [] else PagePackets(req, OkHits(pages[k])) + PagesFrom(req, pages, k + 1, n)
  }

  /** Pages k up to n were all returned and all had hits. */
  predicate FullPages(pages: seq<Result<Page>>, k: nat, n: nat)
    requires k <= n <= |pages|
  {
    forall j :: k <= j < n ==> pages[j].Ok? && |pages[j].value.hits| > 0
  }

  /**
    The scroll loop writes the hits of a run of scroll pages that were returned
    and had hits, page after page, and nothing else: never the initial
    response's hits.
   */
  lemma {:induction false} ScrollWritesPages(req: ExportRequest, c: Client, index: string, pages: seq<Result<Page>>,
                                             k: nat, sid: Option<string>)
    requires k <= |pages|
    ensures exists n :: && k <= n <= |pages| && FullPages(pages, k, n)
                        && ScrollFrom(req, c, index, pages, k, sid).packets == PagesFrom(req, pages, k, n)
    decreases |pages| - k
  {
    var e := ScrollFrom(req, c, index, pages, k, sid);
    if sid.None? || c.interrupted(index, k) || k >= |pages| || pages[k].Err? || |pages[k].value.hits| == 0 {
      assert FullPages(pages, k, k) && e.packets == PagesFrom(req, pages, k, k);
    } else {
      var page := pages[k].value;
      ScrollWritesPages(req, c, index, pages, k + 1, page.scrollId);
      var n :| k + 1 <= n <= |pages| && FullPages(pages, k + 1, n) &&
        ScrollFrom(req, c, index, pages, k + 1, page.scrollId).packets == PagesFrom(req, pages, k + 1, n);
      assert e.packets == PagePackets(req, page.hits) + ScrollFrom(req, c, index, pages, k + 1, page.scrollId).packets;
      assert FullPages(pages, k, n) && e.packets == PagesFrom(req, pages, k, n);
    }
  }

  /** The pages after the first page without hits are never asked for. */
  lemma {:induction false} ScrollStopsAtEmptyPage(req: ExportRequest, c: Client, index: string,
                                                  pages: seq<Result<Page>>, other: seq<Result<Page>>,
                                                  k: nat, sid: Option<string>, m: nat)
    requires k <= m < |pages| && m < |other| && pages[..m + 1] == other[..m + 1]
    requires pages[m].Ok? && |pages[m].value.hits| == 0
    ensures ScrollFrom(req, c, index, pages, k, sid) == ScrollFrom(req, c, index, other, k, sid)
    decreases m - k
  {
    assert pages[k] == pages[..m + 1][k] == other[k];
    if k < m && !(sid.None? || c.interrupted(index, k)) && pages[k].Ok? && |pages[k].value.hits| > 0 {
      ScrollStopsAtEmptyPage(req, c, index, pages, other, k + 1, pages[k].value.scrollId, m);
    }
  }

  /** The pages after the first page without a scroll id are never asked for. */
  lemma {:induction false} ScrollStopsAtNoScrollId(req: ExportRequest, c: Client, index: string,
                                                   pages: seq<Result<Page>>, other: seq<Result<Page>>,
                                                   k: nat, sid: Option<string>, m: nat)
    requires k <= m < |pages| && m < |other| && pages[..m + 1] == other[..m + 1]
    requires pages[m].Ok? && pages[m].value.scrollId.None?
    ensures ScrollFrom(req, c, index, pages, k, sid) == ScrollFrom(req, c, index, other, k, sid)
    decreases m - k
  {
    assert pages[k] == pages[..m + 1][k] == other[k];
    if !(sid.None? || c.interrupted(index, k)) && pages[k].Ok? && |pages[k].value.hits| > 0 {
      var next := pages[k].value.scrollId;
      if k < m {
        ScrollStopsAtNoScrollId(req, c, index, pages, other, k + 1, next, m);
      } else {
        assert ScrollFrom(req, c, index, pages, k + 1, next) == Emission([], None);
        assert ScrollFrom(req, c, index, other, k + 1, next) == Emission([], None);
      }
    }
  }

  /**
    An interrupt noticed at the m-th check ends the loop for this index after the
    pages before it, and does not end the export: no failure is reported, so the
    next index is exported.
   */
  lemma {:induction false} InterruptEndsIndex(req: ExportRequest, c: Client, index: string, pages: seq<Result<Page>>,
                                              k: nat, sid: Option<string>, m: nat)
    requires k <= m <= |pages| && FullPages(pages, k, m) && sid.Some?
    requires forall j :: k <= j < m ==> pages[j].value.scrollId.Some? && !c.interrupted(index, j)
    requires c.interrupted(index, m)
    ensures ScrollFrom(req, c, index, pages, k, sid) == Emission(PagesFrom(req, pages, k, m), None)
    decreases m - k
  {
    if k < m {
      InterruptEndsIndex(req, c, index, pages, k + 1, pages[k].value.scrollId, m);
    }
  }

  /** Whether the thread is interrupted while one index is exported does not change what another index writes. */
  lemma {:induction false} ScrollIgnoresOtherInterrupts(req: ExportRequest, c: Client, c2: Client, index: string,
                                                        pages: seq<Result<Page>>, k: nat, sid: Option<string>)
    requires forall j :: c2.interrupted(index, j) == c.interrupted(index, j)
    ensures ScrollFrom(req, c, index, pages, k, sid) == ScrollFrom(req, c2, index, pages, k, sid)
    decreases |pages| - k
  {
    if !(sid.None? || c.interrupted(index, k) || k >= |pages|) && pages[k].Ok? {
      ScrollIgnoresOtherInterrupts(req, c, c2, index, pages, k + 1, pages[k].value.scrollId);
    }
  }

  lemma InterruptsAreLocal(req: ExportRequest, c: Client, c2: Client, sr: SearchRequest, index: string)
    requires c2 == c.(interrupted := c2.interrupted)
    requires forall j :: c2.interrupted(index, j) == c.interrupted(index, j)
    ensures IndexDocuments(req, c, sr, index) == IndexDocuments(req, c2, sr, index)
  {
    if c.search(sr).Ok? {
      var run := c.search(sr).value;
      ScrollIgnoresOtherInterrupts(req, c, c2, index, run.pages, 0, run.first.scrollId);
    }
  }

  lemma {:induction false} ScrollIsDocuments(req: ExportRequest, c: Client, index: string, pages: seq<Result<Page>>,
                                             k: nat, sid: Option<string>)
    ensures AllDocuments(ScrollFrom(req, c, index, pages, k, sid).packets)
    decreases |pages| - k
  {
    if !(sid.None? || c.interrupted(index, k) || k >= |pages|) && pages[k].Ok? && |pages[k].value.hits| > 0 {
      var page := pages[k].value;
      ScrollIsDocuments(req, c, index, pages, k + 1, page.scrollId);
      PagePacketsAreDocuments(req, page.hits);
      var a, b := PagePackets(req, page.hits), ScrollFrom(req, c, index, pages, k + 1, page.scrollId).packets;
      assert forall j :: |a| <= j < |a + b| ==> (a + b)[j] == b[j - |a|];
    }
  }

  // ---------------------------------------------------------------------------
  // Properties of the loop over the indices

  /**
    The search request is one object reused for every index: when it is sent for
    the last index of `order`, it targets the last index of `order` other than
    `_all`, or the initial target if there is none.
   */
  lemma {:induction false} SearchTargetsLastNamedIndex(sr: SearchRequest, indices: IndexMap, order: seq<string>)
    ensures (forall j :: 0 <= j < |order| ==> order[j] == "_all") ==> RequestAfter(sr, indices, order).indices == sr.indices
    ensures forall j :: 0 <= j < |order| && order[j] != "_all" && (forall l :: j < l < |order| ==> order[l] == "_all") ==>
      RequestAfter(sr, indices, order).indices == [order[j]]
    ensures order != [] ==> RequestAfter(sr, indices, order).types == SpecResolver.TypesOf(indices, order[|order| - 1])
    ensures RequestAfter(sr, indices, order).query == sr.query
    decreases |order|
  {
    if order != [] {
      var init := order[..|order| - 1];
      SearchTargetsLastNamedIndex(sr, indices, init);
      forall j | 0 <= j < |order| && order[j] != "_all" && (forall l :: j < l < |order| ==> order[l] == "_all")
        ensures RequestAfter(sr, indices, order).indices == [order[j]]
      {
        if j < |order| - 1 {
          assert init[j] == order[j];
          assert forall l :: j < l < |init| ==> init[l] == order[l];
        }
      }
    }
  }

  /** After an index i, the search for `_all` targets i only, not all indices. */
  lemma AllAfterNamedIndex(sr: SearchRequest, indices: IndexMap, i: string)
    requires i != "_all"
    ensures RequestAfter(sr, indices, [i, "_all"]).indices == [i]
  {
    SearchTargetsLastNamedIndex(sr, indices, [i, "_all"]);
    assert [i, "_all"][0] != "_all";
  }

  lemma DocEmissionSnoc(req: ExportRequest, c: Client, sr: SearchRequest, indices: IndexMap, order: seq<string>,
                        index: string)
    ensures RequestAfter(sr, indices, order + [index]) == Prepared(RequestAfter(sr, indices, order), indices, index)
    ensures DocEmission(req, c, sr, indices, order + [index]) ==
      DocEmission(req, c, sr, indices, order).Then(IndexDocuments(req, c, RequestAfter(sr, indices, order + [index]), index))
  {
    assert (order + [index])[..|order|] == order;
  }

  /** One more index after indices that did not throw. */
  lemma StreamStep(req: ExportRequest, c: Client, sr: SearchRequest, indices: IndexMap, visited: seq<string>,
                   index: string)
    requires DocEmission(req, c, sr, indices, visited).failure.None?
    ensures RequestAfter(sr, indices, visited + [index]) == Prepared(RequestAfter(sr, indices, visited), indices, index)
    ensures var next := IndexDocuments(req, c, Prepared(RequestAfter(sr, indices, visited), indices, index), index);
      DocEmission(req, c, sr, indices, visited + [index]) ==
        Emission(DocEmission(req, c, sr, indices, visited).packets + next.packets, next.failure)
  {
    DocEmissionSnoc(req, c, sr, indices, visited, index);
  }

  /** Once an index has thrown, the later indices are not exported. */
  lemma {:induction false} DocEmissionStops(req: ExportRequest, c: Client, sr: SearchRequest, indices: IndexMap,
                                            order: seq<string>, n: nat)
    requires n <= |order| && DocEmission(req, c, sr, indices, order[..n]).failure.Some?
    ensures DocEmission(req, c, sr, indices, order) == DocEmission(req, c, sr, indices, order[..n])
    decreases |order| - n
  {
    if n < |order| {
      assert order[..n + 1][..n] == order[..n];
      DocEmissionStops(req, c, sr, indices, order, n + 1);
    } else {
      assert order[..n] == order;
    }
  }

  lemma {:induction false} DocEmissionIsDocuments(req: ExportRequest, c: Client, sr: SearchRequest, indices: IndexMap,
                                                  order: seq<string>)
    ensures AllDocuments(DocEmission(req, c, sr, indices, order).packets)
    decreases |order|
  {
    if order != [] {
      var sri := RequestAfter(sr, indices, order);
      var index := order[|order| - 1];
      DocEmissionIsDocuments(req, c, sr, indices, order[..|order| - 1]);
      if c.search(sri).Ok? {
        var run := c.search(sri).value;
        ScrollIsDocuments(req, c, index, run.pages, 0, run.first.scrollId);
      }
      var a := DocEmission(req, c, sr, indices, order[..|order| - 1]).packets;
      var b := IndexDocuments(req, c, sri, index).packets;
      assert forall j :: |a| <= j < |a + b| ==> (a + b)[j] == b[j - |a|];
    }
  }

  lemma EnumerationConcat(visited: seq<string>, rest: seq<string>, done: set<string>, remaining: set<string>)
    requires IsEnumeration(visited, done) && IsEnumeration(rest, remaining) && done !! remaining
    ensures IsEnumeration(visited + rest, done + remaining)
  {
    var o := visited + rest;
    forall i, j | 0 <= i < j < |o|
      ensures o[i] != o[j]
    {
      if j < |visited| {
        assert o[i] == visited[i] && o[j] == visited[j];
      } else if i >= |visited| {
        assert o[i] == rest[i - |visited|] && o[j] == rest[j - |visited|];
      } else {
        assert o[i] == visited[i] && o[j] == rest[j - |visited|];
        assert o[i] in done && o[j] in remaining;
      }
    }
  }

  /** Visiting one more key keeps `visited` an enumeration of the keys visited. */
  lemma VisitStep(visited: seq<string>, index: string, keys: set<string>, remaining: set<string>)
    requires remaining <= keys && index in remaining && IsEnumeration(visited, keys - remaining)
    ensures IsEnumeration(visited + [index], keys - (remaining - {index}))
  {
    EnumerationConcat(visited, [index], keys - remaining, {index});
    assert (keys - remaining) + {index} == keys - (remaining - {index});
  }

  /** After a throw, any order of the keys not yet visited gives the same emission. */
  lemma CompleteOrder(req: ExportRequest, c: Client, sr: SearchRequest, indices: IndexMap,
                      visited: seq<string>, remaining: set<string>)
    requires remaining <= indices.Keys && IsEnumeration(visited, indices.Keys - remaining)
    requires DocEmission(req, c, sr, indices, visited).failure.Some?
    ensures IsEnumeration(visited + Enumerate(remaining), indices.Keys)
    ensures DocEmission(req, c, sr, indices, visited + Enumerate(remaining)) == DocEmission(req, c, sr, indices, visited)
  {
    var rest := Enumerate(remaining);
    EnumerationConcat(visited, rest, indices.Keys - remaining, remaining);
    assert (indices.Keys - remaining) + remaining == indices.Keys;
    var order := visited + rest;
    assert order[..|visited|] == visited;
    DocEmissionStops(req, c, sr, indices, order, |visited|);
  }

  // ---------------------------------------------------------------------------
  // The loops that write the packets

  /** Lines 231-250. */
  method WriteHit(session: ArchiveSession, req: ExportRequest, hit: Hit)
    requires session.Valid()
    modifies session`packets, session`packetCounter
    ensures session.Valid()
    ensures session.packets == old(session.packets) + HitPackets(req, hit)
  {
    var fields := hit.fields;
    for j := 0 to |fields|
      invariant session.Valid()
      invariant session.packets == old(session.packets) + FieldPackets(req, hit, fields[..j])
    {
      session.Write(FieldPacket(req, hit, fields[j]));
      assert fields[..j + 1][..j] == fields[..j];
    }
    assert fields[..|fields|] == fields;
    if !HasKey(fields, "_source") {
      session.Write(SourcePacket(req, hit));
    }
  }

  /** Lines 230-251. */
  method WritePage(session: ArchiveSession, req: ExportRequest, hits: seq<Hit>)
    requires session.Valid()
    modifies session`packets, session`packetCounter
    ensures session.Valid()
    ensures session.packets == old(session.packets) + PagePackets(req, hits)
  {
    for j := 0 to |hits|
      invariant session.Valid()
      invariant session.packets == old(session.packets) + PagePackets(req, hits[..j])
    {
      WriteHit(session, req, hits[j]);
      assert hits[..j + 1][..j] == hits[..j];
    }
    assert hits[..|hits|] == hits;
  }

  /** Lines 218-252: the search for one index and its scroll loop. */
  method StreamIndex(session: ArchiveSession, req: ExportRequest, c: Client, sr: SearchRequest, index: string)
    returns (failure: Option<string>)
    requires session.Valid()
    modifies session`packets, session`packetCounter
    ensures session.Valid()
    ensures session.packets == old(session.packets) + IndexDocuments(req, c, sr, index).packets
    ensures failure == IndexDocuments(req, c, sr, index).failure
  {
    var answer := c.search(sr);
    if answer.Err? {
      return Some(answer.error);
    }
    var run := answer.value;
    ghost var total := ScrollFrom(req, c, index, run.pages, 0, run.first.scrollId);
    var sid := run.first.scrollId;
    var k := 0;
    failure := None;
    while sid.Some? && !c.interrupted(index, k)
      invariant k <= |run.pages|
      invariant session.Valid()
      invariant session.packets + ScrollFrom(req, c, index, run.pages, k, sid).packets == old(session.packets) + total.packets
      invariant ScrollFrom(req, c, index, run.pages, k, sid).failure == total.failure
      decreases |run.pages| - k
    {
      if k >= |run.pages| {
        break;
      }
      var response := run.pages[k];
      if response.Err? {
        return Some(response.error);
      }
      var page := response.value;
      if |page.hits| == 0 {
        break;
      }
      ghost var before := session.packets;
      WritePage(session, req, page.hits);
      assert ScrollFrom(req, c, index, run.pages, k, sid).packets ==
        PagePackets(req, page.hits) + ScrollFrom(req, c, index, run.pages, k + 1, page.scrollId).packets;
      assert before + PagePackets(req, page.hits) == session.packets;
      sid := page.scrollId;
      k := k + 1;
    }
  }

  /** One pass of the loop of lines 214-253: point the request at `index` and export it. */
  method StreamNext(session: ArchiveSession, req: ExportRequest, c: Client, sr0: SearchRequest, indices: IndexMap,
                    ghost visited: seq<string>, ghost base: seq<Packet>, sr: SearchRequest, index: string)
    returns (failure: Option<string>, next: SearchRequest)
    requires session.Valid()
    requires sr == RequestAfter(sr0, indices, visited)
    requires DocEmission(req, c, sr0, indices, visited).failure.None?
    requires session.packets == base + DocEmission(req, c, sr0, indices, visited).packets
    modifies session`packets, session`packetCounter
    ensures session.Valid()
    ensures next == RequestAfter(sr0, indices, visited + [index])
    ensures session.packets == base + DocEmission(req, c, sr0, indices, visited + [index]).packets
    ensures failure == DocEmission(req, c, sr0, indices, visited + [index]).failure
  {
    next := Prepared(sr, indices, index);
    StreamStep(req, c, sr0, indices, visited, index);
    failure := StreamIndex(session, req, c, next, index);
  }

  /**
    Lines 214-253: the loop over the keys of the index map, in the map's
    iteration order (returned as `order`), with the one search request changed
    for each index.
   */
  method StreamAll(session: ArchiveSession, req: ExportRequest, c: Client, indices: IndexMap)
    returns (failure: Option<string>, ghost order: seq<string>)
    requires session.Valid()
    modifies session`packets, session`packetCounter
    ensures session.Valid()
    ensures IsEnumeration(order, indices.Keys)
    ensures session.packets == old(session.packets) + DocEmission(req, c, InitialSearch(req), indices, order).packets
    ensures failure == DocEmission(req, c, InitialSearch(req), indices, order).failure
  {
    var sr0 := if req.searchRequest.Some? then req.searchRequest.value else SearchRequest([], {}, "match_all");
    var sr := sr0;
    var remaining := indices.Keys;
    ghost var visited: seq<string> := [];
    ghost var base := session.packets;
    failure := None;
    while remaining != {} && failure.None?
      invariant remaining <= indices.Keys
      invariant IsEnumeration(visited, indices.Keys - remaining)
      invariant sr == RequestAfter(sr0, indices, visited)
      invariant session.Valid()
      invariant session.packets == base + DocEmission(req, c, sr0, indices, visited).packets
      invariant failure == DocEmission(req, c, sr0, indices, visited).failure
      decreases remaining
    {
      var index :| index in remaining;
      failure, sr := StreamNext(session, req, c, sr0, indices, visited, base, sr, index);
      VisitStep(visited, index, indices.Keys, remaining);
      remaining := remaining - {index};
      visited := visited + [index];
    }
    if failure.Some? {
      CompleteOrder(req, c, sr0, indices, visited, remaining);
      order := visited + Enumerate(remaining);
    } else {
      assert indices.Keys - remaining == indices.Keys;
      order := visited;
    }
  }
}
