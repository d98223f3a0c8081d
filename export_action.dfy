/**
  TransportKnapsackExportAction: doExecute opens the archive session and hands
  the export to a background job; performExport is that job, writing the
  metadata and the documents and then unregistering the export.
 */
module ExportAction {
  import opened Wrappers
  import opened Archive
  import opened Cluster
  import opened Knapsack
  import SpecResolver
  import MetadataExport
  import DocumentStream

  type IndexMap = SpecResolver.IndexMap

  /** Lines 104-105: the open mode is one write constant and one encoding constant. */
  function OpenMode(overwriteAllowed: bool, encodeEntry: bool): (r: set<Mode>)
    ensures |r| == 2
    ensures Overwrite in r <==> overwriteAllowed
    ensures Write in r <==> !overwriteAllowed
    ensures UriEncoded in r <==> encodeEntry
    ensures Plain in r <==> !encodeEntry
  {
    {if overwriteAllowed then Overwrite else Write, if encodeEntry then UriEncoded else Plain}
  }

  /** The text of the EnumSet of line 104, its constants in declaration order: the write constant, then the encoding one. */
  function ModeText(overwriteAllowed: bool, encodeEntry: bool): string
  {
    "[" + ModeName(if overwriteAllowed then Overwrite else Write) + ", " +
    ModeName(if encodeEntry then UriEncoded else Plain) + "]"
  }

  /** Line 118: the reason given when the session does not open. */
  function RejectReason(overwriteAllowed: bool, encodeEntry: bool, path: string): string
  {
    "session can not be opened: mode=" + ModeText(overwriteAllowed, encodeEntry) + " path=" + path
  }

  /** Line 118: the mode in the reason reads as the EnumSet prints it. */
  lemma ModeTextExample()
    ensures ModeText(true, true) == "[OVERWRITE, URI_ENCODED]"
  {
    assert ModeText(true, true) == "[" + "OVERWRITE" + ", " + "URI_ENCODED" + "]";
  }

  /** Lines 97-100: the request's path, or `_all.tar.gz`. */
  function TargetPath(path: Option<string>): string
  {
    if path.Some? then path.value else "_all.tar.gz"
  }

  /** Line 144: settings, mappings and aliases are written only when asked for and never to a bulk session. */
  predicate MetadataEnabled(req: ExportRequest, bulk: bool)
  {
    req.withMetadata && !bulk
  }

  /** Lines 138-164: the map the export works on; the explicit names are merged only when metadata is written. */
  function ResolvedIndices(req: ExportRequest, bulk: bool): Result<IndexMap>
  {
    var initial := SpecResolver.InitialIndices(req.indexSpec, req.typeSpec);
    if MetadataEnabled(req, bulk) then SpecResolver.Merged(initial, req.indexTypeNames) else Ok(initial)
  }

  /**
    Lines 136-253: everything performExport writes, `order` being the iteration
    order of the map's keys, and what it threw, if anything.
   */
  function ExportRun(req: ExportRequest, bulk: bool, c: Client, order: seq<string>): Emission
  {
    match ResolvedIndices(req, bulk)
    case Err(e) => Emission([], Some(e))
    case Ok(indices) => ResolvedRun(req, bulk, c, indices, order)
  }

  /** Lines 166-253: what is written once the map is resolved. */
  function ResolvedRun(req: ExportRequest, bulk: bool, c: Client, indices: IndexMap, order: seq<string>): Emission
  {
    var metadata := if MetadataEnabled(req, bulk) then MetadataExport.MetadataEmission(req, c, indices)
                    else Emission([], None);
    metadata.Then(DocumentStream.DocEmission(req, c, DocumentStream.InitialSearch(req), indices, order))
  }

  // ---------------------------------------------------------------------------
  // Properties of a whole export

  /** Without metadata (not asked for, or a bulk session) the export writes document packets only, over the initial map. */
  lemma WithoutMetadataOnlyDocuments(req: ExportRequest, bulk: bool, c: Client, order: seq<string>)
    requires !MetadataEnabled(req, bulk)
    ensures ResolvedIndices(req, bulk) == Ok(SpecResolver.InitialIndices(req.indexSpec, req.typeSpec))
    ensures AllDocuments(ExportRun(req, bulk, c, order).packets)
  {
    var indices := SpecResolver.InitialIndices(req.indexSpec, req.typeSpec);
    DocumentStream.DocEmissionIsDocuments(req, c, DocumentStream.InitialSearch(req), indices, order);
  }

  /** A bulk session never receives settings, mapping or alias packets. */
  lemma BulkSessionGetsNoMetadata(req: ExportRequest, c: Client, order: seq<string>)
    ensures AllDocuments(ExportRun(req, true, c, order).packets)
  {
    WithoutMetadataOnlyDocuments(req, true, c, order);
  }

  /** All metadata packets come before all document packets. */
  lemma MetadataBeforeDocuments(req: ExportRequest, bulk: bool, c: Client, order: seq<string>)
    ensures var ps := ExportRun(req, bulk, c, order).packets;
      forall a, b :: 0 <= a < b < |ps| && ps[b].field.None? ==> ps[a].field.None?
  {
    match ResolvedIndices(req, bulk)
    case Err(_) =>
    case Ok(indices) =>
      var sr := DocumentStream.InitialSearch(req);
      DocumentStream.DocEmissionIsDocuments(req, c, sr, indices, order);
      if MetadataEnabled(req, bulk) {
        MetadataExport.MetadataIsMetadata(req, c, indices);
        var m := MetadataExport.MetadataEmission(req, c, indices);
        if m.failure.None? {
          var d := DocumentStream.DocEmission(req, c, sr, indices, order).packets;
          var ps := m.packets + d;
          assert forall j :: |m.packets| <= j < |ps| ==> ps[j] == d[j - |m.packets|];
        }
      }
  }

  /** A name that throws stops the export before anything is written. */
  lemma ThrowingNameWritesNothing(req: ExportRequest, bulk: bool, c: Client, order: seq<string>)
    requires MetadataEnabled(req, bulk) && SpecResolver.AnyThrows(req.indexTypeNames)
    ensures ExportRun(req, bulk, c, order).packets == [] && ExportRun(req, bulk, c, order).failure.Some?
  {
    SpecResolver.MergedCharacterized(SpecResolver.InitialIndices(req.indexSpec, req.typeSpec), req.indexTypeNames);
  }

  // ---------------------------------------------------------------------------
  // The action

  /** What the action does, in the order it does it. */
  datatype Event =
    | Submitted(state: KnapsackState, session: ArchiveSession)
    | ExportAdded(state: KnapsackState)
    | Responded(response: KnapsackExportResponse)
    | Failed(message: string)
    | ExportRemoved(state: KnapsackState, thrown: Option<string>)

  /** What the listener is told once the response is ready: the response, then the failure if onResponse threw. */
  function Answered(response: KnapsackExportResponse, listenerFault: Option<string>): (r: seq<Event>)
    ensures |r| >= 1 && r[0] == Responded(response)
    ensures |r| == 2 <==> listenerFault.Some?
    ensures listenerFault.Some? ==> r[1] == Failed(listenerFault.value)
  {
    [Responded(response)] + (if listenerFault.Some? then [Failed(listenerFault.value)] else [])
  }

  class TransportKnapsackExportAction {
    const knapsack: KnapsackService
    /** The submissions, registry calls and listener calls made so far. */
    var trace: seq<Event>

    constructor (knapsack: KnapsackService)
      ensures this.knapsack == knapsack && trace == []
    {
      this.knapsack := knapsack;
      trace := [];
    }

    /**
      Lines 90-125. `nodeName` and `now` stand for the node service and the clock,
      `bulk` for the kind of session the archive service makes for the path,
      `outcome` for the file system's answer to the open, `addFault` for what
      the registry throws on addExport and `listenerFault` for what the
      listener's onResponse throws, which the catch of lines 121-123 hands to
      onFailure. The job is submitted as an event; it runs PerformExport with the
      returned state and session.
     */
    method DoExecute(request: ExportRequest, nodeName: string, now: int, bulk: bool, outcome: OpenOutcome,
                     addFault: Option<string>, listenerFault: Option<string>)
      returns (response: KnapsackExportResponse, session: ArchiveSession)
      modifies this`trace, knapsack`exports
      ensures fresh(response) && fresh(response.state) && fresh(session)
      ensures response.state.mode == "export" && response.state.nodeName == nodeName
      ensures session.Valid() && session.packets == [] && !session.closed
      ensures session.path == TargetPath(request.path) && session.bulk == bulk
      ensures session.mode == OpenMode(request.overwriteAllowed, request.encodeEntry)
      ensures outcome.Threw? ==>
        && trace == old(trace) + [Failed(outcome.message)]
        && knapsack.exports == old(knapsack.exports)
      ensures outcome.Refused? ==>
        && trace == old(trace) + Answered(response, listenerFault)
        && !response.running
        && response.reason == Some(RejectReason(request.overwriteAllowed, request.encodeEntry, TargetPath(request.path)))
        && response.state.path == None
        && knapsack.exports == old(knapsack.exports)
      ensures outcome.Opened? ==>
        && response.running && response.reason == None
        && response.state.path == Some(TargetPath(request.path)) && response.state.timestamp == Some(now)
        && session.isOpen
        && trace == old(trace) + [Submitted(response.state, session)] +
             (if addFault.None? then [ExportAdded(response.state)] + Answered(response, listenerFault)
              else [Failed(addFault.value)])
        && knapsack.exports == if addFault.None? then old(knapsack.exports) + {response.state} else old(knapsack.exports)
    {
      var state := new KnapsackState("export", nodeName);
      response := new KnapsackExportResponse(state);
      var path := if request.path.Some? then request.path.value else "_all.tar.gz";
      session := new ArchiveSession(path, bulk);
      var mode := {if request.overwriteAllowed then Overwrite else Write, if request.encodeEntry then UriEncoded else Plain};
      var thrown := session.Open(mode, outcome);
      if thrown.Some? {
        trace := trace + [Failed(thrown.value)];
        return;
      }
      if session.isOpen {
        Submit(state, response, session, path, now, addFault, listenerFault);
      } else {
        Reject(response, RejectReason(request.overwriteAllowed, request.encodeEntry, path), listenerFault);
      }
    }

    /** Lines 117-120: a session that did not open is answered as not running, with the reason. */
    method Reject(response: KnapsackExportResponse, reason: string, listenerFault: Option<string>)
      modifies response`running, response`reason, this`trace
      ensures !response.running && response.reason == Some(reason)
      ensures trace == old(trace) + Answered(response, listenerFault)
    {
      response.SetRunning(false);
      response.SetReason(reason);
      Respond(response, listenerFault);
    }

    /**
      Lines 106-115: an opened session stamps the state, hands the job to the
      executor, registers the export and only then answers the listener.
     */
    method Submit(state: KnapsackState, response: KnapsackExportResponse, session: ArchiveSession,
                  path: string, now: int, addFault: Option<string>, listenerFault: Option<string>)
      modifies state`path, state`timestamp, response`running, this`trace, knapsack`exports
      ensures response.running
      ensures state.path == Some(path) && state.timestamp == Some(now)
      ensures trace == old(trace) + [Submitted(state, session)] +
        (if addFault.None? then [ExportAdded(state)] + Answered(response, listenerFault) else [Failed(addFault.value)])
      ensures knapsack.exports == if addFault.None? then old(knapsack.exports) + {state} else old(knapsack.exports)
    {
      state.SetPath(path);
      state.SetTimestamp(now);
      response.SetRunning(true);
      trace := trace + [Submitted(state, session)];
      var thrown := knapsack.AddExport(state, addFault);
      if thrown.Some? {
        trace := trace + [Failed(thrown.value)];
        return;
      }
      trace := trace + [ExportAdded(state)];
      Respond(response, listenerFault);
    }

    /** Lines 120-123: onResponse, and onFailure when onResponse throws. */
    method Respond(response: KnapsackExportResponse, listenerFault: Option<string>)
      modifies this`trace
      ensures trace == old(trace) + Answered(response, listenerFault)
    {
      trace := trace + [Responded(response)];
      if listenerFault.Some? {
        trace := trace + [Failed(listenerFault.value)];
      }
    }

    /** Lines 138-164: the map of index names to type names. */
    method ResolveIndices(request: ExportRequest, bulk: bool) returns (r: Result<IndexMap>)
      ensures r == ResolvedIndices(request, bulk)
    {
      var indices := SpecResolver.BuildIndices(request.indexSpec, request.typeSpec);
      if request.withMetadata && !bulk {
        r := SpecResolver.MergeExplicitNames(indices, request.indexTypeNames);
      } else {
        r := Ok(indices);
      }
    }

    /** Lines 136-253: the body of the job up to the close. */
    method RunExport(request: ExportRequest, session: ArchiveSession, c: Client)
      returns (failure: Option<string>, ghost order: seq<string>)
      requires session.Valid()
      modifies session`packets, session`packetCounter
      ensures session.Valid()
      ensures ResolvedIndices(request, session.bulk).Ok? ==>
        DocumentStream.IsEnumeration(order, ResolvedIndices(request, session.bulk).value.Keys)
      ensures session.packets == old(session.packets) + ExportRun(request, session.bulk, c, order).packets
      ensures failure == ExportRun(request, session.bulk, c, order).failure
    {
      var resolved := ResolveIndices(request, session.bulk);
      if resolved.Err? {
        order := [];
        assert session.packets == old(session.packets) + [];
        return Some(resolved.error), order;
      }
      failure, order := WriteResolved(request, session, c, resolved.value);
    }

    /** Lines 166-253: the metadata phase, when enabled, and the document phase unless the first one threw. */
    method WriteResolved(request: ExportRequest, session: ArchiveSession, c: Client, indices: IndexMap)
      returns (failure: Option<string>, ghost order: seq<string>)
      requires session.Valid()
      modifies session`packets, session`packetCounter
      ensures session.Valid()
      ensures DocumentStream.IsEnumeration(order, indices.Keys)
      ensures session.packets == old(session.packets) + ResolvedRun(request, session.bulk, c, indices, order).packets
      ensures failure == ResolvedRun(request, session.bulk, c, indices, order).failure
    {
      ghost var metadata := Emission([], None);
      if request.withMetadata && !session.bulk {
        metadata := MetadataExport.MetadataEmission(request, c, indices);
        failure := MetadataExport.WriteMetadata(session, request, c, indices);
        if failure.Some? {
          order := DocumentStream.Enumerate(indices.Keys);
          return;
        }
      }
      ghost var before := session.packets;
      assert before == old(session.packets) + metadata.packets;
      failure, order := DocumentStream.StreamAll(session, request, c, indices);
      ghost var docs := DocumentStream.DocEmission(request, c, DocumentStream.InitialSearch(request), indices, order);
      AppendThen(old(session.packets), metadata, docs);
    }

    /**
      Lines 134-273. The returned failure is the message of what the job caught;
      `removeFault` is what removeExport throws, which is caught too.
     */
    method PerformExport(request: ExportRequest, state: KnapsackState, session: ArchiveSession, c: Client,
                         removeFault: Option<string>) returns (failure: Option<string>, ghost order: seq<string>)
      requires session.Valid()
      modifies session`packets, session`packetCounter, session`isOpen, session`closed, this`trace, knapsack`exports
      ensures session.Valid()
      ensures ResolvedIndices(request, session.bulk).Ok? ==>
        DocumentStream.IsEnumeration(order, ResolvedIndices(request, session.bulk).value.Keys)
      ensures session.packets == old(session.packets) + ExportRun(request, session.bulk, c, order).packets
      ensures failure == ExportRun(request, session.bulk, c, order).failure
      ensures failure.None? ==> session.closed && !session.isOpen
      ensures failure.Some? ==> session.closed == old(session.closed) && session.isOpen == old(session.isOpen)
      ensures trace == old(trace) + [ExportRemoved(state, removeFault)]
      ensures knapsack.exports == if removeFault.None? then old(knapsack.exports) - {state} else old(knapsack.exports)
    {
      failure, order := RunExport(request, session, c);
      if failure.None? {
        session.Close();
      }
      var thrown := knapsack.RemoveExport(state, removeFault);
      trace := trace + [ExportRemoved(state, thrown)];
    }
  }
}
