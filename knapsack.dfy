/**
  The knapsack plugin's own objects that an export uses: the export request,
  the job state, the response, and the registry of running exports.
 */
module Knapsack {
  import opened Wrappers
  import opened Cluster

  /**
    A KnapsackExportRequest. An absent index or type spec is the empty string,
    an absent map of index/type names the empty sequence (both give no tokens).
    `indexTypeNames` holds that map's keys in iteration order (a key can be null).
    mapIndex and mapType are the request's renaming of index and type names.
   */
  datatype ExportRequest = ExportRequest(
    indexSpec: string,
    typeSpec: string,
    path: Option<string>,
    overwriteAllowed: bool,
    encodeEntry: bool,
    withMetadata: bool,
    withAliases: bool,
    indexTypeNames: seq<Option<string>>,
    searchRequest: Option<SearchRequest>,
    mapIndex: string -> string,
    mapType: (string, string) -> string)

  /** A KnapsackState; the registry compares states by identity. */
  class KnapsackState {
    var mode: string
    var nodeName: string
    var path: Option<string>
    var timestamp: Option<int>

    constructor (mode: string, nodeName: string)
      ensures this.mode == mode && this.nodeName == nodeName
      ensures path == None && timestamp == None
    {
      this.mode := mode;
      this.nodeName := nodeName;
      path := None;
      timestamp := None;
    }

    method SetPath(p: string)
      modifies this`path
      ensures path == Some(p)
    {
      path := Some(p);
    }

    method SetTimestamp(t: int)
      modifies this`timestamp
      ensures timestamp == Some(t)
    {
      timestamp := Some(t);
    }
  }

  class KnapsackExportResponse {
    var running: bool
    var reason: Option<string>
    const state: KnapsackState

    constructor (state: KnapsackState)
      ensures this.state == state && !running && reason == None
    {
      this.state := state;
      running := false;
      reason := None;
    }

    method SetRunning(b: bool)
      modifies this`running
      ensures running == b
    {
      running := b;
    }

    method SetReason(r: string)
      modifies this`reason
      ensures reason == Some(r)
    {
      reason := Some(r);
    }
  }

  /**
    The registry of running exports kept by KnapsackService. `fault` is the I/O
    error the registry raises, if any; a call that raises changes nothing.
   */
  class KnapsackService {
    var exports: set<KnapsackState>

    constructor ()
      ensures exports == {}
    {
      exports := {};
    }

    method AddExport(state: KnapsackState, fault: Option<string>) returns (thrown: Option<string>)
      modifies this`exports
      ensures thrown == fault
      ensures exports == if fault.None? then old(exports) + {state} else old(exports)
    {
      thrown := fault;
      if fault.None? {
        exports := exports + {state};
      }
    }

    method RemoveExport(state: KnapsackState, fault: Option<string>) returns (thrown: Option<string>)
      modifies this`exports
      ensures thrown == fault
      ensures exports == if fault.None? then old(exports) - {state} else old(exports)
    {
      thrown := fault;
      if fault.None? {
        exports := exports - {state};
      }
    }
  }
}
