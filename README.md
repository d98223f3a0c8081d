# Knapsack export action, modelled in Dafny

This project models the export action of the knapsack plugin for
Elasticsearch. The action has two parts:

- `doExecute` opens an archive session for the target path, submits the
  export as a background job, registers the export's state and answers the
  listener.
- `performExport` is that job. It resolves the index/type map from the
  request. When metadata is asked for and the session is not a bulk session,
  it first writes settings and mapping packets and, when aliases are asked
  for, alias packets for every concrete index. It then scans every key of the map with a scroll search and writes
  one packet per fetched field of every hit, plus one source packet unless
  `_source` is itself a field. It closes the session on success, and it
  always calls removeExport.

The modules follow the structure of the source:

| module | file | what it holds |
|---|---|---|
| `Wrappers` | wrappers.dfy | `Option` and `Result` |
| `Archive` | archive.dfy | packets, `Emission` (packets written plus what was thrown), the `ArchiveSession` class |
| `Cluster` | cluster.dfy | the cluster's answers as data: settings, mappings, aliases, scroll pages, the interrupt flag |
| `Knapsack` | knapsack.dfy | the export request, the `KnapsackState` and `KnapsackExportResponse` classes, the export registry |
| `SpecResolver` | spec_resolver.dfy | comma tokens, `String.split("/")`, building the map (lines 139-142) and merging the explicit names into it (lines 145-164) |
| `MetadataExport` | metadata.dfy | the metadata phase (lines 166-208) |
| `DocumentStream` | documents.dfy | the document phase (lines 209-258) |
| `ExportAction` | export_action.dfy | the open mode, the whole export, and the `TransportKnapsackExportAction` class with `DoExecute` and `PerformExport` |

Each phase has a specification function that says what it writes, and what it
threw if anything: `Merged`, `MetadataEmission`, `DocEmission` and
`ExportRun`. The imperative methods, which carry loops and write to the
session one packet at a time, are proved to write exactly what those
functions say. The properties are then proved as lemmas about the functions.

Two things are unspecified in Java and are therefore parameters in the model.

- HashMap iteration order. The loop over the map's keys picks each next key
  nondeterministically and returns the order it used as a ghost sequence.
  `IsEnumeration` states that the sequence lists every key exactly once.
- Scroll and cluster answers. Maps the cluster returns are association lists
  kept in their iteration order.

Three behaviours of the code are easy to misread; the model follows the code:

- Index and type tokens are not trimmed. `Strings.commaDelimitedListToSet`
  splits on every comma and keeps the spaces.
- The document loop of line 214 iterates over the same map the merge of lines
  145-164 updated in place. So indices added by explicit `index/type` names are
  scanned for documents too; the document phase does not use the unmerged map.
- An interrupt ends only the scroll of the current index. `Thread.interrupted()`
  clears the flag, so the next key of the map is scanned again
  (`InterruptEndsIndex`, `InterruptsAreLocal`).

## Model

| member | source | states |
|---|---|---|
| SpecResolver.CommaTokensRoundTrip | src/main/java/org/xbib/elasticsearch/action/knapsack/exp/TransportKnapsackExportAction.java:140-141 | joining the tokens of any spec with commas gives the spec back (the empty spec has no token), and no token holds a comma |
| SpecResolver.JoinSplitOn | src/main/java/org/xbib/elasticsearch/action/knapsack/exp/TransportKnapsackExportAction.java:140-141 | splitting at a delimiter and joining again is the identity, and no piece holds the delimiter |
| SpecResolver.BuildIndices | src/main/java/org/xbib/elasticsearch/action/knapsack/exp/TransportKnapsackExportAction.java:139-142 | the keys are exactly the distinct index tokens, each mapped to exactly the type tokens; one key per distinct token |
| SpecResolver.StripTrailingEmpty | src/main/java/org/xbib/elasticsearch/action/knapsack/exp/TransportKnapsackExportAction.java:150 | `split` drops trailing empty pieces: a prefix of the pieces, every dropped piece empty, empty only when every piece is empty, never ending in an empty piece |
| SpecResolver.ParsePairThrowsExactly | src/main/java/org/xbib/elasticsearch/action/knapsack/exp/TransportKnapsackExportAction.java:150-152 | reading `s[0]` throws exactly when the name is one or more slashes and nothing else |
| SpecResolver.ParseBareName | src/main/java/org/xbib/elasticsearch/action/knapsack/exp/TransportKnapsackExportAction.java:150-152 | a name without `/` is that index with no type |
| SpecResolver.ParseQualifiedName | src/main/java/org/xbib/elasticsearch/action/knapsack/exp/TransportKnapsackExportAction.java:150-152 | `i/t` is index `i` with type `t` |
| SpecResolver.MergeStepCharacterized | src/main/java/org/xbib/elasticsearch/action/knapsack/exp/TransportKnapsackExportAction.java:147-162 | one pass throws exactly when the name throws; otherwise it adds the name's index to the keys and the name's type to that index's types |
| SpecResolver.MergedCharacterized | src/main/java/org/xbib/elasticsearch/action/knapsack/exp/TransportKnapsackExportAction.java:145-164 | the merge throws exactly when some name throws; otherwise the keys are the old keys plus the named indices, and each key has its old types plus the types named for it |
| SpecResolver.MergeNeverAddsAll | src/main/java/org/xbib/elasticsearch/action/knapsack/exp/TransportKnapsackExportAction.java:153 | `_all` is a key after the merge exactly when it was one before |
| SpecResolver.MergeKeepsExisting | src/main/java/org/xbib/elasticsearch/action/knapsack/exp/TransportKnapsackExportAction.java:154-161 | every old key stays, with all of its types |
| SpecResolver.MergeBareName | src/main/java/org/xbib/elasticsearch/action/knapsack/exp/TransportKnapsackExportAction.java:151-161 | a bare name `i` makes `i` a key; if no name gives `i` a type, its types are the old ones, or none for a new key |
| SpecResolver.MergeQualifiedName | src/main/java/org/xbib/elasticsearch/action/knapsack/exp/TransportKnapsackExportAction.java:151-161 | `i/t` makes `i` a key whose types hold `t` and all of `i`'s old types |
| SpecResolver.MergeOthersUnchanged | src/main/java/org/xbib/elasticsearch/action/knapsack/exp/TransportKnapsackExportAction.java:145-164 | keys no name mentions keep their types, and no unmentioned key appears |
| SpecResolver.MergeExample | src/main/java/org/xbib/elasticsearch/action/knapsack/exp/TransportKnapsackExportAction.java:145-164 | names `a/x`, `a/y`, `_all/z`, `b` merged into an empty map give exactly `a:{x,y}` and `b:{}` |
| SpecResolver.MergedStopsAtThrow | src/main/java/org/xbib/elasticsearch/action/knapsack/exp/TransportKnapsackExportAction.java:146-151 | once a name has thrown, the names after it change nothing |
| SpecResolver.MergeExplicitNames | src/main/java/org/xbib/elasticsearch/action/knapsack/exp/TransportKnapsackExportAction.java:145-164 | the loop, updating the map in place, computes `Merged`, including the exception of line 151 |
| MetadataExport.SettingsRequestInitial | src/main/java/org/xbib/elasticsearch/action/knapsack/exp/TransportKnapsackExportAction.java:139-168 | without explicit names, the settings lookup is asked for exactly the distinct index tokens other than `_all` |
| MetadataExport.SettingsRequestMerged | src/main/java/org/xbib/elasticsearch/action/knapsack/exp/TransportKnapsackExportAction.java:139-168 | after the merge, the settings lookup is asked for exactly the index tokens plus the indices the explicit names add, minus `_all` |
| MetadataExport.MetadataAsksSettingsRequest | src/main/java/org/xbib/elasticsearch/action/knapsack/exp/TransportKnapsackExportAction.java:167-169 | the metadata phase depends only on the settings lookup's answer for `SettingsRequest(indices)`: answers for any other set of names change nothing |
| MetadataExport.MappingPacketsAt | src/main/java/org/xbib/elasticsearch/action/knapsack/exp/TransportKnapsackExportAction.java:185-194 | one mapping packet per mapping, in the mappings' order |
| MetadataExport.AliasPacketsAt | src/main/java/org/xbib/elasticsearch/action/knapsack/exp/TransportKnapsackExportAction.java:199-206 | one alias packet per alias, in the aliases' order |
| MetadataExport.BlockLayout | src/main/java/org/xbib/elasticsearch/action/knapsack/exp/TransportKnapsackExportAction.java:173-207 | an index's block is its settings packet, then its mapping packets, then its alias packets, all with the renamed index and no field |
| MetadataExport.IndexMetadataShape | src/main/java/org/xbib/elasticsearch/action/knapsack/exp/TransportKnapsackExportAction.java:173-207 | the settings packet comes first and is the only packet without an id; mappings then aliases; renamed index; no alias packet unless aliases are asked for; fails exactly when the mapping lookup, or the alias lookup when asked for, throws; the packet count when it does not fail |
| MetadataExport.IndexMetadataSettings | src/main/java/org/xbib/elasticsearch/action/knapsack/exp/TransportKnapsackExportAction.java:175-179 | each index writes exactly one settings packet |
| MetadataExport.SettingsPacketsInOrder | src/main/java/org/xbib/elasticsearch/action/knapsack/exp/TransportKnapsackExportAction.java:173-179 | when nothing throws, the settings packets written are one per concrete index the settings lookup returned, in its order |
| MetadataExport.MetadataFromPackets | src/main/java/org/xbib/elasticsearch/action/knapsack/exp/TransportKnapsackExportAction.java:173-208 | the metadata loop writes metadata packets only, and no alias packet unless aliases are asked for |
| MetadataExport.NoAliasPacketsUnlessRequested | src/main/java/org/xbib/elasticsearch/action/knapsack/exp/TransportKnapsackExportAction.java:195-207 | without `withAliases` the metadata phase writes no alias packet |
| MetadataExport.MetadataIsMetadata | src/main/java/org/xbib/elasticsearch/action/knapsack/exp/TransportKnapsackExportAction.java:166-208 | the metadata phase writes no packet with a field |
| MetadataExport.MetadataFromStops | src/main/java/org/xbib/elasticsearch/action/knapsack/exp/TransportKnapsackExportAction.java:173-208 | once an index's lookup has thrown, the later indices write nothing |
| MetadataExport.OneTypeIndex | src/main/java/org/xbib/elasticsearch/action/knapsack/exp/TransportKnapsackExportAction.java:173-207 | an index whose mapping lookup, filtered by the map's types for it (all types when it is not a key), returns one type writes its settings packet, its mapping packet, then its alias packets if asked for; the alias lookup is constrained only when aliases are asked for |
| MetadataExport.TwoIndexExample | src/main/java/org/xbib/elasticsearch/action/knapsack/exp/TransportKnapsackExportAction.java:166-208 | for `_all` resolving to `idx1` and `idx2` with one type each: settings and mapping of idx1 (and its aliases), then settings and mapping of idx2 (and its aliases), and no failure |
| MetadataExport.WriteMappings | src/main/java/org/xbib/elasticsearch/action/knapsack/exp/TransportKnapsackExportAction.java:185-194 | the loop appends exactly `MappingPackets` to the session |
| MetadataExport.WriteAliases | src/main/java/org/xbib/elasticsearch/action/knapsack/exp/TransportKnapsackExportAction.java:199-206 | the loop appends exactly `AliasPackets` to the session |
| MetadataExport.WriteIndexMetadata | src/main/java/org/xbib/elasticsearch/action/knapsack/exp/TransportKnapsackExportAction.java:173-207 | one index's block is written as `IndexMetadata` says, and the method returns what it threw |
| MetadataExport.WriteMetadataFrom | src/main/java/org/xbib/elasticsearch/action/knapsack/exp/TransportKnapsackExportAction.java:173-208 | the loop over the settings writes exactly `MetadataFrom`, stopping at the first throw |
| MetadataExport.WriteMetadata | src/main/java/org/xbib/elasticsearch/action/knapsack/exp/TransportKnapsackExportAction.java:166-208 | the metadata phase writes exactly `MetadataEmission` and returns what it threw |
| DocumentStream.HitPacketsShape | src/main/java/org/xbib/elasticsearch/action/knapsack/exp/TransportKnapsackExportAction.java:238-255 | a hit gives one packet per field in field order, plus a last `_source` packet when `_source` is not a field; all with the hit's renamed index and type, its id and a field |
| DocumentStream.HitExample | src/main/java/org/xbib/elasticsearch/action/knapsack/exp/TransportKnapsackExportAction.java:238-255 | a hit with fields f1 and f2 gives the f1 packet, the f2 packet, then the source packet |
| DocumentStream.PagePacketsAreDocuments | src/main/java/org/xbib/elasticsearch/action/knapsack/exp/TransportKnapsackExportAction.java:237-256 | every packet of a page carries a field |
| DocumentStream.PagePacketsCount | src/main/java/org/xbib/elasticsearch/action/knapsack/exp/TransportKnapsackExportAction.java:237-256 | a page gives, over its hits, the number of fields plus one for each hit without a `_source` field |
| DocumentStream.ScrollWritesPages | src/main/java/org/xbib/elasticsearch/action/knapsack/exp/TransportKnapsackExportAction.java:226-257 | the scroll writes the packets of some run of consecutive non-empty scroll pages, and never the hits of the initial response |
| DocumentStream.ScrollStopsAtEmptyPage | src/main/java/org/xbib/elasticsearch/action/knapsack/exp/TransportKnapsackExportAction.java:231-234 | pages after the first empty page make no difference |
| DocumentStream.ScrollStopsAtNoScrollId | src/main/java/org/xbib/elasticsearch/action/knapsack/exp/TransportKnapsackExportAction.java:226-230 | pages after the first page without a scroll id make no difference: the loop stops after writing that page |
| DocumentStream.InterruptEndsIndex | src/main/java/org/xbib/elasticsearch/action/knapsack/exp/TransportKnapsackExportAction.java:226 | an interrupt at the m-th check writes exactly the pages before it, without a failure |
| DocumentStream.ScrollIgnoresOtherInterrupts | src/main/java/org/xbib/elasticsearch/action/knapsack/exp/TransportKnapsackExportAction.java:226 | the scroll of an index depends only on that index's interrupt checks |
| DocumentStream.InterruptsAreLocal | src/main/java/org/xbib/elasticsearch/action/knapsack/exp/TransportKnapsackExportAction.java:224-257 | changing the interrupts of other indices does not change what an index writes |
| DocumentStream.ScrollIsDocuments | src/main/java/org/xbib/elasticsearch/action/knapsack/exp/TransportKnapsackExportAction.java:226-257 | the scroll writes only packets with a field |
| DocumentStream.SearchTargetsLastNamedIndex | src/main/java/org/xbib/elasticsearch/action/knapsack/exp/TransportKnapsackExportAction.java:214-222 | the reused request targets the last key visited other than `_all`, or the original targets if there was none; its types are the current key's; its query never changes |
| DocumentStream.AllAfterNamedIndex | src/main/java/org/xbib/elasticsearch/action/knapsack/exp/TransportKnapsackExportAction.java:216-218 | `_all` visited after index `i` searches `i` |
| DocumentStream.DocEmissionStops | src/main/java/org/xbib/elasticsearch/action/knapsack/exp/TransportKnapsackExportAction.java:214-258 | once an index's search has thrown, later keys write nothing |
| DocumentStream.DocEmissionIsDocuments | src/main/java/org/xbib/elasticsearch/action/knapsack/exp/TransportKnapsackExportAction.java:214-258 | the document phase writes only packets with a field |
| DocumentStream.CompleteOrder | src/main/java/org/xbib/elasticsearch/action/knapsack/exp/TransportKnapsackExportAction.java:214-258 | after a throw, the keys not yet visited complete the iteration order without changing what was written |
| DocumentStream.WriteHit | src/main/java/org/xbib/elasticsearch/action/knapsack/exp/TransportKnapsackExportAction.java:238-255 | the field loop appends exactly `HitPackets` |
| DocumentStream.WritePage | src/main/java/org/xbib/elasticsearch/action/knapsack/exp/TransportKnapsackExportAction.java:237-256 | the hit loop appends exactly `PagePackets` |
| DocumentStream.StreamIndex | src/main/java/org/xbib/elasticsearch/action/knapsack/exp/TransportKnapsackExportAction.java:224-257 | the search and its scroll loop write exactly `IndexDocuments` and return what was thrown |
| DocumentStream.StreamNext | src/main/java/org/xbib/elasticsearch/action/knapsack/exp/TransportKnapsackExportAction.java:215-257 | one pass of the key loop leaves the request and the session as `RequestAfter` and `DocEmission` say for one more key |
| DocumentStream.StreamAll | src/main/java/org/xbib/elasticsearch/action/knapsack/exp/TransportKnapsackExportAction.java:210-258 | the key loop visits every key once, in some order, and writes exactly `DocEmission` for that order |
| ExportAction.OpenMode | src/main/java/org/xbib/elasticsearch/action/knapsack/exp/TransportKnapsackExportAction.java:104-105 | the mode has two constants: OVERWRITE exactly when overwriting is allowed (else WRITE), URI_ENCODED exactly when entries are encoded (else NONE) |
| ExportAction.ModeTextExample | src/main/java/org/xbib/elasticsearch/action/knapsack/exp/TransportKnapsackExportAction.java:118 | the mode in the reason reads `[OVERWRITE, URI_ENCODED]` |
| ExportAction.WithoutMetadataOnlyDocuments | src/main/java/org/xbib/elasticsearch/action/knapsack/exp/TransportKnapsackExportAction.java:143-144 | without metadata the map is the initial one and only document packets are written |
| ExportAction.BulkSessionGetsNoMetadata | src/main/java/org/xbib/elasticsearch/action/knapsack/exp/TransportKnapsackExportAction.java:143-144 | a bulk session receives document packets only, whatever the flags |
| ExportAction.MetadataBeforeDocuments | src/main/java/org/xbib/elasticsearch/action/knapsack/exp/TransportKnapsackExportAction.java:143-258 | no metadata packet follows a document packet |
| ExportAction.ThrowingNameWritesNothing | src/main/java/org/xbib/elasticsearch/action/knapsack/exp/TransportKnapsackExportAction.java:146-164 | with metadata enabled, a name that throws ends the export before any packet, as a failure |
| ExportAction.TransportKnapsackExportAction.DoExecute | src/main/java/org/xbib/elasticsearch/action/knapsack/exp/TransportKnapsackExportAction.java:90-125 | state with mode `export` and the node name; session on the request's path or `_all.tar.gz` with the computed mode. If the open throws: only onFailure. If it does not open: not running, the reason, no submit, no addExport, then onResponse. If it opens: running, path and timestamp set, submit, then addExport before onResponse (or onFailure instead when addExport throws). An onResponse that throws is followed by onFailure |
| ExportAction.TransportKnapsackExportAction.Submit | src/main/java/org/xbib/elasticsearch/action/knapsack/exp/TransportKnapsackExportAction.java:107-120 | an opened session stamps the state, submits the job, registers the state and only then answers |
| ExportAction.TransportKnapsackExportAction.Reject | src/main/java/org/xbib/elasticsearch/action/knapsack/exp/TransportKnapsackExportAction.java:117-123 | a session that did not open answers not running, with the reason, before onResponse (and onFailure when onResponse throws) |
| ExportAction.TransportKnapsackExportAction.Respond | src/main/java/org/xbib/elasticsearch/action/knapsack/exp/TransportKnapsackExportAction.java:120-123 | onResponse is recorded, and onFailure after it exactly when onResponse throws |
| ExportAction.TransportKnapsackExportAction.ResolveIndices | src/main/java/org/xbib/elasticsearch/action/knapsack/exp/TransportKnapsackExportAction.java:139-164 | computes `ResolvedIndices`: the initial map, merged with the explicit names only when metadata is enabled |
| ExportAction.TransportKnapsackExportAction.RunExport | src/main/java/org/xbib/elasticsearch/action/knapsack/exp/TransportKnapsackExportAction.java:137-258 | the job's body writes exactly `ExportRun` for an iteration order of the resolved map, and returns what it threw |
| ExportAction.TransportKnapsackExportAction.WriteResolved | src/main/java/org/xbib/elasticsearch/action/knapsack/exp/TransportKnapsackExportAction.java:143-258 | the metadata phase, when enabled, then the document phase unless the first threw |
| ExportAction.TransportKnapsackExportAction.PerformExport | src/main/java/org/xbib/elasticsearch/action/knapsack/exp/TransportKnapsackExportAction.java:134-273 | writes `ExportRun`; closes the session exactly when nothing was thrown; calls removeExport exactly once whatever happened; a throwing removeExport is swallowed and leaves the registry unchanged |
| Archive.ArchiveSession.Open | src/main/java/org/xbib/elasticsearch/action/knapsack/exp/TransportKnapsackExportAction.java:106-107 | the session records its mode and is open exactly when the file system opened it |
| Archive.ArchiveSession.Write | src/main/java/org/xbib/elasticsearch/action/knapsack/exp/TransportKnapsackExportAction.java:179 | a write appends the packet and counts it |
| Archive.ArchiveSession.Close | src/main/java/org/xbib/elasticsearch/action/knapsack/exp/TransportKnapsackExportAction.java:259 | a closed session is not open |
| Knapsack.KnapsackService.AddExport | src/main/java/org/xbib/elasticsearch/action/knapsack/exp/TransportKnapsackExportAction.java:116 | the state joins the registry unless the call throws |
| Knapsack.KnapsackService.RemoveExport | src/main/java/org/xbib/elasticsearch/action/knapsack/exp/TransportKnapsackExportAction.java:267-271 | the state leaves the registry unless the call throws |

## Left out

- Threads. The submitted job is recorded as a `Submitted` event and run by calling `PerformExport` with the same state and session; the scheduling and concurrency of the executor and the registry are not modelled.
- Logging, the `BytesProgressWatcher`, the byte count and transfer rate of line 260, and the `total` counter of lines 225-236, which is only logged.
- `bytesToTransfer`, the search type (SCAN) and the scroll keep-alive of lines 215 and 228: none of them changes what is written.
- `CreateIndexRequest` of lines 174, 181 and 193 is built and never sent, so it is not modelled.
- The Elasticsearch client: the settings, mapping, alias, search and scroll lookups are functions in the `Client` value, and each answers with a result or an exception message. The settings filter, the server-side matching of wildcards and aliases, and query semantics are not modelled.
- `mapIndex` and `mapType` are modelled as uninterpreted functions carried by the request; their KnapsackHelper definitions are not part of this model.
- The node name, the clock (`new DateTime()`) and the kind of session the archive service makes for a path are parameters of `DoExecute`.
- A `write`, `close` or `open` that fails with an I/O error mid-way: only an open that throws (as a whole) is modelled. A null field value, which would throw at line 244, is not modelled either.
- The archive's byte layout: a packet is its meta entries and payload.
- `Strings.commaDelimitedListToSet` and `String.split("/")` come from libraries that are not part of this model. They are modelled as the library documents them: splitting on every comma without trimming, and a regex split that drops trailing empty strings.
- ExportAction.ModeTextExample: the names and declaration order of the `Session.Mode` constants (write kind before encoding) are assumed, since Session.Mode is not part of this model.
- The `SearchRequest` is updated in place in the source (lines 215-222). The model treats it as a value that each pass of the loop replaces, via `Prepared`, and it does not model aliasing with the caller's request object.
- Knapsack.KnapsackService.AddExport, Knapsack.KnapsackService.RemoveExport: the registry is not part of this model. It is a set of states whose calls may throw a given message, and a call that throws changes nothing. In `PerformExport`, `removeFault` stands for the `IOException` of line 269, the only exception that is swallowed there; an unchecked exception from removeExport would escape the job, and the model does not represent it.
- ExportAction.TransportKnapsackExportAction.DoExecute: an exception thrown by `onFailure` itself (line 123) escapes `doExecute`; the model does not represent it.
