# Verified model of the grafY core

grafY is a workbench for typed artifact graphs. This project models the parts of it whose
correctness depends on loops, recursion or interleaving, and proves what those parts are
meant to guarantee. Everything is Dafny; `dafny verify dfyconfig.toml` checks the whole
project.

## What is modelled

**Graph builder** (`Topology`, `GraphModel`, `GraphInvariants`, `GraphRuns`, `GraphConnections`,
`GraphBuilding`, `GraphPortNames`). A builder grows by `add` and `connect` calls, infers artifact types
through conversion chains, and decides acyclicity with a queue and in-degree counts. The
class `GraphBuilder` remembers its calls, and its state is proved to be the one those calls
lead to; the invariants are proved of every sequence of calls, refused ones included. One
rule of the source does not hold as stated: an edge stores its port name stripped of white
space while the one-edge rule compares the name as given. An input with a padded name takes
two edges, and so do two inputs whose names strip to the same one. The exact condition on a
node's list of inputs is proved.

**Uploads** (`Inspection`, `UploadProtocol`, `UploadSafety`, `UploadRuns`,
`UploadProgress`, `UploadOrphans`).
Any number of receive, complete and cleanup calls interleave, one database transaction,
storage call or clock reading at a time. Stored rows and objects are maps; the conditional
repository updates are single steps, and a local save creates but never replaces an object.
The streaming inspector is a loop proved equal to the rule on the whole content.

**Field projections and the plugin registry** (`Json`, `Ordering`, `JsonPointer`,
`Projections`, `ProjectionLeaves`, `ProjectionSuccess`, `ProjectionTwice`, `Plugins`). Expansion walks a payload
schema with a work list, follows local references, and stops at depth 32 and 1024
projections. The loop refines a recursive specification. What that one derives is
characterised by the scalar leaves of the schema, and when it succeeds by the walks through
properties and references. `PluginRegistry` installs plugins and freezes.

**Chunked collections** (`CollectionModel`, `CollectionPages`, `CollectionPacking`,
`CollectionStore`). Greedy chunk packing, a manifest that tiles each collection, paged reads
across collections, and objects addressed by the digest of their bytes.

**Bounded subprocesses** (`SubprocessModel`, `SubprocessSafety`, `SubprocessProgress`,
`CapturedOutput`). Runs and
cancels interleave over two permits. The lock of a cancellation token is explicit, so a
cancel can be caught between setting its flag and killing, and an attach between publishing
its child and reading the flag.

**Node secrets** (`SecretModel`, `SecretRuns`, `SecretService`). `status` compares records
without decrypting, `resolve_secret` decrypts; the two are proved to agree over every run of
configurations, removals, document edits and deployments with another key or other
operators. Encryption and digests are ideal.

**Library folders** (`ParentChains`, `FolderForest`, `Library`): the folder and placement
routes as the workbench fake answers them, with the rules it shares with the real routes.

**WFS imports** (`Wfs`) and **GeoJSON bounds** (`Spatial`, `FeatureCollections`): a paging
loop with caps, and the recursion over nested coordinates and geometry collections.

Assumptions about code outside the model are ordinary parameters or named predicates:
`Faithful` and `CollisionFree` (JSON encoding and SHA-256 for collections), `Tools` (SHA-256
and the JSON parser for uploads), `Honest` (a WFS server that answers exactly), and the
constructors `Sealed`, `DigestOf` and `KeyIdOf` (ideal AEAD and digests for secrets).

## Model

| member | source | states |
|---|---|---|
| `Topology.QueueCheck` | libs/client/src/grafy_client/graph_builder.py:513-530 | The queue with in-degree counts accepts exactly the multigraphs without a closed walk, parallel edges and self-loops included, and then hands the nodes out in a topological order |
| `Topology.OrderExcludesCycles` | libs/client/src/grafy_client/graph_builder.py:513-530 | A topological order of all nodes rules out every closed walk |
| `Topology.StuckSetHasCycle` | libs/client/src/grafy_client/graph_builder.py:513-530 | A non-empty set of nodes in which each has a predecessor inside the set contains a cycle: what is left when the queue runs dry |
| `GraphInvariants.InferExact` | libs/client/src/grafy_client/graph_builder.py:377-450 | Type inference accepts a connection exactly when a path of pairwise distinct types along the named conversions joins its two ends and agrees with the ends already bound |
| `GraphInvariants.NodeIdInjective` | libs/client/src/grafy_client/graph_builder.py:280-310 | Generated node ids differ whenever their numbers differ, whatever the operator names |
| `GraphInvariants.NumberedIdInjective` | libs/client/src/grafy_client/graph_builder.py:462-478 | Generated edge and plug ids differ whenever their numbers differ |
| `GraphConnections.ConnectedIff` | libs/client/src/grafy_client/graph_builder.py:312-485 | A connection is accepted exactly when both handles name this builder, a node and a port of it, the shapes fit, a path of distinct types along the named conversions agrees with whatever type each end has and at least one has one, the input is variadic or has no edge under the given name, and the edge keeps the identifier and hop limits |
| `GraphConnections.JoinableConnects` | libs/client/src/grafy_client/graph_builder.py:341-485 | Whatever ends and types allow it, the new state differs by one edge with the stripped names, by a plug where the input has plugs, and by the free variables of the two ends, now bound to the ends of that path |
| `GraphRuns.EveryRun` | libs/client/src/grafy_client/graph_builder.py:266-485 | From any point of any sequence of calls to any later one: bindings never change, every accepted edge still runs from its source type through its conversions without repeating a type to its target type, two saved edges share a target port name only where a variadic input or another input that strips to that name allows it, and node, edge and plug ids never collide |
| `GraphBuilding.CollectConversions` | libs/client/src/grafy_client/graph_builder.py:401-414 | The loop resolves every requested conversion to the one the catalog has under that key, or fails |
| `GraphBuilding.FindTargetEdge` | libs/client/src/grafy_client/graph_builder.py:452-456 | Finds a saved edge on the named input exactly when there is one |
| `GraphBuilding.FollowChain` | libs/client/src/grafy_client/graph_builder.py:427-443 | The loop along a conversion chain computes the specified walk, with the error of the first broken or repeated hop |
| `GraphBuilding.InferTypes` | libs/client/src/grafy_client/graph_builder.py:377-450 | The imperative inference equals the specified one |
| `GraphBuilding.CheckNodes` | libs/client/src/grafy_client/graph_builder.py:488-512 | Reports nothing exactly when every node is complete, and otherwise the gap of the first incomplete node: an unbound type variable before a missing required input |
| `GraphBuilding.DocumentsAreWellStructured` | libs/core/src/grafy_core/domain/graph_documents.py:524-591 | No reachable builder state yields a document that the structural validator would reject |
| `GraphBuilding.GraphBuilder.AppendNode` | libs/client/src/grafy_client/graph_builder.py:266-310 | Appends one node with a fresh id or changes nothing |
| `GraphBuilding.GraphBuilder.Connect` | libs/client/src/grafy_client/graph_builder.py:312-485 | Moves the builder as the specified step does; a refused call changes nothing |
| `GraphBuilding.GraphBuilder.Build` | libs/client/src/grafy_client/graph_builder.py:487-558 | Succeeds exactly for complete, acyclic states whose nodes fit the document, and gives a well-structured document; the error is the gap of the first incomplete node, else a cycle, else an invalid document |
| `GraphPortNames.BadInputTakesTwoEdges` | libs/client/src/grafy_client/graph_builder.py:452-478 | For every list of inputs, an input that can take an edge and is variadic or has surrounding white space in its name gets two saved edges in some run |
| `GraphPortNames.OneEdgeRuleIff` | libs/client/src/grafy_client/graph_builder.py:452-478 | For every list of inputs and every name: in all reachable states a node with these inputs has at most one saved edge under the stripped name, exactly when every input that can take an edge and strips to that name is spelled so and is not variadic |
| `Inspection.PrefixConfirms` | apps/api/src/grafy_api/upload_inspection.py:157-167 | The kept prefix satisfies a magic rule exactly when the whole content does |
| `Inspection.CheckFormat` | apps/api/src/grafy_api/upload_inspection.py:140-148 | The decision taken from the prefix and the fed chunks is the format rule on the whole content |
| `Inspection.InspectChunks` | apps/api/src/grafy_api/upload_inspection.py:81-154 | For every way of splitting the bytes, the stream pass gives the verdict of the rule it resolves; without a JSON rule it accepts exactly when the whole content meets the size rules and its format rule, and it always reports the length and digest of the whole |
| `UploadRuns.NextSafe` | apps/api/src/grafy_api/uploads.py:271-526 | Every atomic step of receive, complete and cleanup keeps the invariant, in any interleaving |
| `UploadRuns.EveryRunPreserves` | apps/api/src/grafy_api/uploads.py:303-460 | Between any two points of any interleaving a READY upload keeps its row and its bytes, committed artifacts stay as they are, and an upload that became terminal or was removed never becomes READY |
| `UploadRuns.EveryRunConsistent` | apps/api/src/grafy_api/uploads.py:303-404 | In every reachable state a READY upload's object has the recorded size, digest and format and its row names one committed artifact; no upload commits two; all successful completions of an upload get one answer |
| `UploadProgress.ReceiveStores` | apps/api/src/grafy_api/uploads.py:218-301 | From any state a fresh upload can be reserved and received, and nothing else changes |
| `UploadProgress.CompleteDelivers` | apps/api/src/grafy_api/uploads.py:303-404 | From any state, completing an upload that is pending, alive, stored and accepted makes it READY with one new artifact and changes nothing else |
| `UploadProgress.SweepReclaims` | apps/api/src/grafy_api/uploads.py:406-460 | From any state, a sweep takes the object and then the row of a terminal upload older than its grace, counts it, and changes nothing else |
| `UploadOrphans.TimelyRunsStayTimed` | apps/api/src/grafy_api/uploads.py:419-460 | With the default cleanup age, or one at least as long as the target lifetime plus the receive window, no stored object outlives its row |
| `UploadOrphans.StingySweepLeavesOrphan` | apps/api/src/grafy_api/uploads.py:428-433 | Any shorter cleanup age has an interleaving in which an admitted receive stores bytes after its row was removed |
| `UploadOrphans.NoOrphansIff` | apps/api/src/grafy_api/uploads.py:419-460 | The cleanup age leaves no orphaned object in any timely run exactly when it is the default or at least target lifetime plus receive window |
| `JsonPointer.ResolveLocalRef` | libs/core/src/grafy_core/plugins.py:1090-1117 | The loop over segments resolves a reference as the specified lookup does, with its error |
| `JsonPointer.UnescapeInvertsEscape` | libs/core/src/grafy_core/plugins.py:1095-1096 | Decoding a key undoes its escaping as section 3 of RFC 6901 defines it |
| `JsonPointer.ReferenceRoundTrip` | libs/core/src/grafy_core/plugins.py:1090-1117 | For every non-empty path of keys, escaping, joining and resolving gives exactly the object at that path |
| `Projections.ChaseRefs` | libs/core/src/grafy_core/plugins.py:975-1010 | The reference loop follows a chain as specified and stops on cycles and at the depth limit |
| `Projections.ExpandFieldProjections` | libs/core/src/grafy_core/plugins.py:939-1087 | The work list ends on every schema, cyclic references included, and gives exactly the result of the recursive specification; the error is that of the first schema that cannot be visited, unless more than 1024 projections are reached before it |
| `ProjectionLeaves.ExpandSound` | libs/core/src/grafy_core/plugins.py:1012-1078 | Every derived projection belongs to an undeclared scalar leaf below the root and targets the installed type for its scalar |
| `ProjectionLeaves.ExpandComplete` | libs/core/src/grafy_core/plugins.py:1012-1078 | Every such leaf, reached through properties and local references, gets its projection |
| `ProjectionLeaves.ExpandedIsExact` | libs/core/src/grafy_core/plugins.py:939-1087 | A successful result is the declared projections plus exactly one derived projection per wanted leaf, sorted by path, at most 1024 |
| `ProjectionLeaves.ExpandedHasDistinctPaths` | libs/core/src/grafy_core/plugins.py:939-1087 | No path occurs twice in the result when the declared paths are distinct |
| `ProjectionSuccess.ExpandsIff` | libs/core/src/grafy_core/plugins.py:959-1078 | Every schema is walked to its end exactly when on every walk through properties and references the depth stays within 32, every reference resolves and none repeats, and no declared projection contradicts the type found |
| `ProjectionSuccess.ExpandedIff` | libs/core/src/grafy_core/plugins.py:939-1087 | Expansion succeeds exactly when, besides, declared and derived projections together are at most 1024 |
| `ProjectionTwice.ExpandedTwice` | libs/core/src/grafy_core/plugins.py:1012-1087 | Expanding a type whose derived projections have become declared ones gives the same list again |
| `Plugins.CollectContracts` | libs/core/src/grafy_core/plugins.py:714-740 | Contracts are collected exactly when all plugins that name an artifact type mean the same one |
| `Plugins.CheckPorts` | libs/core/src/grafy_core/plugins.py:739-772 | A node passes exactly when every concrete port type is owned or a declared dependency of its plugin |
| `Plugins.CheckProjections` | libs/core/src/grafy_core/plugins.py:786-815 | A type passes exactly when its declared paths are non-empty and distinct and their targets are declared |
| `Plugins.CollectScalars` | libs/core/src/grafy_core/plugins.py:817-831 | Scalar targets are collected exactly when no JSON type has two canonical artifact types, and then map each to its own |
| `Plugins.ExpandTypes` | libs/core/src/grafy_core/plugins.py:832-844 | All registered types are expanded, or none when one of them fails |
| `Plugins.PluginRegistry.Install` | libs/core/src/grafy_core/plugins.py:653-711 | Adds a plugin's nodes and types or changes nothing, and keeps owned keys unique |
| `Plugins.PluginRegistry.Freeze` | libs/core/src/grafy_core/plugins.py:713-846 | Succeeds exactly when the plugins agree and every type expands; a failure changes nothing, and a frozen registry freezes again to itself |
| `Plugins.FreezeTwice` | libs/core/src/grafy_core/plugins.py:713-846 | A second freeze after a successful one succeeds and leaves every artifact type's projections unchanged |
| `Plugins.FrozenForever` | libs/core/src/grafy_core/plugins.py:653-846 | In every sequence of installs and freezes, nothing changes after the first successful freeze |
| `CollectionPacking.ChunkEnd` | libs/core/src/grafy_core/artifact_collections.py:171-190 | A chunk takes at least one and at most fifty items, stays within 524288 estimated bytes when it has two or more, and ends early only when the next item would pass that limit |
| `CollectionPacking.GreedyIsFewest` | libs/core/src/grafy_core/artifact_collections.py:171-190 | No division of a list into admissible chunks has fewer chunks than the greedy one |
| `CollectionStore.SavedInFewestChunks` | libs/core/src/grafy_core/artifact_collections.py:168-235 | After a successful save, no admissible division of a saved collection has fewer chunks than its manifest lists |
| `CollectionStore.ManifestIsValid` | libs/core/src/grafy_core/artifact_collections.py:74-113 | The manifest that saving builds passes the tiling, uniqueness and total validators |
| `CollectionStore.ObjectStore.Save` | libs/core/src/grafy_core/artifact_collections.py:202-220 | A save replaces one whole object or fails without effect |
| `CollectionStore.SaveChunks` | libs/core/src/grafy_core/artifact_collections.py:168-235 | The chunk references tile the collection, and each names a write that holds its items |
| `CollectionStore.SaveManifest` | libs/core/src/grafy_core/artifact_collections.py:245-283 | Writes the manifest under its digest and reports its size, digest and the total stored bytes |
| `CollectionStore.SaveCollections` | libs/core/src/grafy_core/artifact_collections.py:153-283 | Refuses repeated ids before writing and fails exactly when a write failed; every write is addressed by its digest, and success records manifest and chunks of all collections |
| `CollectionStore.SavedIsServed` | libs/core/src/grafy_core/artifact_collections.py:153-412 | What a successful save recorded reads back item for item wherever its writes are present |
| `CollectionStore.WritesStay` | libs/core/src/grafy_core/artifact_collections.py:195-220 | Without digest collisions, overwriting never changes what an earlier write stored |
| `CollectionStore.EveryRunKeepsArtifacts` | libs/core/src/grafy_core/artifact_collections.py:153-475 | After any interleaving of the writes of any saves, failed ones included, every artifact saved on the way is intact, each page shows exactly the requested window of every collection, and consecutive pages rebuild everything |
| `CollectionModel.LoadRange` | libs/core/src/grafy_core/artifact_collections.py:359-399 | The loop over chunks reads as the recursive specification does |
| `CollectionModel.LoadPages` | libs/core/src/grafy_core/artifact_collections.py:347-406 | The loop over collections carries each one's start and reads as the recursive specification does |
| `CollectionModel.LoadPage` | libs/core/src/grafy_core/artifact_collections.py:328-412 | A page request computes the specified page or its first error |
| `CollectionModel.IsIntact` | libs/core/src/grafy_core/artifact_collections.py:438-475 | True exactly when the manifest and every chunk it names load and agree with their descriptors |
| `CollectionPages.PageIsWindow` | libs/core/src/grafy_core/artifact_collections.py:344-412 | A page holds, per collection, exactly the items whose position in the concatenation of all collections lies in [offset, offset + limit) |
| `CollectionPages.PagesRebuildAll` | libs/core/src/grafy_core/artifact_collections.py:344-412 | Page after page, each collection is rebuilt completely and in order |
| `CollectionPages.IntactIsReadable` | libs/core/src/grafy_core/artifact_collections.py:328-475 | An intact artifact can be read at every offset and limit, whatever else the store holds |
| `CollectionPages.FullReadIsIntact` | libs/core/src/grafy_core/artifact_collections.py:328-475 | A read of the full range that succeeds proves the artifact intact |
| `SubprocessSafety.PermitsBoundChildren` | libs/core/src/grafy_core/bounded_subprocess.py:286-383 | In every interleaving free and held permits add up to two and at most two children have not been waited for |
| `SubprocessSafety.CancelledChildIsKilled` | libs/core/src/grafy_core/bounded_subprocess.py:57-77 | Whichever of attach and cancel comes second kills: once neither holds the lock, an attached child of a cancelled token is killed |
| `SubprocessSafety.EndedChildIsReaped` | libs/core/src/grafy_core/bounded_subprocess.py:325-340 | A run that has left its child behind has killed and waited for it |
| `SubprocessSafety.CancelledRunHasNoResult` | libs/core/src/grafy_core/bounded_subprocess.py:340-351 | A run that has not passed its final check when its token is cancelled never returns a result or a time-limit report |
| `SubprocessSafety.CancelledRunEndsSoon` | libs/core/src/grafy_core/bounded_subprocess.py:286-383 | After the cancel a run takes at most twelve more steps of its own |
| `SubprocessSafety.CancelledRunIsNotStuck` | libs/core/src/grafy_core/bounded_subprocess.py:286-383 | A cancelled run can always step, or waits only for a cancel to let go of the lock or for a killed child to exit |
| `SubprocessProgress.UndisturbedRunCompletes` | libs/core/src/grafy_core/bounded_subprocess.py:286-383 | From any state with a free permit and an idle token, an undisturbed run returns its child's result, waits for the child and gives permit and token back |
| `CapturedOutput.ReadBounded` | libs/core/src/grafy_core/bounded_subprocess.py:217-226 | Whatever the read sizes, the captured bytes are the first `limit` of the stream, and truncation is reported exactly when there were more |
| `SecretRuns.ResolveExact` | apps/api/src/grafy_api/node_secrets.py:282-398 | Resolution succeeds exactly when the last configuration of the place was made for the node, operator, dependencies and key of now and the caller names those dependencies; it returns the value configured last |
| `SecretRuns.StatusAgreesWithResolve` | apps/api/src/grafy_api/node_secrets.py:129-186 | After every run, a status line says configured exactly when resolution with the node's own dependencies returns the value configured last |
| `SecretRuns.ReportCovers` | apps/api/src/grafy_api/node_secrets.py:132-186 | A status report has a line for every secret of every node it can resolve |
| `SecretRuns.UnresolvedNodeResolvesNothing` | apps/api/src/grafy_api/node_secrets.py:133-163 | No secret of a node reported as unresolved resolves |
| `SecretService.Status` | apps/api/src/grafy_api/node_secrets.py:115-193 | Fails exactly when the graph is missing or some declared secret cannot be compared, and otherwise reports all nodes in order |
| `SecretService.NodeSecretService.Configure` | apps/api/src/grafy_api/node_secrets.py:195-250 | A refused call changes nothing; an accepted value resolves at once |
| `SecretService.NodeSecretService.Remove` | apps/api/src/grafy_api/node_secrets.py:252-280 | After a removal nothing resolves at that place |
| `SecretService.NodeSecretService.ResolveSecret` | apps/api/src/grafy_api/node_secrets.py:282-323 | Missing context is refused; a returned value is the one configured last, for the submitted dependencies |
| `ParentChains.MoveReaches` | apps/web/e2e/library-folders-stub.ts:257-279 | Giving one folder a parent whose chain reaches a root without meeting that folder leaves every chain reaching a root |
| `FolderForest.IsInside` | apps/web/e2e/library-folders-stub.ts:145-154 | The walk with its seen set decides ancestor-or-self on every list of folders, cyclic ones included |
| `FolderForest.NoFolderBelowItself` | apps/web/e2e/library-folders-stub.ts:257-279 | In a valid Library no folder is its own proper ancestor |
| `Library.LibraryState.Create` | apps/web/e2e/library-folders-stub.ts:231-255 | Adds a trimmed folder below an existing parent unless a sibling's name compares equal, and keeps forest, sibling names and placements |
| `Library.LibraryState.Move` | apps/web/e2e/library-folders-stub.ts:257-279 | Refuses exactly missing folders, a parent inside the folder and a taken name; otherwise only that folder's parent changes and the forest is kept |
| `Library.LibraryState.Rename` | apps/web/e2e/library-folders-stub.ts:301-313 | Refuses exactly a missing folder and a taken name; otherwise only that folder's name changes |
| `Library.LibraryState.Delete` | apps/web/e2e/library-folders-stub.ts:289-300 | Removes exactly an existing folder that holds no folder and no artifact |
| `Library.LibraryState.PlaceArtifacts` | apps/web/e2e/library-folders-stub.ts:206-229 | Places all artifacts or none, into an existing folder or at the root |
| `Library.PlaceExact` | apps/web/e2e/library-folders-stub.ts:224-227 | After a placement every named artifact sits where the request says and no other moved |
| `Library.LibraryState.DeleteArtifact` | apps/web/e2e/library-folders-stub.ts:185-204 | A listed artifact that is not referenced loses its listing and its placement |
| `Wfs.FetchPages` | plugins/gis/src/grafy_plugin_gis/wfs.py:125-297 | Against any server the loop ends within max_features rounds, keeps the feature and 16 MiB caps, and computes the specified import |
| `Wfs.FetchFeatureCollection` | plugins/gis/src/grafy_plugin_gis/wfs.py:106-305 | Succeeds exactly when limits, pages and features are acceptable, and bounds the features it returns |
| `Wfs.HonestImport` | plugins/gis/src/grafy_plugin_gis/wfs.py:140-297 | Against a server that answers every request with the named slice of a fixed list, a successful import is the first min(max_features, N) features in order |
| `Wfs.HonestRefusals` | plugins/gis/src/grafy_plugin_gis/wfs.py:140-297 | Such a server is refused only for a byte limit or for two pages in a row with the same digest |
| `Wfs.HonestImportIff` | plugins/gis/src/grafy_plugin_gis/wfs.py:140-297 | Such a server is imported exactly when every page that is asked for keeps the page limit, keeps the running total within 16 MiB and, if it holds features, differs in digest from the page before |
| `Spatial.PositionsExact` | libs/core/src/grafy_core/spatial_contracts.py:623-652 | Coordinate arrays of any depth are accepted exactly when every leaf is a WGS84 position and no array is empty, and the positions collected are those that occur |
| `Spatial.GeometryExact` | libs/core/src/grafy_core/spatial_contracts.py:584-620 | The same for geometries and geometry collections of any depth |
| `Spatial.CollectPositions` | libs/core/src/grafy_core/spatial_contracts.py:623-652 | The appending recursion adds exactly the specified positions to those already observed |
| `Spatial.ValidateGeometry` | libs/core/src/grafy_core/spatial_contracts.py:584-620 | The same for the recursion over geometries |
| `Spatial.BoundsOf` | libs/core/src/grafy_core/spatial_contracts.py:655-660 | Bounds exist exactly when there are positions and form the box that holds all of them and is touched by them on every side |
| `FeatureCollections.Validate` | libs/core/src/grafy_core/spatial_contracts.py:344-370 | The validator accepts exactly sound features with a sound name and the bounds those features have |
| `FeatureCollections.FromFeatures` | libs/core/src/grafy_core/spatial_contracts.py:383-400 | Succeeds exactly for a sound name and sound features, never fails for its own bounds, and bounds every occurring position by the least box, absent exactly when there are none |

## Left out

- `UploadOrphans.NoOrphansIff`: takes it that a receive ends within `upload_receive_timeout`; the service configures that limit but does not enforce it in the code modelled here.
- `Inspection.InspectChunks`: under the JSON rules the incremental parser is a parameter that may depend on the splitting, so acceptance is tied to the whole content only for the other rules.
- `Projections.ExpandFieldProjections`: titles of derived projections use the humanising function as a parameter.
- `Plugins.PluginRegistry.Install`: takes it that one plugin does not declare two types under one key, which a plugin refuses while it is declared; titles, resolver and writer factories are not modelled.
- `SubprocessSafety.CancelledChildIsKilled`: takes it that one cancellation token serves one run at a time, because it lives in the context of one worker thread.
- `CollectionStore.EveryRunKeepsArtifacts`: takes JSON encoding to round-trip on the items saved and SHA-256 to be free of collisions on the contents written.
- `SecretRuns.StatusAgreesWithResolve`: encryption and digests are ideal, floats are exact numbers, and document node ids and secret names are unique as the document and operator validators demand.
- `Wfs.FetchPages`: one request is one reply; DNS pinning, retries over addresses and streaming of a response are not modelled.
- `Library.LibraryState.Create`: the drawn identifier is a parameter that is not yet in use; lower-casing is a parameter.
- Node positions, node configuration and the catalog look-ups of `add` and `add_catalog_node` in the graph builder.
- The S3 presigned transport of uploads: bytes arrive outside this code, so create-only storage is justified only for the local backend.
- The incremental JSON parser of upload inspection.
- Cache revisions of node secrets, timestamps, logging, and diagnostics of failed subprocesses.
- Process groups, pid reuse and the lifetime of descendants of a killed child.
- HTTP, SQL and object-store adapters, egress policy, the web application and the agents: plumbing over the logic above.
