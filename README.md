# Jitar core: module caching, module delivery, client bootstrap, implementation entries

This project models, in Dafny, four small pieces of the Jitar runtime, a system that
splits one application into segments that run standalone, locally or on remote nodes:

- **Module cache writer** (`ModuleCaching`, `module_cache_writer.dfy`). For one module
  it persists the standalone variant under the module's filename and the local variant
  under the local-variant filename. When the module belongs to a segment, it also
  persists the remote stub under the remote-variant filename. The standalone and local
  variants' text is fixed: the rewritten imports, a line break, one
  `Name.source = "filename";` tag per exported class, then JavaScript `trim`. The remote
  stub's text is the built stub, trimmed. The file store is a class holding a
  `map<string, string>`. A write to a refused path fails and leaves the store as it was.
  `Write` succeeds exactly when none of its issued writes is refused. Writes that did
  succeed are never rolled back.
- **Module delivery controller** (`ModuleDelivery`, `modules_controller.dfy`).
  `registerClient` checks that the body is an array of strings, using a loop with an
  early return. It registers the list, unchanged, at most once and answers 200 with the
  client id as text; any other body gets 400 and registers nothing. When the repository
  rejects the registration, nothing is registered and no response is sent, because the
  route handler neither awaits nor catches that promise. `getModule` rejects
  a missing or ill-shaped client id with 400 and no read. Otherwise it cuts the filename
  out of the path after the first `/{clientId}/`. A successful read is answered 200 with
  the file's content type and content; a failed read gets 500 with the serialized error
  as JSON.
- **Client bootstrap** (`ClientBootstrap`, `client_bootstrap.dfy`). The module state
  `client` / `resolvers` is a class. Waiters are numbered, and each resolution is
  recorded in a log. The class invariant states that the resolved waiters followed by
  the waiting ones are exactly `0, 1, ..., n - 1`, so every waiter is handled exactly
  once. It also states that nobody waits once a client exists. When the node starts,
  `startClient` resolves all queued waiters, in queue order, with the one node it
  publishes and returns. When the start rejects, the state is left as it was and the
  waiters keep waiting.
- **Implementation entries** (`CachingImplementation`, `RuntimeImplementation`). The
  caching entry takes `++lastId` as its id; the counter's ghost history is always
  `1, ..., lastId`, which makes successive ids strictly increasing. The entry's `fqn` is
  `FqnBuilder.build(module, name)`. The runtime entry's `public` is true exactly for the
  public access level. All fields of both entries are constants.

`JsText` (`js_text.dfy`) defines the JavaScript string built-ins these files use:
`trim`, `join`, `split` (used only as the inverse of `join`), `indexOf` and
`substring`. `Wrappers` holds `Option`, which stands for `undefined`.

The collaborators whose code is not part of this model are left uninterpreted. They are
function-valued fields or parameters:

- `ImportRewriter.rewrite`
- `convertToLocalFilename` and `convertToRemoteFilename`
- `RemoteBuilder.build`
- `FqnBuilder.build`
- `ClientIdHelper.validate`
- `Serializer.serialize`
- the repository's `readModule` outcome and its client-id minting

`SegmentModule`, `ReflectionFunction`, `Function`, `Parameter` and `Version` are type
parameters.

Two properties of the client bootstrap follow the code as it is written:

- `client.ts` does not guard against a second `startClient`: it overwrites `client`
  (packages/runtime/src/client.ts:20). The model allows that, and it states no
  single-shot property.
- Waiters are resolved in queue order (packages/runtime/src/client.ts:22), and the
  model records that order.

One edge of the filename extraction is stated as a lemma (`ModulesClientIdFilename`).
If a client id were the literal `modules`, its key `/modules/` would first occur at the
start of the path. The extracted filename would then keep a `modules/` prefix. Whether
`ClientIdHelper.validate` accepts such an id is not part of this model.

## Model

| member | source | states |
|---|---|---|
| `ModuleCaching.ModuleCacheWriter.constructor` | packages/caching/src/building/ModuleCacheWriter.ts:18-21 | the writer uses the given file manager, and the given rewriter, naming transforms and stub builder (the collaborators the source imports) |
| `ModuleCaching.ModuleCacheWriter.Write` | packages/caching/src/building/ModuleCacheWriter.ts:23-30 | the call succeeds exactly when none of the 2 or 3 issued writes is refused; the new store is the old one with every unrefused artifact replacing its file; nothing else changes and nothing is rolled back |
| `ModuleCaching.ModuleCacheWriter.WriteOriginal` | packages/caching/src/building/ModuleCacheWriter.ts:32-45 | writes `trim(rewrite(code, false) + "\n" + sourceTags)` under the module's own filename, or fails leaving the store unchanged |
| `ModuleCaching.ModuleCacheWriter.WriteLocal` | packages/caching/src/building/ModuleCacheWriter.ts:47-59 | writes `trim(rewrite(code, true) + "\n" + sourceTags)` under the local-variant filename, or fails leaving the store unchanged |
| `ModuleCaching.ModuleCacheWriter.WriteRemote` | packages/caching/src/building/ModuleCacheWriter.ts:81-95 | without a segment, succeeds and writes nothing; with one, writes the trimmed remote stub under the remote-variant filename |
| `ModuleCaching.FileManager.Write` | packages/caching/src/building/ModuleCacheWriter.ts:44 | a write replaces the file wholesale, or fails (refused path) and changes nothing |
| `ModuleCaching.SourceTags` | packages/caching/src/building/ModuleCacheWriter.ts:71-76 | one tag `Name.source = "filename";` per exported class, in export order |
| `ModuleCaching.SourceCodeLines` | packages/caching/src/building/ModuleCacheWriter.ts:71-79 | for a module that exports at least one class, and whose filename and class names contain no line break, splitting the source code at line breaks gives back exactly the tags, in order (so it is one line per class) |
| `ModuleCaching.SourceCode` | packages/caching/src/building/ModuleCacheWriter.ts:71-79 | the source code is empty exactly when no class is exported, as `[].join('\n')` gives; otherwise it starts with the first class's tag |
| `ModuleCaching.TagsSurviveTrim` | packages/caching/src/building/ModuleCacheWriter.ts:42-44 | when classes are exported and the first class name is non-empty and free of white space, as an identifier is, trimming never cuts into the tags: the stored text is the rewritten code and a line break, trimmed at the start, then the tags |
| `ModuleCaching.ArtifactsExactly` | packages/caching/src/building/ModuleCacheWriter.ts:38-94 | the targets are exactly the original and local filenames, plus the remote one if and only if there is a segment: 3 files with a segment, 2 without |
| `ModuleCaching.ArtifactContents` | packages/caching/src/building/ModuleCacheWriter.ts:38-94 | the content under each target is the standalone, local or remote text built from the cache |
| `ModuleCaching.NoSegmentNoRemote` | packages/caching/src/building/ModuleCacheWriter.ts:86-89 | a module without a segment gets no remote variant: the files issued for it do not depend on the remote naming transform or the stub builder |
| `ModuleCaching.Stored` | packages/caching/src/building/ModuleCacheWriter.ts:25-29 | every unrefused write lands; every other file keeps its old presence and content |
| `ModuleCaching.StoredIdempotent` | packages/caching/src/building/ModuleCacheWriter.ts:25-29 | issuing the same writes a second time leaves the store as after the first time |
| `ModuleCaching.StoredDeterministic` | packages/caching/src/building/ModuleCacheWriter.ts:38-99 | after a successful write, every target's content is the same whatever the store held before |
| `JsText.Trim` | packages/caching/src/building/ModuleCacheWriter.ts:44 | the result of `trim` neither starts nor ends with white space |
| `JsText.TrimStart` | packages/caching/src/building/ModuleCacheWriter.ts:44 | removes exactly the leading run of white space: the result is a suffix, all dropped characters are white space, and the result does not start with white space |
| `JsText.TrimEnd` | packages/caching/src/building/ModuleCacheWriter.ts:44 | removes exactly the trailing run of white space: the result is a prefix, all dropped characters are white space, and the result does not end with white space |
| `JsText.TrimIdempotent` | packages/caching/src/building/ModuleCacheWriter.ts:44 | trimming twice equals trimming once |
| `JsText.TrimKeepsTrimmed` | packages/caching/src/building/ModuleCacheWriter.ts:44 | a string without white space at either end is left unchanged by `trim` |
| `JsText.SplitJoin` | packages/caching/src/building/ModuleCacheWriter.ts:78 | `split` undoes `join` for a non-empty list of parts without the separator |
| `JsText.Join` | packages/caching/src/building/ModuleCacheWriter.ts:78 | joining no parts gives the empty string; joining one part gives that part |
| `JsText.IndexOf` | packages/server-nodejs/src/controllers/ModulesController.ts:69 | the result is the first position where the key occurs, or -1 when the key occurs nowhere |
| `JsText.Substring` | packages/server-nodejs/src/controllers/ModulesController.ts:70 | the result is a suffix of the string: the whole string for a negative start, the last `|s| - start` characters for a start within the string, and the empty string for a start past its end |
| `ModuleDelivery.SegmentFileList` | packages/server-nodejs/src/controllers/ModulesController.ts:33-46 | a file list exists if and only if the body is an array whose every element is a string; the list holds those strings, in order |
| `ModuleDelivery.HandleRegisterClient` | packages/server-nodejs/src/controllers/ModulesController.ts:29-55 | an invalid body gets 400 "Invalid segment file list." and registers nothing; a valid one registers the list unchanged and gets 200, text, with the client id as body, unless the repository rejects it, in which case nothing is registered and no response is sent |
| `ModuleDelivery.ModulesController.constructor` | packages/server-nodejs/src/controllers/ModulesController.ts:19-23 | the controller keeps the given repository, serializer and client-id validation |
| `ModuleDelivery.ModulesController.RegisterClient` | packages/server-nodejs/src/controllers/ModulesController.ts:29-55 | the response (or its absence) is that of `HandleRegisterClient` for the way the repository settled; the repository is asked to register exactly once, with the list, when the body is an array of strings, and never otherwise; it gains that one registration when it accepts, and none otherwise; no module is read |
| `ModuleDelivery.ModuleFilename` | packages/server-nodejs/src/controllers/ModulesController.ts:68-70 | the filename is a suffix of the path; when `/{clientId}/` occurs, the path is exactly what precedes its first occurrence, the key, then the filename; otherwise the cut starts at the id's length plus one |
| `ModuleDelivery.ModulesPathFilename` | packages/server-nodejs/src/controllers/ModulesController.ts:68-70 | for the path `/modules/{id}/{f}`, with an id that holds no `/` and is not `modules`, the filename is exactly `f` |
| `ModuleDelivery.ModulesClientIdFilename` | packages/server-nodejs/src/controllers/ModulesController.ts:68-70 | for the id `modules`, the filename cut out of `/modules/modules/{f}` is `modules/{f}` |
| `ModuleDelivery.HandleGetModule` | packages/server-nodejs/src/controllers/ModulesController.ts:57-94 | a rejected id gets 400 "Invalid client id." with no read; otherwise exactly one read of (filename, id) is made; status 200 if and only if it succeeds, with the file's type and content; 500 if and only if it fails, with JSON and the serialized error |
| `ModuleDelivery.ModulesController.GetModule` | packages/server-nodejs/src/controllers/ModulesController.ts:57-94 | the response is that of `HandleGetModule`; the repository's read log grows by that one call, or not at all when the id is rejected; registrations and register calls are untouched |
| `ModuleDelivery.Repository.RegisterClient` | packages/server-nodejs/src/controllers/ModulesController.ts:48 | logs the call with its file list; either accepts, appending the list as a new registration and returning that registration's id, or rejects and registers nothing; no module is read |
| `ModuleDelivery.Repository.ReadModule` | packages/server-nodejs/src/controllers/ModulesController.ts:74 | returns the repository's outcome for (filename, client id) and logs the call; registrations and register calls are untouched |
| `ClientBootstrap.ClientState.constructor` | packages/runtime/src/client.ts:6-7 | no client, no waiters |
| `ClientBootstrap.ClientState.GetClient` | packages/runtime/src/client.ts:28-39 | with no client, queues exactly one new waiter and returns nothing yet; with a client, returns it and leaves the queue alone; the client never changes |
| `ClientBootstrap.ClientState.StartClient` | packages/runtime/src/client.ts:9-26 | returns a fresh node built for the URL, with the sets of the given lists as its segment names and middleware files; when its start succeeds the node is published as `client`, every queued waiter is resolved once, in order, with it, and the queue is emptied; when the start rejects, client, queue and log are unchanged; the invariant is kept either way |
| `ClientBootstrap.StartNode` | packages/runtime/src/client.ts:10-17 | a fresh node whose repository and gateway both point at the URL and whose segment names and middleware files are the sets of the given lists; it is started exactly when its start succeeded |
| `ClientBootstrap.ClientState.ResolveWaiters` | packages/runtime/src/client.ts:21 | appends one resolution per queued waiter, in queue order, all with the same node; nothing else changes |
| `ClientBootstrap.ClientState.WaiterOnce` | packages/runtime/src/client.ts:22-23 | every waiter that ever queued is resolved or still waiting exactly once |
| `ClientBootstrap.Resolve` | packages/runtime/src/client.ts:22 | `forEach` resolves each waiter of the queue, in order, with the same node |
| `ClientBootstrap.ResolvedResolve` | packages/runtime/src/client.ts:22-23 | resolving the queue moves exactly the queue's waiters into the log |
| `ClientBootstrap.Ids` | packages/runtime/src/client.ts:30-36 | waiter numbers are `0, ..., n - 1` in queueing order |
| `ClientBootstrap.IdsOnce` | packages/runtime/src/client.ts:30-36 | each waiter number occurs exactly once among those issued |
| `ClientBootstrap.SetOf` | packages/runtime/src/client.ts:15-16 | `new Set(list)` holds exactly the list's items; the default empty list gives the empty set |
| `ClientBootstrap.LocalNode.Start` | packages/runtime/src/client.ts:18 | `start()` either succeeds, marking the node started, or rejects, leaving it not started; nothing else changes |
| `CachingImplementation.Implementation.constructor` | packages/jitar/src/runtime/caching/models/Implementation.ts:18-27 | the counter goes up by exactly one and the new value is the id; the counter's history gains this id; `fqn` is the result of the one process-wide builder for (module, name), so equal (module, name) pairs get equal names; the other fields are the arguments, unchanged |
| `CachingImplementation.IdCounter.constructor` | packages/jitar/src/runtime/caching/models/Implementation.ts:2-6 | the counter starts at 0 with no ids handed out, so the first id is 1; it holds the one fqn builder every entry uses |
| `CachingImplementation.IdsThrough` | packages/jitar/src/runtime/caching/models/Implementation.ts:20 | after k constructions the ids handed out are exactly `1, ..., k` in order |
| `CachingImplementation.IdsThroughIncreasing` | packages/jitar/src/runtime/caching/models/Implementation.ts:20 | ids handed out one after another are strictly increasing, so distinct, and the first is 1 |
| `RuntimeImplementation.Implementation.IsPublic` | packages/runtime/src/models/Implementation.ts:23 | `public` is true if and only if the access level is public |
| `RuntimeImplementation.PublicDeterminesAccess` | packages/runtime/src/models/Implementation.ts:21-27 | `public` keeps the whole access level: two implementations that agree on `public` have the same access level, so exposing only the boolean loses nothing |

## Left out

- The concurrency of `Promise.all` in `write` (packages/caching/src/building/ModuleCacheWriter.ts:25-29). The three writes are issued one after the other. Their order does not matter because the targets differ.
- `ModuleCaching.ModuleCacheWriter.Write`: requires the filenames it writes to differ pairwise (the remote one only for a segment module). The naming transforms are not part of this model. If two targets were equal, the result would depend on which concurrent write finished last.
- `ModuleCaching.FileManager.Write`: a write fails exactly for the paths in a fixed `refused` set, and a failed write changes nothing. The file manager's own I/O, partial writes and transient errors are not part of this model.
- `ImportRewriter`, `RemoteBuilder`, `convertToLocalFilename`, `convertToRemoteFilename`, `FqnBuilder`, `ClientIdHelper.validate` and `Serializer` are uninterpreted functions. Their sources are not part of this model, so nothing is claimed about their format or idempotence.
- Express route registration, the request and response objects, `Headers` and the values of `ContentTypes` (packages/server-nodejs/src/controllers/ModulesController.ts:25-26, 52, 78, 90) are transport plumbing. Content types are symbolic. A 400 response carries no content type set by the controller; the framework's default is not modelled.
- The tslog logging calls (packages/server-nodejs/src/controllers/ModulesController.ts:31, 50, 59, 76, 84-86) are I/O.
- `ModuleDelivery.ModulesController.GetModule`: the client id arrives as an optional string. Route parameters are strings or absent, so the `typeof` check is the "absent" case.
- User-visible bodies and module contents are strings. The raw byte form of `file.content` is not modelled. JSON numbers are integers, because only the kind of each body element matters.
- The repository (`LocalRepository` / `Standalone`) is not part of this model. Read outcomes and client-id minting are parameters, so entitlement checks and "register then fetch succeeds" are not stated.
- `LocalNode.start`, `RemoteRepository` and `RemoteGateway` are network clients. Starting a node either succeeds or rejects; the choice is left open (a nondeterministic outcome), and nothing else about the start is modelled.
- `ClientBootstrap.ClientState.StartClient`: one atomic step. A `getClient` made while `node.start()` is awaited is modelled as queued before `startClient`, which resolves it as the code does.
- `CachingImplementation.Implementation.constructor`: `lastId` is an unbounded natural number. The JavaScript number's precision limit is not modelled.
- `ClientBootstrap.SetOf`: only membership is kept. JavaScript's `Set` also keeps the first-occurrence order of the list, which `LocalNode` may iterate; a Dafny `set` drops that order.
- `RuntimeImplementation.Implementation.IsPublic`: Dafny datatype fields are visible. That `access` is observable only through `public` is not enforced.
- `RuntimeImplementation.AccessLevel` has the two levels public and private. The `AccessLevels` definition is not part of this model.
- `RuntimeConfiguration.ts` and `NodeConfiguration.ts` are schema-validated configuration holders and are not modelled.
- Gateway routing and version matching are not part of this model.
- Strings are sequences of Unicode scalar values, not UTF-16 code units. When the key `/{clientId}/` is found, `indexOf` and `substring` count in the same unit, so the filename cut is the same either way.
- `ModuleDelivery.ModuleFilename`: when the key is not found, the source cuts at the key's length minus one, counted in UTF-16 code units. The model counts scalar values instead, so the two differ when the id or the path start holds a character outside the Basic Multilingual Plane. For example, with id `abc` and path `/😀xyz`, the source gives `yz` and the model gives `z`.
- `ModuleDelivery.Repository.RegisterClient`: acceptance is a nondeterministic outcome. Why a repository rejects is not part of this model.
