/**
  The module delivery endpoint: `POST /modules` registers a client against a
  list of segment files, `GET /modules/{clientId}/{path...}` serves one module
  file scoped to a registered client. The request and response objects of the
  HTTP framework are reduced to the values the controller reads and sets.
 */
module ModuleDelivery {
  import opened Wrappers
  import opened JsText

  /** A request body as the JSON body parser delivers it; only the kind of value matters here. */
  datatype JsonValue =
    | JUndefined
    | JNull
    | JBool(b: bool)
    | JNumber(n: int)
    | JString(s: string)
    | JArray(items: seq<JsonValue>)
    | JObject(fields: seq<(string, JsonValue)>)

  /** The content types the controller sets: `ContentTypes.TEXT`, `ContentTypes.JSON`, or the file's own. */
  datatype ContentType = Text | Json | FileType(name: string)

  /** Status code, the content type the controller set (if it set one) and the body sent. */
  datatype Response = Response(status: int, contentType: Option<ContentType>, body: string)

  /** A module file as the repository resolves it. */
  datatype File = File(fileType: string, content: string)

  /** What `readModule` did: returned a file or threw an error of type `E`. */
  datatype ReadOutcome<E> = Found(file: File) | Failed(error: E)

  const InvalidFileList := "Invalid segment file list."
  const InvalidClientId := "Invalid client id."

  /** The segment file list of a registration body: present exactly when the body is an array of strings. */
  function SegmentFileList(body: JsonValue): (files: Option<seq<string>>)
    ensures files.Some? <==>
      body.JArray? && forall i :: 0 <= i < |body.items| ==> body.items[i].JString?
    ensures files.Some? ==>
      |files.value| == |body.items| && forall i :: 0 <= i < |files.value| ==> files.value[i] == body.items[i].s
  {
    if body.JArray? && forall i :: 0 <= i < |body.items| ==> body.items[i].JString? then
      Some(seq(|body.items|, i requires 0 <= i < |body.items| && body.items[i].JString? => body.items[i].s))
    else
      None
  }

  /**
    How the controller answers a registration: the files registered (if any)
    and the response sent (none when the repository rejects the registration,
    since the route handler neither awaits nor catches that promise).
   */
  datatype RegisterHandling = RegisterHandling(registered: Option<seq<string>>, response: Option<Response>)

  /**
    `registerClient` given how the repository settles (`Some(id)` for the id
    it minted, `None` when it rejects): a body that is not an array of strings
    is answered 400 without registering; otherwise the list is registered as it
    is and the id is sent back as text, or, when the repository rejects, nothing
    is registered and nothing is sent.
   */
  function HandleRegisterClient(body: JsonValue, outcome: Option<string>): (h: RegisterHandling)
    ensures SegmentFileList(body).None? ==>
      h.registered.None? && h.response == Some(Response(400, None, InvalidFileList))
    ensures h.registered.Some? <==> SegmentFileList(body).Some? && outcome.Some?
    ensures h.response.None? <==> SegmentFileList(body).Some? && outcome.None?
    ensures h.registered.Some? ==>
      && h.registered == SegmentFileList(body)
      && h.response == Some(Response(200, Some(Text), outcome.value))
  {
    match SegmentFileList(body)
    case None => RegisterHandling(None, Some(Response(400, None, InvalidFileList)))
    case Some(files) =>
      match outcome
      case None => RegisterHandling(None, None)
      case Some(clientId) => RegisterHandling(Some(files), Some(Response(200, Some(Text), clientId)))
  }

  /** A client id the controller accepts: present, a string, and of the shape `validate` admits. */
  predicate AcceptedClientId(clientId: Option<string>, validate: string -> bool)
  {
    clientId.Some? && validate(clientId.value)
  }

  /** The key the filename follows in the request path. */
  function PathKey(clientId: string): string
  {
    "/" + clientId + "/"
  }

  /**
    The module filename cut out of the request path: everything after the
    first occurrence of `/{clientId}/`. When the key does not occur, `indexOf`
    gives -1 and the cut starts at the key's length minus one.
   */
  function ModuleFilename(path: string, clientId: string): (filename: string)
    ensures IsSuffix(filename, path)
    ensures var i := IndexOf(path, PathKey(clientId));
      i >= 0 ==> path == path[..i] + PathKey(clientId) + filename
    ensures IndexOf(path, PathKey(clientId)) == -1 ==> filename == Substring(path, |clientId| + 1)
  {
    var pathKey := PathKey(clientId);
    var pathIndex := IndexOf(path, pathKey) + |pathKey|;
    var filename := Substring(path, pathIndex);
    assert IndexOf(path, pathKey) >= 0 ==>
      path == path[..IndexOf(path, pathKey)] + path[IndexOf(path, pathKey)..pathIndex] + path[pathIndex..];
    filename
  }

  /** How the controller answers a module fetch: the `readModule` call it made (if any) and the response. */
  datatype FetchHandling = FetchHandling(readCall: Option<(string, string)>, response: Response)

  /**
    `getModule` given the repository's behaviour: a rejected client id is
    answered 400 without reading; otherwise the repository is asked once for the
    filename after `/{clientId}/`, and its file is sent with status 200 and the
    file's content type, or its error is serialized and sent as JSON with 500.
   */
  function HandleGetModule<E>(
    clientId: Option<string>, path: string,
    validate: string -> bool, readModule: (string, string) -> ReadOutcome<E>, serialize: E -> string): (h: FetchHandling)
    ensures h.readCall.None? <==> !AcceptedClientId(clientId, validate)
    ensures h.readCall.None? ==> h.response == Response(400, None, InvalidClientId)
    ensures h.readCall.Some? ==> h.readCall.value == (ModuleFilename(path, clientId.value), clientId.value)
    ensures h.response.status == 200 <==> h.readCall.Some? && readModule(h.readCall.value.0, h.readCall.value.1).Found?
    ensures h.response.status == 500 <==> h.readCall.Some? && readModule(h.readCall.value.0, h.readCall.value.1).Failed?
    ensures h.response.status == 200 ==>
      var file := readModule(h.readCall.value.0, h.readCall.value.1).file;
      h.response == Response(200, Some(FileType(file.fileType)), file.content)
    ensures h.response.status == 500 ==>
      var error := readModule(h.readCall.value.0, h.readCall.value.1).error;
      h.response == Response(500, Some(Json), serialize(error))
  {
    if !AcceptedClientId(clientId, validate) then
      FetchHandling(None, Response(400, None, InvalidClientId))
    else
      var filename := ModuleFilename(path, clientId.value);
      var response := (
        match readModule(filename, clientId.value)
        case Found(file) => Response(200, Some(FileType(file.fileType)), file.content)
        case Failed(error) => Response(500, Some(Json), serialize(error)));
      FetchHandling(Some((filename, clientId.value)), response)
  }

  /**
    For the route's own path shape `/modules/{clientId}/{filename}` the filename
    cut out is exactly the requested one, when the client id holds no `/` and
    is not `modules` itself.
   */
  lemma ModulesPathFilename(clientId: string, filename: string)
    requires '/' !in clientId && clientId != "modules"
    ensures ModuleFilename("/modules/" + clientId + "/" + filename, clientId) == filename
  {
    var key := PathKey(clientId);
    var head := "/modules/";
    var path := head + clientId + "/" + filename;
    assert path == "/modules" + key + filename;
    assert path[8..8 + |key|] == key;
    assert OccursAt(path, key, 8);
    assert key[0] == '/' && key[|clientId| + 1] == '/';
    forall k | 0 <= k < 9
      ensures path[k] == head[k]
    {
    }
    forall j | 0 < j < 8
      ensures !OccursAt(path, key, j)
    {
      assert path[j] == head[j] != '/';
      MismatchAt(path, key, j, 0);
    }
    if |clientId| < 7 {
      assert path[|clientId| + 1] == head[|clientId| + 1] != '/';
      MismatchAt(path, key, 0, |clientId| + 1);
    } else if |clientId| == 7 {
      assert exists k :: 0 <= k < 7 && clientId[k] != "modules"[k];
      var k :| 0 <= k < 7 && clientId[k] != "modules"[k];
      assert path[k + 1] == head[k + 1] == "modules"[k];
      assert key[k + 1] == clientId[k];
      MismatchAt(path, key, 0, k + 1);
    } else {
      assert clientId[7] in clientId;
      assert key[8] == clientId[7] != '/';
      assert path[8] == '/';
      MismatchAt(path, key, 0, 8);
    }
    assert IndexOf(path, key) == 8;
  }

  /** One differing character rules an occurrence out. */
  lemma MismatchAt(s: string, key: string, i: nat, k: nat)
    requires k < |key| && (i + k >= |s| || s[i + k] != key[k])
    ensures !OccursAt(s, key, i)
  {
    if i + |key| <= |s| {
      assert s[i..i + |key|][k] == s[i + k];
    }
  }

  /** A client id `modules` is found at the start of the path, so the cut keeps a `modules/` prefix. */
  lemma ModulesClientIdFilename(filename: string)
    ensures ModuleFilename("/modules/modules/" + filename, "modules") == "modules/" + filename
  {
    var path := "/modules/modules/" + filename;
    assert path[0..9] == PathKey("modules");
    assert OccursAt(path, PathKey("modules"), 0);
    assert path[9..] == "modules/" + filename;
  }

  /**
    The repository behind the controller: every call to `registerClient` is
    logged, the registrations it accepts are appended in order and the n-th one
    gets the id `mintClientId(n)`; `readModule` answers as `resolve` says, and
    every call to it is logged.
   */
  class Repository<E> {
    var registrations: seq<seq<string>>
    var registerCalls: seq<seq<string>>
    var readCalls: seq<(string, string)>
    const mintClientId: nat -> string
    const resolve: (string, string) -> ReadOutcome<E>

    constructor(mintClientId: nat -> string, resolve: (string, string) -> ReadOutcome<E>)
      ensures registrations == [] && registerCalls == [] && readCalls == []
      ensures this.mintClientId == mintClientId && this.resolve == resolve
    {
      registrations := [];
      registerCalls := [];
      readCalls := [];
      this.mintClientId := mintClientId;
      this.resolve := resolve;
    }

    /** Registers `files` and gives the minted id, or rejects (`None`) and registers nothing. */
    method RegisterClient(files: seq<string>) returns (clientId: Option<string>)
      modifies this
      ensures clientId.Some? ==>
        registrations == old(registrations) + [files] && clientId.value == mintClientId(|old(registrations)|)
      ensures clientId.None? ==> registrations == old(registrations)
      ensures registerCalls == old(registerCalls) + [files]
      ensures readCalls == old(readCalls)
    {
      registerCalls := registerCalls + [files];
      var accepted: bool := *;
      if accepted {
        clientId := Some(mintClientId(|registrations|));
        registrations := registrations + [files];
      } else {
        clientId := None;
      }
    }

    method ReadModule(filename: string, clientId: string) returns (outcome: ReadOutcome<E>)
      modifies this
      ensures outcome == resolve(filename, clientId)
      ensures readCalls == old(readCalls) + [(filename, clientId)]
      ensures registrations == old(registrations) && registerCalls == old(registerCalls)
    {
      outcome := resolve(filename, clientId);
      readCalls := readCalls + [(filename, clientId)];
    }
  }

  class ModulesController<E> {
    const repository: Repository<E>
    const serialize: E -> string
    const validate: string -> bool

    constructor(repository: Repository<E>, serialize: E -> string, validate: string -> bool)
      ensures this.repository == repository && this.serialize == serialize && this.validate == validate
    {
      this.repository := repository;
      this.serialize := serialize;
      this.validate := validate;
    }

    /**
      `POST /modules`: registers the body's file list, at most once, and answers
      as `HandleRegisterClient` with the way the repository settled, which shows
      in whether a registration was added.
     */
    method RegisterClient(body: JsonValue) returns (response: Option<Response>)
      modifies repository
      ensures var n := |old(repository.registrations)|;
        var outcome := if |repository.registrations| == n then None else Some(repository.mintClientId(n));
        var h := HandleRegisterClient(body, outcome);
        && response == h.response
        && repository.registrations ==
           if h.registered.Some? then old(repository.registrations) + [h.registered.value]
           else old(repository.registrations)
      ensures repository.registerCalls ==
        if SegmentFileList(body).Some? then old(repository.registerCalls) + [SegmentFileList(body).value]
        else old(repository.registerCalls)
      ensures repository.readCalls == old(repository.readCalls)
    {
      if !body.JArray? {
        return Some(Response(400, None, InvalidFileList));
      }
      var items := body.items;
      var segmentFiles: seq<string> := [];
      for i := 0 to |items|
        invariant forall j :: 0 <= j < i ==> items[j].JString?
        invariant |segmentFiles| == i
        invariant forall j :: 0 <= j < i ==> segmentFiles[j] == items[j].s
      {
        if !items[i].JString? {
          return Some(Response(400, None, InvalidFileList));
        }
        segmentFiles := segmentFiles + [items[i].s];
      }
      assert forall j :: 0 <= j < |body.items| ==> body.items[j].JString?;
      assert SegmentFileList(body).value == segmentFiles;
      var clientId := repository.RegisterClient(segmentFiles);
      match clientId {
        case None =>
          response := None;
        case Some(id) =>
          response := Some(Response(200, Some(Text), id));
      }
    }

    /** `GET /modules/{clientId}/{path...}`: reads at most one module and answers as `HandleGetModule`. */
    method GetModule(clientId: Option<string>, path: string) returns (response: Response)
      modifies repository
      ensures var h := HandleGetModule(clientId, path, validate, repository.resolve, serialize);
        && response == h.response
        && repository.readCalls ==
           if h.readCall.Some? then old(repository.readCalls) + [h.readCall.value] else old(repository.readCalls)
      ensures repository.registrations == old(repository.registrations)
      ensures repository.registerCalls == old(repository.registerCalls)
    {
      if clientId.None? || !validate(clientId.value) {
        return Response(400, None, InvalidClientId);
      }
      var id := clientId.value;
      var pathKey := PathKey(id);
      var pathIndex := IndexOf(path, pathKey) + |pathKey|;
      var filename := Substring(path, pathIndex);
      var outcome := repository.ReadModule(filename, id);
      match outcome {
        case Found(file) =>
          response := Response(200, Some(FileType(file.fileType)), file.content);
        case Failed(error) =>
          response := Response(500, Some(Json), serialize(error));
      }
    }
  }
}
