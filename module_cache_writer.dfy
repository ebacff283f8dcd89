/**
  The build step that persists the three variants of one application module:
  the standalone variant under the module's own filename, the local variant
  under the local-variant filename and, only for a module that belongs to a
  segment, the remote stub under the remote-variant filename.
 */
module ModuleCaching {
  import opened Wrappers
  import opened JsText

  datatype ExportedClass = ExportedClass(name: string)

  datatype ModuleContent = ModuleContent(exportedClasses: seq<ExportedClass>)

  datatype Module = Module(filename: string, code: string, content: ModuleContent)

  /** One unit of work: a module and, when it belongs to a segment, its segment view `S`. */
  datatype ModuleCache<S> = ModuleCache(mod: Module, segment: Option<S>)

  /**
    The collaborators the writer calls into, left uninterpreted:
    `ImportRewriter.rewrite(code, rewriteAll)`, `convertToLocalFilename`,
    `convertToRemoteFilename` and `RemoteBuilder.build`.
   */
  datatype Toolchain<!S> = Toolchain(
    rewrite: (string, bool) -> string,
    localFilename: string -> string,
    remoteFilename: string -> string,
    buildRemote: S -> string)

  /** The debug statement binding one exported class to the module's filename. */
  function SourceTag(className: string, filename: string): string
  {
    className + ".source = \"" + filename + "\";"
  }

  /** One source tag per exported class, in export order. */
  function SourceTags(m: Module): (tags: seq<string>)
    ensures |tags| == |m.content.exportedClasses|
    ensures forall i :: 0 <= i < |tags| ==>
      tags[i] == SourceTag(m.content.exportedClasses[i].name, m.filename)
  {
    var classes := m.content.exportedClasses;
    seq(|classes|, i requires 0 <= i < |classes| => SourceTag(classes[i].name, m.filename))
  }

  /**
    `#createSourceCode`: the source tags joined by line breaks. It is empty
    exactly when no class is exported, and otherwise starts with the first tag.
   */
  function SourceCode(m: Module): (code: string)
    ensures code == [] <==> m.content.exportedClasses == []
    ensures m.content.exportedClasses != [] ==>
      SourceTag(m.content.exportedClasses[0].name, m.filename) <= code
  {
    var tags := SourceTags(m);
    assert |tags| > 1 ==> Join(tags, "\n") == tags[0] + "\n" + Join(tags[1..], "\n");
    Join(tags, "\n")
  }

  /** The standalone variant: application imports rewritten, followed by the source tags, trimmed. */
  function StandaloneCode<S>(tools: Toolchain<S>, m: Module): string
  {
    Trim(tools.rewrite(m.code, false) + "\n" + SourceCode(m))
  }

  /** The local variant: all imports rewritten, followed by the source tags, trimmed. */
  function LocalCode<S>(tools: Toolchain<S>, m: Module): string
  {
    Trim(tools.rewrite(m.code, true) + "\n" + SourceCode(m))
  }

  /** The remote variant: the stub built from the segment view, trimmed. */
  function RemoteCode<S>(tools: Toolchain<S>, segment: S): string
  {
    Trim(tools.buildRemote(segment))
  }

  /** The target filenames differ from each other; the remote one is only issued for a segment module. */
  predicate DistinctTargets<S>(tools: Toolchain<S>, cache: ModuleCache<S>)
  {
    var f := cache.mod.filename;
    && f != tools.localFilename(f)
    && (cache.segment.Some? ==> f != tools.remoteFilename(f) && tools.localFilename(f) != tools.remoteFilename(f))
  }

  /** Every file one `write` issues, by filename. */
  function Artifacts<S>(tools: Toolchain<S>, cache: ModuleCache<S>): map<string, string>
  {
    var f := cache.mod.filename;
    var both := map[f := StandaloneCode(tools, cache.mod)][tools.localFilename(f) := LocalCode(tools, cache.mod)];
    match cache.segment
    case None => both
    case Some(segment) => both[tools.remoteFilename(f) := RemoteCode(tools, segment)]
  }

  /**
    The store after a set of writes has been issued: every write whose path is
    not refused has replaced that file wholesale; a refused write leaves its
    file as it was, and nothing is rolled back.
   */
  function Stored(store: map<string, string>, writes: map<string, string>, refused: set<string>): (r: map<string, string>)
    ensures forall k :: k in writes && k !in refused ==> k in r && r[k] == writes[k]
    ensures forall k :: !(k in writes && k !in refused) ==> (k in r <==> k in store)
    ensures forall k :: k in store && !(k in writes && k !in refused) ==> r[k] == store[k]
  {
    store + map k | k in writes.Keys - refused :: writes[k]
  }

  /** Issuing a single write. */
  lemma StoredOne(store: map<string, string>, k: string, v: string, refused: set<string>)
    ensures Stored(store, map[k := v], refused) == if k in refused then store else store[k := v]
  {
  }

  /** Issuing one more write to a fresh path applies it on top of the others. */
  lemma StoredExtend(store: map<string, string>, writes: map<string, string>, k: string, v: string, refused: set<string>)
    requires k !in writes
    ensures Stored(store, writes[k := v], refused) ==
      var before := Stored(store, writes, refused);
      if k in refused then before else before[k := v]
  {
  }

  /** The store behind `FileManager`: a filename-to-content map whose writes to `refused` paths fail. */
  class FileManager {
    var files: map<string, string>
    const refused: set<string>

    constructor(files: map<string, string>, refused: set<string>)
      ensures this.files == files && this.refused == refused
    {
      this.files := files;
      this.refused := refused;
    }

    /** Replaces the file wholesale, or fails and leaves the store as it was. */
    method Write(filename: string, content: string) returns (ok: bool)
      modifies this
      ensures ok == (filename !in refused)
      ensures files == if ok then old(files)[filename := content] else old(files)
    {
      ok := filename !in refused;
      if ok {
        files := files[filename := content];
      }
    }
  }

  class ModuleCacheWriter<S> {
    const fileManager: FileManager
    const tools: Toolchain<S>

    constructor(fileManager: FileManager, tools: Toolchain<S>)
      ensures this.fileManager == fileManager && this.tools == tools
    {
      this.fileManager := fileManager;
      this.tools := tools;
    }

    /**
      Issues the standalone, local and (for a segment module) remote writes;
      succeeds only when every issued write succeeds.
     */
    method Write(cache: ModuleCache<S>) returns (ok: bool)
      requires DistinctTargets(tools, cache)
      modifies fileManager
      ensures ok == (Artifacts(tools, cache).Keys !! fileManager.refused)
      ensures fileManager.files == Stored(old(fileManager.files), Artifacts(tools, cache), fileManager.refused)
    {
      var f := cache.mod.filename;
      var refused := fileManager.refused;
      var standalone := map[f := StandaloneCode(tools, cache.mod)];
      var both := standalone[tools.localFilename(f) := LocalCode(tools, cache.mod)];
      StoredOne(old(fileManager.files), f, StandaloneCode(tools, cache.mod), refused);
      var original := WriteOriginal(cache);
      assert fileManager.files == Stored(old(fileManager.files), standalone, refused);
      StoredExtend(old(fileManager.files), standalone, tools.localFilename(f), LocalCode(tools, cache.mod), refused);
      var local := WriteLocal(cache);
      assert fileManager.files == Stored(old(fileManager.files), both, refused);
      if cache.segment.Some? {
        StoredExtend(old(fileManager.files), both, tools.remoteFilename(f), RemoteCode(tools, cache.segment.value), refused);
      }
      var remote := WriteRemote(cache);
      ok := original && local && remote;
    }

    method WriteOriginal(cache: ModuleCache<S>) returns (ok: bool)
      modifies fileManager
      ensures ok == (cache.mod.filename !in fileManager.refused)
      ensures fileManager.files ==
        if ok then old(fileManager.files)[cache.mod.filename := StandaloneCode(tools, cache.mod)]
        else old(fileManager.files)
    {
      var importCode := tools.rewrite(cache.mod.code, false);
      var sourceCode := SourceCode(cache.mod);
      var filename := cache.mod.filename;
      var code := importCode + "\n" + sourceCode;
      ok := fileManager.Write(filename, Trim(code));
    }

    method WriteLocal(cache: ModuleCache<S>) returns (ok: bool)
      modifies fileManager
      ensures ok == (tools.localFilename(cache.mod.filename) !in fileManager.refused)
      ensures fileManager.files ==
        if ok then old(fileManager.files)[tools.localFilename(cache.mod.filename) := LocalCode(tools, cache.mod)]
        else old(fileManager.files)
    {
      var importCode := tools.rewrite(cache.mod.code, true);
      var sourceCode := SourceCode(cache.mod);
      var filename := tools.localFilename(cache.mod.filename);
      var code := importCode + "\n" + sourceCode;
      ok := fileManager.Write(filename, Trim(code));
    }

    /** Writes nothing and succeeds when the module has no segment. */
    method WriteRemote(cache: ModuleCache<S>) returns (ok: bool)
      modifies fileManager
      ensures cache.segment.None? ==> ok && fileManager.files == old(fileManager.files)
      ensures cache.segment.Some? ==>
        var filename := tools.remoteFilename(cache.mod.filename);
        && ok == (filename !in fileManager.refused)
        && fileManager.files ==
           if ok then old(fileManager.files)[filename := RemoteCode(tools, cache.segment.value)]
           else old(fileManager.files)
    {
      if cache.segment.None? {
        return true;
      }
      var filename := tools.remoteFilename(cache.mod.filename);
      var code := tools.buildRemote(cache.segment.value);
      ok := fileManager.Write(filename, Trim(code));
    }
  }

  /**
    `write` targets exactly the standalone and local filenames, plus the remote
    filename when and only when the module has a segment: two or three files.
   */
  lemma ArtifactsExactly<S>(tools: Toolchain<S>, cache: ModuleCache<S>)
    requires DistinctTargets(tools, cache)
    ensures var f := cache.mod.filename;
      Artifacts(tools, cache).Keys ==
        {f, tools.localFilename(f)} + (if cache.segment.Some? then {tools.remoteFilename(f)} else {})
    ensures |Artifacts(tools, cache)| == if cache.segment.Some? then 3 else 2
  {
    var f := cache.mod.filename;
    var l := tools.localFilename(f);
    var a := Artifacts(tools, cache);
    var both := map[f := StandaloneCode(tools, cache.mod)][l := LocalCode(tools, cache.mod)];
    assert both.Keys == {f, l};
    assert |{f, l}| == 2 by {
      assert {f, l} == {f} + {l};
    }
    assert |both| == 2 by {
      assert |both| == |both.Keys|;
    }
    match cache.segment
    case None =>
      assert a == both;
    case Some(segment) =>
      var r := tools.remoteFilename(f);
      assert a == both[r := RemoteCode(tools, segment)];
      assert r !in both;
  }

  /** What `write` stores under each filename: the source-tagged rewrites and the trimmed remote stub. */
  lemma ArtifactContents<S>(tools: Toolchain<S>, cache: ModuleCache<S>)
    requires DistinctTargets(tools, cache)
    ensures var f := cache.mod.filename; var a := Artifacts(tools, cache);
      && a[f] == Trim(tools.rewrite(cache.mod.code, false) + "\n" + SourceCode(cache.mod))
      && a[tools.localFilename(f)] == Trim(tools.rewrite(cache.mod.code, true) + "\n" + SourceCode(cache.mod))
      && (cache.segment.Some? ==> a[tools.remoteFilename(f)] == Trim(tools.buildRemote(cache.segment.value)))
  {
  }

  /**
    A module without a segment never gets a remote variant: what `write` issues
    for it does not depend on the remote naming or on the stub builder.
   */
  lemma NoSegmentNoRemote<S>(tools: Toolchain<S>, other: Toolchain<S>, cache: ModuleCache<S>)
    requires cache.segment.None?
    requires other.rewrite == tools.rewrite && other.localFilename == tools.localFilename
    ensures Artifacts(tools, cache) == Artifacts(other, cache)
  {
  }

  /** Writing the same cache again over the result of a write changes nothing. */
  lemma StoredIdempotent(store: map<string, string>, writes: map<string, string>, refused: set<string>)
    ensures Stored(Stored(store, writes, refused), writes, refused) == Stored(store, writes, refused)
  {
  }

  /** Every file a successful write leaves depends on the cache alone, not on the store before. */
  lemma StoredDeterministic(s1: map<string, string>, s2: map<string, string>, writes: map<string, string>, refused: set<string>)
    requires writes.Keys !! refused
    ensures forall k :: k in writes ==> Stored(s1, writes, refused)[k] == Stored(s2, writes, refused)[k] == writes[k]
  {
  }

  /** Neither the filename nor a class name contains a line break. */
  predicate SingleLineNames(m: Module)
  {
    '\n' !in m.filename && forall c :: c in m.content.exportedClasses ==> '\n' !in c.name
  }

  /**
    The source code is exactly one line `Name.source = "filename";` per exported
    class, in export order: splitting it at line breaks gives the tags back.
   */
  lemma SourceCodeLines(m: Module)
    requires |m.content.exportedClasses| >= 1 && SingleLineNames(m)
    ensures Split(SourceCode(m), '\n') == SourceTags(m)
  {
    var tags := SourceTags(m);
    var classes := m.content.exportedClasses;
    forall i | 0 <= i < |tags| ensures '\n' !in tags[i] {
      assert classes[i] in classes;
      assert tags[i] == classes[i].name + ".source = \"" + m.filename + "\";";
    }
    SplitJoin(tags, '\n');
  }

  /** A class name that is non-empty and free of white space, as a JavaScript identifier is. */
  predicate IdentifierLike(name: string)
  {
    name != [] && forall k :: 0 <= k < |name| ==> !IsWhiteSpace(name[k])
  }

  /**
    Trimming never cuts into the source tags: a variant of a module that exports
    classes is the rewritten code, stripped of leading white space, followed by
    a line break and the tags.
   */
  lemma TagsSurviveTrim(rewritten: string, m: Module)
    requires |m.content.exportedClasses| >= 1
    requires IdentifierLike(m.content.exportedClasses[0].name)
    ensures Trim(rewritten + "\n" + SourceCode(m)) == TrimStart(rewritten + "\n") + SourceCode(m)
  {
    var tags := SourceTags(m);
    var code := SourceCode(m);
    var first := m.content.exportedClasses[0].name;
    assert tags[0] == first + ".source = \"" + m.filename + "\";";
    assert |tags| > 1 ==> code == tags[0] + "\n" + Join(tags[1..], "\n");
    assert code[0] == first[0];
    assert code[|code| - 1] == ';' by {
      JoinEndsWithLast(tags, "\n");
    }
    TrimStartKeepsSuffix(rewritten + "\n", code);
    assert rewritten + "\n" + code == (rewritten + "\n") + code;
    TrimOfNonBlankEnd(rewritten + "\n" + code);
  }

  /** A join of tags ends with the last character of the last tag. */
  lemma {:induction false} JoinEndsWithLast(tags: seq<string>, sep: string)
    requires |tags| >= 1 && tags[|tags| - 1] != []
    ensures var j := Join(tags, sep); |j| > 0 && j[|j| - 1] == tags[|tags| - 1][|tags[|tags| - 1]| - 1]
    decreases |tags|
  {
    if |tags| > 1 {
      JoinEndsWithLast(tags[1..], sep);
    }
  }
}
