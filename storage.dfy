/** The storage service: the persisted workspace document, its serialised
    form, and the object that decides which of the three backends (the linked
    file, the browser's key-value cache, the desktop shell's app-data file) is
    written or read, and in what order. */
module Storage {
  import opened Wrappers
  import opened Types

  /** Cache key under which the workspace is kept. */
  const StorageKey := "smartlex_workspace"
  /** Schema version written into every document. */
  const SchemaVersion := "1.1.0"

  /** A parsed workspace document. A field is `None` when the key is missing
      from the parsed JSON (JavaScript `undefined`): nothing checks the fields. */
  datatype Document = Document(
    version: Option<string>,
    library: Option<seq<SemanticAnalysis>>,
    history: Option<seq<SemanticAnalysis>>,
    lastSynced: Option<string>)

  /** What `JSON.parse` yields: `null`; a falsy primitive (`false`, `0`, `""`),
      which a truthiness test rejects like `null` but whose keys read as
      `undefined` without throwing; or a truthy value whose workspace keys are
      read. A truthy value that is not an object (a non-zero number, an array, …)
      reads like an object without those keys: a `JObject` whose fields are all `None`. */
  datatype JsonValue = JNull | JFalsy | JObject(doc: Document)

  /** Stored text, described by what parsing it gives. */
  datatype Text = Json(value: JsonValue) | Malformed(raw: string)

  /** `JSON.stringify(doc, null, 2)`. */
  function Stringify(doc: Document): Text {
    Json(JObject(doc))
  }

  /** `JSON.parse(text)`; `None` when it throws. */
  function Parse(text: Text): Option<JsonValue> {
    match text
    case Json(v) => Some(v)
    case Malformed(_) => None
  }

  /** The document `save` and `exportToFile` build. */
  function WorkspaceDocument(library: seq<SemanticAnalysis>, history: seq<SemanticAnalysis>,
                             lastSynced: string): (d: Document)
    ensures d.library.Some? && d.history.Some? && d.version.Some? && d.lastSynced.Some?
    ensures d.version.value == SchemaVersion
    ensures d.library.value == library && d.history.value == history && d.lastSynced.value == lastSynced
  {
    Document(Some(SchemaVersion), Some(library), Some(history), Some(lastSynced))
  }

  /** The document `clearAllData` writes over the app-data file. */
  const EmptyDocument := Document(Some(SchemaVersion), Some([]), Some([]), Some(""))

  /** What parses back out of a serialised document is that document. */
  lemma ParseStringify(doc: Document)
    ensures Parse(Stringify(doc)) == Some(JObject(doc))
  {
  }

  /** `iso.split('T')[0]`: the text before the first 'T'. */
  function DatePart(iso: string): (r: string)
    ensures 'T' !in r
    ensures |r| <= |iso|
    ensures r == iso[..|r|]
    ensures |r| == |iso| || iso[|r|] == 'T'
  {
    if iso == [] || iso[0] == 'T' then ""
    else
      var rest := DatePart(iso[1..]);
      assert iso[..1 + |rest|] == [iso[0]] + iso[1..][..|rest|];
      [iso[0]] + rest
  }

  /** Name of the downloaded backup: `smartlex_workspace_<date>.lex`. */
  function ExportFileName(nowIso: string): (name: string)
    ensures |name| == 23 + |DatePart(nowIso)| <= 23 + |nowIso|
    ensures name[..19] == "smartlex_workspace_" && name[|name| - 4..] == ".lex"
    ensures name[19..|name| - 4] == DatePart(nowIso) && 'T' !in name[19..|name| - 4]
  {
    "smartlex_workspace_" + DatePart(nowIso) + ".lex"
  }

  /** The text `exportToFile` offers for download. */
  function ExportText(library: seq<SemanticAnalysis>, history: seq<SemanticAnalysis>,
                      nowIso: string): Text {
    Stringify(WorkspaceDocument(library, history, nowIso))
  }

  datatype StorageError =
    | Unsupported      // the browser has no `showSaveFilePicker`
    | PickerFailed     // the picker threw something other than an AbortError
    | ReadFailed       // "Failed to read selected file"
    | InvalidFormat    // "Invalid file format…"
    | CacheWriteFailed // `localStorage.setItem` threw (quota); not caught by `save`

  /** `importFromFile`: the parsed value of the file, whatever its fields. */
  function ImportFromFile(content: Text, readOk: bool): (r: Result<JsonValue, StorageError>)
    ensures r.Err? <==> !readOk || content.Malformed?
    ensures r.Err? ==> r.error == InvalidFormat
    ensures r.Ok? ==> Json(r.value) == content
  {
    if !readOk then Err(InvalidFormat)
    else match Parse(content)
      case None => Err(InvalidFormat)
      case Some(v) => Ok(v)
  }

  /** No field of the file is checked: any document that parses is accepted as it is. */
  lemma ImportAcceptsAnyDocument(doc: Document)
    ensures ImportFromFile(Stringify(doc), true) == Ok(JObject(doc))
  {
  }

  /** An exported backup imports back as the same library and history. */
  lemma ExportImportRoundTrip(library: seq<SemanticAnalysis>, history: seq<SemanticAnalysis>,
                              nowIso: string)
    ensures var r := ImportFromFile(ExportText(library, history, nowIso), true);
            r.Ok? && r.value.JObject? &&
            r.value.doc.library == Some(library) && r.value.doc.history == Some(history)
  {
  }

  /** A handle to the user-chosen file: an identity and the display name. */
  datatype FileHandle = FileHandle(fileId: nat, name: string)

  /** `handle.queryPermission({mode: 'readwrite'})`; `QueryThrew` when the call throws. */
  datatype Permission = Granted | Denied | Prompt | QueryThrew

  /** The outcomes `save` meets, one per external call. */
  datatype SaveOracle = SaveOracle(
    permission: Permission,
    linkedWriteOk: bool,   // createWritable / write / close all succeed
    cacheWriteOk: bool,    // localStorage.setItem succeeds
    appDataWriteOk: bool)  // the plugin loads and writeTextFile succeeds

  /** What the file picker did. */
  datatype PickOutcome = Picked(handle: FileHandle) | Aborted | PickThrew

  datatype Backend = LinkedFile | Cache | AppData

  /** One change to a backend, in the order performed. */
  datatype Write = Wrote(backend: Backend, text: Text) | Removed(backend: Backend)

  /** The linked file is written only behind a handle, a granted permission and a
      successful write. */
  predicate LinkedFileWritten(handle: Option<FileHandle>, o: SaveOracle) {
    handle.Some? && o.permission == Granted && o.linkedWriteOk
  }

  /** The app-data file is reached only if the cache write did not throw. */
  predicate AppDataWritten(isTauri: bool, o: SaveOracle) {
    o.cacheWriteOk && isTauri && o.appDataWriteOk
  }

  /** The backend changes of one `save`, in order: linked file, cache, app-data. */
  function SaveWrites(handle: Option<FileHandle>, isTauri: bool, o: SaveOracle, text: Text): (w: seq<Write>)
    ensures Wrote(LinkedFile, text) in w <==> LinkedFileWritten(handle, o)
    ensures Wrote(Cache, text) in w <==> o.cacheWriteOk
    ensures Wrote(AppData, text) in w <==> AppDataWritten(isTauri, o)
    ensures |w| <= 3 && forall k :: 0 <= k < |w| ==> w[k].Wrote?
  {
    (if LinkedFileWritten(handle, o) then [Wrote(LinkedFile, text)] else []) +
    (if o.cacheWriteOk then [Wrote(Cache, text)] else []) +
    (if AppDataWritten(isTauri, o) then [Wrote(AppData, text)] else [])
  }

  /** Every backend one `save` writes receives the same text. */
  lemma SaveWritesOneText(handle: Option<FileHandle>, isTauri: bool, o: SaveOracle, text: Text)
    ensures forall w :: w in SaveWrites(handle, isTauri, o, text) ==> w == Wrote(w.backend, text)
  {
  }

  /** The cache is written whatever happens to the linked file, and a denied
      permission only skips the linked file. */
  lemma CacheWrittenRegardlessOfLink(handle: Option<FileHandle>, isTauri: bool, o: SaveOracle,
                                     text: Text)
    requires o.cacheWriteOk
    ensures Wrote(Cache, text) in SaveWrites(handle, isTauri, o, text)
    ensures o.permission != Granted ==>
              SaveWrites(handle, isTauri, o, text) ==
              [Wrote(Cache, text)] + (if isTauri && o.appDataWriteOk then [Wrote(AppData, text)] else [])
  {
    var w := SaveWrites(handle, isTauri, o, text);
    if LinkedFileWritten(handle, o) {
      assert w[1] == Wrote(Cache, text);
    } else {
      assert w[0] == Wrote(Cache, text);
    }
  }

  /** The writes of one `save` come in the order linked file, cache, app-data. */
  lemma SaveWritesOrdered(handle: Option<FileHandle>, isTauri: bool, o: SaveOracle, text: Text,
                          i: nat, j: nat)
    requires i < j < |SaveWrites(handle, isTauri, o, text)|
    ensures BackendRank(SaveWrites(handle, isTauri, o, text)[i].backend) <
            BackendRank(SaveWrites(handle, isTauri, o, text)[j].backend)
  {
  }

  function BackendRank(b: Backend): nat {
    match b
    case LinkedFile => 0
    case Cache => 1
    case AppData => 2
  }

  /** The text of the chosen file; a file the picker has just created is empty,
      and empty text does not parse. */
  function FileText(files: map<FileHandle, Text>, h: FileHandle): Text {
    if h in files then files[h] else Malformed("")
  }

  /** What `load` returns, `Ok(None)` standing for `null` or another falsy value,
      which the mount effect's truthiness test skips alike. Behind a handle only
      the file is read and any failure throws; without one an absent key or
      unparsable text gives `null`. The app-data file is never read. */
  function LoadResult(handle: Option<FileHandle>, files: map<FileHandle, Text>,
                      cache: map<string, Text>, readOk: bool): (r: Result<Option<Document>, StorageError>)
    ensures r.Err? ==> r.error == ReadFailed && handle.Some?
    ensures r.Ok? && r.value.Some? && handle.Some? ==>
              FileText(files, handle.value) == Json(JObject(r.value.value))
    ensures r.Ok? && r.value.Some? && handle.None? ==>
              StorageKey in cache && cache[StorageKey] == Json(JObject(r.value.value))
    ensures handle.Some? && readOk && FileText(files, handle.value).Json? ==>
              r == if FileText(files, handle.value).value.JObject?
                   then Ok(Some(FileText(files, handle.value).value.doc)) else Ok(None)
    ensures (handle.None? && StorageKey in cache && cache[StorageKey].Json? &&
             cache[StorageKey].value.JObject?) ==>
              r == Ok(Some(cache[StorageKey].value.doc))
    ensures (handle.None? && (StorageKey !in cache || cache[StorageKey].Malformed? ||
                              !cache[StorageKey].value.JObject?)) ==>
              r == Ok(None)
  {
    if handle.Some? then
      var parsed := Parse(FileText(files, handle.value));
      if !readOk || parsed.None? then Err(ReadFailed)
      else if !parsed.value.JObject? then Ok(None)
      else Ok(Some(parsed.value.doc))
    else if StorageKey !in cache then Ok(None)
    else
      match Parse(cache[StorageKey])
      case Some(JObject(d)) => Ok(Some(d))
      case _ => Ok(None)
  }

  /** Without a handle, `load` never fails; behind a handle it never consults the cache. */
  lemma LoadFallbackPolicy(handle: Option<FileHandle>, files: map<FileHandle, Text>,
                           cache: map<string, Text>, cache': map<string, Text>, readOk: bool)
    ensures handle.None? ==> LoadResult(handle, files, cache, readOk).Ok?
    ensures handle.Some? ==> LoadResult(handle, files, cache, readOk) == LoadResult(handle, files, cache', readOk)
    ensures LoadResult(handle, files, cache, readOk).Err? <==>
            handle.Some? && (!readOk || FileText(files, handle.value).Malformed?)
  {
  }

  /** What one save put in the cache loads back (no handle), and what it put in
      the linked file loads back through the handle. */
  lemma SavedDocumentLoadsBack(library: seq<SemanticAnalysis>, history: seq<SemanticAnalysis>,
                               nowIso: string, h: FileHandle, files: map<FileHandle, Text>,
                               cache: map<string, Text>)
    ensures var text := Stringify(WorkspaceDocument(library, history, nowIso));
            LoadResult(None, files, cache[StorageKey := text], true) ==
              Ok(Some(WorkspaceDocument(library, history, nowIso))) &&
            LoadResult(Some(h), files[h := text], cache, true) ==
              Ok(Some(WorkspaceDocument(library, history, nowIso)))
  {
  }

  /** After the cache key is removed, a handle-less load finds nothing. */
  lemma ClearedCacheLoadsNothing(files: map<FileHandle, Text>, cache: map<string, Text>, readOk: bool)
    ensures LoadResult(None, files, cache - {StorageKey}, readOk) == Ok(None)
  {
  }

  /** The storage service object with the backends it reaches. */
  class StorageService {
    /** Running inside the desktop shell (`window.__TAURI_INTERNALS__` is defined). */
    const isTauri: bool
    /** The browser offers `showSaveFilePicker`. */
    const fileApiSupported: bool
    /** The handle of the linked file; held in memory only. */
    var activeHandle: Option<FileHandle>
    /** Contents of the files reachable through handles. */
    var files: map<FileHandle, Text>
    /** The browser's key-value cache (`localStorage`). */
    var cache: map<string, Text>
    /** The app-data file `workspace.lex`; `None` while it does not exist. */
    var appData: Option<Text>
    /** Every backend change so far, in order. */
    ghost var writes: seq<Write>

    constructor(isTauri: bool, fileApiSupported: bool, files: map<FileHandle, Text>,
                cache: map<string, Text>, appData: Option<Text>)
      ensures this.isTauri == isTauri && this.fileApiSupported == fileApiSupported
      ensures this.files == files && this.cache == cache && this.appData == appData
      ensures activeHandle == None && writes == []
    {
      this.isTauri := isTauri;
      this.fileApiSupported := fileApiSupported;
      this.files := files;
      this.cache := cache;
      this.appData := appData;
      activeHandle := None;
      writes := [];
    }

    /** `selectLocalWorkspace`: the chosen file's name, `Ok(None)` when the user
        cancelled. Only a successful pick changes the handle. */
    method SelectLocalWorkspace(pick: PickOutcome) returns (r: Result<Option<string>, StorageError>)
      modifies this`activeHandle
      ensures !fileApiSupported ==> r == Err(Unsupported) && activeHandle == old(activeHandle)
      ensures fileApiSupported && pick.Picked? ==>
                r == Ok(Some(pick.handle.name)) && activeHandle == Some(pick.handle)
      ensures fileApiSupported && pick.Aborted? ==> r == Ok(None) && activeHandle == old(activeHandle)
      ensures fileApiSupported && pick.PickThrew? ==>
                r == Err(PickerFailed) && activeHandle == old(activeHandle)
    {
      if !fileApiSupported {
        return Err(Unsupported);
      }
      match pick
      case Picked(h) =>
        activeHandle := Some(h);
        r := Ok(Some(h.name));
      case Aborted =>
        r := Ok(None);
      case PickThrew =>
        r := Err(PickerFailed);
    }

    /** The state after one `save` of `library` and `history` at `nowIso`, facing
        `o`, started from the handle and backend contents given. */
    ghost predicate SavedOver(handle: Option<FileHandle>, files0: map<FileHandle, Text>,
                              cache0: map<string, Text>, appData0: Option<Text>, writes0: seq<Write>,
                              library: seq<SemanticAnalysis>, history: seq<SemanticAnalysis>,
                              nowIso: string, o: SaveOracle)
      reads this
    {
      var text := Stringify(WorkspaceDocument(library, history, nowIso));
      && activeHandle == handle
      && files == (if LinkedFileWritten(handle, o) then files0[handle.value := text] else files0)
      && cache == (if o.cacheWriteOk then cache0[StorageKey := text] else cache0)
      && appData == (if AppDataWritten(isTauri, o) then Some(text) else appData0)
      && writes == writes0 + SaveWrites(handle, isTauri, o, text)
    }

    /** `save`: writes the linked file (when linked and permitted), then the cache,
        then the app-data file (in the desktop shell). Failures of the linked file
        and of the app-data file are contained; `ok` is false only when the cache
        write threw, which ends the save before the app-data file. */
    method Save(library: seq<SemanticAnalysis>, history: seq<SemanticAnalysis>, nowIso: string,
                o: SaveOracle) returns (ok: bool)
      modifies this`files, this`cache, this`appData, this`writes
      ensures SavedOver(old(activeHandle), old(files), old(cache), old(appData), old(writes),
                        library, history, nowIso, o)
      ensures ok == o.cacheWriteOk
    {
      var text := Stringify(WorkspaceDocument(library, history, nowIso));
      ghost var done: seq<Write> := [];

      // 1. the user-selected file
      if activeHandle.Some? {
        if o.permission != Granted {
          // permission not granted (or the query threw): skipped with a warning
        } else if o.linkedWriteOk {
          files := files[activeHandle.value := text];
          done := done + [Wrote(LinkedFile, text)];
        }
      }

      // 2. the cache, always
      if !o.cacheWriteOk {
        writes := writes + done;
        return false;
      }
      cache := cache[StorageKey := text];
      done := done + [Wrote(Cache, text)];

      // 3. the app-data file inside the desktop shell
      if isTauri && o.appDataWriteOk {
        appData := Some(text);
        done := done + [Wrote(AppData, text)];
      }
      writes := writes + done;
      ok := true;
    }

    /** `load`. */
    method Load(readOk: bool) returns (r: Result<Option<Document>, StorageError>)
      ensures r == LoadResult(activeHandle, files, cache, readOk)
    {
      if activeHandle.Some? {
        if !readOk {
          return Err(ReadFailed);
        }
        var text := if activeHandle.value in files then files[activeHandle.value] else Malformed("");
        match Parse(text) {
          case None => r := Err(ReadFailed);
          case Some(JObject(d)) => r := Ok(Some(d));
          case Some(_) => r := Ok(None);
        }
        return;
      }
      if StorageKey !in cache {
        return Ok(None);
      }
      match Parse(cache[StorageKey])
      case Some(JObject(d)) => r := Ok(Some(d));
      case _ => r := Ok(None);
    }

    /** `clearAllData`: removes the cache key, forgets the handle and, inside the
        desktop shell, overwrites the app-data file with the empty document. */
    method ClearAllData(appDataWriteOk: bool)
      modifies this`cache, this`activeHandle, this`appData, this`writes
      ensures cache == old(cache) - {StorageKey}
      ensures activeHandle == None
      ensures appData == if isTauri && appDataWriteOk then Some(Stringify(EmptyDocument)) else old(appData)
      ensures writes == old(writes) + [Removed(Cache)] +
                        (if isTauri && appDataWriteOk then [Wrote(AppData, Stringify(EmptyDocument))] else [])
    {
      cache := cache - {StorageKey};
      writes := writes + [Removed(Cache)];
      activeHandle := None;
      if isTauri && appDataWriteOk {
        appData := Some(Stringify(EmptyDocument));
        writes := writes + [Wrote(AppData, Stringify(EmptyDocument))];
      }
    }
  }
}
