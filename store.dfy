/** The workspace store: the five state cells the application shares
    (library, history, current analysis, last-saved stamp, linked file name),
    the list transforms its actions apply, and the actions themselves, which
    call into the storage service. */
module Store {
  import opened Wrappers
  import opened Lists
  import opened Types
  import opened Storage

  /** `prev.find(i => i.id === item.id) ? prev : [...prev, item]`. */
  function AddedToLibrary(library: seq<SemanticAnalysis>, item: SemanticAnalysis): (r: seq<SemanticAnalysis>)
    ensures HasId(r, item.id)
    ensures HasId(library, item.id) ==> r == library
    ensures !HasId(library, item.id) ==> r == library + [item]
    ensures UniqueIds(library) ==> UniqueIds(r)
  {
    if HasId(library, item.id) then library
    else
      assert (library + [item])[|library|] == item;
      library + [item]
  }

  /** Adding the same record twice is adding it once. */
  lemma AddToLibraryIdempotent(library: seq<SemanticAnalysis>, item: SemanticAnalysis)
    ensures AddedToLibrary(AddedToLibrary(library, item), item) == AddedToLibrary(library, item)
  {
  }

  /** Adding the records of `items` one after another. */
  function AddedAll(library: seq<SemanticAnalysis>, items: seq<SemanticAnalysis>): seq<SemanticAnalysis>
    decreases |items|
  {
    if items == [] then library
    else AddedAll(AddedToLibrary(library, items[0]), items[1..])
  }

  /** However many records are added, no identity ever appears twice, every
      added identity is present, and the old entries stay as a prefix. */
  lemma {:induction false} AddedAllKeepsIdsUnique(library: seq<SemanticAnalysis>, items: seq<SemanticAnalysis>)
    requires UniqueIds(library)
    ensures UniqueIds(AddedAll(library, items))
    ensures forall k :: 0 <= k < |items| ==> HasId(AddedAll(library, items), items[k].id)
    ensures library <= AddedAll(library, items)
    decreases |items|
  {
    if items != [] {
      var next := AddedToLibrary(library, items[0]);
      AddedAllKeepsIdsUnique(next, items[1..]);
      var r := AddedAll(library, items);
      AddedAllKeepsPrefix(next, items[1..]);
      forall k | 0 <= k < |items| ensures HasId(r, items[k].id) {
        if k == 0 {
          var m :| 0 <= m < |next| && next[m].id == items[0].id;
          assert r[m] == next[m];
        } else {
          assert items[k] == items[1..][k - 1];
        }
      }
    }
  }

  lemma {:induction false} AddedAllKeepsPrefix(library: seq<SemanticAnalysis>, items: seq<SemanticAnalysis>)
    ensures library <= AddedAll(library, items)
    decreases |items|
  {
    if items != [] {
      AddedAllKeepsPrefix(AddedToLibrary(library, items[0]), items[1..]);
    }
  }

  /** `prev.map(item => item.id === updated.id ? updated : item)`. */
  function ReplacedById(s: seq<SemanticAnalysis>, updated: SemanticAnalysis): (r: seq<SemanticAnalysis>)
    ensures |r| == |s|
    ensures forall k :: 0 <= k < |s| ==> r[k].id == s[k].id
    ensures forall k :: 0 <= k < |s| && s[k].id != updated.id ==> r[k] == s[k]
    ensures forall k :: 0 <= k < |s| && s[k].id == updated.id ==> r[k] == updated
    ensures !HasId(s, updated.id) ==> r == s
    ensures UniqueIds(s) ==> UniqueIds(r)
  {
    seq(|s|, k requires 0 <= k < |s| => if s[k].id == updated.id then updated else s[k])
  }

  /** Applying the same update twice is applying it once. */
  lemma ReplaceIdempotent(s: seq<SemanticAnalysis>, updated: SemanticAnalysis)
    ensures ReplacedById(ReplacedById(s, updated), updated) == ReplacedById(s, updated)
  {
  }

  /** An update reaches the list exactly when its identity is present. */
  lemma ReplaceReachesIff(s: seq<SemanticAnalysis>, updated: SemanticAnalysis)
    ensures updated in ReplacedById(s, updated) <==> HasId(s, updated.id) || updated in s
  {
    var r := ReplacedById(s, updated);
    if HasId(s, updated.id) {
      var k :| 0 <= k < |s| && s[k].id == updated.id;
      assert r[k] == updated;
    }
    if updated in r && !HasId(s, updated.id) {
      assert r == s;
    }
  }

  /** `prev && prev.id === updated.id ? updated : prev`. */
  function RefreshedCurrent(current: Option<SemanticAnalysis>, updated: SemanticAnalysis): (r: Option<SemanticAnalysis>)
    ensures r.Some? <==> current.Some?
    ensures current.Some? && current.value.id == updated.id ==> r == Some(updated)
    ensures current.Some? && current.value.id != updated.id ==> r == current
  {
    if current.Some? && current.value.id == updated.id then Some(updated) else current
  }

  /** `prev.filter(item => item.id !== id)`. */
  function WithoutId(library: seq<SemanticAnalysis>, id: string): (r: seq<SemanticAnalysis>)
    ensures !HasId(r, id)
    ensures forall x :: x in r <==> x in library && x.id != id
    ensures !HasId(library, id) ==> r == library
  {
    Filter(library, (x: SemanticAnalysis) => x.id != id)
  }

  /** Deleting keeps the remaining entries in their order, keeps every copy of
      them, and keeps identities unique. */
  lemma DeleteKeepsOrder(library: seq<SemanticAnalysis>, id: string)
    ensures Subsequence(WithoutId(library, id), library)
    ensures forall x: SemanticAnalysis :: x.id != id ==> multiset(WithoutId(library, id))[x] == multiset(library)[x]
    ensures UniqueIds(library) ==> UniqueIds(WithoutId(library, id))
  {
    FilterIsSubsequence(library, (x: SemanticAnalysis) => x.id != id);
    if UniqueIds(library) {
      SubsequenceKeepsUniqueIds(WithoutId(library, id), library);
    }
  }

  /** A list obtained by deleting entries from one with unique identities has unique identities. */
  lemma {:induction false} SubsequenceKeepsUniqueIds(r: seq<SemanticAnalysis>, s: seq<SemanticAnalysis>)
    requires Subsequence(r, s) && UniqueIds(s)
    ensures UniqueIds(r)
    decreases |s|
  {
    if r != [] {
      var s0, r0 := s[..|s| - 1], r[..|r| - 1];
      assert s == s0 + [s[|s| - 1]] && r == r0 + [r[|r| - 1]];
      assert UniqueIds(s0);
      if r[|r| - 1] == s[|s| - 1] && Subsequence(r0, s0) {
        SubsequenceKeepsUniqueIds(r0, s0);
        SubsequenceMembers(r0, s0);
        forall i, j | 0 <= i < j < |r| ensures r[i].id != r[j].id {
          if j == |r| - 1 {
            assert r[i] == r0[i] && r0[i] in s0;
            var m :| 0 <= m < |s0| && s0[m] == r0[i];
            assert s[m] == s0[m];
          } else {
            assert r[i] == r0[i] && r[j] == r0[j];
          }
        }
      } else {
        SubsequenceKeepsUniqueIds(r, s0);
      }
    }
  }

  /** A last-saved stamp: the `toISOString()` of a clock reading, never empty. */
  type Stamp = s: string | s != [] witness "1970-01-01T00:00:00.000Z"

  /** The last-saved cell holds a non-empty stamp. */
  predicate Stamped(lastSaved: Option<string>) {
    lastSaved.Some? && lastSaved.value != ""
  }

  /** The autosave guard: both debounced lists empty and no (or an empty)
      last-saved stamp. Once the cell is stamped no change is ever skipped;
      before that, exactly the two empty lists are. */
  predicate AutosaveSkipped(library: seq<SemanticAnalysis>, history: seq<SemanticAnalysis>,
                            lastSaved: Option<string>): (skip: bool)
    ensures skip ==> library == [] && history == []
    ensures Stamped(lastSaved) ==> !skip
    ensures !Stamped(lastSaved) && library == [] && history == [] ==> skip
  {
    |library| == 0 && |history| == 0 && (lastSaved.None? || lastSaved.value == "")
  }

  /** What `importWorkspace` stores in the two list cells, as written: the
      document's `library` and `history` as they are, `None` standing for
      `undefined`. `None` overall when reading a field throws (a `null` document);
      the keys of a falsy primitive read as `undefined`. */
  function ImportedCellsAsWritten(v: JsonValue): (r: Option<(Option<seq<SemanticAnalysis>>, Option<seq<SemanticAnalysis>>)>)
    ensures r.None? <==> v.JNull?
    ensures v.JObject? ==> r == Some((v.doc.library, v.doc.history))
    ensures v.JFalsy? ==> r == Some((None, None))
  {
    match v
    case JNull => None
    case JFalsy => Some((None, None))
    case JObject(d) => Some((d.library, d.history))
  }

  /** A file that parses but has no `library` key is accepted, and the library
      cell then holds `undefined` rather than a list. */
  lemma ImportStoresUndefined(history: seq<SemanticAnalysis>)
    ensures var text := Stringify(Document(Some(SchemaVersion), None, Some(history), None));
            var parsed := ImportFromFile(text, true);
            parsed.Ok? && ImportedCellsAsWritten(parsed.value) == Some((None, Some(history)))
  {
  }

  /** The corrected import: a document is accepted only when it is an object
      carrying both lists, which it then supplies; anything else is an invalid
      document and leaves the store as it was. */
  function ImportedLists(v: JsonValue): (r: Option<(seq<SemanticAnalysis>, seq<SemanticAnalysis>)>)
    ensures r.Some? <==> v.JObject? && v.doc.library.Some? && v.doc.history.Some?
    ensures r.Some? ==> r.value == (v.doc.library.value, v.doc.history.value)
  {
    if v.JObject? && v.doc.library.Some? && v.doc.history.Some? then
      Some((v.doc.library.value, v.doc.history.value))
    else None
  }

  /** The corrected import accepts exactly the documents for which the code as
      written stores two lists (and no `undefined`), and stores the same lists. */
  lemma ImportCorrectionAgrees(v: JsonValue)
    ensures ImportedLists(v).Some? <==>
              ImportedCellsAsWritten(v).Some? &&
              ImportedCellsAsWritten(v).value.0.Some? && ImportedCellsAsWritten(v).value.1.Some?
    ensures ImportedLists(v).Some? ==>
              ImportedCellsAsWritten(v) == Some((Some(ImportedLists(v).value.0), Some(ImportedLists(v).value.1)))
  {
  }

  /** The document of the example above is rejected by the corrected import. */
  lemma ImportRejectsMissingLibrary(history: seq<SemanticAnalysis>)
    ensures var parsed := ImportFromFile(Stringify(Document(Some(SchemaVersion), None, Some(history), None)), true);
            parsed.Ok? && ImportedLists(parsed.value) == None
  {
  }

  /** An exported backup passes the corrected import and restores exactly the
      exported library and history. */
  lemma ExportedBackupImports(library: seq<SemanticAnalysis>, history: seq<SemanticAnalysis>, nowIso: string)
    ensures var parsed := ImportFromFile(ExportText(library, history, nowIso), true);
            parsed.Ok? && ImportedLists(parsed.value) == Some((library, history))
  {
    ExportImportRoundTrip(library, history, nowIso);
  }

  /** The state cells of the shared workspace and the storage service they persist to. */
  class WorkspaceStore {
    var library: seq<SemanticAnalysis>
    var history: seq<SemanticAnalysis>
    var currentAnalysis: Option<SemanticAnalysis>
    var lastSaved: Option<string>
    var customFileName: Option<string>
    const storage: StorageService

    constructor(storage: StorageService)
      ensures this.storage == storage
      ensures library == [] && history == [] && currentAnalysis == None
      ensures lastSaved == None && customFileName == None
    {
      this.storage := storage;
      library := [];
      history := [];
      currentAnalysis := None;
      lastSaved := None;
      customFileName := None;
    }

    /** The load-on-mount effect: a loaded document sets both lists (a missing one
        as empty) and the last-saved stamp; `null` or a failure changes nothing. */
    method LoadOnMount(readOk: bool)
      modifies this`library, this`history, this`lastSaved
      ensures var r := LoadResult(storage.activeHandle, storage.files, storage.cache, readOk);
              if r.Ok? && r.value.Some? then
                library == r.value.value.library.GetOr([]) &&
                history == r.value.value.history.GetOr([]) &&
                lastSaved == r.value.value.lastSynced
              else
                library == old(library) && history == old(history) && lastSaved == old(lastSaved)
    {
      var r := storage.Load(readOk);
      if r.Ok? && r.value.Some? {
        var d := r.value.value;
        library := d.library.GetOr([]);
        history := d.history.GetOr([]);
        lastSaved := d.lastSynced;
      }
    }

    /** The autosave effect for the debounced lists: skipped under the guard;
        otherwise one `save` of exactly those lists, and the stamp moves to
        `savedAt` only when that save succeeded. */
    method Autosave(debouncedLibrary: seq<SemanticAnalysis>, debouncedHistory: seq<SemanticAnalysis>,
                    nowIso: string, savedAt: Stamp, o: SaveOracle) returns (saved: bool)
      modifies storage`files, storage`cache, storage`appData, storage`writes, this`lastSaved
      ensures AutosaveSkipped(debouncedLibrary, debouncedHistory, old(lastSaved)) ==>
                !saved && lastSaved == old(lastSaved) && unchanged(storage)
      ensures !AutosaveSkipped(debouncedLibrary, debouncedHistory, old(lastSaved)) ==>
                storage.SavedOver(old(storage.activeHandle), old(storage.files), old(storage.cache),
                                  old(storage.appData), old(storage.writes),
                                  debouncedLibrary, debouncedHistory, nowIso, o) &&
                saved == o.cacheWriteOk &&
                lastSaved == (if saved then Some(savedAt) else old(lastSaved))
      ensures saved ==> Stamped(lastSaved)
      ensures Stamped(old(lastSaved)) ==> Stamped(lastSaved)
    {
      if AutosaveSkipped(debouncedLibrary, debouncedHistory, lastSaved) {
        return false;
      }
      saved := storage.Save(debouncedLibrary, debouncedHistory, nowIso, o);
      if saved {
        lastSaved := Some(savedAt);
      }
    }

    /** `addToLibrary`. */
    method AddToLibrary(item: SemanticAnalysis)
      modifies this`library
      ensures library == AddedToLibrary(old(library), item)
    {
      library := AddedToLibrary(library, item);
    }

    /** `updateAnalysis`: the same replacement in the library, the history and the current record. */
    method UpdateAnalysis(updated: SemanticAnalysis)
      modifies this`library, this`history, this`currentAnalysis
      ensures library == ReplacedById(old(library), updated)
      ensures history == ReplacedById(old(history), updated)
      ensures currentAnalysis == RefreshedCurrent(old(currentAnalysis), updated)
    {
      library := ReplacedById(library, updated);
      history := ReplacedById(history, updated);
      currentAnalysis := RefreshedCurrent(currentAnalysis, updated);
    }

    /** `linkCustomFile`: pick a file; with a (non-empty) name, record it and save the
        current lists at once, stamping `savedAt` when the save succeeds. A cancelled
        or failed pick writes nothing and changes no cell. */
    method LinkCustomFile(pick: PickOutcome, nowIso: string, savedAt: Stamp, o: SaveOracle)
      modifies storage`activeHandle, storage`files, storage`cache, storage`appData, storage`writes
      modifies this`customFileName, this`lastSaved
      ensures var linked := storage.fileApiSupported && pick.Picked? && pick.handle.name != "";
              if linked then
                customFileName == Some(pick.handle.name) &&
                storage.SavedOver(Some(pick.handle), old(storage.files), old(storage.cache),
                                  old(storage.appData), old(storage.writes), library, history, nowIso, o) &&
                lastSaved == (if o.cacheWriteOk then Some(savedAt) else old(lastSaved))
              else
                customFileName == old(customFileName) && lastSaved == old(lastSaved) &&
                storage.files == old(storage.files) && storage.cache == old(storage.cache) &&
                storage.appData == old(storage.appData) && storage.writes == old(storage.writes) &&
                storage.activeHandle == (if storage.fileApiSupported && pick.Picked? then Some(pick.handle)
                                         else old(storage.activeHandle))
      ensures Stamped(old(lastSaved)) ==> Stamped(lastSaved)
    {
      var r := storage.SelectLocalWorkspace(pick);
      if r.Ok? && r.value.Some? && r.value.value != "" {
        customFileName := r.value;
        var ok := storage.Save(library, history, nowIso, o);
        if ok {
          lastSaved := Some(savedAt);
        }
      }
    }

    /** `importWorkspace`, corrected: a readable, parsable file carrying both
        lists replaces them wholesale and `ok` is true; any other file is
        rejected and nothing changes. The current record is left alone. */
    method ImportWorkspace(content: Text, readOk: bool) returns (ok: bool)
      modifies this`library, this`history
      ensures var parsed := ImportFromFile(content, readOk);
              ok <==> parsed.Ok? && ImportedLists(parsed.value).Some?
      ensures ok ==> (library, history) == ImportedLists(ImportFromFile(content, readOk).value).value
      ensures !ok ==> library == old(library) && history == old(history)
    {
      var parsed := ImportFromFile(content, readOk);
      if parsed.Err? {
        return false;
      }
      var lists := ImportedLists(parsed.value);
      if lists.None? {
        return false;
      }
      library := lists.value.0;
      history := lists.value.1;
      ok := true;
    }

    /** `deleteFromLibrary`: the history is not touched. */
    method DeleteFromLibrary(id: string)
      modifies this`library
      ensures library == WithoutId(old(library), id)
      ensures history == old(history)
    {
      library := WithoutId(library, id);
    }

    /** `clearData`: empties both lists, forgets the file name and the current
        record, and clears the backends; the last-saved stamp stays. */
    method ClearData(appDataWriteOk: bool)
      modifies this`library, this`history, this`customFileName, this`currentAnalysis
      modifies storage`cache, storage`activeHandle, storage`appData, storage`writes
      ensures library == [] && history == [] && customFileName == None && currentAnalysis == None
      ensures lastSaved == old(lastSaved)
      ensures storage.activeHandle == None && storage.cache == old(storage.cache) - {StorageKey}
      ensures storage.appData == if storage.isTauri && appDataWriteOk then Some(Stringify(EmptyDocument))
                                 else old(storage.appData)
      ensures storage.writes == old(storage.writes) + [Removed(Cache)] +
                                (if storage.isTauri && appDataWriteOk then [Wrote(AppData, Stringify(EmptyDocument))]
                                 else [])
    {
      library := [];
      history := [];
      customFileName := None;
      currentAnalysis := None;
      storage.ClearAllData(appDataWriteOk);
    }
  }
}
