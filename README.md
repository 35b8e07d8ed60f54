# SmartLex workspace model

SmartLex is a desktop/browser application for studying English terms. It sends a term to
a language model and gets back a structured analysis record. The user keeps records in a
knowledge library and browses a history of recent analyses. The user edits a record's tags,
synonyms and usage examples, chats about the current record, and picks a model preset.

This project models the part of the application that holds and changes that data:

- **The workspace store** (`Store`): the five shared state cells (library, history, current
  analysis, last-saved stamp, linked file name). Its actions are kept as methods of a
  `WorkspaceStore` class. The list transforms inside them are functions: add by identity,
  update by identity, delete by identity, the import transform and the autosave guard.
- **The storage service** (`Storage`): the policy that decides which backend is read or
  written, and in what order. There are three backends: a user-linked file, the browser's
  key-value cache, and the desktop shell's app-data file. The `StorageService` class holds the
  linked-file handle and the contents of the three backends. It also keeps a ghost log of every
  backend change, in order. Permission answers, picker results and write failures are inputs
  (`SaveOracle`, `PickOutcome`, read/write flags).
- **The application shell** (`App`): the history prepend with its cap of 100, the view and
  breadcrumb cells, and the analysing flag.
- **The component rules**:
  - `Library`: the tag cloud, the library filter, the tag toggle and the card tag edits;
  - `History`: the history search and the clear button;
  - `ResultHeader`: the tag editor and the root-form badge;
  - `LinguisticNetwork`: the synonym editor and the markdown-mark stripper;
  - `UsageExamples`: examples appended, added and removed;
  - `ChatSidebar`: the message list around one awaited reply;
  - `Settings`: endpoint initialisation and preset detection.
- **The shared foundations**: `Lists` defines `filter`, spreading through a `Set`, removal by
  index and `slice`, each with a contract independent of its recursion. `Strings` defines `trim`,
  ASCII `toLowerCase`, `includes`, the default sort, and the "add through a `Set` after
  trimming" edit used by the tag and synonym editors.

Asynchronous handlers are split at their `await`. `StartAnalysis` / `CompleteAnalysis`,
`BeginSend` / `FinishSend` and `BeginGenerate` / `FinishGenerate` are the halves before and after
the awaited call. The awaited result is a parameter, where `None` means the call threw. A
component handler that ends in `onUpdate(updated)` returns the record it hands over, and
`None` when it returns early. Clock readings (`new Date().toISOString()`) are string parameters.

## Model

| member | source | states |
|---|---|---|
| Lists.Filter | src/components/History.tsx:20-24 | `filter` keeps exactly the elements satisfying the predicate, with their multiplicities, and returns the list itself when every element satisfies it |
| Lists.FilterIsSubsequence | src/components/History.tsx:20 | `filter` keeps the order of what it keeps |
| Lists.FilterDistributes | src/components/analysis/LinguisticNetwork.tsx:10 | filtering a concatenation is concatenating the filtered parts |
| Lists.Dedupe | src/components/Library.tsx:63 | `[...new Set(s)]` has no duplicates, the same elements as `s`, and is `s` itself when `s` is duplicate-free |
| Lists.DedupeKeepsFirstOccurrenceOrder | src/components/Library.tsx:63 | the elements of `[...new Set(s)]` come in the order of their first occurrences in `s` |
| Lists.DedupeAppend | src/components/analysis/ResultHeader.tsx:19 | spreading `[...s, x]` through a `Set` appends `x` to the distinct elements of `s` exactly when `x` is new |
| Lists.DedupeIsSubsequence | src/components/Library.tsx:63 | the distinct elements keep their relative order |
| Lists.WithoutIsSubsequence | src/components/analysis/ResultHeader.tsx:29 | `filter(y => y !== x)` keeps the other elements in order |
| Lists.DropIndex | src/components/analysis/UsageExamples.tsx:53 | `filter((_, i) => i !== index)` is the list without position `index`, and the list itself when the index is out of range |
| Lists.Take | src/App.tsx:59 | `slice(0, n)` is as long as the shorter of `n` and the list, and agrees with `s` position by position |
| Strings.Trim | src/components/analysis/ResultHeader.tsx:16 | `trim()` returns a contiguous slice with only whitespace cut away on either side, and that slice neither starts nor ends with whitespace |
| Strings.TrimBlankIff | src/components/ChatSidebar.tsx:22 | a trimmed string is empty exactly when the string is all whitespace |
| Strings.TrimIdempotent | src/components/analysis/ResultHeader.tsx:19 | trimming twice is trimming once |
| Strings.IncludesIff | src/components/History.tsx:21-23 | `includes` holds exactly when the needle occurs contiguously at some position |
| Strings.ToLower | src/components/History.tsx:21-23 | `toLowerCase()` keeps the length, maps each upper-case ASCII letter to its lower-case letter, and keeps every other character |
| Strings.Includes | src/components/History.tsx:21-23 | the empty needle is always included, a prefix is included, and a needle longer than the text never is |
| Strings.ToLowerIdempotent | src/components/analysis/ResultHeader.tsx:46 | lower-casing twice is lower-casing once |
| Strings.Sort | src/components/Library.tsx:31 | `sort()` returns a permutation of its input in ascending order |
| Strings.DistinctPermutation | src/components/Library.tsx:31 | sorting a duplicate-free list leaves it duplicate-free |
| Strings.WithTrimmedAdded | src/components/analysis/LinguisticNetwork.tsx:18-21 | the blank-input guard then `[...new Set([...items, input.trim()])]`: nothing to add exactly for an all-whitespace input; otherwise a duplicate-free list of the old items plus the trimmed input |
| Strings.AddedAtEnd | src/components/analysis/LinguisticNetwork.tsx:21 | the result is the old distinct items with the trimmed input appended only when new |
| Strings.AddedToDistinct | src/components/Library.tsx:63 | on a duplicate-free list, an entry already present changes nothing and a new one is appended |
| Strings.AddTwiceIsAddOnce | src/components/Library.tsx:59-68 | adding the same input twice is adding it once |
| Storage.WorkspaceDocument | src/services/storageService.ts:91-96 | the document `save` and `exportToFile` build carries every key: version 1.1.0, the two given lists and the given `lastSynced` |
| Storage.ExportFileName | src/services/storageService.ts:190 | the download is named `smartlex_workspace_`, then the date part of the timestamp (no `T`), then `.lex` |
| Storage.SaveWrites | src/services/storageService.ts:100-132 | one `save` writes the linked file exactly when linked, permitted and the write succeeds; the cache exactly when its write does not throw; the app-data file exactly inside the desktop shell after a cache write and a successful file write; nothing is removed |
| Storage.LoadResult | src/services/storageService.ts:138-161 | `load` fails only behind a handle, with the read error; behind a handle a parsed object in the file is returned as it is (missing keys included) and any other parsed value gives `null`; without a handle the object under the cache key is returned and anything else gives `null`; a returned document is always what the consulted backend holds |
| Storage.ParseStringify | src/services/storageService.ts:98 | parsing the serialised document gives the document back |
| Storage.DatePart | src/services/storageService.ts:190 | `iso.split('T')[0]` is the longest `T`-free prefix of the timestamp |
| Storage.ImportFromFile | src/services/storageService.ts:166-173 | an unreadable or unparsable file fails with the invalid-format error; otherwise the parsed value is returned as it is |
| Storage.ImportAcceptsAnyDocument | src/services/storageService.ts:166-173 | no field of a parsable document is checked |
| Storage.ExportImportRoundTrip | src/services/storageService.ts:178-185 | an exported backup imports back as the same library and history |
| Storage.SaveWritesOneText | src/services/storageService.ts:91-98 | every backend one `save` writes receives the same serialised document of version 1.1.0 with the given lists |
| Storage.CacheWrittenRegardlessOfLink | src/services/storageService.ts:101-120 | the cache is written whatever happens to the linked file; a permission other than granted only skips the linked file |
| Storage.SaveWritesOrdered | src/services/storageService.ts:100-132 | the writes of one `save` come in the order linked file, cache, app-data file |
| Storage.LoadFallbackPolicy | src/services/storageService.ts:138-161 | without a handle `load` never fails; with a handle it never reads the cache, and it fails exactly on a read or parse failure |
| Storage.SavedDocumentLoadsBack | src/services/storageService.ts:138-161 | what `save` put in the cache loads back without a handle, and what it put in the linked file loads back through the handle |
| Storage.ClearedCacheLoadsNothing | src/services/storageService.ts:201 | after the cache key is removed, a load without a handle finds nothing |
| Storage.StorageService.constructor | src/services/storageService.ts:56-58 | the service starts with no handle and an empty write log |
| Storage.StorageService.SelectLocalWorkspace | src/services/storageService.ts:63-84 | unsupported picker: error, handle unchanged; success: handle set and its name returned; abort: `null` and handle unchanged; any other picker error: error and handle unchanged |
| Storage.StorageService.Save | src/services/storageService.ts:90-133 | the linked file is written only behind a handle with a granted permission and a successful write; the cache is always attempted; the app-data file is reached only inside the desktop shell and only if the cache write did not throw; failures of the linked and app-data writes are contained |
| Storage.StorageService.Load | src/services/storageService.ts:138-161 | returns exactly the load policy's result for the current handle and backends |
| Storage.StorageService.ClearAllData | src/services/storageService.ts:200-216 | the cache key is removed, the handle is forgotten, and inside the desktop shell the app-data file is overwritten with empty lists and an empty `lastSynced` |
| Store.AddedToLibrary | src/contexts/StoreContext.tsx:107-114 | adding a record whose identity is present changes nothing, otherwise it is appended; the identity is present afterwards; unique identities stay unique |
| Store.AddToLibraryIdempotent | src/contexts/StoreContext.tsx:108-110 | adding the same record twice is adding it once |
| Store.AddedAllKeepsIdsUnique | src/contexts/StoreContext.tsx:106-115 | after any sequence of adds, identities are unique, every added identity is present, and the old library is a prefix |
| Store.ReplacedById | src/contexts/StoreContext.tsx:119-121 | the update replaces exactly the entries with its identity; length, order, identities and every other entry are unchanged; an absent identity is a no-op |
| Store.ReplaceIdempotent | src/contexts/StoreContext.tsx:119 | applying the same update twice is applying it once |
| Store.ReplaceReachesIff | src/contexts/StoreContext.tsx:119 | the updated record is in the list afterwards exactly when its identity was present (or it was already there) |
| Store.RefreshedCurrent | src/contexts/StoreContext.tsx:123 | the current record is replaced only when its identity matches; an empty current stays empty |
| Store.WithoutId | src/contexts/StoreContext.tsx:153 | deletion removes exactly the entries with the identity; an absent identity is a no-op |
| Store.DeleteKeepsOrder | src/contexts/StoreContext.tsx:153 | the remaining entries keep their order and multiplicity, and unique identities stay unique |
| Store.AutosaveSkipped | src/contexts/StoreContext.tsx:86-89 | the guard skips only two empty lists; once the last-saved cell holds a non-empty stamp no call is skipped; before that, two empty lists are always skipped |
| Store.ImportedCellsAsWritten | src/contexts/StoreContext.tsx:143-145 | as written: the list cells receive the document's fields as they are, missing ones included; a `null` document throws and changes nothing; a falsy primitive stores `undefined` in both cells |
| Store.ImportStoresUndefined | src/contexts/StoreContext.tsx:143-145 | a parsable file without a `library` key is accepted, and the library cell becomes `undefined` |
| Store.ImportedLists | src/contexts/StoreContext.tsx:144-145 | corrected import: a document is accepted exactly when it is an object carrying both lists, and then supplies those lists; any other document is invalid |
| Store.ImportCorrectionAgrees | src/contexts/StoreContext.tsx:144-145 | the corrected import accepts exactly the documents for which the code as written stores two lists and no `undefined`, and then stores the same lists |
| Store.ImportRejectsMissingLibrary | src/contexts/StoreContext.tsx:144 | the file without a `library` key that the code as written accepts is rejected by the corrected import |
| Store.ExportedBackupImports | src/services/storageService.ts:178-185 | an exported backup passes the corrected import and restores exactly the exported library and history |
| Store.WorkspaceStore.constructor | src/contexts/StoreContext.tsx:41-45 | every list starts empty and every optional cell starts `null` |
| Store.WorkspaceStore.LoadOnMount | src/contexts/StoreContext.tsx:48-63 | a loaded document sets library and history (a missing one as empty) and the stamp to the document's `lastSynced`; `null`, a falsy value or a failure changes nothing |
| Store.WorkspaceStore.Autosave | src/contexts/StoreContext.tsx:71-103 | skipped exactly under the guard; otherwise one `save` of the debounced lists, and the stamp moves to the new ISO time only when that save succeeded; a non-empty stamp stays non-empty, so every later autosave runs |
| Store.WorkspaceStore.AddToLibrary | src/contexts/StoreContext.tsx:106-115 | the library becomes the add-by-identity of the record |
| Store.WorkspaceStore.UpdateAnalysis | src/contexts/StoreContext.tsx:117-124 | the same replacement in library, history and current record |
| Store.WorkspaceStore.LinkCustomFile | src/contexts/StoreContext.tsx:126-139 | a successful pick with a name records the name and saves the current lists at once through the new handle, stamping on success; a cancelled or failed pick writes nothing and changes no cell; a non-empty stamp stays non-empty |
| Store.WorkspaceStore.ImportWorkspace | src/contexts/StoreContext.tsx:141-150 | corrected import: a readable, parsable file carrying both lists replaces them wholesale and reports success; any other file is rejected and changes nothing; the current record is not touched |
| Store.WorkspaceStore.DeleteFromLibrary | src/contexts/StoreContext.tsx:152-155 | the library loses the identity's entries and the history is untouched |
| Store.WorkspaceStore.ClearData | src/contexts/StoreContext.tsx:157-163 | both lists empty, file name and current record cleared, backends cleared with exactly the service's writes (cache key removed, then the empty document to app data in the desktop shell); the stamp stays |
| App.PrependCapped | src/App.tsx:59 | the new history is the first `min(100, n+1)` entries of `[result, ...old]`: the result first, then a prefix of the old history in order |
| App.PrependKeepsCap | src/App.tsx:59 | the history never exceeds 100 entries |
| App.PrependDuplicates | src/App.tsx:59 | an analysis already in the history is recorded again |
| App.RecordAllIsNewestFirst | src/App.tsx:59 | after any non-empty run of analyses, from any history, or after none from a capped history, the history is the newest 100 of all results and earlier entries, newest first |
| App.BreadcrumbLabel | src/App.tsx:83-85 | the label is 首页 exactly for home, 知识库 exactly for the library, and 历史记录 for every other view |
| App.Shell.constructor | src/App.tsx:33-39 | home view, not analysing, breadcrumb 历史记录 to the history |
| App.Shell.StartAnalysis | src/App.tsx:56 | the analysing flag is raised while the request is pending |
| App.Shell.CompleteAnalysis | src/App.tsx:57-76 | success: history prepended and capped, current set, breadcrumb home, result view; failure: none of these change; the flag drops in both cases |
| App.Shell.NavigateToAnalysis | src/App.tsx:79-89 | current set to the record, breadcrumb label chosen from the source view, result view |
| Library.TagOccurrences | src/components/Library.tsx:30 | a tag occurs in the flattened tag lists exactly when some record carries it |
| Library.AllTags | src/components/Library.tsx:28-32 | the tag cloud holds exactly the tags in use, without duplicates, in ascending order |
| Library.FilteredItems | src/components/Library.tsx:44-50 | a record is shown exactly when it matches the search on term or English core, the type filter, and the selected tag; with an empty search, `All` and no tag, every record is shown; each shown record appears as many times as in the library, and nothing else is shown |
| Library.FilteredItemsKeepOrder | src/components/Library.tsx:44-50 | the shown records keep library order |
| Library.FilterByType | src/components/Library.tsx:46 | a type button keeps exactly the records of that type |
| Library.ToggledTag | src/components/Library.tsx:227 | clicking the selected tag deselects it and clicking another selects it |
| Library.ToggleTwice | src/components/Library.tsx:227 | two clicks on one tag return to no selection, or to it when it was selected |
| Library.LibraryPanel.constructor | src/components/Library.tsx:20-24 | filter `All`, empty search, no tag selected, empty tag input |
| Library.LibraryPanel.SetSearch | src/components/Library.tsx:191 | the search box sets the search text |
| Library.LibraryPanel.EditNewTag | src/components/Library.tsx:326 | the tag input sets the pending tag |
| Library.LibraryPanel.SetFilter | src/components/Library.tsx:199-202 | a type button sets the filter |
| Library.LibraryPanel.ClickCloudTag | src/components/Library.tsx:227 | the selection becomes the toggle of the clicked tag |
| Library.LibraryPanel.ClearTagSelection | src/components/Library.tsx:219 | the clear button removes the selection |
| Library.LibraryPanel.ClickCardTag | src/components/Library.tsx:78-84 | a tag on a card always selects it |
| Library.LibraryPanel.AddTag | src/components/Library.tsx:59-68 | a blank input changes nothing; otherwise the tag-added record goes through the store's update by identity and the input is cleared |
| Library.LibraryPanel.RemoveTag | src/components/Library.tsx:70-76 | the tag-removed record goes through the store's update by identity |
| History.FilteredHistory | src/components/History.tsx:20-24 | an entry is shown exactly when the lower-cased search occurs in its lower-cased term, English core or part of speech; an empty search shows everything; each shown entry appears as many times as in the history, and nothing else is shown |
| History.FilteredHistoryKeepsOrder | src/components/History.tsx:20-24 | the shown entries keep history order |
| History.HistoryFilterReadsTextOnly | src/components/History.tsx:20-24 | type, tags and every field other than the three texts are ignored |
| History.SearchFindsTerm | src/components/History.tsx:21 | an entry whose lower-cased term contains the lower-cased search is shown |
| History.OnClear | src/components/History.tsx:16 | the history becomes empty and nothing else changes |
| ResultHeader.WithTagAdded | src/components/analysis/ResultHeader.tsx:14-24 | a blank tag is ignored; otherwise only the tags change, to a duplicate-free list of the old tags and the trimmed tag |
| ResultHeader.TagAddedAtEnd | src/components/analysis/ResultHeader.tsx:17-20 | for any stored tags, a non-blank tag yields the distinct old tags in first-occurrence order with the trimmed tag appended when new; on distinct tags, a present tag changes nothing |
| ResultHeader.TagAddIdempotent | src/components/analysis/ResultHeader.tsx:19 | adding the same tag twice is adding it once |
| ResultHeader.WithTagRemoved | src/components/analysis/ResultHeader.tsx:26-32 | every occurrence of the tag goes, other tags keep their multiplicity, and no other field changes |
| ResultHeader.TagRemovalKeepsOrder | src/components/analysis/ResultHeader.tsx:29 | the remaining tags keep their order |
| ResultHeader.ShowsRootForm | src/components/analysis/ResultHeader.tsx:46 | the badge shows exactly for a non-empty root form whose lower-cased form differs from the lower-cased term |
| ResultHeader.RootBadgeHiddenForSameWord | src/components/analysis/ResultHeader.tsx:46 | a root form that equals the term up to letter case shows no badge; in particular the term itself and its lower-cased form |
| LinguisticNetwork.CleanString | src/components/analysis/LinguisticNetwork.tsx:10 | no `*`, `_`, `~` or backtick remains, every other character keeps its count, and a string without marks is unchanged |
| LinguisticNetwork.CleanKeepsOrder | src/components/analysis/LinguisticNetwork.tsx:10 | the kept characters stay in order |
| LinguisticNetwork.CleanIdempotent | src/components/analysis/UsageExamples.tsx:11 | the same stripper, used by the examples panel, is idempotent |
| LinguisticNetwork.CleanDistributes | src/components/analysis/LinguisticNetwork.tsx:10 | cleaning a concatenation is concatenating the cleaned parts |
| LinguisticNetwork.WithSynonymAdded | src/components/analysis/LinguisticNetwork.tsx:16-26 | a blank synonym is ignored; otherwise only the synonyms change, to a duplicate-free list of the old ones and the trimmed input |
| LinguisticNetwork.SynonymAddedAtEnd | src/components/analysis/LinguisticNetwork.tsx:19-23 | for any stored synonyms, a non-blank input yields the distinct old synonyms in first-occurrence order with the trimmed input appended when new; on distinct synonyms, an existing one changes nothing |
| LinguisticNetwork.WithSynonymRemoved | src/components/analysis/LinguisticNetwork.tsx:28-34 | every occurrence goes, others keep their multiplicity, no other field changes |
| LinguisticNetwork.SynonymRemovalKeepsOrder | src/components/analysis/LinguisticNetwork.tsx:31 | the remaining synonyms keep their order |
| UsageExamples.WithExamplesAppended | src/components/analysis/UsageExamples.tsx:23-26 | only the examples change; the old examples are a prefix and the generated ones follow |
| UsageExamples.WithExampleRemoved | src/components/analysis/UsageExamples.tsx:50-56 | an in-range index shortens the list by one; an out-of-range index changes nothing; no other field changes |
| UsageExamples.RemovalShiftsTail | src/components/analysis/UsageExamples.tsx:53 | examples before the index keep their positions, later ones move down by one |
| UsageExamples.RemoveUndoesAppend | src/components/analysis/UsageExamples.tsx:40-56 | removing the example just appended gives the record back |
| UsageExamples.UsageExamplesPanel.constructor | src/components/analysis/UsageExamples.tsx:15-17 | not generating, form closed, empty draft in category `General` |
| UsageExamples.UsageExamplesPanel.BeginGenerate | src/components/analysis/UsageExamples.tsx:20 | the generating flag is raised |
| UsageExamples.UsageExamplesPanel.FinishGenerate | src/components/analysis/UsageExamples.tsx:21-34 | success hands over the record with the generated examples appended; failure hands over nothing; the flag drops in both cases |
| UsageExamples.UsageExamplesPanel.ToggleAdding | src/components/analysis/UsageExamples.tsx:74 | the custom button opens or closes the form |
| UsageExamples.UsageExamplesPanel.EditEnglish | src/components/analysis/UsageExamples.tsx:91 | the English input changes only the draft's English text |
| UsageExamples.UsageExamplesPanel.EditChinese | src/components/analysis/UsageExamples.tsx:100 | the Chinese input changes only the draft's Chinese text |
| UsageExamples.UsageExamplesPanel.EditCategory | src/components/analysis/UsageExamples.tsx:107 | the select changes only the draft's category |
| UsageExamples.UsageExamplesPanel.AddCustomExample | src/components/analysis/UsageExamples.tsx:37-48 | with both texts non-empty (untrimmed) the draft is appended as the one new example and the form resets and closes; otherwise nothing happens |
| ChatSidebar.ReplyText | src/components/ChatSidebar.tsx:38 | the model message is the reply, or the fixed apology when the reply is empty; never empty |
| ChatSidebar.ChatPanel.constructor | src/components/ChatSidebar.tsx:10-12 | no messages, empty input, not typing |
| ChatSidebar.ChatPanel.EditInput | src/components/ChatSidebar.tsx:137 | the input box sets the input |
| ChatSidebar.ChatPanel.BeginSend | src/components/ChatSidebar.tsx:21-32 | a send happens exactly when the input is not blank and no reply is pending; it appends one user message with the untrimmed input, clears the input and raises the flag; otherwise nothing changes |
| ChatSidebar.ChatPanel.FinishSend | src/components/ChatSidebar.tsx:34-46 | success appends exactly one model message; failure appends none; the flag drops in both cases |
| ChatSidebar.ChatPanel.NewConversation | src/components/ChatSidebar.tsx:68 | the message list becomes empty |
| Settings.StoredOr | src/components/Settings.tsx:16 | reading a preference with a fallback: the stored value when present and non-empty, the fallback otherwise |
| Settings.InitialEndpoint | src/components/Settings.tsx:15 | the endpoint key's value, else the legacy endpoint key's value, else empty |
| Settings.FindByEndpoint | src/components/Settings.tsx:28 | finds a non-custom preset with the endpoint, or reports that none has it |
| Settings.FindById | src/components/Settings.tsx:36 | finds the preset with the identifier, or reports that none has it |
| Settings.DetectPreset | src/components/Settings.tsx:26-30 | the detected identifier is the custom one or that of a preset with this endpoint |
| Settings.DetectPresetCases | src/components/Settings.tsx:26-30 | detection gives custom exactly when no non-custom preset has the endpoint; an empty endpoint is always custom |
| Settings.DetectEachPreset | src/components/Settings.tsx:19-30 | each non-custom preset's endpoint detects that preset |
| Settings.ChoosingPresetIsDetected | src/components/Settings.tsx:32-40 | choosing a non-custom preset and detecting from its endpoint gives the same preset back |
| Settings.SettingsPanel.constructor | src/components/Settings.tsx:15-17 | endpoint and key from the preferences with their fallbacks; the mount effect then selects the detected preset |
| Settings.SettingsPanel.UpdateDoubaoSettings | src/components/Settings.tsx:42-51 | endpoint and key cells set; endpoint, key and provider `doubao` written every time; confirmation only for a non-empty endpoint; detection reruns only when the endpoint changed |
| Settings.SettingsPanel.HandlePresetChange | src/components/Settings.tsx:32-40 | a non-custom preset writes its endpoint with the current key and stays selected; the custom preset (or an unknown one) only changes the selector |

## Left out

- Network calls (the analysis, example and chat producers) are parameters of the handlers that await them. Prompts and configuration are not modelled.
- `JSON.stringify` and `JSON.parse` are not implemented. A stored text is described by what parsing it gives: `null`, a falsy primitive (`false`, `0`, `""`), a truthy value with the workspace keys it has, or text that does not parse. Two limits follow. A truthy value that is not an object, such as `5` or an array, reads like an object with none of those keys. A key holding a value of the wrong type, such as `"library": 5`, cannot be represented: a field is either a list or absent.
- The debounce hook is not part of this model. The autosave effect takes the debounced lists as inputs. Timing and effect scheduling are not modelled.
- Toast messages, console output, desktop notifications, window pinning and compact mode are not modelled. Neither are the PDF and image export or the DOM download steps of `exportToFile` (the document it builds is modelled).
- Clocks are parameters. The same clock reading is not assumed for the document's `lastSynced` and the store's stamp.
- Async handlers are atomic halves. Interleavings between actions and React state batching are not modelled.
- Strings.ToLower: only the ASCII letters are lower-cased, because the Unicode case tables are out of scope.
- Strings.Sort: compares by code point rather than by UTF-16 code unit. The two orders can differ for characters outside the Basic Multilingual Plane.
- Storage.StorageService.Save: a file write that fails part-way through is modelled as no write, because the partial contents cannot be described without a byte model.
- Storage.StorageService.SelectLocalWorkspace: the picker's options (suggested name, accepted types) are not modelled.
- Store.WorkspaceStore.ImportWorkspace: runs the corrected import (Store.ImportedLists), which rejects a document that lacks either list and leaves the store unchanged. The code as written stores `undefined` in that cell; Store.ImportedCellsAsWritten gives the cells as written, and the finding below records the difference.
- Store.WorkspaceStore.LoadOnMount: loading sets the stamp to the document's `lastSynced`, which may be missing or empty; the stamp persistence proved for the other actions therefore starts after the mount load.
- Store.WorkspaceStore.LinkCustomFile: a picked file whose name is empty is treated like a cancellation, as the source's truthiness test does. The handle is still kept.
- Settings.SettingsPanel.constructor: the first render holds the selector value `custom`, which is not a preset ID. The model applies the mount effect immediately, so that value is never observable.
- The screen layout, input resets that only clear local form state, the delete confirmation dialog and the manage-tags toggle of the library cards are presentation and are not modelled.

## Findings

| source | as written | input that shows it | evidently intended | confidence | as-written member | corrected member |
|---|---|---|---|---|---|---|
| src/contexts/StoreContext.tsx:144-145 | `importWorkspace` stores `data.library` and `data.history` exactly as parsed. `importFromFile` checks no field of the document. | a `.lex` file that parses but has no `library` key, such as `{"version":"1.1.0","history":[]}`: the library cell becomes `undefined`, and later list operations on it throw | an import of a document missing a required list fails as an invalid document and leaves the in-memory lists unchanged, because the program already rejects invalid files this way: `importFromFile` fails with "Invalid file format" when the file does not parse (src/services/storageService.ts:169-171), and `importWorkspace` turns any throw into the failure toast without touching the lists (src/contexts/StoreContext.tsx:147-148); the load path's empty-list fallback at lines 53-54 is for start-up, where an empty workspace is a sound default, whereas an import that overwrites the user's lists with nothing is not | not executed | Store.ImportStoresUndefined | Store.ImportedLists |
