# Email editor: state store and configuration resolver

This project models two pieces of the email template editor (`packages/editor-sample`) in Dafny and proves properties of them:

- **The configuration resolver** (`getConfiguration`). On every page load it picks the document the editor starts with, from five sources in a fixed order:
  1. the pending hand-off slot `__PENDING_DESIGN__` that an embedding host fills;
  2. a `#sample/<name>` hash naming one of eight static samples;
  3. a `#code/<payload>` hash holding a base64, percent-encoded design;
  4. the persisted copy under `emailDesign`, or under its legacy alias `email-builder-design`;
  5. the empty sample.

  Levels 1 and 3 also write storage, and levels 1 and 4 may rewrite the location hash.
- **The editor store** (`EditorContext`). This is one record of editor state: the document, the selected block, the sidebar and main tabs, the screen size and two drawer flags. Exported setters update it. Two operations face the host: loading a design from outside and clearing the design. A debounced auto-save copies the latest document into both design keys and into the hash.

`localStorage` is a `map<string, string>` and `window.location.hash` is a `string`. `JSON.parse`, `JSON.stringify`, `btoa(encodeURIComponent(·))` and `decodeURIComponent(atob(·))` are left uninterpreted: they are the four function-typed fields of a `Codec` value passed in. Parsing and the two encodings return `Option`, with `None` standing for a thrown exception. The sample documents are opaque: a `Catalog` value maps each sample to its document.

## Structure

- `wrappers.dfy` — `Option`.
- `documents.dfy` — JSON values, documents as top-level objects (`map<string, Json>`), JavaScript truthiness, the shallow merge `{...a, ...b}`, the canonical empty design and the `Codec`.
- `storage.dfy` — the three storage keys, `getItem`, `a || b` on two `getItem` results, the paired write to both design keys, and the "mirrored" predicate on the two design keys.
- `strings.dfy` — `startsWith`, `indexOf` and `replace` with a string pattern.
- `configuration.dfy` and `configuration_properties.dfy` — the resolver. `Resolve` is the specification: each level is an independent source computed from the original storage and hash, and the first level that applies wins. `GetConfiguration` is the early-return code and is proved equal to `Resolve`; the lemmas state what each level does.
- `editor_context.dfy` and `editor_properties.dfy` — the store. A `Page` is a snapshot holding the state record, storage, the hash and the single pending-save slot that stands for the `setTimeout` handle. `Step` gives the effect of each operation on a snapshot, including the timer firing, and `Run` gives the effect of a sequence of them. The class `EditorStore` has those fields, and every operation method is proved to perform exactly its `Step`. The two helper methods, `Schedule` and `GetCurrentDesign`, are not operations and have their own contracts.

Behaviour of the code that the lemmas make precise:

- **Every setter schedules a save.** A state change, even one that only switches a tab, replaces the pending save with the current document.
- **`clearDesign` is partly undone.** It removes the two design keys. But it also resets the document, which schedules a save, so when the timer fires both keys come back holding the empty design (`ClearIsUndoneBySave`).
- **The auto-save hash is not one the resolver decodes.** The auto-save writes `'#' + encoded`, without the `code/` part. On the next load the resolver therefore finds the saved copy in storage, not the hash (`ReloadFindsAutoSave`).
- **A stale `#code/` hash can win over newer work.** The auto-save leaves the hash alone when the new encoding reaches 2000 characters. A `#code/` hash from an earlier load then wins on reload and overwrites the saved copy (`LongEditReloadsOldCodeHash`).
- **A long hand-off design can be shadowed.** If a hand-off design cannot be encoded, or its encoding is 2000 characters or longer, the page keeps its old hash. Two such hashes decide the next load instead of the saved hand-off:
  - a `#sample/<name>` hash with a known name: the next load serves the sample (`HandOffLostUnderSampleHash`);
  - a `#code/<x>` hash whose payload decodes and parses: the next load serves the design of `<x>` and overwrites both design keys with it (`HandOffLostUnderCodeHash`).
- **Otherwise a reload is stable.** Resolve with the current hash as the template, then resolve again from the storage and hash that left behind: the second result is the same document, storage and hash (`ReloadIsStable`). This needs three hypotheses: the two design keys agree on entry; decoding undoes encoding on the pending string and on the saved string; and neither of the two shadowing cases above applies. A short hand-off design is always stable, including when its `#code/` hash equals the hash the page already had.

The code, and so the model, does none of the following:

- migrate a legacy root-shaped document;
- check that a persisted design has a `body` before using it;
- check anything of an external design other than a present and truthy `body`;
- remove a pending design that does not parse: it stays in storage.

## Model

| member | source | states |
|---|---|---|
| `Configuration.PendingLevel` | packages/editor-sample/src/getConfiguration/index.tsx:16-45 | Applies exactly when the pending string is non-empty and parses. It returns the parse, removes the pending key, writes the pending string verbatim to both design keys, keeps every other key, and sets the hash by `CodeHash`. |
| `Configuration.SampleLevel` | packages/editor-sample/src/getConfiguration/index.tsx:47-70 | Applies exactly when the template starts with `#sample/` and the rest is one of the eight labels. It returns that sample with storage and hash unchanged. |
| `Configuration.CodeLevel` | packages/editor-sample/src/getConfiguration/index.tsx:72-90 | Applies exactly when the template starts with `#code/` and the rest decodes and parses. It returns the parse, writes the decoded string to both design keys, and leaves the hash unchanged. |
| `Configuration.SavedDesign` | packages/editor-sample/src/getConfiguration/index.tsx:94-95 | The primary key's value when it is present and non-empty, and the alias's `getItem` result otherwise. |
| `Configuration.PersistedLevel` | packages/editor-sample/src/getConfiguration/index.tsx:92-119 | Applies exactly when the saved string is non-empty and parses. It returns the parse, writes no storage, and rewrites the hash by `CodeHash` only for an empty template. |
| `Configuration.ResolveFromStorage` | packages/editor-sample/src/getConfiguration/index.tsx:92-123 | Priorities 4 and 5: the persisted level, or else the empty sample with storage and hash unchanged. |
| `Configuration.ResolveWithoutPending` | packages/editor-sample/src/getConfiguration/index.tsx:47-123 | Priorities 2 to 5: the first of the sample, code and persisted levels that applies, or else the empty sample. |
| `Configuration.Resolve` | packages/editor-sample/src/getConfiguration/index.tsx:11-124 | The whole chain: the first of the four levels that applies, each computed from the storage and hash on entry, or else the empty sample with nothing changed. |
| `Strings.StartsWith` | packages/editor-sample/src/getConfiguration/index.tsx:48 | `s.startsWith(prefix)`: `prefix` is no longer than `s` and equals its first characters. |
| `Strings.IndexOf` | packages/editor-sample/src/getConfiguration/index.tsx:49 | `s.indexOf(pat)`: the first position where the pattern occurs, or none when it occurs nowhere. |
| `Strings.ReplaceFirst` | packages/editor-sample/src/getConfiguration/index.tsx:49 | `s.replace(pat, rep)` with a string pattern: `s` itself when the pattern occurs nowhere, and otherwise `s` with its first occurrence replaced by `rep` inserted literally. JavaScript's `$` patterns in the replacement are not modelled; the code only passes `''`. |
| `Storage.Filled` | packages/editor-sample/src/getConfiguration/index.tsx:18 | An `if` on a `getItem` result takes the branch when the key is present and its value is non-empty. |
| `Documents.Truthy` | packages/editor-sample/src/documents/editor/EditorContext.tsx:154 | JavaScript truthiness of a JSON value: `null`, `false`, `0` and `''` are falsy, and arrays and objects are truthy. |
| `Configuration.ResolveByLevels` | packages/editor-sample/src/getConfiguration/index.tsx:14-123 | `Resolve` reads as the nested tests of the code: the pending level if it applies, else the sample level, else the code level, else the persisted level, else the empty sample. |
| `Configuration.GetConfiguration` | packages/editor-sample/src/getConfiguration/index.tsx:11-124 | The early-return resolver returns exactly the document, storage and hash of the five-level specification `Resolve`, where every level reads the storage and hash as they were on entry. |
| `Configuration.FirstOf` | packages/editor-sample/src/getConfiguration/index.tsx:14-123 | The result is the first level that applies, and the fallback (the empty sample) when no level applies. |
| `Configuration.SampleByName` | packages/editor-sample/src/getConfiguration/index.tsx:52-69 | The switch returns a sample only for that sample's own `case` label. |
| `Configuration.SampleNameRoundTrip` | packages/editor-sample/src/getConfiguration/index.tsx:52-69 | Each of the eight samples is returned for its label, so no case shadows another. |
| `Configuration.CodeHash` | packages/editor-sample/src/getConfiguration/index.tsx:31-38 | The hash becomes `#code/` + encoding exactly when the encoding succeeds and is shorter than 2000; otherwise it is unchanged. |
| `Strings.IndexOfFrom` | packages/editor-sample/src/getConfiguration/index.tsx:49 | Returns the first position at or after `from` where the pattern occurs, or None when the pattern occurs nowhere there. |
| `Strings.StripPrefix` | packages/editor-sample/src/getConfiguration/index.tsx:48-49 | `replace(prefix, '')` on a string that starts with `prefix` drops exactly that prefix. |
| `Storage.OrElse` | packages/editor-sample/src/getConfiguration/index.tsx:94-95 | `a \|\| b` yields `a` when it is present and non-empty, and `b` otherwise. |
| `Storage.Persist` | packages/editor-sample/src/getConfiguration/index.tsx:27-28 | Both design keys hold the same string; every other key is unchanged. |
| `Storage.GetItem` | packages/editor-sample/src/getConfiguration/index.tsx:17 | `getItem` returns a value exactly when the key is present, and that value is the stored string. |
| `ConfigurationProperties.ResolveUnfold` | packages/editor-sample/src/getConfiguration/index.tsx:16-45 | A usable pending design decides the result. Otherwise the result is that of priorities 2 to 5 on unchanged storage. |
| `ConfigurationProperties.WithoutPendingUnfold` | packages/editor-sample/src/getConfiguration/index.tsx:47-90 | Sample, then code, then storage decide, in that order. |
| `ConfigurationProperties.PrefixesExclusive` | packages/editor-sample/src/getConfiguration/index.tsx:48-73 | No template starts with both `#sample/` and `#code/`. |
| `ConfigurationProperties.PendingWins` | packages/editor-sample/src/getConfiguration/index.tsx:16-42 | For any template, a non-empty pending string that parses gives its parse. The pending key is removed and both design keys hold the pending string verbatim. The hash is `#code/` + encoding if the encoding is shorter than 2000, and unchanged otherwise. |
| `ConfigurationProperties.UnparsablePendingFallsThrough` | packages/editor-sample/src/getConfiguration/index.tsx:21-45 | A pending string that does not parse leaves the result to priorities 2 to 5, and the pending key stays in storage unchanged. |
| `ConfigurationProperties.WithoutPendingKeepsPending` | packages/editor-sample/src/getConfiguration/index.tsx:47-123 | Priorities 2 to 5 never add, remove or change the pending key. |
| `ConfigurationProperties.SampleWins` | packages/editor-sample/src/getConfiguration/index.tsx:48-69 | With no usable pending design, `#sample/<label>` returns that sample and changes neither storage nor hash. |
| `ConfigurationProperties.UnknownSampleGoesToStorage` | packages/editor-sample/src/getConfiguration/index.tsx:48-73 | A `#sample/` template with an unknown name skips the `#code/` level and resolves from storage or the default. |
| `ConfigurationProperties.CodeWins` | packages/editor-sample/src/getConfiguration/index.tsx:73-86 | A `#code/` payload that decodes and parses gives the parse. Both design keys are set to the decoded string, and the hash is unchanged. |
| `ConfigurationProperties.BadCodeGoesToStorage` | packages/editor-sample/src/getConfiguration/index.tsx:73-90 | A payload that fails to decode or to parse leaves storage unchanged and goes to priority 4. |
| `ConfigurationProperties.StorageChoice` | packages/editor-sample/src/getConfiguration/index.tsx:93-119 | The primary key is read first and the alias only when the primary is missing or empty. The parse is returned without any shape check. When the parse fails the result is the empty sample, and the alias is not retried. Storage is not written. |
| `ConfigurationProperties.StorageHashRule` | packages/editor-sample/src/getConfiguration/index.tsx:102-112 | At priority 4 the hash changes only for an empty template. It then becomes `#code/` + the saved string's encoding, when that encoding is shorter than 2000. |
| `ConfigurationProperties.NothingAppliesGivesEmpty` | packages/editor-sample/src/getConfiguration/index.tsx:121-123 | With no source, the result is `EMPTY_EMAIL_MESSAGE`, and storage and hash are unchanged. |
| `ConfigurationProperties.ResolveFrame` | packages/editor-sample/src/getConfiguration/index.tsx:11-124 | No key besides the three editor keys changes. The hash is either unchanged or a `#code/` fragment. |
| `ConfigurationProperties.ResolveKeepsMirror` | packages/editor-sample/src/getConfiguration/index.tsx:26-28 | If the two design keys are mirrored before resolution, they are mirrored after it. |
| `ConfigurationProperties.ReloadIsStable` | packages/editor-sample/src/getConfiguration/index.tsx:11-124 | Take a resolution whose template is the current hash. Resolving again from the storage and hash it left gives the same triple, whenever the design keys are mirrored, decoding undoes encoding on the pending and saved strings, and no hand-off that is too long or not encodable is shadowed by a known `#sample/` hash or a decodable `#code/` hash. |
| `ConfigurationProperties.ReloadFromCodeHash` | packages/editor-sample/src/getConfiguration/index.tsx:31-35 | A `#code/` hash written for string `s` reads back `s` at priority 3 and leaves storage that already holds `s` unchanged. |
| `ConfigurationProperties.HandOffLostUnderSampleHash` | packages/editor-sample/src/getConfiguration/index.tsx:16-69 | Under a `#sample/` hash, a hand-off design whose encoding is too long or not encodable wins once, and the next load returns the sample. |
| `ConfigurationProperties.HandOffLostUnderCodeHash` | packages/editor-sample/src/getConfiguration/index.tsx:16-86 | Under a `#code/<x>` hash whose payload decodes and parses, a hand-off design whose encoding is too long or not encodable wins once and leaves the hash alone. The next load returns the design of `<x>` and writes its string to both design keys. |
| `Documents.ShallowMerge` | packages/editor-sample/src/documents/editor/EditorContext.tsx:123-131 | Every key of the patch takes the patch's value, every other key keeps its old value, and the keys are the union of both. |
| `Documents.EmptyDesign` | packages/editor-sample/src/documents/editor/EditorContext.tsx:176-180 | The canonical empty design has a truthy `body`, so it would pass `loadDesignFromExternal`'s guard. |
| `EditorContext.InitialState` | packages/editor-sample/src/documents/editor/EditorContext.tsx:26-35 | The record the store is created with: the given document, no selection, sidebar `styles`, main tab `editor`, screen `desktop`, both drawers open. |
| `EditorContext.ApplySetter` | packages/editor-sample/src/documents/editor/EditorContext.tsx:81-145 | The state record each of the eight setters installs: the selection rule, one tab or the screen size, a reset, a shallow merge, or one flipped drawer flag. |
| `EditorContext.AcceptsDesign` | packages/editor-sample/src/documents/editor/EditorContext.tsx:154 | `loadDesignFromExternal` accepts a design exactly when it is present and its `body` is present and truthy. |
| `EditorContext.Step` | packages/editor-sample/src/documents/editor/EditorContext.tsx:37-189 | The effect of one operation on the page: a setter commits its record and schedules a save; an accepted load also writes both keys; a refused load changes nothing; a clear removes the three keys and empties the hash after scheduling; the timer flushes the pending save. |
| `EditorContext.Run` | packages/editor-sample/src/documents/editor/EditorContext.tsx:37-189 | The effect of a sequence of operations, applied in order. |
| `EditorContext.SelectBlock` | packages/editor-sample/src/documents/editor/EditorContext.tsx:97-108 | `null` selects the `styles` tab and keeps the inspector flag. A block id selects `block-configuration` and opens the inspector. Nothing else changes. |
| `EditorContext.ResetWith` | packages/editor-sample/src/documents/editor/EditorContext.tsx:114-121 | The document is replaced, the selection becomes `null` and the sidebar `styles`. The main tab, screen size and both drawers are untouched. |
| `EditorContext.MergeDocument` | packages/editor-sample/src/documents/editor/EditorContext.tsx:123-131 | Only the document changes, and it becomes the shallow merge of the old document with the patch. |
| `EditorContext.Commit` | packages/editor-sample/src/documents/editor/EditorContext.tsx:38-43 | A state change installs the new state and replaces the pending save with its document. Storage and hash are unchanged. |
| `EditorContext.AutoSaveHash` | packages/editor-sample/src/documents/editor/EditorContext.tsx:50-57 | The hash changes only to `'#' + encoded`, and only when the encoding succeeds and is shorter than 2000. |
| `EditorContext.Flush` | packages/editor-sample/src/documents/editor/EditorContext.tsx:43-62 | Firing the timer keeps the state and empties the pending slot. It is a no-op when nothing is pending. |
| `EditorContext.EditorStore.constructor` | packages/editor-sample/src/documents/editor/EditorContext.tsx:19-35 | No block is selected, the sidebar is `styles`, the main tab is `editor`, the screen is `desktop` and both drawers are open. The document, storage and hash are those the resolver returns for the current hash. No save is pending. |
| `EditorContext.EditorStore.Schedule` | packages/editor-sample/src/documents/editor/EditorContext.tsx:37-43 | The subscriber replaces any pending save with the current document. |
| `EditorContext.EditorStore.SetSelectedBlockId` | packages/editor-sample/src/documents/editor/EditorContext.tsx:97-108 | Performs `SelectBlock` and schedules the save. |
| `EditorContext.EditorStore.SetSidebarTab` | packages/editor-sample/src/documents/editor/EditorContext.tsx:110-112 | Sets the sidebar tab and schedules the save. |
| `EditorContext.EditorStore.SetSelectedMainTab` | packages/editor-sample/src/documents/editor/EditorContext.tsx:81-83 | Sets the main tab and schedules the save. |
| `EditorContext.EditorStore.SetSelectedScreenSize` | packages/editor-sample/src/documents/editor/EditorContext.tsx:143-145 | Sets the screen size and schedules the save. |
| `EditorContext.EditorStore.ResetDocument` | packages/editor-sample/src/documents/editor/EditorContext.tsx:114-121 | Performs `ResetWith` and schedules the save. |
| `EditorContext.EditorStore.SetDocument` | packages/editor-sample/src/documents/editor/EditorContext.tsx:123-131 | Performs `MergeDocument` and schedules the save. |
| `EditorContext.EditorStore.ToggleInspectorDrawerOpen` | packages/editor-sample/src/documents/editor/EditorContext.tsx:133-136 | Flips the inspector flag and schedules the save. |
| `EditorContext.EditorStore.ToggleSamplesDrawerOpen` | packages/editor-sample/src/documents/editor/EditorContext.tsx:138-141 | Flips the samples flag and schedules the save. |
| `EditorContext.EditorStore.GetCurrentDesign` | packages/editor-sample/src/documents/editor/EditorContext.tsx:147-149 | Returns the current document and changes nothing. |
| `EditorContext.EditorStore.LoadDesignFromExternal` | packages/editor-sample/src/documents/editor/EditorContext.tsx:151-171 | Returns true exactly when the design is present with a truthy `body`, and then performs that load step. |
| `EditorContext.EditorStore.ClearDesign` | packages/editor-sample/src/documents/editor/EditorContext.tsx:173-189 | Performs the clear step. |
| `EditorContext.EditorStore.SaveTimerFires` | packages/editor-sample/src/documents/editor/EditorContext.tsx:43-62 | Performs the timer step and keeps the pending save equal to the latest document. Because of that invariant, a scheduled save writes the serialisation of the current document to both keys. |
| `EditorProperties.SetterOnlySchedules` | packages/editor-sample/src/documents/editor/EditorContext.tsx:38-43 | Each of the eight setters leaves storage and hash unchanged and leaves exactly one save pending, holding the new document. |
| `EditorProperties.PlainSettersChangeOneField` | packages/editor-sample/src/documents/editor/EditorContext.tsx:81-145 | Setting the sidebar tab, the main tab or the screen size changes that one field. |
| `EditorProperties.TogglesAreInvolutions` | packages/editor-sample/src/documents/editor/EditorContext.tsx:133-141 | Each toggle flips exactly its own flag, and toggling twice restores the state record. |
| `EditorProperties.SetDocumentIdempotent` | packages/editor-sample/src/documents/editor/EditorContext.tsx:123-131 | Applying the same patch twice equals applying it once. |
| `EditorProperties.ResetIsDeselect` | packages/editor-sample/src/documents/editor/EditorContext.tsx:97-121 | `resetDocument(d)` equals replacing the document and then `setSelectedBlockId(null)`. |
| `EditorProperties.LoadRejectsWithoutBody` | packages/editor-sample/src/documents/editor/EditorContext.tsx:154-157 | A missing design, or one with a missing or falsy `body`, changes neither state, storage, hash nor pending save. |
| `EditorProperties.LoadInstallsDesign` | packages/editor-sample/src/documents/editor/EditorContext.tsx:159-166 | An accepted design becomes the document with the selection reset. Both design keys hold the same serialisation, other keys and the hash are unchanged, and a save is scheduled for it. |
| `EditorProperties.ClearRemovesThreeKeys` | packages/editor-sample/src/documents/editor/EditorContext.tsx:173-189 | The document becomes `{body:{rows:[]}}` with the selection reset. The three keys are absent, every other key is untouched and the hash is `''`. |
| `EditorProperties.ClearIsUndoneBySave` | packages/editor-sample/src/documents/editor/EditorContext.tsx:182-189 | Once the save scheduled by the clear fires, both design keys hold the empty design's serialisation. |
| `EditorProperties.SaveWritesPending` | packages/editor-sample/src/documents/editor/EditorContext.tsx:43-62 | Firing writes the pending document's one serialisation to both keys. The hash changes only to `'#' + encoded` with an encoding shorter than 2000. |
| `EditorProperties.StepKeepsPendingLatest` | packages/editor-sample/src/documents/editor/EditorContext.tsx:37-43 | Every operation keeps the pending save equal to the current document. |
| `EditorProperties.RunKeepsPendingLatest` | packages/editor-sample/src/documents/editor/EditorContext.tsx:37-63 | The same holds over any sequence of operations. |
| `EditorProperties.StepKeepsMirror` | packages/editor-sample/src/documents/editor/EditorContext.tsx:46-47 | Every operation keeps the two design keys mirrored. |
| `EditorProperties.RunKeepsMirror` | packages/editor-sample/src/documents/editor/EditorContext.tsx:37-189 | The same holds over any sequence of operations. |
| `EditorProperties.BurstWritesNothing` | packages/editor-sample/src/documents/editor/EditorContext.tsx:37-43 | A burst of setters writes neither storage nor hash, and leaves one save pending, holding the last document. |
| `EditorProperties.DebouncedBurstSavesLast` | packages/editor-sample/src/documents/editor/EditorContext.tsx:37-63 | A burst of setters followed by the timer writes once, to both keys, the serialisation of the last document. |
| `EditorProperties.ReloadFindsAutoSave` | packages/editor-sample/src/documents/editor/EditorContext.tsx:43-57 | After a save, if no hand-off is pending and the hash is neither `#sample/` nor `#code/`, the next load returns the saved document. This needs parse to undo stringify. |
| `EditorProperties.LongEditReloadsOldCodeHash` | packages/editor-sample/src/documents/editor/EditorContext.tsx:50-57 | A save whose encoding reaches 2000 leaves a `#code/<x>` hash in place. The next load then returns `<x>`'s design and overwrites the saved copy. |

## Left out

- The HTML functions `renderEmailHtml` and `exportEmail` are not modelled: they query a live DOM by class-name heuristics and call an optional host function.
- The hook readers (`useDocument`, `useSelectedBlockId`, …) project one field each. In the model they are plain reads of `EditorStore.state`.
- The block that exposes the store on `window`, and all console logging, are not modelled.
- Timers: `setTimeout` and `clearTimeout` become the `pendingSave` slot and the `SaveTimerFires` operation. The one-second delay is not modelled; "the timer fires" is an explicit event.
- JSON, base64 and percent-encoding are uninterpreted `Codec` functions, and `parse` yields a top-level object or `None`. In the code, `JSON.parse` of a text whose top level is `null`, `true`, `false`, a number, a string or an array does not throw. `getConfiguration` then returns that value as the document, after the storage writes of priority 1 (removing the pending key, writing both design keys) or of priority 3 (writing both design keys). The model cannot produce that outcome. A codec must map such a text either to `None`, which the model reads as a throw (the level falls through, and at priority 1 the pending key stays in storage), or to some object, which is a different document from the one the code returns.
- JSON object key order is not modelled: documents are unordered maps. Numbers are reals, so NaN and -0 are absent.
- Storage exceptions, such as a quota error, are not modelled: every write is a total map update.
- LoadDesignFromExternal: does not model the `catch` branch that returns false after a failed write. An accepted design always returns true.
- Documents are values. In the code the store keeps the object it was given by reference: `resetDocument(design)` at EditorContext.tsx:160 stores the caller's object, and `getCurrentDesign` at line 148 returns the store's object. A host that mutates that object changes the store's document without a `setState`, and the next timer save writes the mutated object. This sharing by reference is not modelled.
- The sample documents' contents are opaque values of a `Catalog`.
- The samples drawer and the rest of the UI are not modelled.
- `window.location.hash` assignment and `history.replaceState` are both modelled as replacing the hash string. History entries and `hashchange` listeners are not modelled. A reload is modelled by running `Resolve` again.
