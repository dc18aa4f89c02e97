/**
 * The editor's single state store (`EditorContext`): the state record, the
 * exported setters, the external-host operations and the debounced
 * auto-save that mirrors the document into storage and the location hash.
 *
 * A `Page` is one snapshot of everything the store touches: the state
 * record, `localStorage`, `window.location.hash` and the pending auto-save.
 * `Step` says how each operation changes a snapshot; the class
 * `EditorStore` holds the same fields and each of its operation methods is
 * proved to perform exactly that step.
 */
module EditorContext {
  import opened Wrappers
  import opened Documents
  import opened Storage
  import Configuration

  datatype SidebarTab = BlockConfiguration | Styles
  datatype MainTab = EditorTab | PreviewTab | JsonTab | HtmlTab
  datatype ScreenSize = Desktop | Mobile

  /** The state record (`TValue`); `None` is a `null` selection. */
  datatype EditorState = EditorState(
    document: Doc,
    selectedBlockId: Option<string>,
    selectedSidebarTab: SidebarTab,
    selectedMainTab: MainTab,
    selectedScreenSize: ScreenSize,
    inspectorDrawerOpen: bool,
    samplesDrawerOpen: bool)

  /** The state the store is created with, around the resolved document. */
  function InitialState(document: Doc): EditorState
  {
    EditorState(document, None, Styles, EditorTab, Desktop, true, true)
  }

  // ----- The setters, as changes to the state record -----

  /** `setSelectedBlockId`: a selection shows its configuration and opens the inspector. */
  function SelectBlock(s: EditorState, id: Option<string>): (r: EditorState)
    ensures r.selectedBlockId == id
    ensures r.selectedSidebarTab == (if id.None? then Styles else BlockConfiguration)
    ensures id.Some? ==> r.inspectorDrawerOpen
    ensures id.None? ==> r.inspectorDrawerOpen == s.inspectorDrawerOpen
    ensures r.(selectedBlockId := s.selectedBlockId, selectedSidebarTab := s.selectedSidebarTab,
               inspectorDrawerOpen := s.inspectorDrawerOpen) == s
  {
    var tab := if id.None? then Styles else BlockConfiguration;
    if id.Some? then s.(selectedBlockId := id, selectedSidebarTab := tab, inspectorDrawerOpen := true)
    else s.(selectedBlockId := id, selectedSidebarTab := tab)
  }

  /** `resetDocument`: a new document with the selection cleared. */
  function ResetWith(s: EditorState, d: Doc): (r: EditorState)
    ensures r.document == d && r.selectedBlockId == None && r.selectedSidebarTab == Styles
    ensures r.(document := s.document, selectedBlockId := s.selectedBlockId,
               selectedSidebarTab := s.selectedSidebarTab) == s
  {
    s.(document := d, selectedSidebarTab := Styles, selectedBlockId := None)
  }

  /** `setDocument`: the patch is spread over the current document. */
  function MergeDocument(s: EditorState, patch: Doc): (r: EditorState)
    ensures r.document.Keys == s.document.Keys + patch.Keys
    ensures forall k | k in patch :: r.document[k] == patch[k]
    ensures forall k | k in s.document && k !in patch :: r.document[k] == s.document[k]
    ensures r.(document := s.document) == s
  {
    s.(document := ShallowMerge(s.document, patch))
  }

  /** An operation of the store, or the auto-save timer firing. */
  datatype Action =
    | SetSelectedBlockId(id: Option<string>)
    | SetSidebarTab(sidebarTab: SidebarTab)
    | SetSelectedMainTab(mainTab: MainTab)
    | SetSelectedScreenSize(screenSize: ScreenSize)
    | ResetDocument(newDocument: Doc)
    | SetDocument(patch: Doc)
    | ToggleInspectorDrawerOpen
    | ToggleSamplesDrawerOpen
    | LoadDesignFromExternal(design: Option<Doc>)
    | ClearDesign
    | SaveTimerFires

  /** The eight exported setters: changes of the state record only. */
  predicate IsSetter(a: Action)
  {
    !(a.LoadDesignFromExternal? || a.ClearDesign? || a.SaveTimerFires?)
  }

  /** The new state record a setter installs. */
  function ApplySetter(s: EditorState, a: Action): EditorState
    requires IsSetter(a)
  {
    match a
    case SetSelectedBlockId(id) => SelectBlock(s, id)
    case SetSidebarTab(t) => s.(selectedSidebarTab := t)
    case SetSelectedMainTab(t) => s.(selectedMainTab := t)
    case SetSelectedScreenSize(z) => s.(selectedScreenSize := z)
    case ResetDocument(d) => ResetWith(s, d)
    case SetDocument(patch) => MergeDocument(s, patch)
    case ToggleInspectorDrawerOpen => s.(inspectorDrawerOpen := !s.inspectorDrawerOpen)
    case ToggleSamplesDrawerOpen => s.(samplesDrawerOpen := !s.samplesDrawerOpen)
  }

  /** `loadDesignFromExternal`'s guard: the design is present and its `body` is truthy. */
  predicate AcceptsDesign(design: Option<Doc>)
  {
    design.Some? && "body" in design.value && Truthy(design.value["body"])
  }

  // ----- Snapshots of the page -----

  /** The store's state with the page's storage, hash, and the one pending auto-save. */
  datatype Page = Page(state: EditorState, storage: Store, hash: string, pendingSave: Option<Doc>)

  /** Every `setState` notifies the subscriber, which replaces the pending save by the new document. */
  function Commit(p: Page, s: EditorState): (q: Page)
    ensures q.state == s && q.pendingSave == Some(s.document)
    ensures q.storage == p.storage && q.hash == p.hash
  {
    p.(state := s, pendingSave := Some(s.document))
  }

  /**
   * The auto-save's hash: `'#' + encoded` when the encoding exists and is
   * shorter than the ceiling, otherwise the current hash.
   */
  function AutoSaveHash(codec: Codec, designStr: string, hash: string): (h: string)
    ensures h != hash ==> codec.encode(designStr).Some?
                          && |codec.encode(designStr).value| < Configuration.HashCeiling
                          && h == "#" + codec.encode(designStr).value
    ensures codec.encode(designStr).Some? && |codec.encode(designStr).value| < Configuration.HashCeiling ==>
              h == "#" + codec.encode(designStr).value
  {
    match codec.encode(designStr)
    case None => hash
    case Some(encoded) => if |encoded| < Configuration.HashCeiling then "#" + encoded else hash
  }

  /** The timer fires: the pending document is written to both keys, and the hash follows. */
  function Flush(p: Page, codec: Codec): (q: Page)
    ensures q.state == p.state && q.pendingSave == None
    ensures p.pendingSave.None? ==> q == p.(pendingSave := None)
  {
    match p.pendingSave
    case None => p
    case Some(d) =>
      var designStr := codec.stringify(d);
      p.(storage := Persist(p.storage, designStr),
         hash := AutoSaveHash(codec, designStr, p.hash),
         pendingSave := None)
  }

  /** What one operation does to a snapshot. */
  function Step(p: Page, a: Action, codec: Codec): Page
  {
    match a
    case LoadDesignFromExternal(design) =>
      if AcceptsDesign(design) then
        var q := Commit(p, ResetWith(p.state, design.value));
        q.(storage := Persist(q.storage, codec.stringify(design.value)))
      else p
    case ClearDesign =>
      var q := Commit(p, ResetWith(p.state, EmptyDesign()));
      q.(storage := q.storage - {DesignKey, LegacyKey, PendingKey}, hash := "")
    case SaveTimerFires => Flush(p, codec)
    case _ => Commit(p, ApplySetter(p.state, a))
  }

  /** A run of operations, one after the other. */
  function Run(p: Page, actions: seq<Action>, codec: Codec): Page
  {
    if |actions| == 0 then p
    else Step(Run(p, actions[..|actions| - 1], codec), actions[|actions| - 1], codec)
  }

  /** A pending save always holds the latest document. */
  predicate PendingIsLatest(p: Page)
  {
    p.pendingSave.None? || p.pendingSave.value == p.state.document
  }

  // ----- The store -----

  class EditorStore {
    var state: EditorState
    var storage: Store
    var hash: string
    /** The document captured by the scheduled `setTimeout`, if one is scheduled. */
    var pendingSave: Option<Doc>
    const codec: Codec

    function Current(): Page
      reads this
    {
      Page(state, storage, hash, pendingSave)
    }

    ghost predicate Valid()
      reads this
    {
      PendingIsLatest(Current())
    }

    /**
     * Module initialisation: the document is `getConfiguration(hash)`, whose
     * storage and hash writes take effect; nothing is scheduled yet, because
     * the subscriber is attached after the store is created.
     */
    constructor (storage0: Store, hash0: string, codec: Codec, catalog: Configuration.Catalog)
      ensures Valid()
      ensures this.codec == codec
      ensures var r := Configuration.Resolve(hash0, storage0, hash0, codec, catalog);
              && state == InitialState(r.document)
              && storage == r.storage && hash == r.hash
      ensures pendingSave == None
    {
      var document, storage1, hash1 := Configuration.GetConfiguration(hash0, storage0, hash0, codec, catalog);
      state := InitialState(document);
      storage := storage1;
      hash := hash1;
      pendingSave := None;
      this.codec := codec;
    }

    /** The subscriber: (re)schedule the save of the current document. */
    method Schedule()
      modifies this`pendingSave
      ensures pendingSave == Some(state.document)
    {
      pendingSave := Some(state.document);
    }

    method SetSelectedBlockId(id: Option<string>)
      requires Valid()
      modifies this
      ensures Valid()
      ensures Current() == Step(old(Current()), Action.SetSelectedBlockId(id), codec)
    {
      var tab := if id.None? then Styles else BlockConfiguration;
      state := state.(selectedBlockId := id, selectedSidebarTab := tab);
      if id.Some? {
        state := state.(inspectorDrawerOpen := true);
      }
      Schedule();
    }

    method SetSidebarTab(tab: SidebarTab)
      requires Valid()
      modifies this
      ensures Valid()
      ensures Current() == Step(old(Current()), Action.SetSidebarTab(tab), codec)
    {
      state := state.(selectedSidebarTab := tab);
      Schedule();
    }

    method SetSelectedMainTab(tab: MainTab)
      requires Valid()
      modifies this
      ensures Valid()
      ensures Current() == Step(old(Current()), Action.SetSelectedMainTab(tab), codec)
    {
      state := state.(selectedMainTab := tab);
      Schedule();
    }

    method SetSelectedScreenSize(size: ScreenSize)
      requires Valid()
      modifies this
      ensures Valid()
      ensures Current() == Step(old(Current()), Action.SetSelectedScreenSize(size), codec)
    {
      state := state.(selectedScreenSize := size);
      Schedule();
    }

    method ResetDocument(document: Doc)
      requires Valid()
      modifies this
      ensures Valid()
      ensures Current() == Step(old(Current()), Action.ResetDocument(document), codec)
    {
      state := state.(document := document, selectedSidebarTab := Styles, selectedBlockId := None);
      Schedule();
    }

    method SetDocument(patch: Doc)
      requires Valid()
      modifies this
      ensures Valid()
      ensures Current() == Step(old(Current()), Action.SetDocument(patch), codec)
    {
      var originalDocument := state.document;
      state := state.(document := originalDocument + patch);
      Schedule();
    }

    method ToggleInspectorDrawerOpen()
      requires Valid()
      modifies this
      ensures Valid()
      ensures Current() == Step(old(Current()), Action.ToggleInspectorDrawerOpen, codec)
    {
      var inspectorDrawerOpen := !state.inspectorDrawerOpen;
      state := state.(inspectorDrawerOpen := inspectorDrawerOpen);
      Schedule();
    }

    method ToggleSamplesDrawerOpen()
      requires Valid()
      modifies this
      ensures Valid()
      ensures Current() == Step(old(Current()), Action.ToggleSamplesDrawerOpen, codec)
    {
      var samplesDrawerOpen := !state.samplesDrawerOpen;
      state := state.(samplesDrawerOpen := samplesDrawerOpen);
      Schedule();
    }

    /** `getCurrentDesign`. */
    method GetCurrentDesign() returns (d: Doc)
      ensures d == state.document
    {
      d := state.document;
    }

    /**
     * `loadDesignFromExternal`: rejects a missing design or one without a
     * truthy `body`; otherwise resets to it and stores its serialisation under
     * both keys.
     */
    method LoadDesignFromExternal(design: Option<Doc>) returns (ok: bool)
      requires Valid()
      modifies this
      ensures Valid()
      ensures ok == AcceptsDesign(design)
      ensures Current() == Step(old(Current()), Action.LoadDesignFromExternal(design), codec)
    {
      if design.None? || "body" !in design.value || !Truthy(design.value["body"]) {
        return false;
      }
      ResetDocument(design.value);
      var designStr := codec.stringify(design.value);
      storage := storage[DesignKey := designStr];
      storage := storage[LegacyKey := designStr];
      return true;
    }

    /** `clearDesign`: the canonical empty design, three keys removed, the hash emptied. */
    method ClearDesign()
      requires Valid()
      modifies this
      ensures Valid()
      ensures Current() == Step(old(Current()), Action.ClearDesign, codec)
    {
      ResetDocument(EmptyDesign());
      storage := storage - {DesignKey};
      storage := storage - {LegacyKey};
      storage := storage - {PendingKey};
      hash := "";
    }

    /** The scheduled `setTimeout` callback runs (a no-op when nothing is scheduled). */
    method SaveTimerFires()
      requires Valid()
      modifies this
      ensures Valid()
      ensures old(pendingSave).Some? ==> storage == Persist(old(storage), codec.stringify(old(state).document))
      ensures Current() == Step(old(Current()), Action.SaveTimerFires, codec)
    {
      if pendingSave.Some? {
        var designStr := codec.stringify(pendingSave.value);
        storage := storage[DesignKey := designStr];
        storage := storage[LegacyKey := designStr];
        var encoded := codec.encode(designStr);
        if encoded.Some? && |encoded.value| < Configuration.HashCeiling {
          var newHash := "#" + encoded.value;
          if hash != newHash {
            hash := newHash;
          }
        }
      }
      pendingSave := None;
    }
  }
}
