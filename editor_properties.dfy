/**
 * What the editor store promises: each operation changes exactly its own
 * fields, the debounced save writes the latest document once, the two design
 * keys stay mirrored, and what a reload then finds.
 */
module EditorProperties {
  import opened Wrappers
  import opened Documents
  import opened Storage
  import opened Strings
  import opened Configuration
  import opened ConfigurationProperties
  import opened EditorContext

  // ----- The setters -----

  /** A setter changes only the state record and schedules the save of the new document. */
  lemma SetterOnlySchedules(p: Page, a: Action, codec: Codec)
    requires IsSetter(a)
    ensures var q := Step(p, a, codec);
            && q.storage == p.storage && q.hash == p.hash
            && q.pendingSave == Some(q.state.document)
  {
  }

  /** Setting a tab or the screen size changes that field and no other. */
  lemma PlainSettersChangeOneField(p: Page, codec: Codec, side: SidebarTab, main: MainTab, size: ScreenSize)
    ensures Step(p, SetSidebarTab(side), codec).state == p.state.(selectedSidebarTab := side)
    ensures Step(p, SetSelectedMainTab(main), codec).state == p.state.(selectedMainTab := main)
    ensures Step(p, SetSelectedScreenSize(size), codec).state == p.state.(selectedScreenSize := size)
  {
  }

  /** Each toggle flips its own flag only, and toggling twice restores the state record. */
  lemma TogglesAreInvolutions(p: Page, codec: Codec)
    ensures var q := Step(p, ToggleInspectorDrawerOpen, codec);
            q.state.inspectorDrawerOpen == !p.state.inspectorDrawerOpen
            && q.state.(inspectorDrawerOpen := p.state.inspectorDrawerOpen) == p.state
    ensures var q := Step(p, ToggleSamplesDrawerOpen, codec);
            q.state.samplesDrawerOpen == !p.state.samplesDrawerOpen
            && q.state.(samplesDrawerOpen := p.state.samplesDrawerOpen) == p.state
    ensures Step(Step(p, ToggleInspectorDrawerOpen, codec), ToggleInspectorDrawerOpen, codec).state == p.state
    ensures Step(Step(p, ToggleSamplesDrawerOpen, codec), ToggleSamplesDrawerOpen, codec).state == p.state
  {
  }

  /** Merging the same patch twice is merging it once. */
  lemma SetDocumentIdempotent(s: EditorState, patch: Doc)
    ensures MergeDocument(MergeDocument(s, patch), patch) == MergeDocument(s, patch)
  {
    var once := MergeDocument(s, patch).document;
    assert ShallowMerge(once, patch) == once;
  }

  /** Clearing the selection is what `resetDocument` does besides replacing the document. */
  lemma ResetIsDeselect(s: EditorState, d: Doc)
    ensures ResetWith(s, d) == SelectBlock(s.(document := d), None)
  {
  }

  // ----- External load and clear -----

  /** A missing design, or one without a truthy `body`, is refused and changes nothing. */
  lemma LoadRejectsWithoutBody(p: Page, design: Option<Doc>, codec: Codec)
    requires design.None? || "body" !in design.value || !Truthy(design.value["body"])
    ensures Step(p, LoadDesignFromExternal(design), codec) == p
  {
  }

  /**
   * An accepted design becomes the document with the selection reset, and
   * both design keys hold its one serialisation; other keys and the hash are
   * untouched.
   */
  lemma LoadInstallsDesign(p: Page, d: Doc, codec: Codec)
    requires "body" in d && Truthy(d["body"])
    ensures var q := Step(p, LoadDesignFromExternal(Some(d)), codec);
            && q.state == ResetWith(p.state, d)
            && q.storage == Persist(p.storage, codec.stringify(d))
            && q.storage[DesignKey] == q.storage[LegacyKey] == codec.stringify(d)
            && q.hash == p.hash
            && q.pendingSave == Some(d)
  {
  }

  /**
   * Clearing installs the canonical empty design with the selection reset,
   * removes the three keys and no other, and empties the hash.
   */
  lemma ClearRemovesThreeKeys(p: Page, codec: Codec)
    ensures var q := Step(p, ClearDesign, codec);
            && q.state == ResetWith(p.state, EmptyDesign())
            && DesignKey !in q.storage && LegacyKey !in q.storage && PendingKey !in q.storage
            && (forall k | k in p.storage && k != DesignKey && k != LegacyKey && k != PendingKey ::
                  k in q.storage && q.storage[k] == p.storage[k])
            && q.storage.Keys <= p.storage.Keys
            && q.hash == ""
  {
  }

  /**
   * Clearing schedules a save like every other state change, so once the
   * timer fires both design keys are back, holding the empty design.
   */
  lemma ClearIsUndoneBySave(p: Page, codec: Codec)
    ensures var q := Step(Step(p, ClearDesign, codec), SaveTimerFires, codec);
            && q.state == ResetWith(p.state, EmptyDesign())
            && q.storage == Persist(p.storage - {DesignKey, LegacyKey, PendingKey}, codec.stringify(EmptyDesign()))
            && PendingKey !in q.storage
            && q.hash == AutoSaveHash(codec, codec.stringify(EmptyDesign()), "")
  {
    var cleared := Step(p, ClearDesign, codec);
    assert cleared.pendingSave == Some(EmptyDesign());
    assert cleared.storage == p.storage - {DesignKey, LegacyKey, PendingKey} && cleared.hash == "";
  }

  // ----- The debounced save -----

  /**
   * When the timer fires, both keys receive the one serialisation of the
   * pending document, and the hash changes only to `'#' + encoded`, only when
   * that encoding is shorter than the ceiling.
   */
  lemma SaveWritesPending(p: Page, d: Doc, codec: Codec)
    requires p.pendingSave == Some(d)
    ensures var q := Step(p, SaveTimerFires, codec);
            var designStr := codec.stringify(d);
            && q.state == p.state && q.pendingSave == None
            && q.storage == Persist(p.storage, designStr)
            && (q.hash != p.hash ==> codec.encode(designStr).Some?
                                     && |codec.encode(designStr).value| < HashCeiling
                                     && q.hash == "#" + codec.encode(designStr).value)
  {
  }

  /** Every operation keeps the pending save equal to the latest document. */
  lemma StepKeepsPendingLatest(p: Page, a: Action, codec: Codec)
    requires PendingIsLatest(p)
    ensures PendingIsLatest(Step(p, a, codec))
  {
  }

  lemma {:induction false} RunKeepsPendingLatest(p: Page, actions: seq<Action>, codec: Codec)
    requires PendingIsLatest(p)
    ensures PendingIsLatest(Run(p, actions, codec))
  {
    if |actions| > 0 {
      RunKeepsPendingLatest(p, actions[..|actions| - 1], codec);
      StepKeepsPendingLatest(Run(p, actions[..|actions| - 1], codec), actions[|actions| - 1], codec);
    }
  }

  /** Every operation keeps the two design keys mirrored. */
  lemma StepKeepsMirror(p: Page, a: Action, codec: Codec)
    requires Mirrored(p.storage)
    ensures Mirrored(Step(p, a, codec).storage)
  {
  }

  lemma {:induction false} RunKeepsMirror(p: Page, actions: seq<Action>, codec: Codec)
    requires Mirrored(p.storage)
    ensures Mirrored(Run(p, actions, codec).storage)
  {
    if |actions| > 0 {
      RunKeepsMirror(p, actions[..|actions| - 1], codec);
      StepKeepsMirror(Run(p, actions[..|actions| - 1], codec), actions[|actions| - 1], codec);
    }
  }

  /**
   * A burst of setters writes nothing to storage or the hash; afterwards one
   * save is pending, and it holds the document the last setter left.
   */
  lemma {:induction false} BurstWritesNothing(p: Page, actions: seq<Action>, codec: Codec)
    requires |actions| > 0
    requires forall i | 0 <= i < |actions| :: IsSetter(actions[i])
    ensures var q := Run(p, actions, codec);
            q.storage == p.storage && q.hash == p.hash && q.pendingSave == Some(q.state.document)
  {
    var init := actions[..|actions| - 1];
    if |init| > 0 {
      BurstWritesNothing(p, init, codec);
    }
  }

  /**
   * Debounce: a burst of setters followed by the timer produces exactly one
   * write, of the last document, to both keys.
   */
  lemma {:induction false} DebouncedBurstSavesLast(p: Page, actions: seq<Action>, codec: Codec)
    requires |actions| > 0
    requires forall i | 0 <= i < |actions| :: IsSetter(actions[i])
    ensures var last := Run(p, actions, codec).state;
            var q := Run(p, actions + [SaveTimerFires], codec);
            var designStr := codec.stringify(last.document);
            && q.state == last && q.pendingSave == None
            && q.storage == Persist(p.storage, designStr)
            && q.hash == AutoSaveHash(codec, designStr, p.hash)
  {
    BurstWritesNothing(p, actions, codec);
    assert (actions + [SaveTimerFires])[..|actions|] == actions;
  }

  // ----- Reloading after a save -----

  /**
   * The auto-saved copy is what the next load finds, when the hash the save
   * left is neither a `#sample/` nor a `#code/` one, no hand-off is pending,
   * and parsing undoes serialising.
   */
  lemma ReloadFindsAutoSave(p: Page, codec: Codec, catalog: Catalog)
    requires p.pendingSave == Some(p.state.document)
    requires NoUsablePending(p.storage, codec)
    requires codec.stringify(p.state.document) != ""
    requires ParseUndoesStringify(codec, p.state.document)
    ensures var q := Step(p, SaveTimerFires, codec);
            !StartsWith(q.hash, SamplePrefix) && !StartsWith(q.hash, CodePrefix) ==>
              Resolve(q.hash, q.storage, q.hash, codec, catalog).document == p.state.document
  {
    var q := Step(p, SaveTimerFires, codec);
    if !StartsWith(q.hash, SamplePrefix) && !StartsWith(q.hash, CodePrefix) {
      assert GetItem(q.storage, PendingKey) == GetItem(p.storage, PendingKey);
      ResolveUnfold(q.hash, q.storage, q.hash, codec, catalog);
      WithoutPendingUnfold(q.hash, q.storage, q.hash, codec, catalog);
    }
  }

  /**
   * The save never rewrites a `#code/` hash when the new encoding is too
   * long, so a page opened from `#code/<x>` and then edited past the ceiling
   * reloads the design of `<x>`, and that load overwrites the saved copy.
   */
  lemma LongEditReloadsOldCodeHash(p: Page, codec: Codec, catalog: Catalog, x: string)
    requires p.pendingSave == Some(p.state.document)
    requires NoUsablePending(p.storage, codec)
    requires p.hash == CodePrefix + x
    requires var e := codec.encode(codec.stringify(p.state.document)); e.None? || |e.value| >= HashCeiling
    requires codec.decode(x).Some? && codec.parse(codec.decode(x).value).Some?
    ensures var q := Step(p, SaveTimerFires, codec);
            var earlier := codec.decode(x).value;
            && q.hash == p.hash
            && Resolve(q.hash, q.storage, q.hash, codec, catalog)
               == Resolution(codec.parse(earlier).value, Persist(q.storage, earlier), q.hash)
  {
    var q := Step(p, SaveTimerFires, codec);
    assert GetItem(q.storage, PendingKey) == GetItem(p.storage, PendingKey);
    CodeWins(x, q.storage, q.hash, codec, catalog);
  }
}
