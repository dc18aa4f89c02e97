/**
 * What the priority chain of `getConfiguration` promises: which level wins,
 * what each level writes to storage and to the location hash, and what is
 * left untouched.
 */
module ConfigurationProperties {
  import opened Wrappers
  import opened Documents
  import opened Storage
  import opened Strings
  import opened Configuration

  /** The pending slot is missing, empty, or holds a string that does not parse. */
  predicate NoUsablePending(st: Store, codec: Codec)
  {
    !Filled(GetItem(st, PendingKey)) || codec.parse(st[PendingKey]).None?
  }

  /** Priority 1 decides first; when it does not apply, priorities 2 to 5 run on untouched storage. */
  lemma ResolveUnfold(template: string, st: Store, hash: string, codec: Codec, catalog: Catalog)
    ensures PendingLevel(st, hash, codec).Some? ==>
              Resolve(template, st, hash, codec, catalog) == PendingLevel(st, hash, codec).value
    ensures PendingLevel(st, hash, codec).None? ==>
              Resolve(template, st, hash, codec, catalog) == ResolveWithoutPending(template, st, hash, codec, catalog)
  {
    var levels := [PendingLevel(st, hash, codec), SampleLevel(template, st, hash, catalog),
                   CodeLevel(template, st, hash, codec), PersistedLevel(template, st, hash, codec)];
    assert levels[1..] == [SampleLevel(template, st, hash, catalog),
                           CodeLevel(template, st, hash, codec), PersistedLevel(template, st, hash, codec)];
  }

  /** Priorities 2 and 3 decide in turn; when neither applies, storage decides. */
  lemma WithoutPendingUnfold(template: string, st: Store, hash: string, codec: Codec, catalog: Catalog)
    ensures var s := SampleLevel(template, st, hash, catalog);
            var c := CodeLevel(template, st, hash, codec);
            ResolveWithoutPending(template, st, hash, codec, catalog)
            == if s.Some? then s.value
               else if c.Some? then c.value
               else ResolveFromStorage(template, st, hash, codec, catalog)
  {
    var s, c, p := SampleLevel(template, st, hash, catalog), CodeLevel(template, st, hash, codec),
                   PersistedLevel(template, st, hash, codec);
    var fallback := Resolution(catalog.empty, st, hash);
    if s.None? {
      assert [s, c, p][1..] == [c, p];
      assert FirstOf([s, c, p], fallback) == FirstOf([c, p], fallback);
      if c.None? {
        assert [c, p][1..] == [p];
        assert FirstOf([c, p], fallback) == FirstOf([p], fallback);
      }
    }
  }

  /** A `#sample/` template can never also be a `#code/` one. */
  lemma PrefixesExclusive(template: string)
    ensures !(StartsWith(template, SamplePrefix) && StartsWith(template, CodePrefix))
  {
    if StartsWith(template, SamplePrefix) {
      assert template[1] == template[..|SamplePrefix|][1] == 's';
    }
    if StartsWith(template, CodePrefix) {
      assert template[1] == template[..|CodePrefix|][1] == 'c';
    }
  }

  lemma StartsWithConcat(prefix: string, rest: string)
    ensures StartsWith(prefix + rest, prefix) && (prefix + rest)[|prefix|..] == rest
  {
    assert (prefix + rest)[..|prefix|] == prefix;
  }

  // ----- Priority 1: the pending hand-off slot -----

  /**
   * A non-empty pending design that parses wins whatever the template: the
   * result is its parse, the pending key is gone, both design keys hold the
   * pending string verbatim, and the hash becomes `#code/` + its encoding
   * exactly when that encoding exists and is shorter than the ceiling.
   */
  lemma PendingWins(template: string, st: Store, hash: string, codec: Codec, catalog: Catalog)
    requires Filled(GetItem(st, PendingKey)) && codec.parse(st[PendingKey]).Some?
    ensures var r := Resolve(template, st, hash, codec, catalog);
            var pending := st[PendingKey];
            && r.document == codec.parse(pending).value
            && r.storage.Keys == st.Keys - {PendingKey} + {DesignKey, LegacyKey}
            && r.storage[DesignKey] == pending && r.storage[LegacyKey] == pending
            && (codec.encode(pending).Some? && |codec.encode(pending).value| < HashCeiling ==>
                  r.hash == CodePrefix + codec.encode(pending).value)
            && (codec.encode(pending).None? || |codec.encode(pending).value| >= HashCeiling ==>
                  r.hash == hash)
  {
    ResolveUnfold(template, st, hash, codec, catalog);
  }

  /**
   * A pending design that does not parse is ignored: resolution is that of
   * priorities 2 to 5 and the pending key stays as it was.
   */
  lemma UnparsablePendingFallsThrough(template: string, st: Store, hash: string, codec: Codec, catalog: Catalog)
    requires PendingKey in st && codec.parse(st[PendingKey]).None?
    ensures var r := Resolve(template, st, hash, codec, catalog);
            && r == ResolveWithoutPending(template, st, hash, codec, catalog)
            && PendingKey in r.storage && r.storage[PendingKey] == st[PendingKey]
  {
    ResolveUnfold(template, st, hash, codec, catalog);
    WithoutPendingKeepsPending(template, st, hash, codec, catalog);
  }

  /** Priorities 2 to 5 never touch the pending key. */
  lemma WithoutPendingKeepsPending(template: string, st: Store, hash: string, codec: Codec, catalog: Catalog)
    ensures var r := ResolveWithoutPending(template, st, hash, codec, catalog);
            (PendingKey in r.storage <==> PendingKey in st)
            && (PendingKey in st ==> r.storage[PendingKey] == st[PendingKey])
  {
    WithoutPendingUnfold(template, st, hash, codec, catalog);
  }

  // ----- Priority 2: named samples -----

  /** With no usable pending design, `#sample/<name>` returns that sample and writes nothing. */
  lemma SampleWins(st: Store, hash: string, codec: Codec, catalog: Catalog, n: NamedSample)
    requires NoUsablePending(st, codec)
    ensures Resolve(SamplePrefix + SampleName(n), st, hash, codec, catalog) == Resolution(catalog.named(n), st, hash)
  {
    var template := SamplePrefix + SampleName(n);
    StartsWithConcat(SamplePrefix, SampleName(n));
    StripPrefix(template, SamplePrefix);
    SampleNameRoundTrip(n);
    ResolveUnfold(template, st, hash, codec, catalog);
    WithoutPendingUnfold(template, st, hash, codec, catalog);
  }

  /**
   * A `#sample/` template whose name is not one of the eight (`empty`, say)
   * cannot be a `#code/` template either, so it goes straight to storage.
   */
  lemma UnknownSampleGoesToStorage(template: string, st: Store, hash: string, codec: Codec, catalog: Catalog)
    requires NoUsablePending(st, codec)
    requires StartsWith(template, SamplePrefix) && SampleByName(template[|SamplePrefix|..]).None?
    ensures Resolve(template, st, hash, codec, catalog) == ResolveFromStorage(template, st, hash, codec, catalog)
  {
    StripPrefix(template, SamplePrefix);
    PrefixesExclusive(template);
    ResolveUnfold(template, st, hash, codec, catalog);
    WithoutPendingUnfold(template, st, hash, codec, catalog);
  }

  // ----- Priority 3: `#code/` payloads -----

  /** A `#code/` payload that decodes and parses wins, and its decoded string is persisted under both keys. */
  lemma CodeWins(payload: string, st: Store, hash: string, codec: Codec, catalog: Catalog)
    requires NoUsablePending(st, codec)
    requires codec.decode(payload).Some? && codec.parse(codec.decode(payload).value).Some?
    ensures var s := codec.decode(payload).value;
            Resolve(CodePrefix + payload, st, hash, codec, catalog)
            == Resolution(codec.parse(s).value, Persist(st, s), hash)
  {
    var template := CodePrefix + payload;
    StartsWithConcat(CodePrefix, payload);
    StripPrefix(template, CodePrefix);
    PrefixesExclusive(template);
    ResolveUnfold(template, st, hash, codec, catalog);
    WithoutPendingUnfold(template, st, hash, codec, catalog);
  }

  /** A `#code/` payload that fails to decode or to parse changes nothing and falls to storage. */
  lemma BadCodeGoesToStorage(payload: string, st: Store, hash: string, codec: Codec, catalog: Catalog)
    requires NoUsablePending(st, codec)
    requires codec.decode(payload).None? || codec.parse(codec.decode(payload).value).None?
    ensures Resolve(CodePrefix + payload, st, hash, codec, catalog)
            == ResolveFromStorage(CodePrefix + payload, st, hash, codec, catalog)
  {
    var template := CodePrefix + payload;
    StartsWithConcat(CodePrefix, payload);
    StripPrefix(template, CodePrefix);
    PrefixesExclusive(template);
    ResolveUnfold(template, st, hash, codec, catalog);
    WithoutPendingUnfold(template, st, hash, codec, catalog);
  }

  // ----- Priorities 4 and 5: persisted work, then the empty sample -----

  /**
   * Storage is read primary key first; the alias is used only when the
   * primary is missing or empty. The chosen string's parse is returned as it
   * is (no shape check), and when it does not parse the empty sample is
   * returned without retrying the alias. Storage is never written here.
   */
  lemma StorageChoice(template: string, st: Store, hash: string, codec: Codec, catalog: Catalog)
    ensures var r := ResolveFromStorage(template, st, hash, codec, catalog);
            var chosen := if Filled(GetItem(st, DesignKey)) then GetItem(st, DesignKey) else GetItem(st, LegacyKey);
            && r.storage == st
            && (Filled(chosen) && codec.parse(chosen.value).Some? ==> r.document == codec.parse(chosen.value).value)
            && (!Filled(chosen) || codec.parse(chosen.value).None? ==> r == Resolution(catalog.empty, st, hash))
  {
  }

  /**
   * At priority 4 the hash is rewritten only for an empty template, and then
   * to `#code/` + the encoding of the saved string when that is shorter than
   * the ceiling.
   */
  lemma StorageHashRule(template: string, st: Store, hash: string, codec: Codec, catalog: Catalog)
    ensures var r := ResolveFromStorage(template, st, hash, codec, catalog);
            var saved := SavedDesign(st);
            && (r.hash != hash ==>
                  template == "" && Filled(saved) && codec.parse(saved.value).Some?
                  && codec.encode(saved.value).Some? && |codec.encode(saved.value).value| < HashCeiling
                  && r.hash == CodePrefix + codec.encode(saved.value).value)
            && (template == "" && Filled(saved) && codec.parse(saved.value).Some?
                && codec.encode(saved.value).Some? && |codec.encode(saved.value).value| < HashCeiling ==>
                  r.hash == CodePrefix + codec.encode(saved.value).value)
  {
  }

  /** With no source at all the empty sample is returned and nothing is written. */
  lemma NothingAppliesGivesEmpty(template: string, st: Store, hash: string, codec: Codec, catalog: Catalog)
    requires NoUsablePending(st, codec)
    requires !StartsWith(template, SamplePrefix) && !StartsWith(template, CodePrefix)
    requires !Filled(SavedDesign(st))
    ensures Resolve(template, st, hash, codec, catalog) == Resolution(catalog.empty, st, hash)
  {
    ResolveUnfold(template, st, hash, codec, catalog);
    WithoutPendingUnfold(template, st, hash, codec, catalog);
  }

  // ----- Frame and invariants of the whole chain -----

  /**
   * Resolution changes no key but the three the editor owns, and the hash is
   * either left alone or set to a `#code/` fragment.
   */
  lemma ResolveFrame(template: string, st: Store, hash: string, codec: Codec, catalog: Catalog)
    ensures var r := Resolve(template, st, hash, codec, catalog);
            && (forall k | k != PendingKey && k != DesignKey && k != LegacyKey ::
                  (k in r.storage <==> k in st) && (k in st ==> r.storage[k] == st[k]))
            && (r.hash == hash || StartsWith(r.hash, CodePrefix))
  {
    ResolveUnfold(template, st, hash, codec, catalog);
    WithoutPendingUnfold(template, st, hash, codec, catalog);
    forall e | true ensures StartsWith(CodePrefix + e, CodePrefix) {
      StartsWithConcat(CodePrefix, e);
    }
  }

  /** Resolution keeps the two design keys mirrored. */
  lemma ResolveKeepsMirror(template: string, st: Store, hash: string, codec: Codec, catalog: Catalog)
    requires Mirrored(st)
    ensures Mirrored(Resolve(template, st, hash, codec, catalog).storage)
  {
    ResolveUnfold(template, st, hash, codec, catalog);
    WithoutPendingUnfold(template, st, hash, codec, catalog);
  }

  // ----- Reloading the page -----

  /**
   * The hand-off design wins on the first load, but the page only remembers
   * it in the hash when it can be encoded and its encoding is short: otherwise
   * the hash the page already had decides the next load when it is a known
   * `#sample/` hash or a `#code/` hash that decodes and parses.
   */
  predicate HandOffShadowed(st: Store, hash: string, codec: Codec, catalog: Catalog)
  {
    && PendingLevel(st, hash, codec).Some?
    && (codec.encode(st[PendingKey]).None? || |codec.encode(st[PendingKey]).value| >= HashCeiling)
    && var after := PendingLevel(st, hash, codec).value.storage;
       (SampleLevel(hash, after, hash, catalog).Some? || CodeLevel(hash, after, hash, codec).Some?)
  }

  /**
   * Reload stability: when the template is the current hash, the design keys
   * are mirrored and the fragment encoding round-trips on the strings that
   * are encoded, resolving again from the storage and hash the first
   * resolution left behind gives the same document, storage and hash, except
   * when a long hand-off design is shadowed by the hash (the two lemmas
   * `HandOffLostUnderSampleHash` and `HandOffLostUnderCodeHash`).
   */
  lemma ReloadIsStable(hash: string, st: Store, codec: Codec, catalog: Catalog)
    requires Mirrored(st)
    requires PendingKey in st ==> DecodeUndoesEncode(codec, st[PendingKey])
    requires Filled(SavedDesign(st)) ==> DecodeUndoesEncode(codec, SavedDesign(st).value)
    requires !HandOffShadowed(st, hash, codec, catalog)
    ensures var r := Resolve(hash, st, hash, codec, catalog);
            Resolve(r.hash, r.storage, r.hash, codec, catalog) == r
  {
    ResolveUnfold(hash, st, hash, codec, catalog);
    WithoutPendingUnfold(hash, st, hash, codec, catalog);
    if PendingLevel(st, hash, codec).Some? {
      ReloadAfterPending(hash, st, codec, catalog);
    } else if SampleLevel(hash, st, hash, catalog).Some? {
      var r := Resolve(hash, st, hash, codec, catalog);
      ResolveUnfold(r.hash, r.storage, r.hash, codec, catalog);
      WithoutPendingUnfold(r.hash, r.storage, r.hash, codec, catalog);
    } else if CodeLevel(hash, st, hash, codec).Some? {
      ReloadAfterCode(hash, st, codec, catalog);
    } else if PersistedLevel(hash, st, hash, codec).Some? {
      ReloadAfterPersisted(hash, st, codec, catalog);
    } else {
      var r := Resolve(hash, st, hash, codec, catalog);
      ResolveUnfold(r.hash, r.storage, r.hash, codec, catalog);
      WithoutPendingUnfold(r.hash, r.storage, r.hash, codec, catalog);
    }
  }

  /** `ReloadIsStable` when the pending hand-off design won. */
  lemma ReloadAfterPending(hash: string, st: Store, codec: Codec, catalog: Catalog)
    requires PendingLevel(st, hash, codec).Some?
    requires DecodeUndoesEncode(codec, st[PendingKey])
    requires !HandOffShadowed(st, hash, codec, catalog)
    ensures var r := PendingLevel(st, hash, codec).value;
            Resolve(r.hash, r.storage, r.hash, codec, catalog) == r
  {
    var r := PendingLevel(st, hash, codec).value;
    var pending := st[PendingKey];
    assert r.storage == Persist(st - {PendingKey}, pending);
    assert PendingKey !in r.storage;
    ResolveUnfold(r.hash, r.storage, r.hash, codec, catalog);
    WithoutPendingUnfold(r.hash, r.storage, r.hash, codec, catalog);
    if codec.encode(pending).Some? && |codec.encode(pending).value| < HashCeiling {
      ReloadFromCodeHash(pending, r.storage, codec, catalog);
    } else {
      assert r.hash == hash;
      assert SavedDesign(r.storage) == Some(pending);
      if r.hash == "" {
        assert CodeHash(codec, pending, r.hash) == r.hash;
      }
    }
  }

  /** `ReloadIsStable` when a `#code/` hash won. */
  lemma ReloadAfterCode(hash: string, st: Store, codec: Codec, catalog: Catalog)
    requires PendingLevel(st, hash, codec).None?
    requires CodeLevel(hash, st, hash, codec).Some?
    ensures var r := CodeLevel(hash, st, hash, codec).value;
            Resolve(r.hash, r.storage, r.hash, codec, catalog) == r
  {
    var r := CodeLevel(hash, st, hash, codec).value;
    var payload := hash[|CodePrefix|..];
    var s := codec.decode(payload).value;
    assert hash == CodePrefix + payload;
    assert Persist(r.storage, s) == r.storage;
    assert GetItem(r.storage, PendingKey) == GetItem(st, PendingKey);
    CodeWins(payload, r.storage, r.hash, codec, catalog);
  }

  /** `ReloadIsStable` when the persisted design won. */
  lemma ReloadAfterPersisted(hash: string, st: Store, codec: Codec, catalog: Catalog)
    requires Mirrored(st)
    requires PendingLevel(st, hash, codec).None?
    requires SampleLevel(hash, st, hash, catalog).None? && CodeLevel(hash, st, hash, codec).None?
    requires PersistedLevel(hash, st, hash, codec).Some?
    requires DecodeUndoesEncode(codec, SavedDesign(st).value)
    ensures var r := PersistedLevel(hash, st, hash, codec).value;
            Resolve(r.hash, r.storage, r.hash, codec, catalog) == r
  {
    var r := PersistedLevel(hash, st, hash, codec).value;
    var saved := SavedDesign(st).value;
    ResolveUnfold(r.hash, r.storage, r.hash, codec, catalog);
    WithoutPendingUnfold(r.hash, r.storage, r.hash, codec, catalog);
    if r.hash != hash {
      assert Persist(st, saved) == st;
      ReloadFromCodeHash(saved, st, codec, catalog);
    }
  }

  /**
   * A hash `#code/` + encoding of `s` written by a resolution reads back `s`
   * at priority 3, and rewrites storage to what it already is when both keys
   * hold `s`.
   */
  lemma ReloadFromCodeHash(s: string, st: Store, codec: Codec, catalog: Catalog)
    requires NoUsablePending(st, codec)
    requires codec.encode(s).Some? && DecodeUndoesEncode(codec, s)
    requires codec.parse(s).Some?
    requires DesignKey in st && LegacyKey in st && st[DesignKey] == s && st[LegacyKey] == s
    ensures var h := CodePrefix + codec.encode(s).value;
            Resolve(h, st, h, codec, catalog) == Resolution(codec.parse(s).value, st, h)
  {
    var h := CodePrefix + codec.encode(s).value;
    CodeWins(codec.encode(s).value, st, h, codec, catalog);
    assert Persist(st, s) == st;
  }

  /**
   * The exception in `ReloadIsStable` is real: a long hand-off design under a
   * `#sample/` hash is replaced by the sample on the next load.
   */
  lemma HandOffLostUnderSampleHash(st: Store, codec: Codec, catalog: Catalog, n: NamedSample)
    requires Filled(GetItem(st, PendingKey)) && codec.parse(st[PendingKey]).Some?
    requires codec.encode(st[PendingKey]).None? || |codec.encode(st[PendingKey]).value| >= HashCeiling
    ensures var hash := SamplePrefix + SampleName(n);
            var r := Resolve(hash, st, hash, codec, catalog);
            && r.document == codec.parse(st[PendingKey]).value
            && Resolve(r.hash, r.storage, r.hash, codec, catalog).document == catalog.named(n)
  {
    var hash := SamplePrefix + SampleName(n);
    PendingWins(hash, st, hash, codec, catalog);
    var r := Resolve(hash, st, hash, codec, catalog);
    assert PendingKey !in r.storage;
    SampleWins(r.storage, r.hash, codec, catalog, n);
  }

  /**
   * The same under a `#code/<x>` hash that decodes and parses: the long
   * hand-off wins once, then the next load serves the design of `<x>` and
   * overwrites both design keys with it.
   */
  lemma HandOffLostUnderCodeHash(st: Store, codec: Codec, catalog: Catalog, x: string)
    requires Filled(GetItem(st, PendingKey)) && codec.parse(st[PendingKey]).Some?
    requires codec.encode(st[PendingKey]).None? || |codec.encode(st[PendingKey]).value| >= HashCeiling
    requires codec.decode(x).Some? && codec.parse(codec.decode(x).value).Some?
    ensures var hash := CodePrefix + x;
            var r := Resolve(hash, st, hash, codec, catalog);
            var earlier := codec.decode(x).value;
            && r.document == codec.parse(st[PendingKey]).value
            && r.hash == hash
            && Resolve(r.hash, r.storage, r.hash, codec, catalog)
               == Resolution(codec.parse(earlier).value, Persist(r.storage, earlier), hash)
  {
    var hash := CodePrefix + x;
    PendingWins(hash, st, hash, codec, catalog);
    var r := Resolve(hash, st, hash, codec, catalog);
    assert PendingKey !in r.storage;
    CodeWins(x, r.storage, r.hash, codec, catalog);
  }
}
