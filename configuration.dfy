/**
 * `getConfiguration(template)`: the five-level priority chain that picks the
 * document the editor starts with. Storage and the location hash are passed
 * in and returned; the chain's side effects are the returned storage and hash.
 *
 * The specification `Resolve` lists the levels as independent sources, each
 * computed from the ORIGINAL storage and hash, and takes the first that
 * applies; `GetConfiguration` is the early-return code, which updates storage
 * as it goes. Their agreement is the statement that a level that does not
 * apply leaves no side effect behind.
 */
module Configuration {
  import opened Wrappers
  import opened Documents
  import opened Storage
  import opened Strings

  const SamplePrefix := "#sample/"
  const CodePrefix := "#code/"
  /** Encoded designs this long or longer are kept out of the address bar. */
  const HashCeiling := 2000

  /** The eight documents the sample switch can return. */
  datatype NamedSample =
    | Welcome
    | OneTimePasscode
    | OrderEcommerce
    | PostMetricsReport
    | ReservationReminder
    | ResetPassword
    | RespondToMessage
    | SubscriptionReceipt

  /** The static sample documents: their contents are opaque. */
  datatype Catalog = Catalog(empty: Doc, named: NamedSample -> Doc)

  /** The `case` label under which the switch returns each sample. */
  function SampleName(n: NamedSample): string
  {
    match n
    case Welcome => "welcome"
    case OneTimePasscode => "one-time-password"
    case OrderEcommerce => "order-ecomerce"
    case PostMetricsReport => "post-metrics-report"
    case ReservationReminder => "reservation-reminder"
    case ResetPassword => "reset-password"
    case RespondToMessage => "respond-to-message"
    case SubscriptionReceipt => "subscription-receipt"
  }

  /** The sample-name switch; None when no case matches. */
  function SampleByName(name: string): (r: Option<NamedSample>)
    ensures r.Some? ==> SampleName(r.value) == name
  {
    if name == "welcome" then Some(Welcome)
    else if name == "one-time-password" then Some(OneTimePasscode)
    else if name == "order-ecomerce" then Some(OrderEcommerce)
    else if name == "post-metrics-report" then Some(PostMetricsReport)
    else if name == "reservation-reminder" then Some(ReservationReminder)
    else if name == "reset-password" then Some(ResetPassword)
    else if name == "respond-to-message" then Some(RespondToMessage)
    else if name == "subscription-receipt" then Some(SubscriptionReceipt)
    else None
  }

  /** Every sample is found under its own name: the switch has no shadowed case. */
  lemma SampleNameRoundTrip(n: NamedSample)
    ensures SampleByName(SampleName(n)) == Some(n)
  {
    match n
    case Welcome =>
    case OneTimePasscode =>
    case OrderEcommerce =>
    case PostMetricsReport =>
    case ReservationReminder =>
    case ResetPassword =>
    case RespondToMessage =>
    case SubscriptionReceipt =>
  }

  /** The chosen document with the storage and hash left behind. */
  datatype Resolution = Resolution(document: Doc, storage: Store, hash: string)

  /**
   * The best-effort hash rewrite `'#code/' + btoa(encodeURIComponent(s))`:
   * skipped when encoding throws or the encoding reaches the ceiling.
   */
  function CodeHash(codec: Codec, s: string, hash: string): (h: string)
    ensures h != hash ==> codec.encode(s).Some? && |codec.encode(s).value| < HashCeiling
    ensures codec.encode(s).Some? && |codec.encode(s).value| < HashCeiling ==>
              h == CodePrefix + codec.encode(s).value
  {
    match codec.encode(s)
    case None => hash
    case Some(encoded) => if |encoded| < HashCeiling then CodePrefix + encoded else hash
  }

  /**
   * Priority 1: a pending hand-off design that is non-empty and parses. It is
   * returned; the pending key is removed, both design keys receive the
   * pending string verbatim, and the hash follows `CodeHash`.
   */
  function PendingLevel(st: Store, hash: string, codec: Codec): (r: Option<Resolution>)
    ensures r.Some? <==> Filled(GetItem(st, PendingKey)) && codec.parse(st[PendingKey]).Some?
    ensures r.Some? ==>
              var pending := st[PendingKey];
              && r.value.document == codec.parse(pending).value
              && r.value.storage.Keys == st.Keys - {PendingKey} + {DesignKey, LegacyKey}
              && r.value.storage[DesignKey] == pending && r.value.storage[LegacyKey] == pending
              && (forall k | k in st && k != PendingKey && k != DesignKey && k != LegacyKey ::
                    r.value.storage[k] == st[k])
              && r.value.hash == CodeHash(codec, pending, hash)
  {
    var pending := GetItem(st, PendingKey);
    if !Filled(pending) then None
    else match codec.parse(pending.value)
      case None => None
      case Some(config) =>
        Some(Resolution(config, Persist(st - {PendingKey}, pending.value), CodeHash(codec, pending.value, hash)))
  }

  /**
   * Priority 2: `#sample/<name>` for one of the eight names. The sample is
   * returned and neither storage nor the hash changes.
   */
  function SampleLevel(template: string, st: Store, hash: string, catalog: Catalog): (r: Option<Resolution>)
    ensures r.Some? <==> StartsWith(template, SamplePrefix) && SampleByName(template[|SamplePrefix|..]).Some?
    ensures r.Some? ==>
              && StartsWith(template, SamplePrefix)
              && r.value == Resolution(catalog.named(SampleByName(template[|SamplePrefix|..]).value), st, hash)
  {
    if !StartsWith(template, SamplePrefix) then None
    else
      StripPrefix(template, SamplePrefix);
      match SampleByName(ReplaceFirst(template, SamplePrefix, ""))
      case None => None
      case Some(n) => Some(Resolution(catalog.named(n), st, hash))
  }

  /**
   * Priority 3: `#code/<payload>` whose payload decodes and parses. The parse
   * is returned, the decoded string is written to both design keys, and the
   * hash does not change.
   */
  function CodeLevel(template: string, st: Store, hash: string, codec: Codec): (r: Option<Resolution>)
    ensures r.Some? <==>
              && StartsWith(template, CodePrefix)
              && codec.decode(template[|CodePrefix|..]).Some?
              && codec.parse(codec.decode(template[|CodePrefix|..]).value).Some?
    ensures r.Some? ==>
              && StartsWith(template, CodePrefix)
              && var s := codec.decode(template[|CodePrefix|..]).value;
                 r.value == Resolution(codec.parse(s).value, Persist(st, s), hash)
  {
    if !StartsWith(template, CodePrefix) then None
    else
      StripPrefix(template, CodePrefix);
      match codec.decode(ReplaceFirst(template, CodePrefix, ""))
      case None => None
      case Some(configuration) =>
        match codec.parse(configuration)
        case None => None
        case Some(config) => Some(Resolution(config, Persist(st, configuration), hash))
  }

  /** The string priority 4 reads: the primary key, or the alias when that is missing or empty. */
  function SavedDesign(st: Store): (r: Option<string>)
    ensures Filled(GetItem(st, DesignKey)) ==> r == Some(st[DesignKey])
    ensures !Filled(GetItem(st, DesignKey)) ==> r == GetItem(st, LegacyKey)
  {
    OrElse(GetItem(st, DesignKey), GetItem(st, LegacyKey))
  }

  /**
   * Priority 4: the persisted design, when it is non-empty and parses. Storage
   * is not written; the hash is rewritten only for an empty template.
   */
  function PersistedLevel(template: string, st: Store, hash: string, codec: Codec): (r: Option<Resolution>)
    ensures r.Some? <==> Filled(SavedDesign(st)) && codec.parse(SavedDesign(st).value).Some?
    ensures r.Some? ==>
              && r.value.document == codec.parse(SavedDesign(st).value).value
              && r.value.storage == st
              && (template != "" ==> r.value.hash == hash)
              && (template == "" ==> r.value.hash == CodeHash(codec, SavedDesign(st).value, hash))
  {
    var saved := SavedDesign(st);
    if !Filled(saved) then None
    else match codec.parse(saved.value)
      case None => None
      case Some(config) =>
        Some(Resolution(config, st, if template == "" then CodeHash(codec, saved.value, hash) else hash))
  }

  /**
   * The first level that applies, or `fallback` when none does.
   */
  function FirstOf(levels: seq<Option<Resolution>>, fallback: Resolution): (r: Resolution)
    ensures (forall j | 0 <= j < |levels| :: levels[j].None?) ==> r == fallback
    ensures forall i | 0 <= i < |levels| && levels[i].Some? ::
              (forall j | 0 <= j < i :: levels[j].None?) ==> r == levels[i].value
  {
    if |levels| == 0 then fallback
    else if levels[0].Some? then levels[0].value
    else FirstOf(levels[1..], fallback)
  }

  /** Priorities 4 and 5: the persisted design, or else the empty sample. */
  function ResolveFromStorage(template: string, st: Store, hash: string, codec: Codec, catalog: Catalog): Resolution
  {
    FirstOf([PersistedLevel(template, st, hash, codec)], Resolution(catalog.empty, st, hash))
  }

  /** Priorities 2 to 5: what is resolved once no pending design is usable. */
  function ResolveWithoutPending(template: string, st: Store, hash: string, codec: Codec, catalog: Catalog): Resolution
  {
    FirstOf(
      [SampleLevel(template, st, hash, catalog),
       CodeLevel(template, st, hash, codec),
       PersistedLevel(template, st, hash, codec)],
      Resolution(catalog.empty, st, hash))
  }

  /** The whole chain, priority 1 to 5 (priority 5 is the empty sample, with no side effect). */
  function Resolve(template: string, st: Store, hash: string, codec: Codec, catalog: Catalog): Resolution
  {
    FirstOf(
      [PendingLevel(st, hash, codec),
       SampleLevel(template, st, hash, catalog),
       CodeLevel(template, st, hash, codec),
       PersistedLevel(template, st, hash, codec)],
      Resolution(catalog.empty, st, hash))
  }

  /** `Resolve` read level by level, in priority order. */
  lemma ResolveByLevels(template: string, st: Store, hash: string, codec: Codec, catalog: Catalog)
    ensures var p, s, c, d := PendingLevel(st, hash, codec), SampleLevel(template, st, hash, catalog),
                              CodeLevel(template, st, hash, codec), PersistedLevel(template, st, hash, codec);
            Resolve(template, st, hash, codec, catalog)
            == if p.Some? then p.value
               else if s.Some? then s.value
               else if c.Some? then c.value
               else if d.Some? then d.value
               else Resolution(catalog.empty, st, hash)
  {
    var p, s, c, d := PendingLevel(st, hash, codec), SampleLevel(template, st, hash, catalog),
                      CodeLevel(template, st, hash, codec), PersistedLevel(template, st, hash, codec);
    var levels := [p, s, c, d];
    assert levels[0] == p && levels[1] == s && levels[2] == c && levels[3] == d;
  }

  /**
   * `getConfiguration(template)` with `localStorage` = `storage` and
   * `window.location.hash` = `hash` on entry.
   */
  method GetConfiguration(template: string, storage: Store, hash: string, codec: Codec, catalog: Catalog)
    returns (config: Doc, storage': Store, hash': string)
    ensures Resolution(config, storage', hash') == Resolve(template, storage, hash, codec, catalog)
  {
    ResolveByLevels(template, storage, hash, codec, catalog);
    storage', hash' := storage, hash;

    // Priority 1: pending design handed over by the host.
    var pendingDesign := GetItem(storage', PendingKey);
    if Filled(pendingDesign) {
      var parsed := codec.parse(pendingDesign.value);
      if parsed.Some? {
        storage' := storage' - {PendingKey};
        storage' := storage'[DesignKey := pendingDesign.value];
        storage' := storage'[LegacyKey := pendingDesign.value];
        var encoded := codec.encode(pendingDesign.value);
        if encoded.Some? && |encoded.value| < HashCeiling {
          hash' := CodePrefix + encoded.value;
        }
        assert storage' == Persist(storage - {PendingKey}, pendingDesign.value);
        assert hash' == CodeHash(codec, pendingDesign.value, hash);
        assert PendingLevel(storage, hash, codec) == Some(Resolution(parsed.value, storage', hash'));
        return parsed.value, storage', hash';
      }
    }
    assert PendingLevel(storage, hash, codec).None?;

    // Priority 2: sample templates.
    if StartsWith(template, SamplePrefix) {
      var sampleName := ReplaceFirst(template, SamplePrefix, "");
      var sample := SampleByName(sampleName);
      if sample.Some? {
        assert SampleLevel(template, storage, hash, catalog) == Some(Resolution(catalog.named(sample.value), storage', hash'));
        return catalog.named(sample.value), storage', hash';
      }
    }
    assert SampleLevel(template, storage, hash, catalog).None?;

    // Priority 3: design encoded in the hash.
    if StartsWith(template, CodePrefix) {
      var encodedString := ReplaceFirst(template, CodePrefix, "");
      var configurationString := codec.decode(encodedString);
      if configurationString.Some? {
        var parsed := codec.parse(configurationString.value);
        if parsed.Some? {
          storage' := storage'[DesignKey := configurationString.value];
          storage' := storage'[LegacyKey := configurationString.value];
          assert storage' == Persist(storage, configurationString.value);
          assert CodeLevel(template, storage, hash, codec) == Some(Resolution(parsed.value, storage', hash'));
          return parsed.value, storage', hash';
        }
      }
    }
    assert CodeLevel(template, storage, hash, codec).None?;

    // Priority 4: saved work.
    var savedDesign := GetItem(storage', DesignKey);
    if !Filled(savedDesign) {
      savedDesign := GetItem(storage', LegacyKey);
    }
    if Filled(savedDesign) {
      var parsed := codec.parse(savedDesign.value);
      if parsed.Some? {
        if template == "" {
          var encoded := codec.encode(savedDesign.value);
          if encoded.Some? && |encoded.value| < HashCeiling {
            hash' := CodePrefix + encoded.value;
          }
        }
        assert PersistedLevel(template, storage, hash, codec) == Some(Resolution(parsed.value, storage', hash'));
        return parsed.value, storage', hash';
      }
    }
    assert PersistedLevel(template, storage, hash, codec).None?;

    // Priority 5: default empty template.
    config := catalog.empty;
  }
}
