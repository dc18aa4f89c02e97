/** `localStorage` as a map from keys to strings, and the three keys the editor uses. */
module Storage {
  import opened Wrappers

  type Store = map<string, string>

  /** One-shot hand-off slot written by the embedding host. */
  const PendingKey := "__PENDING_DESIGN__"
  /** Primary persisted copy of the design. */
  const DesignKey := "emailDesign"
  /** Legacy alias kept identical to the primary copy. */
  const LegacyKey := "email-builder-design"

  /** `localStorage.getItem(key)`: None stands for `null`. */
  function GetItem(st: Store, key: string): (r: Option<string>)
    ensures r.Some? <==> key in st
    ensures r.Some? ==> r.value == st[key]
  {
    if key in st then Some(st[key]) else None
  }

  /** A `getItem` result that an `if` treats as true: present and not empty. */
  predicate Filled(item: Option<string>)
  {
    item.Some? && item.value != ""
  }

  /** `a || b` on two `getItem` results. */
  function OrElse(a: Option<string>, b: Option<string>): (r: Option<string>)
    ensures Filled(a) ==> r == a
    ensures !Filled(a) ==> r == b
  {
    if Filled(a) then a else b
  }

  /** The pair of `setItem` calls that write the same string under both design keys. */
  function Persist(st: Store, s: string): (r: Store)
    ensures r.Keys == st.Keys + {DesignKey, LegacyKey}
    ensures r[DesignKey] == s && r[LegacyKey] == s
    ensures forall k | k in st && k != DesignKey && k != LegacyKey :: r[k] == st[k]
  {
    st[DesignKey := s][LegacyKey := s]
  }

  /** The two design keys are both absent, or both present with the same string. */
  predicate Mirrored(st: Store)
  {
    && (DesignKey in st <==> LegacyKey in st)
    && (DesignKey in st ==> st[DesignKey] == st[LegacyKey])
  }
}
