// The browser's key-value store as the application uses it: named slots
// holding JSON text, read back through a parse that falls back to a
// default on a missing or unreadable slot.

module Store {

  import opened Seqs
  import opened Types

  const HistoryKey := "geminiCardScannerHistory"
  const SignaturesKey := "geminiCardScannerSignatures"
  const CategoriesKey := "geminiCardScannerCategories"
  const TemplatesKey := "geminiCardScannerTemplates"
  /** Read-only slots of the earlier format, consulted for migration only. */
  const LegacyCategoriesKey := "geminiCardScannerCustomCats"
  const LegacyTemplatesKey := "geminiCardScannerCustomTemps"

  /**
   * The JSON text of one slot, classified by what parsing it yields: one of
   * the four lists the application writes, `null`, or text that does not parse.
   */
  datatype Slot =
    | ContactList(contacts: seq<ContactData>)
    | LabelList(labels: seq<string>)
    | TemplateList(templates: seq<EmailTemplate>)
    | SignatureList(signatures: seq<UserSignature>)
    | Null
    | Corrupt

  /** A key absent from the map is a slot never written (or holding the empty string). */
  type Storage = map<string, Slot>

  /** Reading a slot: the parsed value, or the fallback when the slot is missing or does not parse. */
  function SafeParse(store: Storage, key: string, fallback: Slot): (v: Slot)
    ensures v != Corrupt || fallback == Corrupt
    ensures key in store && store[key] != Corrupt ==> v == store[key]
    ensures key !in store || store[key] == Corrupt ==> v == fallback
  {
    if key in store && store[key] != Corrupt then store[key] else fallback
  }

  /** The store after an optional write-through of one slot. */
  function Persist(store: Storage, w: Option<(string, Slot)>): (r: Storage)
    ensures w.None? ==> r == store
    ensures w.Some? ==> r.Keys == store.Keys + {w.value.0} && r[w.value.0] == w.value.1
    ensures w.Some? ==> forall k :: k in store && k != w.value.0 ==> r[k] == store[k]
  {
    match w
    case None => store
    case Some((k, v)) => store[k := v]
  }

  /** A second write to a slot replaces the first: only the last write-through of a slot is kept. */
  lemma SecondWriteWins(store: Storage, k: string, a: Slot, b: Slot)
    ensures store[k := a][k := b] == store[k := b]
  {
  }
}
