// Startup reconciliation: the initial signatures, categories and templates
// are resolved from the store (new format first, then the legacy slots,
// then the built-in defaults), and the stored history is replayed through
// the reducer's upsert one entry at a time.

module Startup {

  import opened Seqs
  import opened Types
  import opened Store
  import opened Reducer

  /** The built-in constants of the application, taken as given. */
  datatype Defaults = Defaults(
    initialState: AppState,
    defaultSignature: UserSignature,
    defaultCategories: seq<string>,
    emailTemplates: seq<EmailTemplate>)

  predicate NoDuplicates<T(==)>(s: seq<T>)
  {
    forall i, j :: 0 <= i < j < |s| ==> s[i] != s[j]
  }

  /** Array.from(new Set(s)): each value once, at its first occurrence, in order. */
  function Dedup<T(==,!new)>(s: seq<T>): (r: seq<T>)
    ensures NoDuplicates(r)
    ensures forall x :: x in r <==> x in s
    decreases |s|
  {
    if s == [] then []
    else
      var d := Dedup(s[..|s| - 1]);
      assert forall x :: x in s <==> x in s[..|s| - 1] || x == s[|s| - 1];
      if s[|s| - 1] in d then d else d + [s[|s| - 1]]
  }

  /** Array.prototype.indexOf for a present value: the position of its first occurrence. */
  function IndexOf<T(==)>(s: seq<T>, x: T): (i: nat)
    requires x in s
    ensures i < |s| && s[i] == x && forall j :: 0 <= j < i ==> s[j] != x
    decreases |s|
  {
    if s[0] == x then 0 else 1 + IndexOf(s[1..], x)
  }

  /** A value of a prefix has the same first occurrence in the whole list. */
  lemma IndexOfPrefix<T>(init: seq<T>, s: seq<T>, x: T)
    requires init <= s && x in init
    ensures x in s && IndexOf(s, x) == IndexOf(init, x)
  {
    var i := IndexOf(init, x);
    assert s[i] == x;
  }

  /** Dedup of a list with one more value: that value is appended unless already seen. */
  lemma DedupSnoc<T(!new)>(s: seq<T>, y: T)
    ensures Dedup(s + [y]) == if y in Dedup(s) then Dedup(s) else Dedup(s) + [y]
  {
    assert (s + [y])[..|s|] == s;
  }

  /** Dedup keeps each value at its first occurrence: its values are ordered by where they first appear. */
  lemma {:induction false} DedupFirstOccurrence<T(!new)>(s: seq<T>)
    ensures var r := Dedup(s);
            forall i, j :: 0 <= i < j < |r| ==> IndexOf(s, r[i]) < IndexOf(s, r[j])
    decreases |s|
  {
    if s != [] {
      var init := s[..|s| - 1];
      var y := s[|s| - 1];
      var d := Dedup(init);
      assert s == init + [y];
      DedupSnoc(init, y);
      DedupFirstOccurrence(init);
      var r := Dedup(s);
      forall i, j | 0 <= i < j < |r|
        ensures IndexOf(s, r[i]) < IndexOf(s, r[j])
      {
        assert r[i] == d[i] && d[i] in init;
        IndexOfPrefix(init, s, d[i]);
        if j < |d| {
          assert r[j] == d[j] && d[j] in init;
          IndexOfPrefix(init, s, d[j]);
        } else {
          assert r[j] == y && y !in init;
          assert IndexOf(s, y) == |s| - 1;
        }
      }
    }
  }

  lemma SnocAssoc<T>(a: seq<T>, e: seq<T>, y: T)
    ensures (a + e) + [y] == a + (e + [y])
  {
  }

  /** The values of `b` that the prefix `a` does not already hold. */
  function Unseen<T(==,!new)>(a: seq<T>, b: seq<T>): seq<T>
  {
    Filter(b, (x: T) => x !in a)
  }

  /** After a duplicate-free prefix, Dedup keeps the rest's new values in their first-occurrence order. */
  lemma {:induction false} DedupAfterPrefix<T(!new)>(a: seq<T>, b: seq<T>)
    requires NoDuplicates(a)
    ensures Dedup(a + b) == a + Dedup(Unseen(a, b))
    decreases |b|
  {
    if b == [] {
      assert a + b == a;
      DedupOfDistinct(a);
    } else {
      var b' := b[..|b| - 1];
      DedupAfterPrefix(a, b');
      assert b == b' + [b[|b| - 1]];
      DedupAfterPrefixStep(a, b', b[|b| - 1]);
    }
  }

  lemma DedupAfterPrefixStep<T(!new)>(a: seq<T>, b: seq<T>, y: T)
    requires Dedup(a + b) == a + Dedup(Unseen(a, b))
    ensures Dedup(a + (b + [y])) == a + Dedup(Unseen(a, b + [y]))
  {
    assert a + (b + [y]) == (a + b) + [y];
    DedupSnoc(a + b, y);
    FilterAppend(b, [y], (x: T) => x !in a);
    if y !in a {
      NewValueStep(a, b, y);
    } else {
      SeenValueStep(a, b, y);
    }
  }

  lemma NewValueStep<T(!new)>(a: seq<T>, b: seq<T>, y: T)
    requires y !in a
    requires Unseen(a, b + [y]) == Unseen(a, b) + Filter([y], (x: T) => x !in a)
    ensures Unseen(a, b + [y]) == Unseen(a, b) + [y]
    ensures var e := Dedup(Unseen(a, b));
            a + Dedup(Unseen(a, b + [y])) == if y in a + e then a + e else (a + e) + [y]
  {
    var e := Dedup(Unseen(a, b));
    assert Filter([y], (x: T) => x !in a) == [y];
    DedupSnoc(Unseen(a, b), y);
    assert y in a + e <==> y in e;
    SnocAssoc(a, e, y);
  }

  lemma SeenValueStep<T(!new)>(a: seq<T>, b: seq<T>, y: T)
    requires y in a
    requires Unseen(a, b + [y]) == Unseen(a, b) + Filter([y], (x: T) => x !in a)
    ensures Unseen(a, b + [y]) == Unseen(a, b)
  {
    assert Filter([y], (x: T) => x !in a) == [];
    assert Unseen(a, b) + [] == Unseen(a, b);
  }

  /** De-duplicating a list that begins with a duplicate-free prefix keeps that prefix in front. */
  lemma {:induction false} DedupKeepsPrefix<T(!new)>(a: seq<T>, b: seq<T>)
    requires NoDuplicates(a)
    ensures a <= Dedup(a + b)
    decreases |b|
  {
    if b == [] {
      assert a + b == a;
      DedupOfDistinct(a);
    } else {
      DedupKeepsPrefix(a, b[..|b| - 1]);
      assert (a + b)[..|a + b| - 1] == a + b[..|b| - 1];
    }
  }

  /** A duplicate-free list is its own de-duplication. */
  lemma {:induction false} DedupOfDistinct<T(!new)>(s: seq<T>)
    requires NoDuplicates(s)
    ensures Dedup(s) == s
    decreases |s|
  {
    if s != [] {
      var init := s[..|s| - 1];
      assert NoDuplicates(init);
      DedupOfDistinct(init);
      assert s[|s| - 1] !in init;
      assert init + [s[|s| - 1]] == s;
    }
  }

  /** The signature list at startup: whatever list the slot holds, else the one default signature. */
  function InitialSignatures(store: Storage, k: Defaults): (sigs: seq<UserSignature>)
  {
    match SafeParse(store, SignaturesKey, SignatureList([k.defaultSignature]))
    case SignatureList(l) => l
    case _ => [k.defaultSignature]
  }

  /** The legacy custom categories, or none when that slot is missing or unreadable. */
  function LegacyCategories(store: Storage): seq<string>
  {
    match SafeParse(store, LegacyCategoriesKey, LabelList([]))
    case LabelList(l) => l
    case _ => []
  }

  /** The categories at startup: the stored list, else the defaults merged with the legacy ones. */
  function InitialCategories(store: Storage, k: Defaults): (cats: seq<string>)
  {
    var stored := SafeParse(store, CategoriesKey, Null);
    var legacy := LegacyCategories(store);
    if stored.LabelList? && |stored.labels| > 0 then stored.labels
    else if |legacy| > 0 then Dedup(k.defaultCategories + legacy)
    else k.defaultCategories
  }

  /** The legacy custom templates, or none when that slot is missing or unreadable. */
  function LegacyTemplates(store: Storage): seq<EmailTemplate>
  {
    match SafeParse(store, LegacyTemplatesKey, TemplateList([]))
    case TemplateList(l) => l
    case _ => []
  }

  /** The templates at startup: the stored unified list, else the defaults followed by the legacy ones. */
  function InitialTemplates(store: Storage, k: Defaults): (ts: seq<EmailTemplate>)
  {
    var stored := SafeParse(store, TemplatesKey, Null);
    if stored.TemplateList? && |stored.templates| > 0 then stored.templates
    else k.emailTemplates + LegacyTemplates(store)
  }

  /** The state the reducer starts from, before any stored history is replayed. */
  function InitialState(store: Storage, k: Defaults): (s: AppState)
  {
    k.initialState.(
      signatures := InitialSignatures(store, k),
      categories := InitialCategories(store, k),
      templates := InitialTemplates(store, k))
  }

  /** The history list the replay reads: the history slot's contacts, if it holds a list. */
  function StoredHistory(store: Storage): seq<ContactData>
  {
    if HistoryKey in store && store[HistoryKey].ContactList? then store[HistoryKey].contacts else []
  }

  /** The history after SAVE_CONTACT of each stored entry in turn, starting from `h`. */
  function Replay(h: seq<ContactData>, stored: seq<ContactData>): seq<ContactData>
    decreases |stored|
  {
    if stored == [] then h
    else Upsert(Replay(h, stored[..|stored| - 1]), stored[|stored| - 1])
  }

  /** Replaying one more stored entry is one more upsert. */
  lemma ReplaySnoc(h: seq<ContactData>, stored: seq<ContactData>, i: nat)
    requires i < |stored|
    ensures Replay(h, stored[..i + 1]) == Upsert(Replay(h, stored[..i]), stored[i])
  {
    assert stored[..i + 1][..i] == stored[..i];
  }

  // ---------------------------------------------------------------------
  // Properties of the resolution
  // ---------------------------------------------------------------------

  /** A stored signature list is taken as it is, even an empty one; otherwise the default seeds it. */
  lemma SignatureResolution(store: Storage, k: Defaults)
    ensures SignaturesKey in store && store[SignaturesKey].SignatureList? ==>
              InitialSignatures(store, k) == store[SignaturesKey].signatures
    ensures SignaturesKey !in store || !store[SignaturesKey].SignatureList? ==>
              InitialSignatures(store, k) == [k.defaultSignature]
  {
  }

  /** Category resolution: new-format list verbatim, else defaults merged with legacy, else defaults. */
  lemma CategoryResolution(store: Storage, k: Defaults)
    ensures var stored := SafeParse(store, CategoriesKey, Null);
            var cats := InitialCategories(store, k);
            && (stored.LabelList? && |stored.labels| > 0 ==> cats == stored.labels)
            && (!(stored.LabelList? && |stored.labels| > 0) && LegacyCategories(store) == [] ==>
                  cats == k.defaultCategories)
  {
  }

  /**
   * The legacy merge: with no new-format list and some legacy categories, the
   * result has no duplicates, starts with the (duplicate-free) defaults, and
   * holds exactly the defaults and the legacy values.
   */
  lemma LegacyCategoryMerge(store: Storage, k: Defaults)
    requires !(CategoriesKey in store && store[CategoriesKey].LabelList? && |store[CategoriesKey].labels| > 0)
    requires LegacyCategories(store) != []
    requires NoDuplicates(k.defaultCategories)
    ensures var cats := InitialCategories(store, k);
            && NoDuplicates(cats)
            && k.defaultCategories <= cats
            && (forall x :: x in cats <==> x in k.defaultCategories || x in LegacyCategories(store))
            && cats == k.defaultCategories + Dedup(Unseen(k.defaultCategories, LegacyCategories(store)))
  {
    DedupKeepsPrefix(k.defaultCategories, LegacyCategories(store));
    DedupAfterPrefix(k.defaultCategories, LegacyCategories(store));
  }

  /** Template resolution: a non-empty stored list verbatim, otherwise defaults then legacy ones. */
  lemma TemplateResolution(store: Storage, k: Defaults)
    ensures var stored := SafeParse(store, TemplatesKey, Null);
            var ts := InitialTemplates(store, k);
            && (stored.TemplateList? && |stored.templates| > 0 ==> ts == stored.templates)
            && (!(stored.TemplateList? && |stored.templates| > 0) ==>
                  ts == k.emailTemplates + LegacyTemplates(store) && k.emailTemplates <= ts)
  {
  }

  /** An absent or unreadable legacy slot contributes nothing. */
  lemma UnreadableLegacyIsEmpty(store: Storage)
    requires LegacyTemplatesKey !in store || store[LegacyTemplatesKey] == Corrupt
    requires LegacyCategoriesKey !in store || store[LegacyCategoriesKey] == Corrupt
    ensures LegacyTemplates(store) == [] && LegacyCategories(store) == []
  {
  }

  // ---------------------------------------------------------------------
  // Properties of the replay
  // ---------------------------------------------------------------------

  /** With distinct ids, the entries before the last have distinct ids and none shares the last one's. */
  lemma UniqueIdsInit(stored: seq<ContactData>)
    requires stored != [] && UniqueIds(stored)
    ensures UniqueIds(stored[..|stored| - 1])
    ensures !HasId(Reverse(stored[..|stored| - 1]), stored[|stored| - 1].id)
  {
    var init := stored[..|stored| - 1];
    var c := stored[|stored| - 1];
    if HasId(Reverse(init), c.id) {
      var x :| x in Reverse(init) && x.id == c.id;
      var k :| 0 <= k < |init| && Reverse(init)[k] == x;
      ReverseAt(init, k);
      assert false;
    }
  }

  /** Stored entries with pairwise distinct ids come back in reverse order. */
  lemma {:induction false} ReplayReverses(stored: seq<ContactData>)
    requires UniqueIds(stored)
    ensures Replay([], stored) == Reverse(stored)
    decreases |stored|
  {
    if stored != [] {
      var init := stored[..|stored| - 1];
      UniqueIdsInit(stored);
      ReplayReverses(init);
    }
  }

  /** Position of the first entry with `id`. */
  function FirstIndex(s: seq<ContactData>, id: string): (i: nat)
    requires HasId(s, id)
    ensures i < |s| && s[i].id == id && forall j :: 0 <= j < i ==> s[j].id != id
    decreases |s|
  {
    if s[0].id == id then 0
    else
      assert HasId(s[1..], id) by {
        var c :| c in s && c.id == id;
        assert c in s[1..];
      }
      1 + FirstIndex(s[1..], id)
  }

  /** The last stored entry with `id`. */
  function LastWith(s: seq<ContactData>, id: string): (c: ContactData)
    requires HasId(s, id)
    ensures c in s && c.id == id
    decreases |s|
  {
    if s[|s| - 1].id == id then s[|s| - 1]
    else
      assert HasId(s[..|s| - 1], id) by {
        var c :| c in s && c.id == id;
        assert c in s[..|s| - 1];
      }
      LastWith(s[..|s| - 1], id)
  }

  /** The ids after an upsert: the old ones and the saved contact's. */
  lemma UpsertIds(h: seq<ContactData>, c: ContactData)
    ensures forall id :: HasId(Upsert(h, c), id) <==> HasId(h, id) || id == c.id
    ensures forall x :: x in Upsert(h, c) ==> x == c || (x in h && x.id != c.id)
  {
    var r := Upsert(h, c);
    if HasId(h, c.id) {
      forall x | x in r ensures x == c || (x in h && x.id != c.id) {
        var i :| 0 <= i < |r| && r[i] == x;
      }
      forall id | HasId(h, id) ensures HasId(r, id) {
        var x :| x in h && x.id == id;
        var i :| 0 <= i < |h| && h[i] == x;
        assert r[i] in r && r[i].id == id;
      }
    }
  }

  /** The stored entries before the last one. */
  function Init(s: seq<ContactData>): seq<ContactData>
    requires s != []
  {
    s[..|s| - 1]
  }

  lemma InitSnoc(s: seq<ContactData>)
    requires s != []
    ensures s == Init(s) + [s[|s| - 1]]
  {
  }

  lemma HasIdSplit(s: seq<ContactData>)
    requires s != []
    ensures forall id :: HasId(s, id) <==> HasId(Init(s), id) || id == s[|s| - 1].id
  {
    forall id ensures HasId(s, id) <==> HasId(Init(s), id) || id == s[|s| - 1].id {
      if HasId(s, id) {
        var x :| x in s && x.id == id;
        var i :| 0 <= i < |s| && s[i] == x;
        if i < |s| - 1 { assert x in Init(s); }
      }
      if HasId(Init(s), id) {
        var x :| x in Init(s) && x.id == id;
        assert x in s;
      }
      assert s[|s| - 1] in s;
    }
  }

  /** Replay from an empty history holds exactly the stored ids, each once. */
  lemma {:induction false} ReplayIds(stored: seq<ContactData>)
    ensures UniqueIds(Replay([], stored))
    ensures forall id :: HasId(Replay([], stored), id) <==> HasId(stored, id)
    decreases |stored|
  {
    if stored != [] {
      var h := Replay([], Init(stored));
      ReplayIds(Init(stored));
      SaveContactKeepsIdsUnique(h, stored[|stored| - 1]);
      UpsertIds(h, stored[|stored| - 1]);
      HasIdSplit(stored);
    }
  }

  lemma ReplayHasId(stored: seq<ContactData>, id: string)
    ensures HasId(Replay([], stored), id) <==> HasId(stored, id)
  {
    ReplayIds(stored);
  }

  /** Each replayed entry is the last stored entry with its id. */
  lemma {:induction false} ReplayKeepsLast(stored: seq<ContactData>)
    ensures forall x :: x in Replay([], stored) ==> HasId(stored, x.id) && x == LastWith(stored, x.id)
    decreases |stored|
  {
    if stored != [] {
      var init := Init(stored);
      var c := stored[|stored| - 1];
      ReplayKeepsLast(init);
      UpsertIds(Replay([], init), c);
      HasIdSplit(stored);
      forall x | x in Replay([], stored) ensures HasId(stored, x.id) && x == LastWith(stored, x.id) {
        if x != c {
          assert HasId(init, x.id) && x == LastWith(init, x.id);
        } else {
          assert c in stored;
        }
      }
    }
  }

  lemma FirstIndexPrefix(init: seq<ContactData>, s: seq<ContactData>, id: string)
    requires init <= s && HasId(init, id)
    ensures HasId(s, id) && FirstIndex(s, id) == FirstIndex(init, id)
  {
    var i := FirstIndex(init, id);
    assert s[i] == init[i];
    assert HasId(s, id) by { assert s[i] in s; }
  }

  /** Entries of `r` are ordered newest first by the first occurrence of their ids in `s`. */
  ghost predicate NewestFirst(r: seq<ContactData>, s: seq<ContactData>)
  {
    forall i, j :: 0 <= i < j < |r| ==>
      HasId(s, r[i].id) && HasId(s, r[j].id) && FirstIndex(s, r[j].id) < FirstIndex(s, r[i].id)
  }

  /** Facts about the entries before the last one that the order proof needs. */
  ghost predicate ExtendsWith(stored: seq<ContactData>, init: seq<ContactData>, h: seq<ContactData>)
  {
    && (forall id :: HasId(init, id) ==> HasId(stored, id) && FirstIndex(stored, id) == FirstIndex(init, id))
    && (forall i :: 0 <= i < |h| ==> HasId(init, h[i].id))
  }

  lemma OrderAfterReplace(stored: seq<ContactData>, init: seq<ContactData>, h: seq<ContactData>, c: ContactData)
    requires HasId(h, c.id) && NewestFirst(h, init) && ExtendsWith(stored, init, h)
    ensures NewestFirst(Upsert(h, c), stored)
  {
    var r := Upsert(h, c);
    assert forall i :: 0 <= i < |r| ==> r[i].id == h[i].id;
  }

  lemma OrderAfterPrepend(stored: seq<ContactData>, init: seq<ContactData>, h: seq<ContactData>, c: ContactData)
    requires stored == init + [c] && !HasId(init, c.id)
    requires !HasId(h, c.id) && NewestFirst(h, init) && ExtendsWith(stored, init, h)
    ensures NewestFirst(Upsert(h, c), stored)
  {
    var r := Upsert(h, c);
    assert r == [c] + h;
    assert HasId(stored, c.id) by { assert stored[|init|] in stored; }
    assert FirstIndex(stored, c.id) == |init| by {
      forall j | 0 <= j < |init| ensures stored[j].id != c.id {
        assert stored[j] == init[j] && init[j] in init;
      }
    }
    forall i, j | 0 <= i < j < |r|
      ensures HasId(stored, r[i].id) && HasId(stored, r[j].id)
      ensures FirstIndex(stored, r[j].id) < FirstIndex(stored, r[i].id)
    {
      assert r[j] == h[j - 1];
      if i > 0 {
        assert r[i] == h[i - 1];
      }
    }
  }

  lemma ReplayExtends(stored: seq<ContactData>)
    requires stored != []
    ensures ExtendsWith(stored, Init(stored), Replay([], Init(stored)))
  {
    var init := Init(stored);
    var h := Replay([], init);
    ReplayIds(init);
    forall id | HasId(init, id) ensures HasId(stored, id) && FirstIndex(stored, id) == FirstIndex(init, id) {
      FirstIndexPrefix(init, stored, id);
    }
    forall i | 0 <= i < |h| ensures HasId(init, h[i].id) {
      assert h[i] in h;
    }
  }

  /** A non-empty replay is the replay of all but the last entry with the last one upserted. */
  lemma ReplayLast(stored: seq<ContactData>)
    requires stored != []
    ensures Replay([], stored) == Upsert(Replay([], Init(stored)), stored[|stored| - 1])
  {
    assert Init(stored) == stored[..|stored| - 1];
  }

  /** The order is kept when one more stored entry is replayed. */
  lemma ReplayOrderStep(stored: seq<ContactData>)
    requires stored != [] && NewestFirst(Replay([], Init(stored)), Init(stored))
    ensures NewestFirst(Replay([], stored), stored)
  {
    var init := Init(stored);
    var c := stored[|stored| - 1];
    var h := Replay([], init);
    ReplayLast(stored);
    ReplayExtends(stored);
    if HasId(h, c.id) {
      OrderAfterReplace(stored, init, h, c);
    } else {
      ReplayHasId(init, c.id);
      InitSnoc(stored);
      OrderAfterPrepend(stored, init, h, c);
    }
  }

  /** Replayed entries are ordered newest first by the first stored occurrence of their ids. */
  lemma {:induction false} ReplayOrder(stored: seq<ContactData>)
    ensures NewestFirst(Replay([], stored), stored)
    decreases |stored|
  {
    if stored != [] {
      ReplayOrder(Init(stored));
      ReplayOrderStep(stored);
    }
  }

  /**
   * Replay from an empty history in general: one entry per stored id, holding
   * the last stored entry with that id, ordered newest first by the position
   * of each id's first stored occurrence.
   */
  lemma ReplayCollapses(stored: seq<ContactData>)
    ensures var r := Replay([], stored);
            && UniqueIds(r)
            && (forall id :: HasId(r, id) <==> HasId(stored, id))
            && (forall x :: x in r ==> HasId(stored, x.id) && x == LastWith(stored, x.id))
            && NewestFirst(r, stored)
  {
    ReplayIds(stored);
    ReplayKeepsLast(stored);
    ReplayOrder(stored);
  }
}
