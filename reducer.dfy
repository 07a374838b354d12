// The application reducer: a total function from a state and one of the
// sixteen actions to the next state, plus the write-through of the history,
// category and template collections that the reducer performs as it goes.

module Reducer {

  import opened Seqs
  import opened Types
  import opened Store

  /** Some entry of the history carries `id`. */
  predicate HasId(h: seq<ContactData>, id: string)
  {
    exists c :: c in h && c.id == id
  }

  /** No two entries of the history share an id. */
  ghost predicate UniqueIds(h: seq<ContactData>)
  {
    forall i, j :: 0 <= i < j < |h| ==> h[i].id != h[j].id
  }

  function SameId(id: string): ContactData -> bool
  {
    (c: ContactData) => c.id == id
  }

  function OtherId(id: string): ContactData -> bool
  {
    (c: ContactData) => c.id != id
  }

  /**
   * SAVE_CONTACT: an upsert by id. A contact whose id is new goes in front;
   * otherwise it replaces every entry with its id, where that entry stands.
   * The entries with other ids are the same list as before.
   */
  function Upsert(h: seq<ContactData>, c: ContactData): (r: seq<ContactData>)
    ensures c in r
    ensures |r| == if HasId(h, c.id) then |h| else |h| + 1
    ensures Filter(r, OtherId(c.id)) == Filter(h, OtherId(c.id))
  {
    if HasId(h, c.id) then
      var r := Replace(h, SameId(c.id), c);
      var i :| 0 <= i < |h| && h[i].id == c.id;
      assert r[i] == c;
      ReplaceKeepsOthers(h, c);
      r
    else
      assert Filter([c] + h, OtherId(c.id)) == Filter(h, OtherId(c.id)) by {
        assert ([c] + h)[1..] == h;
      }
      [c] + h
  }

  lemma {:induction false} ReplaceKeepsOthers(h: seq<ContactData>, c: ContactData)
    ensures Filter(Replace(h, SameId(c.id), c), OtherId(c.id)) == Filter(h, OtherId(c.id))
    decreases |h|
  {
    if h != [] {
      ReplaceKeepsOthers(h[1..], c);
      assert Replace(h, SameId(c.id), c)[1..] == Replace(h[1..], SameId(c.id), c);
    }
  }

  /** DELETE_CONTACT and the other deletions by id: Array.prototype.filter on the id. */
  function RemoveContact(h: seq<ContactData>, id: string): (r: seq<ContactData>)
  {
    Filter(h, OtherId(id))
  }

  function RemoveSignature(sigs: seq<UserSignature>, id: string): (r: seq<UserSignature>)
    ensures forall x :: x in r <==> x in sigs && x.id != id
    ensures Sublist(r, sigs)
  {
    FilterIsSublist(sigs, (s: UserSignature) => s.id != id);
    Filter(sigs, (s: UserSignature) => s.id != id)
  }

  function RemoveTemplate(ts: seq<EmailTemplate>, id: string): (r: seq<EmailTemplate>)
    ensures forall x :: x in r <==> x in ts && x.id != id
    ensures Sublist(r, ts)
  {
    FilterIsSublist(ts, (t: EmailTemplate) => t.id != id);
    Filter(ts, (t: EmailTemplate) => t.id != id)
  }

  function RemoveCategory(cats: seq<string>, value: string): (r: seq<string>)
    ensures forall x :: x in r <==> x in cats && x != value
    ensures Sublist(r, cats)
  {
    FilterIsSublist(cats, (c: string) => c != value);
    Filter(cats, (c: string) => c != value)
  }

  /** The reducer. Each action changes only the part of the state it is named after. */
  function Reduce(s: AppState, a: AppAction): (r: AppState)
    ensures r.history != s.history ==> a.SaveContact? || a.DeleteContact?
    ensures r.signatures != s.signatures ==> a.AddSignature? || a.UpdateSignature? || a.DeleteSignature?
    ensures r.categories != s.categories ==> a.AddCategory? || a.DeleteCategory?
    ensures r.templates != s.templates ==> a.AddTemplate? || a.DeleteTemplate?
    ensures r.step != s.step ==> a.SetStep? || a.LoadContact?
    ensures r.currentContact != s.currentContact ==>
              a.SetCurrentContact? || a.UpdateContactField? || a.UpdateSocial? || a.LoadContact?
    ensures r.processingStatus != s.processingStatus ==> a.SetProcessingStatus?
    ensures r.isDarkMode != s.isDarkMode <==> a.ToggleTheme?
  {
    match a
    case SetStep(step) => s.(step := step)
    case SetProcessingStatus(status) => s.(processingStatus := status)
    case SetCurrentContact(c) => s.(currentContact := c)
    case UpdateContactField(f, v) =>
      if s.currentContact.None? then s
      else s.(currentContact := Some(WithField(s.currentContact.value, f, v)))
    case UpdateSocial(p, v) =>
      if s.currentContact.None? then s
      else
        var c := s.currentContact.value;
        s.(currentContact := Some(c.(socials := WithSocial(c.socials, p, v))))
    case SaveContact(c) => s.(history := Upsert(s.history, c))
    case DeleteContact(id) => s.(history := RemoveContact(s.history, id))
    case LoadContact(c) => s.(currentContact := Some(c), step := AppStep.Actions)
    case AddSignature(sig) => s.(signatures := s.signatures + [sig])
    case UpdateSignature(sig) =>
      s.(signatures := Replace(s.signatures, (x: UserSignature) => x.id == sig.id, sig))
    case DeleteSignature(id) => s.(signatures := RemoveSignature(s.signatures, id))
    case AddCategory(c) =>
      if c in s.categories then s else s.(categories := s.categories + [c])
    case DeleteCategory(c) => s.(categories := RemoveCategory(s.categories, c))
    case AddTemplate(t) => s.(templates := s.templates + [t])
    case DeleteTemplate(id) => s.(templates := RemoveTemplate(s.templates, id))
    case ToggleTheme => s.(isDarkMode := !s.isDarkMode)
  }

  /**
   * The slot the reducer writes while handling `a`, if any: always the whole
   * new collection under that collection's own key.
   */
  function Write(s: AppState, a: AppAction): (w: Option<(string, Slot)>)
    ensures w.Some? ==>
              || w.value == (HistoryKey, ContactList(Reduce(s, a).history))
              || w.value == (CategoriesKey, LabelList(Reduce(s, a).categories))
              || w.value == (TemplatesKey, TemplateList(Reduce(s, a).templates))
  {
    match a
    case SaveContact(_) => Some((HistoryKey, ContactList(Reduce(s, a).history)))
    case DeleteContact(_) => Some((HistoryKey, ContactList(Reduce(s, a).history)))
    case AddCategory(c) =>
      if c in s.categories then None else Some((CategoriesKey, LabelList(Reduce(s, a).categories)))
    case DeleteCategory(_) => Some((CategoriesKey, LabelList(Reduce(s, a).categories)))
    case AddTemplate(_) => Some((TemplatesKey, TemplateList(Reduce(s, a).templates)))
    case DeleteTemplate(_) => Some((TemplatesKey, TemplateList(Reduce(s, a).templates)))
    case _ => None
  }

  // ---------------------------------------------------------------------
  // Properties of the transitions
  // ---------------------------------------------------------------------

  /** A contact whose id is not yet in the history is put in front of it. */
  lemma SaveNewContactPrepends(s: AppState, c: ContactData)
    requires !HasId(s.history, c.id)
    ensures Reduce(s, SaveContact(c)).history == [c] + s.history
    ensures |Reduce(s, SaveContact(c)).history| == |s.history| + 1
  {
  }

  /** A contact whose id is already there replaces those entries in place; the length is kept. */
  lemma SaveKnownContactReplaces(s: AppState, c: ContactData)
    requires HasId(s.history, c.id)
    ensures var h := Reduce(s, SaveContact(c)).history;
            && |h| == |s.history|
            && forall i :: 0 <= i < |h| ==> h[i] == if s.history[i].id == c.id then c else s.history[i]
  {
  }

  /** Upserting a contact whose id is listed replaces it in place, so a second upsert changes nothing. */
  lemma UpsertTwiceKnown(h: seq<ContactData>, c: ContactData)
    requires HasId(h, c.id)
    ensures Upsert(Upsert(h, c), c) == Upsert(h, c)
  {
    var h1 := Upsert(h, c);
    var h2 := Upsert(h1, c);
    assert forall i :: 0 <= i < |h1| ==> h2[i] == h1[i];
  }

  /** Upserting a new contact puts it first, so a second upsert replaces only that entry, with itself. */
  lemma UpsertTwiceNew(h: seq<ContactData>, c: ContactData)
    requires !HasId(h, c.id)
    ensures Upsert(Upsert(h, c), c) == Upsert(h, c)
  {
    var h1 := Upsert(h, c);
    assert h1 == [c] + h;
    assert HasId(h1, c.id) by { assert h1[0] == c; }
    var h2 := Upsert(h1, c);
    forall i | 1 <= i < |h1| ensures h1[i].id != c.id {
      assert h1[i] == h[i - 1] && h1[i] in h;
    }
    assert forall i :: 0 <= i < |h1| ==> h2[i] == h1[i];
  }

  /** Saving the same contact twice is the same as saving it once. */
  lemma SaveContactIdempotent(s: AppState, c: ContactData)
    ensures Reduce(Reduce(s, SaveContact(c)), SaveContact(c)) == Reduce(s, SaveContact(c))
  {
    if HasId(s.history, c.id) {
      UpsertTwiceKnown(s.history, c);
    } else {
      UpsertTwiceNew(s.history, c);
    }
  }

  /** An upsert keeps the ids of the history pairwise distinct. */
  lemma SaveContactKeepsIdsUnique(h: seq<ContactData>, c: ContactData)
    requires UniqueIds(h)
    ensures UniqueIds(Upsert(h, c))
  {
    var r := Upsert(h, c);
    if HasId(h, c.id) {
      forall i, j | 0 <= i < j < |r| ensures r[i].id != r[j].id {
        assert r[i].id == (if h[i].id == c.id then c.id else h[i].id) == h[i].id;
        assert r[j].id == h[j].id;
      }
    } else {
      forall i, j | 0 <= i < j < |r| ensures r[i].id != r[j].id {
        if i == 0 {
          assert r[j] == h[j - 1] && r[j] in h;
        } else {
          assert r[i] == h[i - 1] && r[j] == h[j - 1];
        }
      }
    }
  }

  /** DELETE_CONTACT leaves exactly the entries with other ids, in order, and writes them. */
  lemma DeleteContactExact(s: AppState, id: string)
    ensures var h := Reduce(s, DeleteContact(id)).history;
            && (forall c :: c in h <==> c in s.history && c.id != id)
            && Sublist(h, s.history)
            && Write(s, DeleteContact(id)) == Some((HistoryKey, ContactList(h)))
  {
    FilterIsSublist(s.history, OtherId(id));
  }

  /** SAVE_CONTACT writes the whole new history to the history slot. */
  lemma SaveContactWritesHistory(s: AppState, c: ContactData)
    ensures Write(s, SaveContact(c)) == Some((HistoryKey, ContactList(Reduce(s, SaveContact(c)).history)))
  {
  }

  /** Duplicate-free categories: ADD_CATEGORY of a present value changes and writes nothing. */
  lemma AddPresentCategoryIsNoOp(s: AppState, c: string)
    requires c in s.categories
    ensures Reduce(s, AddCategory(c)) == s
    ensures Write(s, AddCategory(c)) == None
  {
  }

  /** ADD_CATEGORY of a new value appends it and writes the new list; no duplicate is created. */
  lemma AddCategoryKeepsNoDuplicates(s: AppState, c: string)
    requires forall i, j :: 0 <= i < j < |s.categories| ==> s.categories[i] != s.categories[j]
    ensures var cats := Reduce(s, AddCategory(c)).categories;
            && (forall i, j :: 0 <= i < j < |cats| ==> cats[i] != cats[j])
            && c in cats
            && (c !in s.categories ==>
                  cats == s.categories + [c] && Write(s, AddCategory(c)) == Some((CategoriesKey, LabelList(cats))))
  {
    var cats := Reduce(s, AddCategory(c)).categories;
    if c !in s.categories {
      forall i, j | 0 <= i < j < |cats| ensures cats[i] != cats[j] {
        if j == |s.categories| {
          assert cats[i] in s.categories;
        }
      }
    }
  }

  /**
   * DELETE_CATEGORY removes the value and writes the rest, and leaves every
   * template in place, including those that referred to the removed category.
   */
  lemma DeleteCategoryOrphansTemplates(s: AppState, c: string)
    ensures var r := Reduce(s, DeleteCategory(c));
            && (forall x :: x in r.categories <==> x in s.categories && x != c)
            && Sublist(r.categories, s.categories)
            && r.templates == s.templates
            && Write(s, DeleteCategory(c)) == Some((CategoriesKey, LabelList(r.categories)))
  {
  }

  /** ADD_TEMPLATE appends and DELETE_TEMPLATE filters by id; both write the new list. */
  lemma TemplateActionsWrite(s: AppState, t: EmailTemplate, id: string)
    ensures Reduce(s, AddTemplate(t)).templates == s.templates + [t]
    ensures Write(s, AddTemplate(t)) == Some((TemplatesKey, TemplateList(s.templates + [t])))
    ensures var ts := Reduce(s, DeleteTemplate(id)).templates;
            && (forall x :: x in ts <==> x in s.templates && x.id != id)
            && Sublist(ts, s.templates)
            && Write(s, DeleteTemplate(id)) == Some((TemplatesKey, TemplateList(ts)))
  {
  }

  /** Without a draft contact, the field and social updates change nothing. */
  lemma UpdatesWithoutDraftAreNoOps(s: AppState, f: ContactField, p: Platform, v: string)
    requires s.currentContact.None?
    ensures Reduce(s, UpdateContactField(f, v)) == s
    ensures Reduce(s, UpdateSocial(p, v)) == s
  {
  }

  /** With a draft, a field update sets that field of the draft and nothing else. */
  lemma UpdateFieldChangesOnlyThatField(s: AppState, f: ContactField, v: string)
    requires s.currentContact.Some?
    ensures var r := Reduce(s, UpdateContactField(f, v));
            && r.currentContact.Some?
            && FieldOf(r.currentContact.value, f) == Some(v)
            && (forall g :: g != f ==> FieldOf(r.currentContact.value, g) == FieldOf(s.currentContact.value, g))
            && r.currentContact.value.socials == s.currentContact.value.socials
            && r == s.(currentContact := r.currentContact)
  {
  }

  /** With a draft, a social update sets that platform's handle and nothing else. */
  lemma UpdateSocialChangesOnlyThatKey(s: AppState, p: Platform, v: string)
    requires s.currentContact.Some?
    ensures var r := Reduce(s, UpdateSocial(p, v));
            && r.currentContact.Some?
            && SocialOf(r.currentContact.value.socials, p) == Some(v)
            && (forall q :: q != p ==>
                  SocialOf(r.currentContact.value.socials, q) == SocialOf(s.currentContact.value.socials, q))
            && r.currentContact.value == s.currentContact.value.(socials := r.currentContact.value.socials)
            && r == s.(currentContact := r.currentContact)
  {
  }

  /** The signature actions never write the store from inside the reducer. */
  lemma SignatureActionsDoNotWrite(s: AppState, a: AppAction)
    requires a.AddSignature? || a.UpdateSignature? || a.DeleteSignature?
    ensures Write(s, a) == None
    ensures Reduce(s, a) == s.(signatures := Reduce(s, a).signatures)
  {
  }

  /** ADD_SIGNATURE appends, UPDATE_SIGNATURE replaces the entries with the payload's id in place,
      DELETE_SIGNATURE keeps exactly the signatures with other ids, in order. */
  lemma SignatureActionResults(s: AppState, g: UserSignature, id: string)
    ensures Reduce(s, AddSignature(g)).signatures == s.signatures + [g]
    ensures var r := Reduce(s, UpdateSignature(g)).signatures;
            && |r| == |s.signatures|
            && forall i :: 0 <= i < |r| ==> r[i] == if s.signatures[i].id == g.id then g else s.signatures[i]
    ensures var r := Reduce(s, DeleteSignature(id)).signatures;
            && (forall x :: x in r <==> x in s.signatures && x.id != id)
            && Sublist(r, s.signatures)
  {
  }

  /** Exactly the history, category and template changes write, and an ADD_CATEGORY that changes nothing does not. */
  lemma WriteIffCollectionAction(s: AppState, a: AppAction)
    ensures Write(s, a).Some? <==>
              || a.SaveContact? || a.DeleteContact? || a.AddTemplate? || a.DeleteTemplate?
              || a.DeleteCategory? || (a.AddCategory? && a.category !in s.categories)
  {
  }

  /** LOAD_CONTACT makes the contact the draft and moves to the actions step. */
  lemma LoadContactShowsActions(s: AppState, c: ContactData)
    ensures Reduce(s, LoadContact(c)) == s.(currentContact := Some(c), step := AppStep.Actions)
  {
  }

  /** TOGGLE_THEME twice restores the state. */
  lemma ToggleThemeInvolution(s: AppState)
    ensures Reduce(Reduce(s, ToggleTheme), ToggleTheme) == s
  {
  }
}
