// The actions screen's selection state and its guards: which category,
// template and signature are selected, how the selections follow the lists
// they come from, and what the add and delete handlers hand back to the
// application (the reducer actions they dispatch and the dialog they show).
// The user's answer to a confirmation dialog is a parameter.

module StepActions {

  import opened Seqs
  import opened Types
  import opened Text
  import opened Reducer
  import opened ActionText

  const PreferredCategory := "Networking & Affaires"

  /** The fields shown for a signature that has no structured data. */
  const PlaceholderFields := SigData("Votre Nom", "Poste", "Nom de l'Entreprise", "")

  /** The fields and content of a newly created signature. */
  const NewSignatureFields := SigData("Votre Nom", "Poste", "Entreprise", "")
  const NewSignatureContent := "<b>Votre Nom</b><br/><i>Poste</i><br/>Entreprise"

  /** What a handler shows the user. */
  datatype Dialog = NoDialog | Alert(message: string) | Confirm(question: string)

  const DuplicateCategoryAlert := "Cette cat\U{00E9}gorie existe d\U{00E9}j\U{00E0}."
  const LastCategoryAlert := "Impossible de supprimer la derni\U{00E8}re cat\U{00E9}gorie."
  const DeleteSignatureQuestion := "\U{00CA}tes-vous s\U{00FB}r de vouloir supprimer ce profil de signature ?"

  /** The category selected when the screen opens: the preferred one if listed, else the first, else none. */
  function InitialCategory(categories: seq<string>): (c: string)
    ensures c in categories || (categories == [] && c == "")
    ensures PreferredCategory in categories ==> c == PreferredCategory
    ensures PreferredCategory !in categories && categories != [] ==> c == categories[0]
  {
    if PreferredCategory in categories then PreferredCategory
    else if |categories| > 0 then categories[0]
    else ""
  }

  function InCategory(category: string): EmailTemplate -> bool
  {
    (t: EmailTemplate) => t.category == category
  }

  /** The templates offered for a category: those filed under it, in list order. */
  function TemplatesOf(templates: seq<EmailTemplate>, category: string): (r: seq<EmailTemplate>)
    ensures forall t :: t in r <==> t in templates && t.category == category
    ensures Sublist(r, templates)
    ensures forall t :: multiset(r)[t] == if t.category == category then multiset(templates)[t] else 0
  {
    FilterIsSublist(templates, InCategory(category));
    FilterCounts(templates, InCategory(category));
    Filter(templates, InCategory(category))
  }

  /** Array.prototype.some on the template ids. */
  predicate HasTemplateId(templates: seq<EmailTemplate>, id: string)
  {
    exists i :: 0 <= i < |templates| && templates[i].id == id
  }

  function IsDefault(): UserSignature -> bool
  {
    (s: UserSignature) => s.isDefault
  }

  function SigWithId(id: string): UserSignature -> bool
  {
    (s: UserSignature) => s.id == id
  }

  /** The signature picked when none is selected: the first marked default, else the first. */
  function DefaultSignature(signatures: seq<UserSignature>): (s: UserSignature)
    requires signatures != []
    ensures s in signatures
    ensures (exists i :: 0 <= i < |signatures| && signatures[i].isDefault) ==>
              s.isDefault && exists i :: 0 <= i < |signatures| && signatures[i] == s &&
                                         forall j :: 0 <= j < i ==> !signatures[j].isDefault
    ensures (forall i :: 0 <= i < |signatures| ==> !signatures[i].isDefault) ==> s == signatures[0]
  {
    match Find(signatures, IsDefault())
    case Some(d) => d
    case None => signatures[0]
  }

  /** The keys of the signature editor's fields. */
  datatype SigKey = NameKey | TitleKey | CompanyKey | LogoKey

  function WithSigField(f: SigData, key: SigKey, value: string): (r: SigData)
    ensures key.NameKey? ==> r == f.(name := value)
    ensures key.TitleKey? ==> r == f.(title := value)
    ensures key.CompanyKey? ==> r == f.(company := value)
    ensures key.LogoKey? ==> r == f.(logo := value)
  {
    match key
    case NameKey => f.(name := value)
    case TitleKey => f.(title := value)
    case CompanyKey => f.(company := value)
    case LogoKey => f.(logo := value)
  }

  /** A new signature: named after its position, with the placeholder content and data. */
  function NewSignature(id: string, count: nat): (g: UserSignature)
    ensures g.id == id && !g.isDefault && g.data == Some(NewSignatureFields)
    ensures |g.name| > 7 && g.name[..7] == "Profil "
    ensures var digits := g.name[7..];
            (forall i :: 0 <= i < |digits| ==> '0' <= digits[i] <= '9') && DecimalValue(digits) == count + 1
  {
    var name := "Profil " + DecimalString(count + 1);
    DecimalRoundTrip(count + 1);
    assert name[7..] == DecimalString(count + 1);
    UserSignature(id, name, NewSignatureContent, false, Some(NewSignatureFields))
  }

  /** The question asked before deleting a category, warning about the templates filed under it. */
  function CategoryDeleteQuestion(category: string, count: nat): string
  {
    "Voulez-vous vraiment supprimer la cat\U{00E9}gorie \"" + category + "\" ?"
    + (if count > 0 then
         "\n\nAttention : " + DecimalString(count)
         + " mod\U{00E8}le(s) associ\U{00E9}(s) \U{00E0} cette cat\U{00E9}gorie ne seront plus accessibles."
       else "")
  }

  /** The question asked before deleting a template; an unnamed or unknown template is "ce modèle". */
  function TemplateDeleteQuestion(templates: seq<EmailTemplate>, id: string): string
  {
    var found := Find(templates, (t: EmailTemplate) => t.id == id);
    var name := if found.Some? && found.value.name != "" then found.value.name else UnnamedTemplate;
    AskDeleteTemplate(name)
  }

  const UnnamedTemplate := "ce mod\U{00E8}le"

  function AskDeleteTemplate(name: string): string
  {
    "Voulez-vous vraiment supprimer le mod\U{00E8}le \"" + name + "\" ?\nCette action est irr\U{00E9}versible."
  }

  /**
   * The template named in the question is the first one with the id; an
   * unknown id or an empty name gives "ce modèle".
   */
  lemma TemplateDeleteQuestionNames(templates: seq<EmailTemplate>, id: string)
    ensures forall i :: 0 <= i < |templates| && templates[i].id == id
                        && (forall j :: 0 <= j < i ==> templates[j].id != id) ==>
              TemplateDeleteQuestion(templates, id)
                == AskDeleteTemplate(if templates[i].name != "" then templates[i].name else UnnamedTemplate)
    ensures (forall i :: 0 <= i < |templates| ==> templates[i].id != id) ==>
              TemplateDeleteQuestion(templates, id) == AskDeleteTemplate(UnnamedTemplate)
  {
    var found := Find(templates, (t: EmailTemplate) => t.id == id);
    forall i | 0 <= i < |templates| && templates[i].id == id
               && (forall j :: 0 <= j < i ==> templates[j].id != id)
      ensures found == Some(templates[i])
    {
      var k :| 0 <= k < |templates| && templates[k] == found.value && templates[k].id == id
               && forall j :: 0 <= j < k ==> templates[j].id != id;
      assert k == i;
    }
  }

  /** The local state of the actions screen. */
  class ActionsPanel {
    var selectedCategory: string
    var selectedTemplateId: string
    var selectedSigId: string
    var sigFields: SigData
    var currentSigHTML: string
    var editingProfileName: string
    var isEditingSig: bool
    var isAddingCategory: bool
    var newCategoryName: string
    var isAddingTemplate: bool
    var newTemplateName: string

    constructor (categories: seq<string>)
      ensures selectedCategory == InitialCategory(categories)
      ensures selectedTemplateId == "" && selectedSigId == ""
      ensures sigFields == PlaceholderFields && currentSigHTML == "" && editingProfileName == ""
      ensures !isEditingSig
      ensures !isAddingCategory && newCategoryName == "" && !isAddingTemplate && newTemplateName == ""
    {
      selectedCategory := InitialCategory(categories);
      selectedTemplateId := "";
      selectedSigId := "";
      sigFields := PlaceholderFields;
      currentSigHTML := "";
      editingProfileName := "";
      isEditingSig := false;
      isAddingCategory, newCategoryName := false, "";
      isAddingTemplate, newTemplateName := false, "";
    }

    /** A selected category that is no longer listed falls back to the first listed one. */
    method SyncCategory(categories: seq<string>)
      modifies this`selectedCategory
      ensures categories != [] ==> selectedCategory in categories
      ensures old(selectedCategory) in categories || categories == [] ==> selectedCategory == old(selectedCategory)
      ensures categories != [] && old(selectedCategory) !in categories ==> selectedCategory == categories[0]
    {
      if |categories| > 0 && selectedCategory !in categories {
        selectedCategory := categories[0];
      }
    }

    /**
     * The selected template follows the category: a selection that is not
     * among the category's templates becomes the first of them, or none.
     */
    method SyncTemplate(templates: seq<EmailTemplate>)
      modifies this`selectedTemplateId
      ensures var offered := TemplatesOf(templates, selectedCategory);
              && (HasTemplateId(offered, selectedTemplateId) || (offered == [] && selectedTemplateId == ""))
              && (HasTemplateId(offered, old(selectedTemplateId)) ==> selectedTemplateId == old(selectedTemplateId))
              && (!HasTemplateId(offered, old(selectedTemplateId)) && offered != [] ==>
                    selectedTemplateId == offered[0].id)
    {
      var offered := TemplatesOf(templates, selectedCategory);
      var isCurrentValid := HasTemplateId(offered, selectedTemplateId);
      if !isCurrentValid {
        if |offered| > 0 {
          selectedTemplateId := offered[0].id;
        } else {
          selectedTemplateId := "";
        }
      }
    }

    /** With no signature selected, the default one (or the first) is selected. */
    method SyncSignatureDefault(signatures: seq<UserSignature>)
      modifies this`selectedSigId
      ensures signatures != [] && old(selectedSigId) == "" ==> selectedSigId == DefaultSignature(signatures).id
      ensures signatures == [] || old(selectedSigId) != "" ==> selectedSigId == old(selectedSigId)
    {
      if |signatures| > 0 && selectedSigId == "" {
        var defaultSig := DefaultSignature(signatures);
        selectedSigId := defaultSig.id;
      }
    }

    /**
     * The editor shows the selected signature: its fields and their HTML when
     * it has structured data, else its stored content verbatim and the
     * placeholder fields.
     */
    method SyncSignatureView(signatures: seq<UserSignature>)
      modifies this`sigFields, this`currentSigHTML, this`editingProfileName
      ensures var sig := Find(signatures, SigWithId(selectedSigId));
              && (sig.None? ==> sigFields == old(sigFields) && currentSigHTML == old(currentSigHTML)
                                && editingProfileName == old(editingProfileName))
              && (sig.Some? ==> editingProfileName == sig.value.name)
              && (sig.Some? && sig.value.data.Some? ==>
                    sigFields == sig.value.data.value && currentSigHTML == SignatureHtml(sig.value.data.value))
              && (sig.Some? && sig.value.data.None? ==>
                    sigFields == PlaceholderFields && currentSigHTML == sig.value.content)
    {
      var sig := Find(signatures, SigWithId(selectedSigId));
      if sig.Some? {
        var s := sig.value;
        if s.data.Some? {
          sigFields := s.data.value;
          currentSigHTML := SignatureHtml(s.data.value);
        } else {
          currentSigHTML := s.content;
          sigFields := PlaceholderFields;
        }
        editingProfileName := s.name;
      }
    }

    /** Editing a field re-renders the signature from the new fields. */
    method HandleFieldChange(key: SigKey, value: string)
      modifies this`sigFields, this`currentSigHTML
      ensures sigFields == WithSigField(old(sigFields), key, value)
      ensures currentSigHTML == SignatureHtml(sigFields)
    {
      sigFields := WithSigField(sigFields, key, value);
      currentSigHTML := SignatureHtml(sigFields);
    }

    /** Saving the edited signature updates the selected one with the name, the rendered content and the fields. */
    method HandleSaveCurrentSig(signatures: seq<UserSignature>) returns (emitted: seq<AppAction>)
      modifies this`currentSigHTML, this`isEditingSig
      ensures currentSigHTML == SignatureHtml(sigFields)
      ensures var sig := Find(signatures, SigWithId(selectedSigId));
              && (sig.None? ==> emitted == [] && isEditingSig == old(isEditingSig))
              && (sig.Some? ==> !isEditingSig && emitted == [UpdateSignature(sig.value.(
                    name := editingProfileName, content := SignatureHtml(sigFields), data := Some(sigFields)))])
    {
      var content := SignatureHtml(sigFields);
      currentSigHTML := content;
      var sigToUpdate := Find(signatures, SigWithId(selectedSigId));
      emitted := [];
      if sigToUpdate.Some? {
        emitted := [UpdateSignature(sigToUpdate.value.(name := editingProfileName, content := content,
                                                       data := Some(sigFields)))];
        isEditingSig := false;
      }
    }

    /** Creating a signature adds it, selects it and opens the editor. */
    method HandleCreateSignature(signatures: seq<UserSignature>, newId: string) returns (emitted: seq<AppAction>)
      modifies this`selectedSigId, this`isEditingSig
      ensures emitted == [AddSignature(NewSignature(newId, |signatures|))]
      ensures selectedSigId == newId && isEditingSig
    {
      emitted := [AddSignature(NewSignature(newId, |signatures|))];
      selectedSigId := newId;
      isEditingSig := true;
    }

    /**
     * Deleting the selected signature: refused silently while at most one
     * signature exists; otherwise, once confirmed, it is deleted and the
     * first remaining signature is selected.
     */
    method HandleDeleteSignature(signatures: seq<UserSignature>, confirmed: bool)
      returns (emitted: seq<AppAction>, dialog: Dialog)
      modifies this`selectedSigId
      ensures |signatures| <= 1 ==> emitted == [] && dialog == NoDialog && selectedSigId == old(selectedSigId)
      ensures |signatures| > 1 ==> dialog == Confirm(DeleteSignatureQuestion)
      ensures |signatures| > 1 && !confirmed ==> emitted == [] && selectedSigId == old(selectedSigId)
      ensures |signatures| > 1 && confirmed ==>
                var remaining := RemoveSignature(signatures, old(selectedSigId));
                && emitted == [DeleteSignature(old(selectedSigId))]
                && (remaining != [] ==> selectedSigId == remaining[0].id)
                && (remaining == [] ==> selectedSigId == old(selectedSigId))
    {
      emitted, dialog := [], NoDialog;
      if |signatures| <= 1 {
        return;
      }
      dialog := Confirm(DeleteSignatureQuestion);
      if confirmed {
        emitted := [DeleteSignature(selectedSigId)];
        var remaining := RemoveSignature(signatures, selectedSigId);
        if |remaining| > 0 {
          selectedSigId := remaining[0].id;
        }
      }
    }

    /**
     * Adding a category under the trimmed typed name: an empty name is
     * ignored, a listed one is refused with an alert, a new one is added and
     * selected, and the form is cleared and closed.
     */
    method HandleSaveNewCategory(categories: seq<string>) returns (emitted: seq<AppAction>, dialog: Dialog)
      modifies this`selectedCategory, this`newCategoryName, this`isAddingCategory
      ensures var name := Trim(old(newCategoryName));
              && (name == "" || name in categories ==>
                    && emitted == [] && selectedCategory == old(selectedCategory)
                    && newCategoryName == old(newCategoryName) && isAddingCategory == old(isAddingCategory))
              && (name == "" ==> dialog == NoDialog)
              && (name != "" && name in categories ==> dialog == Alert(DuplicateCategoryAlert))
              && (name != "" && name !in categories ==>
                    && emitted == [AddCategory(name)] && dialog == NoDialog && selectedCategory == name
                    && newCategoryName == "" && !isAddingCategory)
    {
      emitted, dialog := [], NoDialog;
      if Trim(newCategoryName) != "" {
        var name := Trim(newCategoryName);
        if name in categories {
          dialog := Alert(DuplicateCategoryAlert);
          return;
        }
        emitted := [AddCategory(name)];
        selectedCategory := name;
        newCategoryName := "";
        isAddingCategory := false;
      }
    }

    /**
     * Deleting the selected category: nothing without a selection, an alert
     * when it is the last category, otherwise a confirmation counting the
     * templates filed under it, and the deletion once confirmed.
     */
    method HandleDeleteCurrentCategory(categories: seq<string>, templates: seq<EmailTemplate>, confirmed: bool)
      returns (emitted: seq<AppAction>, dialog: Dialog)
      ensures selectedCategory == "" ==> emitted == [] && dialog == NoDialog
      ensures selectedCategory != "" && |categories| <= 1 ==> emitted == [] && dialog == Alert(LastCategoryAlert)
      ensures selectedCategory != "" && |categories| > 1 ==>
                && dialog == Confirm(CategoryDeleteQuestion(selectedCategory, |TemplatesOf(templates, selectedCategory)|))
                && emitted == (if confirmed then [DeleteCategory(selectedCategory)] else [])
    {
      emitted, dialog := [], NoDialog;
      if selectedCategory == "" {
        return;
      }
      if |categories| <= 1 {
        dialog := Alert(LastCategoryAlert);
        return;
      }
      var associatedTemplates := |TemplatesOf(templates, selectedCategory)|;
      dialog := Confirm(CategoryDeleteQuestion(selectedCategory, associatedTemplates));
      if confirmed {
        emitted := [DeleteCategory(selectedCategory)];
      }
    }

    /**
     * Adding a template under the trimmed typed name, filed under the
     * selected category, selecting it and closing the form; an empty name is
     * ignored.
     */
    method HandleSaveNewTemplate(newId: string) returns (emitted: seq<AppAction>)
      modifies this`selectedTemplateId, this`newTemplateName, this`isAddingTemplate
      ensures Trim(old(newTemplateName)) == "" ==>
                && emitted == [] && selectedTemplateId == old(selectedTemplateId)
                && newTemplateName == old(newTemplateName) && isAddingTemplate == old(isAddingTemplate)
      ensures Trim(old(newTemplateName)) != "" ==>
                && emitted == [AddTemplate(EmailTemplate(newId, Trim(old(newTemplateName)), selectedCategory))]
                && selectedTemplateId == newId && newTemplateName == "" && !isAddingTemplate
    {
      emitted := [];
      if Trim(newTemplateName) != "" {
        var newTemplate := EmailTemplate(newId, Trim(newTemplateName), selectedCategory);
        emitted := [AddTemplate(newTemplate)];
        selectedTemplateId := newTemplate.id;
        newTemplateName := "";
        isAddingTemplate := false;
      }
    }

    /** Deleting the selected template once confirmed; nothing without a selection. */
    method HandleDeleteCurrentTemplate(templates: seq<EmailTemplate>, confirmed: bool)
      returns (emitted: seq<AppAction>, dialog: Dialog)
      ensures selectedTemplateId == "" ==> emitted == [] && dialog == NoDialog
      ensures selectedTemplateId != "" ==>
                && dialog == Confirm(TemplateDeleteQuestion(templates, selectedTemplateId))
                && emitted == (if confirmed then [DeleteTemplate(selectedTemplateId)] else [])
    {
      emitted, dialog := [], NoDialog;
      if selectedTemplateId == "" {
        return;
      }
      dialog := Confirm(TemplateDeleteQuestion(templates, selectedTemplateId));
      if confirmed {
        emitted := [DeleteTemplate(selectedTemplateId)];
      }
    }
  }

  // ---------------------------------------------------------------------
  // Properties of the guards, through the reducer
  // ---------------------------------------------------------------------

  /** Signature ids are distinct. */
  predicate UniqueSignatureIds(sigs: seq<UserSignature>)
  {
    forall i, j :: 0 <= i < j < |sigs| ==> sigs[i].id != sigs[j].id
  }

  /**
   * The floor on signature deletion: with distinct ids, deleting one while
   * more than one exists leaves at least one, so the list never empties.
   */
  lemma SignatureDeletionFloor(s: AppState, id: string)
    requires |s.signatures| > 1 && UniqueSignatureIds(s.signatures)
    ensures |Reduce(s, DeleteSignature(id)).signatures| >= 1
  {
    var sigs := s.signatures;
    var kept := if sigs[0].id != id then sigs[0] else sigs[1];
    assert kept.id != id;
    assert kept in RemoveSignature(sigs, id);
  }

  /** A new template, once added, is offered under the category it was filed under, so the template sync keeps it selected. */
  lemma NewTemplateIsOffered(s: AppState, t: EmailTemplate)
    ensures HasTemplateId(TemplatesOf(Reduce(s, AddTemplate(t)).templates, t.category), t.id)
  {
    var offered := TemplatesOf(Reduce(s, AddTemplate(t)).templates, t.category);
    assert t in offered;
    var i :| 0 <= i < |offered| && offered[i] == t;
  }

  /** A newly added category is listed afterwards, so the category sync keeps it selected. */
  lemma NewCategoryStaysSelected(s: AppState, name: string)
    ensures name in Reduce(s, AddCategory(name)).categories
  {
  }

  /**
   * The templates the deletion question counts are exactly those the deletion
   * newly leaves without a listed category: every counted one is orphaned, and
   * every template whose category was listed before and is not listed after
   * was counted.
   */
  lemma CountedTemplatesAreOrphaned(s: AppState, category: string)
    ensures var r := Reduce(s, DeleteCategory(category));
            && TemplatesOf(r.templates, category) == TemplatesOf(s.templates, category)
            && (forall t :: t in TemplatesOf(r.templates, category) ==> t.category !in r.categories)
            && (forall t :: t in r.templates && t.category in s.categories && t.category !in r.categories ==>
                  t in TemplatesOf(s.templates, category))
  {
    DeleteCategoryOrphansTemplates(s, category);
  }

  /** The deletion question warns about templates exactly when some are filed under the category. */
  lemma DeleteQuestionWarnsIffTemplates(category: string, templates: seq<EmailTemplate>)
    ensures var q := CategoryDeleteQuestion(category, |TemplatesOf(templates, category)|);
            var plain := CategoryDeleteQuestion(category, 0);
            (q == plain) <==> (forall t :: t in templates ==> t.category != category)
  {
    var offered := TemplatesOf(templates, category);
    if offered != [] {
      assert offered[0] in offered;
      var q := CategoryDeleteQuestion(category, |offered|);
      assert |q| > |CategoryDeleteQuestion(category, 0)|;
    }
  }
}
