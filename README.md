# Cartes de Visite — a Dafny model of the card scanner's core

The application scans a business card (photo, QR code or NFC tag), lets the
user validate the extracted contact, keeps a history of saved contacts and
prepares follow-up messages with a chosen signature and e-mail template.
This project models the part of it that decides what the application does:

- `types.dfy` (module `Types`): the workflow steps, the contact record, the
  templates, the signatures, the application state and the closed union of
  sixteen reducer actions.
- `reducer.dfy` (module `Reducer`): the reducer as a total function
  `Reduce`, and `Write`, the slot it writes through to the browser store.
- `store.dfy` (module `Store`): the store as a map from key to slot. A slot
  is classified by what parsing it yields. `SafeParse` is the read with a
  fallback.
- `startup.dfy` (module `Startup`): how the signatures, categories and
  templates are resolved at startup. Also the replay of the stored history
  through the upsert.
- `app.dfy` (module `AppShell`): the class `App` holding the state and the
  store. Its methods are the dispatch, the mount effects, the three
  ingestion pipelines, manual entry, saving and going home.
- `history.dfy` (module `HistorySearch`): the history screen's search.
- `vcard.dfy` (module `VCard`): the vCard 3.0 export and the download file
  name.
- `action_text.dfy` (module `ActionText`): the string builders of the
  actions screen:
  - the signature HTML and its plain-text stripping;
  - the mail body;
  - the SMS and WhatsApp links;
  - the social-profile links.
- `actions.dfy` (module `StepActions`): the actions screen's selection
  state as the class `ActionsPanel`. It holds the category, template and
  signature selections, the signature editor and the add/delete handlers.
  The handlers return the reducer actions they dispatch and the dialog they
  show.
- `seqs.dfy` and `text.dfy` (modules `Seqs` and `Text`): the JavaScript
  array and string operations the code relies on. These are `filter`,
  `map`-replace, `find`, `trim`, `toLowerCase`, `includes`, `split`,
  `join`, `substring` and `replace`.

Collaborators the code calls but does not define are parameters of the
methods that use them:
- image resizing, OCR and the contact-extraction service;
- the clock and the generated ids;
- the user's answer to a confirmation dialog;
- the platform's dark-mode preference;
- `encodeURIComponent`'s output;
- the iOS test.

The built-in constants (`INITIAL_STATE`, `DEFAULT_SIGNATURE`,
`DEFAULT_CATEGORIES`, `EMAIL_TEMPLATES`) are not part of this model. They
are the `Defaults` parameter of startup.

## Model

| member | source | states |
|---|---|---|
| Reducer.Upsert | App.tsx:44-48 | SAVE_CONTACT's history contains the payload. The length grows by one exactly when no entry had its id. The entries with other ids are unchanged and in order. |
| Reducer.Reduce | App.tsx:15-96 | Each field of the state changes only under the actions that own it. The theme flips exactly under TOGGLE_THEME. |
| Reducer.Write | App.tsx:44-90 | A write-through always stores a whole new collection under that collection's own key: the history, the categories or the templates. |
| Reducer.SaveNewContactPrepends | App.tsx:44-48 | A contact with an unknown id is put in front of the history, which grows by one. |
| Reducer.SaveKnownContactReplaces | App.tsx:44-48 | A contact with a known id replaces every entry with that id in place. The length is kept. |
| Reducer.SaveContactIdempotent | App.tsx:44-50 | Saving the same contact twice gives the same state as saving it once. |
| Reducer.SaveContactKeepsIdsUnique | App.tsx:44-48 | The upsert keeps the history's ids pairwise distinct. |
| Reducer.SaveContactWritesHistory | App.tsx:49 | SAVE_CONTACT writes the whole new history to `geminiCardScannerHistory`. |
| Reducer.DeleteContactExact | App.tsx:52-55 | DELETE_CONTACT keeps exactly the entries with other ids, in order. It writes them to the history slot. |
| Reducer.AddPresentCategoryIsNoOp | App.tsx:68-69 | ADD_CATEGORY of a listed value returns the identical state and writes nothing. |
| Reducer.AddCategoryKeepsNoDuplicates | App.tsx:68-73 | A duplicate-free category list stays duplicate-free. A new value is appended and the new list written. |
| Reducer.DeleteCategoryOrphansTemplates | App.tsx:74-78 | DELETE_CATEGORY keeps exactly the other values, in their order, and writes the list. The templates, including those filed under the removed category, are untouched. |
| Reducer.TemplateActionsWrite | App.tsx:79-90 | ADD_TEMPLATE appends and DELETE_TEMPLATE keeps exactly the templates with other ids, in order. Both write the new list. |
| Reducer.UpdatesWithoutDraftAreNoOps | App.tsx:23-33 | Without a draft, UPDATE_CONTACT_FIELD and UPDATE_SOCIAL return the state unchanged. |
| Reducer.UpdateFieldChangesOnlyThatField | App.tsx:25-31 | With a draft, the named field takes the value. Every other field, the socials and the rest of the state are kept. |
| Reducer.UpdateSocialChangesOnlyThatKey | App.tsx:34-43 | With a draft, the named platform's handle takes the value. Every other platform, every other field and the rest of the state are kept. |
| Reducer.SignatureActionsDoNotWrite | App.tsx:59-67 | The signature actions change only the signatures and never write the store. |
| Reducer.SignatureActionResults | App.tsx:59-67 | ADD_SIGNATURE appends the payload. UPDATE_SIGNATURE keeps the length and replaces exactly the signatures with the payload's id. DELETE_SIGNATURE keeps exactly the signatures with other ids, in order. |
| Reducer.WriteIffCollectionAction | App.tsx:44-90 | The store is written exactly for the history, category and template actions, except an ADD_CATEGORY of a listed value. |
| Reducer.LoadContactShowsActions | App.tsx:57-58 | LOAD_CONTACT makes the contact the draft and moves to the actions step. Nothing else changes. |
| Reducer.ToggleThemeInvolution | App.tsx:91-92 | Two TOGGLE_THEMEs restore the state. |
| Types.WithSocial | App.tsx:38-41 | Setting one platform's handle leaves the other three as they were. |
| Types.WithField | App.tsx:27-30 | Setting one contact field leaves every other field as it was. |
| Store.SafeParse | App.tsx:99-107 | A readable slot is returned as stored. A missing or unparsable slot yields the fallback. |
| Store.Persist | App.tsx:44-90 | A write-through sets exactly one slot and keeps every other key. |
| Startup.SignatureResolution | App.tsx:109 | A stored signature list is used as it is, even an empty one. Otherwise the default signature alone. |
| Startup.CategoryResolution | App.tsx:112-121 | A non-empty stored category list is used verbatim. With neither it nor legacy categories, the defaults are used. |
| Startup.LegacyCategoryMerge | App.tsx:118-121 | Without a stored list, legacy categories are merged after the defaults. The result is duplicate-free, starts with the defaults and holds exactly the defaults and the legacy values. It is the defaults followed by the legacy values not among them, once each, in the order they first appear. |
| Startup.Dedup | App.tsx:120 | `Array.from(new Set(..))` has no duplicates and the same members. |
| Startup.DedupFirstOccurrence | App.tsx:120 | The de-duplicated values are ordered by their first occurrence in the input. |
| Startup.DedupAfterPrefix | App.tsx:120 | After a duplicate-free front part, de-duplication appends the remaining new values in their first-occurrence order. |
| Startup.DedupKeepsPrefix | App.tsx:120 | De-duplicating keeps a duplicate-free front part in front. |
| Startup.TemplateResolution | App.tsx:124-134 | A non-empty stored template list is used verbatim. Otherwise the built-in templates followed by the legacy ones. |
| Startup.UnreadableLegacyIsEmpty | App.tsx:111-134 | A missing or unparsable legacy slot contributes nothing. |
| Startup.ReplayReverses | App.tsx:148-151 | Replaying stored entries with distinct ids through SAVE_CONTACT reverses their order. Because the mount writes the replayed history back, every reload reverses the stored order of a history with distinct ids. |
| Startup.ReplayKeepsLast | App.tsx:146-155 | Every replayed entry is the last stored entry with its id. |
| Startup.ReplayOrder | App.tsx:146-155 | Replayed entries are ordered by the first stored occurrence of their ids, latest first. |
| Startup.ReplayCollapses | App.tsx:148-151 | Replay from an empty history gives one entry per stored id: the last stored value, at the position of the id's first occurrence. |
| AppShell.App.constructor | App.tsx:136-143 | The initial state is the constants' state with the resolved signatures, categories and templates. The store is untouched. |
| AppShell.App.Dispatch | App.tsx:15-96 | One dispatch sets the reducer's next state and applies its write-through. |
| AppShell.App.ChangeSignatures | App.tsx:162-166 | After every signature change, the state is the reducer's result. The new list is stored when it is non-empty; when it is empty, the store is untouched. |
| AppShell.App.PersistSignatures | App.tsx:162-166 | The signatures are stored when the list is non-empty and the store is untouched when it is empty. |
| AppShell.App.ReplayStoredHistory | App.tsx:146-155 | The stored history is saved entry by entry. The state's history becomes the replay and nothing else changes. The history slot is rewritten only when there was something to replay. |
| AppShell.App.Mount | App.tsx:146-166 | The mount effects: the history is replayed, the theme flips when dark is preferred and the signatures are persisted when non-empty. |
| AppShell.OrElse | App.tsx:193-200 | `value \|\| fallback`: a missing or empty extracted value falls back. |
| AppShell.NewContactDefaults | App.tsx:189-202 | A new draft carries the id, time, image and notes given. A non-empty extracted value is kept, and a missing or empty one becomes `''`. The name is kept when extracted non-empty, and is the pipeline's default otherwise. The socials are the extracted ones or none. |
| AppShell.App.HandleImageSelected | App.tsx:176-212 | The photo pipeline. On extraction failure the step is SCAN and the draft is untouched. On success the draft is the new contact with the resized image, and the step is VALIDATE. The store never changes. |
| AppShell.App.HandleQrScanSuccess | App.tsx:214-242 | The QR pipeline has the same two outcomes. The name defaults to "Contact QR" and the note holds the first 50 characters of the text. |
| AppShell.CollectNfcText | App.tsx:264-274 | The record loop gives exactly the text, url and vCard records' texts, each followed by a newline. |
| AppShell.NfcTextAppend | App.tsx:266-274 | The text of two runs of records is the concatenation of their texts. |
| AppShell.NfcTextOfUnreadable | App.tsx:266-276 | A message without a readable record yields no text. |
| AppShell.App.HandleNfcReading | App.tsx:259-305 | The NFC pipeline. Whitespace-only text goes back to SCAN without calling the extractor. Otherwise it has the same two outcomes, with the name defaulting to "Contact NFC". |
| AppShell.App.HandleManualEntry | App.tsx:319-327 | Manual entry makes an all-empty draft and moves to VALIDATE. |
| AppShell.App.HandleSaveContact | App.tsx:329-334 | With a draft, the draft is upserted into the history, which is written, and the step is ACTIONS. Without one, nothing changes. |
| AppShell.App.GoHome | App.tsx:336-345 | Going home sets the step to SCAN and clears the draft. Nothing else changes. |
| HistorySearch.FilterHistory | components/StepHistory.tsx:16-19 | The shown contacts are exactly the history entries whose lower-cased name or company contains the lower-cased search text, each matching entry as many times as the history holds it. |
| HistorySearch.HistorySearchKeepsOrder | components/StepHistory.tsx:16 | The result is an order-preserving sub-list of the history. |
| HistorySearch.EmptySearchShowsAll | components/StepHistory.tsx:16-19 | An empty search shows the whole history. |
| HistorySearch.SearchIgnoresCase | components/StepHistory.tsx:17-18 | Lower-casing the search text does not change the result. |
| HistorySearch.SearchSplitsOverRuns | components/StepHistory.tsx:16 | Searching two runs of history is searching each run. |
| VCard.NamePartsRejoin | services/utils.ts:49-51 | The N parts give the name back. For a name with a space, first + " " + last is the full name and the family name has no space. Otherwise the family name is empty. |
| VCard.VCardFrame | services/utils.ts:53-73 | The card starts with `BEGIN:VCARD\nVERSION:3.0\n` and ends with `\nEND:VCARD`. |
| VCard.VCardLinesRoundTrip | services/utils.ts:53-73 | For values without line breaks, splitting the card at `\n` gives back exactly its lines. |
| VCard.VCardHead | services/utils.ts:53-63 | The first eleven lines are BEGIN, VERSION, FN, N, ORG, TITLE, TEL;TYPE=CELL, EMAIL, URL, ADR;TYPE=WORK and NOTE, in that order, carrying the values verbatim. |
| VCard.VCardFieldsRecoverable | services/utils.ts:55-63 | For values without line breaks, a reader of the card's lines gets every field back under its property name. This covers the name as `last;first;;;`, the address in the street component and the note or `''`. |
| VCard.SocialLinesExported | services/utils.ts:66-67 | A social line is written only for a non-empty LinkedIn or Twitter handle, LinkedIn first, carrying the handle verbatim. |
| VCard.SocialLinesIgnoreOthers | services/utils.ts:66-67 | Facebook and Instagram handles never reach the card. |
| VCard.FieldValue | services/utils.ts:55-63 | A found value is the rest of a line that starts with the property name. |
| VCard.VcfFileName | services/utils.ts:83 | The file name is the full name plus `.vcf`, or `contact.vcf` when the name is empty. |
| ActionText.LogoOnlyAppends | components/StepActions.tsx:146-148 | The logo only appends to the signature HTML. The HTML differs from the logo-less one exactly when a logo is set. |
| ActionText.StripTags | components/StepActions.tsx:367-398 | Tag stripping leaves no `<` and never lengthens the text. |
| ActionText.StripTagsIdempotent | components/StepActions.tsx:367-398 | Stripping twice is stripping once. |
| ActionText.PlainText | components/StepActions.tsx:367-398 | The plain-text signature holds no `<`. |
| ActionText.PlainSignatureText | components/StepActions.tsx:145-150 | For a logo-less signature whose fields hold no `<`, the plain text is name, title and company on three lines. |
| ActionText.MailBody | components/StepActions.tsx:398 | The mail body is the draft, the `\n\n--\n` separator and then tag-free text. |
| ActionText.MailBodyOfSignature | components/StepActions.tsx:398 | For a logo-less signature whose fields hold no `<`, the mail body is the draft, the separator and then name, title and company on three lines. |
| ActionText.SmsPhone | components/StepActions.tsx:405 | The SMS number is an order-preserving sub-list of the telephone. It holds every digit and `+` of the telephone, as often as it occurs there, and no other character. |
| ActionText.WhatsAppPhone | components/StepActions.tsx:413 | The WhatsApp number is an order-preserving sub-list of the telephone. It holds every digit of the telephone, as often as it occurs there, and no other character. |
| ActionText.WhatsAppPhoneOfSmsPhone | components/StepActions.tsx:403-415 | The WhatsApp number is the SMS number without its `+`. |
| ActionText.SmsPhoneIdempotent | components/StepActions.tsx:405 | Cleaning an already clean number changes nothing. |
| ActionText.SmsUrl | components/StepActions.tsx:403-409 | The SMS link is `sms:` and the cleaned number, then `&` on iOS and `?` elsewhere, then `body=` and the encoded message, with nothing else. |
| ActionText.WhatsAppUrl | components/StepActions.tsx:411-414 | The WhatsApp link is `https://wa.me/`, the digits, `?text=` and the encoded message, with nothing else. |
| ActionText.DropTrailingSlash | components/StepActions.tsx:431 | A value ending in `/` loses exactly that one `/`. Any other value is kept as it is. |
| ActionText.LastSegment | components/StepActions.tsx:433-434 | The last path segment is the text after the last `/`, or the whole value when it has none. It holds no `/`. |
| ActionText.RemoveFirstAt | components/StepActions.tsx:436 | `replace('@', '')` removes exactly the first `@`. |
| ActionText.SocialHandleOfHandle | components/StepActions.tsx:430-436 | A plain handle is used as it is. |
| ActionText.SocialHandleOfAtHandle | components/StepActions.tsx:436 | A handle written with a leading `@` loses it. |
| ActionText.SocialHandleOfProfileLink | components/StepActions.tsx:431-436 | A profile link, with or without a trailing `/`, yields the handle at its end. |
| ActionText.SocialUrl | components/StepActions.tsx:420-443 | Without a handle the platform's home page opens. With one, its profile or message link opens, except that a LinkedIn value that is already a link opens as it is. |
| ActionText.SocialUrlSpellings | components/StepActions.tsx:438-443 | For Twitter, Facebook and Instagram, the handle, `@handle` and a profile link open the same page. |
| ActionText.LinkedInUrlSpellings | components/StepActions.tsx:439 | For LinkedIn a handle and `@handle` open the same profile and a link opens verbatim. |
| StepActions.InitialCategory | components/StepActions.tsx:39-42 | The initial category is 'Networking & Affaires' when listed, else the first category, else none. It is always listed when there are categories. |
| StepActions.TemplatesOf | components/StepActions.tsx:56-58 | The offered templates are exactly those filed under the category, each as often as it is listed, in list order. |
| StepActions.DefaultSignature | components/StepActions.tsx:115-116 | The picked signature is listed. It is the first one marked default, else the first. |
| StepActions.WithSigField | components/StepActions.tsx:152-153 | Editing one signature field keeps the other three. |
| StepActions.ActionsPanel.constructor | components/StepActions.tsx:39-78 | The screen opens on the initial category, with no template or signature selected and the placeholder signature fields. |
| StepActions.ActionsPanel.SyncCategory | components/StepActions.tsx:82-86 | With categories listed, the selection is listed afterwards. A listed selection is kept and an unlisted one becomes the first category. |
| StepActions.ActionsPanel.SyncTemplate | components/StepActions.tsx:100-111 | The selection is an id among the category's templates, or none when there are none. A valid selection is kept and an invalid one becomes the first offered template. |
| StepActions.ActionsPanel.SyncSignatureDefault | components/StepActions.tsx:113-118 | With nothing selected and signatures listed, the default signature is selected. Otherwise the selection is kept. |
| StepActions.ActionsPanel.SyncSignatureView | components/StepActions.tsx:120-141 | A signature with data shows its fields and their rendering. One without data shows its stored content verbatim and the placeholder fields. |
| StepActions.ActionsPanel.HandleFieldChange | components/StepActions.tsx:152-156 | The edited fields are re-rendered into the signature HTML. |
| StepActions.ActionsPanel.HandleSaveCurrentSig | components/StepActions.tsx:171-183 | The selected signature is updated with the edited name, the rendered HTML and the fields, and the editor closes. Without a selection nothing is dispatched. |
| StepActions.ActionsPanel.HandleCreateSignature | components/StepActions.tsx:185-202 | A new signature named after its position is added and selected, and the editor opens. |
| StepActions.ActionsPanel.HandleDeleteSignature | components/StepActions.tsx:204-213 | At most one signature: nothing happens. Otherwise, once confirmed, the selected signature is deleted and the first remaining one selected. |
| StepActions.SignatureDeletionFloor | components/StepActions.tsx:204-213 | With distinct ids, a deletion the guard lets through leaves at least one signature. |
| StepActions.ActionsPanel.HandleSaveNewCategory | components/StepActions.tsx:216-228 | The trimmed name is used. An empty name is ignored and a listed one refused with an alert. A new one is added and selected, and the form closes. |
| StepActions.NewCategoryStaysSelected | components/StepActions.tsx:216-228 | A newly added category is listed afterwards, so the category sync keeps it selected. |
| StepActions.ActionsPanel.HandleDeleteCurrentCategory | components/StepActions.tsx:230-251 | Nothing without a selection and an alert for the last category. Otherwise a confirmation counting the category's templates, and the deletion once confirmed. |
| StepActions.CountedTemplatesAreOrphaned | components/StepActions.tsx:230-251 | The templates the question counts are exactly those the deletion newly leaves under an unlisted category: each counted one is orphaned, and each template whose listed category the deletion removes was counted. |
| StepActions.DeleteQuestionWarnsIffTemplates | components/StepActions.tsx:241-246 | The question carries the warning exactly when some template is filed under the category. |
| StepActions.ActionsPanel.HandleSaveNewTemplate | components/StepActions.tsx:254-266 | A non-blank trimmed name adds a template filed under the selected category, selects it and closes the form. |
| StepActions.NewTemplateIsOffered | components/StepActions.tsx:254-266 | An added template is offered under its category, so the template sync keeps it selected. |
| StepActions.ActionsPanel.HandleDeleteCurrentTemplate | components/StepActions.tsx:268-279 | Nothing without a selection. Otherwise a confirmation naming the template, or "ce modèle", and the deletion once confirmed. |
| Text.TrimEmptyIffBlank | App.tsx:276 | `trim()` is empty exactly for whitespace-only text. |
| Text.JoinSplit | services/utils.ts:49-51 | Joining the parts of a split with the same separator gives the text back. |
| Text.DecimalRoundTrip | components/StepActions.tsx:185-202 | The decimal rendering of a count reads back as that count. |
| VCard.GenerateVCard | services/utils.ts:48-75 | The card text. It has no contract of its own; VCard.VCardFrame, VCard.VCardLinesRoundTrip and VCard.VCardFieldsRecoverable state what it holds. |
| ActionText.SignatureHtml | components/StepActions.tsx:143-150 | The signature HTML. It has no contract of its own; ActionText.LogoOnlyAppends and ActionText.PlainSignatureText state its shape. |
| ActionText.SocialHandle | components/StepActions.tsx:430-436 | The handle taken from a social value. It has no contract of its own; ActionText.SocialHandleOfHandle, ActionText.SocialHandleOfAtHandle and ActionText.SocialHandleOfProfileLink state it per spelling. |
| Startup.InitialSignatures | App.tsx:109 | No contract of its own; Startup.SignatureResolution states it. |
| Startup.InitialCategories | App.tsx:111-121 | No contract of its own; Startup.CategoryResolution and Startup.LegacyCategoryMerge state it. |
| Startup.InitialTemplates | App.tsx:123-134 | No contract of its own; Startup.TemplateResolution states it. |
| Startup.InitialState | App.tsx:136-143 | No contract of its own; AppShell.App.constructor states the state it builds. |
| Startup.Replay | App.tsx:146-155 | No contract of its own; Startup.ReplayReverses, Startup.ReplayKeepsLast, Startup.ReplayOrder and Startup.ReplayCollapses state it. |
| AppShell.NewContact | App.tsx:189-202 | No contract of its own; AppShell.NewContactDefaults states every field. |
| AppShell.NfcText | App.tsx:264-274 | No contract of its own; AppShell.NfcTextAppend, AppShell.NfcTextOfUnreadable and AppShell.CollectNfcText state it. |
| StepActions.NewSignature | components/StepActions.tsx:185-197 | The new signature has the given id, is not the default and carries the placeholder fields. Its name is `Profil ` followed by digits that read back as the position, count plus one. |
| StepActions.CategoryDeleteQuestion | components/StepActions.tsx:241-246 | No contract of its own; StepActions.DeleteQuestionWarnsIffTemplates states when the warning appears. |
| StepActions.TemplateDeleteQuestion | components/StepActions.tsx:272-274 | No contract of its own; StepActions.TemplateDeleteQuestionNames states which name it shows. |
| StepActions.TemplateDeleteQuestionNames | components/StepActions.tsx:272-274 | The question names the first template with the id. When that template's name is empty, or no template has the id, it names "ce modèle". |

## Left out

- I/O and collaborators:
  - Image resizing, OCR, the extraction service and the clock are parameters.
  - So are `Date.now()` ids, `window.confirm` answers, the dark-mode probe, `encodeURIComponent` and the iOS user-agent test.
  - A failure of the resize or OCR step is not modelled; only the extractor can fail.
- Asynchrony: each pipeline runs to completion in one method. The code has no guard against a late extraction result after going home, and the model claims none.
- NFC reader setup and event subscription (App.tsx:244-258, 308-316) are outside the model. So is the NDEF payload decoding: records carry already decoded text.
- Alerts shown by the pipelines on failure are not modelled; only the state they leave is.
- Speech recognition, clipboard writes, `window.open`/`location`, the asynchronous message generation (`handleGenerate`) and the logo upload (`handleLogoUpload`) are not part of this model.
- `resizeImage`, `runOCR`, `fileToBase64` and the Blob/DOM part of `downloadVCard` are not part of this model.
- Text escaping (section 4 of RFC 2426) and line folding (section 5.8.1 of RFC 2425) are not done by the code and not assumed by the model. The field-recovery lemmas therefore require values without line breaks.
- VCard.GenerateVCard: modelled as its list of lines joined by newlines rather than as the local token `pop` and string `+=`. The text is the same.
- Text.Lower: lower-cases only A–Z and the Latin-1 capitals. Full Unicode case mapping is not modelled.
- Text.Prefix: counts characters (Unicode scalar values), while `substring(0, 50)` in the QR and NFC notes counts UTF-16 code units. For text with characters outside the Basic Multilingual Plane, such as emoji, the model keeps more characters than the application. It also never cuts a surrogate pair in half, as the application can.
- Store.Slot: a slot holding JSON of the wrong shape for its key is treated as unreadable.
- Startup.InitialSignatures: a stored literal `null` makes the code's signature list `null`, on which the application fails. The model seeds the default signature instead. The legacy slots' `null` is likewise read as an empty list.
- StepActions.ActionsPanel: the UI-only state (tabs, previews, generated text, recording field) is not modelled. Handlers the screen wires to buttons take their inputs as parameters.
- JavaScript's `||` treats an empty string as missing. The model follows the code here: an empty extracted value falls back, and an empty template name shows "ce modèle".
