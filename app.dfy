// The application shell: the reducer's state and the browser store held
// together, the startup effects (history replay, theme probe, signature
// persistence) and the ingestion handlers that turn a photo, a QR code
// text or an NFC message into a draft contact through a sequence of
// dispatches. The resize, OCR and extraction collaborators and the clock
// are parameters.

module AppShell {

  import opened Seqs
  import opened Types
  import opened Text
  import opened Store
  import opened Reducer
  import opened Startup

  /** What the extraction service returns: any of the fields may be missing. */
  datatype Extraction = Extraction(
    fullName: Option<string>,
    title: Option<string>,
    company: Option<string>,
    email: Option<string>,
    phone: Option<string>,
    website: Option<string>,
    address: Option<string>,
    socials: Option<Socials>)

  const OptimisingStatus := "Optimisation..."
  const ReadingStatus := "Lecture..."
  const AnalysingStatus := "Analyse Gemini..."
  const QrStatus := "Analyse du QR Code..."
  const NfcReadingStatus := "Lecture NFC en cours..."
  const NfcAnalysingStatus := "Analyse des donn\U{00E9}es NFC..."
  const QrName := "Contact QR"
  const NfcName := "Contact NFC"

  /** JavaScript's `value || fallback` on an optional string: a missing or empty value falls back. */
  function OrElse(v: Option<string>, fallback: string): (r: string)
    ensures v.Some? && v.value != "" ==> r == v.value
    ensures v.None? || v.value == "" ==> r == fallback
  {
    if v.Some? && v.value != "" then v.value else fallback
  }

  /** The draft contact an ingestion pipeline builds from the extracted fields. */
  function NewContact(e: Extraction, id: string, now: int, nameFallback: string,
                      scanImage: Option<string>, notes: string): ContactData
  {
    ContactData(
      id := id, timestamp := now, scanImage := scanImage, profileImage := None,
      fullName := OrElse(e.fullName, nameFallback),
      title := OrElse(e.title, ""), company := OrElse(e.company, ""),
      email := OrElse(e.email, ""), phone := OrElse(e.phone, ""),
      website := OrElse(e.website, ""), address := OrElse(e.address, ""),
      socials := if e.socials.Some? then e.socials.value else NoSocials,
      notes := Some(notes))
  }

  /**
   * Every text field of a new draft is the extracted value when one was
   * extracted and non-empty, and the empty string otherwise; the full name
   * falls back to the pipeline's own default and so is never empty when
   * that default is not.
   */
  lemma NewContactDefaults(e: Extraction, id: string, now: int, nameFallback: string,
                           scanImage: Option<string>, notes: string)
    ensures var c := NewContact(e, id, now, nameFallback, scanImage, notes);
            && c.id == id && c.timestamp == now && c.scanImage == scanImage && c.notes == Some(notes)
            && c.profileImage == None
            && (e.fullName.Some? && e.fullName.value != "" ==> c.fullName == e.fullName.value)
            && (e.fullName.None? || e.fullName.value == "" ==> c.fullName == nameFallback)
            && (nameFallback != "" ==> c.fullName != "")
            && (forall f :: f in {TitleField, CompanyField, EmailField, PhoneField, WebsiteField, AddressField} ==>
                  && (Extracted(e, f).Some? && Extracted(e, f).value != "" ==> FieldOf(c, f) == Extracted(e, f))
                  && (Extracted(e, f).None? || Extracted(e, f).value == "" ==> FieldOf(c, f) == Some("")))
            && c.socials == (if e.socials.Some? then e.socials.value else NoSocials)
  {
  }

  /** The extracted value for one of the text fields. */
  function Extracted(e: Extraction, f: ContactField): Option<string>
  {
    match f
    case FullNameField => e.fullName
    case TitleField => e.title
    case CompanyField => e.company
    case EmailField => e.email
    case PhoneField => e.phone
    case WebsiteField => e.website
    case AddressField => e.address
    case _ => None
  }

  /** A record of an NFC (NDEF) message, its payload already decoded to text. */
  datatype NdefRecord = NdefRecord(recordType: string, mediaType: Option<string>, data: string)

  /** Text, URL and vCard records contribute their text; the others are skipped. */
  predicate Readable(r: NdefRecord)
  {
    r.recordType == "text" || r.recordType == "url" || (r.mediaType.Some? && Contains(r.mediaType.value, "vcard"))
  }

  /** The text an NFC message yields: each readable record's text followed by a newline. */
  function NfcText(records: seq<NdefRecord>): string
    decreases |records|
  {
    if records == [] then ""
    else
      var last := records[|records| - 1];
      NfcText(records[..|records| - 1]) + (if Readable(last) then last.data + "\n" else "")
  }

  /** The message text of two record runs is the text of the first run followed by that of the second. */
  lemma {:induction false} NfcTextAppend(a: seq<NdefRecord>, b: seq<NdefRecord>)
    ensures NfcText(a + b) == NfcText(a) + NfcText(b)
    decreases |b|
  {
    if b == [] {
      assert a + b == a;
    } else {
      assert (a + b)[..|a + b| - 1] == a + b[..|b| - 1];
      NfcTextAppend(a, b[..|b| - 1]);
    }
  }

  /** A message without a readable record yields no text, and so fails the blank test. */
  lemma {:induction false} NfcTextOfUnreadable(records: seq<NdefRecord>)
    requires forall i :: 0 <= i < |records| ==> !Readable(records[i])
    ensures NfcText(records) == ""
    decreases |records|
  {
    if records != [] {
      NfcTextOfUnreadable(records[..|records| - 1]);
    }
  }

  /** One readable record contributes exactly its text and a newline. */
  lemma NfcTextOfOne(r: NdefRecord)
    ensures NfcText([r]) == if Readable(r) then r.data + "\n" else ""
  {
    assert [r][..0] == [];
  }

  /** The record loop of the NFC reading handler: concatenates the readable records' texts. */
  method CollectNfcText(records: seq<NdefRecord>) returns (fullText: string)
    ensures fullText == NfcText(records)
  {
    fullText := "";
    var i := 0;
    while i < |records|
      invariant 0 <= i <= |records|
      invariant fullText == NfcText(records[..i])
    {
      var record := records[i];
      if record.recordType == "text" {
        fullText := fullText + record.data + "\n";
      } else if record.recordType == "url" {
        fullText := fullText + record.data + "\n";
      } else if record.mediaType.Some? && Contains(record.mediaType.value, "vcard") {
        fullText := fullText + record.data + "\n";
      }
      assert records[..i + 1][..i] == records[..i];
      i := i + 1;
    }
    assert records[..i] == records;
  }

  /** The note a QR import carries: a fixed header and at most 50 characters of the raw text. */
  function QrNotes(decoded: string): string
  {
    "Import\U{00E9} depuis QR Code.\nContenu brut: " + Prefix(decoded, 50) + "..."
  }

  function NfcNotes(text: string): string
  {
    "Import\U{00E9} via NFC.\nContenu: " + Prefix(text, 50) + "..."
  }

  /** The application: the reducer's state and the browser store it writes through to. */
  class App {
    var state: AppState
    var store: Storage

    /** The initial state: the constants with the signatures, categories and templates resolved from the store. */
    constructor (store0: Storage, k: Defaults)
      ensures state == InitialState(store0, k) && store == store0
    {
      state := InitialState(store0, k);
      store := store0;
    }

    /** One dispatch: the reducer's next state and its write-through. */
    method Dispatch(a: AppAction)
      modifies this
      ensures state == Reduce(old(state), a)
      ensures store == Persist(old(store), Write(old(state), a))
    {
      var w := Write(state, a);
      state := Reduce(state, a);
      store := Persist(store, w);
    }

    /** Dispatching a step change: only the step changes, and nothing is written. */
    method ShowStep(step: AppStep)
      modifies this
      ensures state == old(state).(step := step) && store == old(store)
    {
      Dispatch(SetStep(step));
    }

    /** Dispatching a status message: only the status changes, and nothing is written. */
    method ShowStatus(status: string)
      modifies this
      ensures state == old(state).(processingStatus := status) && store == old(store)
    {
      Dispatch(SetProcessingStatus(status));
    }

    /** Dispatching a new draft: only the draft changes, and nothing is written. */
    method SetDraft(c: Option<ContactData>)
      modifies this
      ensures state == old(state).(currentContact := c) && store == old(store)
    {
      Dispatch(SetCurrentContact(c));
    }

    /** The signature observer: the list is stored whenever it is non-empty, and never when empty. */
    method PersistSignatures()
      modifies this`store
      ensures |state.signatures| > 0 ==> store == old(store)[SignaturesKey := SignatureList(state.signatures)]
      ensures |state.signatures| == 0 ==> store == old(store)
    {
      if |state.signatures| > 0 {
        store := store[SignaturesKey := SignatureList(state.signatures)];
      }
    }

    /**
     * A change to the signature list, followed by the effect that stores the
     * list after every such change: the reducer's new signatures, written to
     * their slot whenever the list is non-empty.
     */
    method ChangeSignatures(a: AppAction)
      requires a.AddSignature? || a.UpdateSignature? || a.DeleteSignature?
      modifies this
      ensures state == Reduce(old(state), a)
      ensures |state.signatures| > 0 ==> store == old(store)[SignaturesKey := SignatureList(state.signatures)]
      ensures |state.signatures| == 0 ==> store == old(store)
    {
      SignatureActionsDoNotWrite(state, a);
      Dispatch(a);
      PersistSignatures();
    }

    /** One saved history entry: the history upserted and its slot rewritten, nothing else changed. */
    method SaveStored(c: ContactData)
      modifies this
      ensures state == old(state).(history := Upsert(old(state).history, c))
      ensures store == old(store)[HistoryKey := ContactList(state.history)]
    {
      SaveContactWritesHistory(state, c);
      Dispatch(SaveContact(c));
    }

    /** Saving the next stored entry extends the replay by that entry. */
    method SaveStoredEntry(ghost h0: seq<ContactData>, stored: seq<ContactData>, i: nat)
      requires i < |stored| && state.history == Replay(h0, stored[..i])
      modifies this
      ensures state == old(state).(history := Replay(h0, stored[..i + 1]))
      ensures store == old(store)[HistoryKey := ContactList(state.history)]
    {
      ReplaySnoc(h0, stored, i);
      SaveStored(stored[i]);
    }

    /** The history effect: every stored entry saved in turn, each save writing the history slot. */
    method ReplayStoredHistory()
      modifies this
      ensures state == old(state).(history := Replay(old(state).history, StoredHistory(old(store))))
      ensures store == if StoredHistory(old(store)) == [] then old(store)
                       else old(store)[HistoryKey := ContactList(state.history)]
    {
      var stored := StoredHistory(store);
      ghost var s0, st0 := state, store;
      var i := 0;
      while i < |stored|
        invariant 0 <= i <= |stored|
        invariant state.history == Replay(s0.history, stored[..i])
        invariant state == s0.(history := state.history)
        invariant i == 0 ==> store == st0
        invariant i > 0 ==> store == st0[HistoryKey := ContactList(state.history)]
      {
        ghost var before := state.history;
        SaveStoredEntry(s0.history, stored, i);
        if i > 0 {
          SecondWriteWins(st0, HistoryKey, ContactList(before), ContactList(state.history));
        }
        i := i + 1;
      }
      assert stored[..i] == stored;
    }

    /**
     * The effects run once after the first render: the stored history is
     * replayed, the theme is toggled if the platform prefers dark, and the
     * signatures are persisted.
     */
    method Mount(prefersDark: bool)
      modifies this
      ensures state == old(state).(history := Replay(old(state).history, StoredHistory(old(store))),
                                   isDarkMode := old(state).isDarkMode != prefersDark)
      ensures var written := if StoredHistory(old(store)) == [] then old(store)
                             else old(store)[HistoryKey := ContactList(state.history)];
              store == if |state.signatures| > 0 then written[SignaturesKey := SignatureList(state.signatures)]
                       else written
    {
      ReplayStoredHistory();
      if prefersDark {
        Dispatch(ToggleTheme);
      }
      PersistSignatures();
    }

    /**
     * A photo: processing, then resize, OCR and extraction. On success the
     * draft is the new contact and the step is validation; when extraction
     * fails the step is back to scanning and the draft is untouched. History,
     * collections and the store never change.
     */
    method HandleImageSelected(base64: string, resize: string -> string, ocr: string -> string,
                               extract: (string, string) -> Option<Extraction>, id: string, now: int)
      modifies this
      ensures var resized := resize(base64);
              var e := extract(resized, ocr(resized));
              && store == old(store)
              && (e.None? ==> state == old(state).(step := Scan, processingStatus := AnalysingStatus))
              && (e.Some? ==> state == old(state).(step := Validate, processingStatus := AnalysingStatus,
                                currentContact := Some(NewContact(e.value, id, now, "", Some(resized), ""))))
    {
      ShowStep(Processing);
      ShowStatus(OptimisingStatus);
      var resized := resize(base64);
      ShowStatus(ReadingStatus);
      var ocrText := ocr(resized);
      ShowStatus(AnalysingStatus);
      var extracted := extract(resized, ocrText);
      if extracted.Some? {
        var contact := NewContact(extracted.value, id, now, "", Some(resized), "");
        SetDraft(Some(contact));
        ShowStep(Validate);
      } else {
        ShowStep(Scan);
      }
    }

    /** A decoded QR text: the same two outcomes, the name defaulting to "Contact QR". */
    method HandleQrScanSuccess(decoded: string, extract: string -> Option<Extraction>, id: string, now: int)
      modifies this
      ensures var e := extract(decoded);
              && store == old(store)
              && (e.None? ==> state == old(state).(step := Scan, processingStatus := QrStatus))
              && (e.Some? ==> state == old(state).(step := Validate, processingStatus := QrStatus,
                                currentContact := Some(NewContact(e.value, id, now, QrName, None, QrNotes(decoded)))))
    {
      ShowStep(Processing);
      ShowStatus(QrStatus);
      var extracted := extract(decoded);
      if extracted.Some? {
        var contact := NewContact(extracted.value, id, now, QrName, None, QrNotes(decoded));
        SetDraft(Some(contact));
        ShowStep(Validate);
      } else {
        ShowStep(Scan);
      }
    }

    /**
     * An NFC message read: the readable records' text; a blank text fails
     * without calling the extractor, otherwise the same two outcomes with the
     * name defaulting to "Contact NFC".
     */
    method HandleNfcReading(records: seq<NdefRecord>, extract: string -> Option<Extraction>, id: string, now: int)
      modifies this
      ensures var text := NfcText(records);
              && store == old(store)
              && (IsBlank(text) ==> state == old(state).(step := Scan, processingStatus := NfcReadingStatus))
              && (!IsBlank(text) && extract(text).None? ==>
                    state == old(state).(step := Scan, processingStatus := NfcAnalysingStatus))
              && (!IsBlank(text) && extract(text).Some? ==>
                    state == old(state).(step := Validate, processingStatus := NfcAnalysingStatus,
                      currentContact := Some(NewContact(extract(text).value, id, now, NfcName, None, NfcNotes(text)))))
    {
      ShowStatus(NfcReadingStatus);
      var fullText := CollectNfcText(records);
      TrimEmptyIffBlank(fullText);
      if Trim(fullText) == "" {
        ShowStep(Scan);
        return;
      }
      ShowStatus(NfcAnalysingStatus);
      var extracted := extract(fullText);
      if extracted.Some? {
        var contact := NewContact(extracted.value, id, now, NfcName, None, NfcNotes(fullText));
        SetDraft(Some(contact));
        ShowStep(Validate);
      } else {
        ShowStep(Scan);
      }
    }

    /** Manual entry: an all-empty draft and the validation step. */
    method HandleManualEntry(id: string, now: int)
      modifies this
      ensures store == old(store)
      ensures state == old(state).(step := Validate, currentContact := Some(
                ContactData(id, now, None, None, "", "", "", "", "", "", "", NoSocials, None)))
    {
      var empty := ContactData(id, now, None, None, "", "", "", "", "", "", "", NoSocials, None);
      SetDraft(Some(empty));
      ShowStep(Validate);
    }

    /** Saving the draft upserts it into the history (written through) and shows the actions. */
    method HandleSaveContact()
      modifies this
      ensures old(state).currentContact.None? ==> state == old(state) && store == old(store)
      ensures old(state).currentContact.Some? ==>
                && state == old(state).(history := Upsert(old(state).history, old(state).currentContact.value),
                                        step := Actions)
                && store == old(store)[HistoryKey := ContactList(state.history)]
    {
      if state.currentContact.Some? {
        Dispatch(SaveContact(state.currentContact.value));
        ShowStep(Actions);
      }
    }

    /** Going home: back to scanning with no draft; nothing else changes. */
    method GoHome()
      modifies this
      ensures state == old(state).(step := Scan, currentContact := None)
      ensures store == old(store)
    {
      ShowStep(Scan);
      SetDraft(None);
    }
  }
}
