// The vCard 3.0 export of a contact and the name of the downloaded file.

module VCard {

  import opened Seqs
  import opened Types
  import opened Text

  /**
   * The N property's parts, as (family name, given names): when the full name
   * has several space-separated words the last one is the family name and
   * the others, rejoined by spaces, the given names; otherwise the family
   * name is empty.
   */
  function NameParts(fullName: string): (string, string)
  {
    var n := Split(fullName, ' ');
    if |n| > 1 then (n[|n| - 1], Join(n[..|n| - 1], " ")) else ("", Join(n, " "))
  }

  /** The note, or the empty string when there is none (`notes || ''`). */
  function NotesText(c: ContactData): string
  {
    if c.notes.Some? then c.notes.value else ""
  }

  /** A social handle is exported only when present and non-empty. */
  predicate Present(v: Option<string>)
  {
    v.Some? && v.value != ""
  }

  function SocialLines(s: Socials): seq<string>
  {
    (if Present(s.linkedin) then ["X-SOCIALPROFILE;type=linkedin:" + s.linkedin.value] else [])
    + (if Present(s.twitter) then ["X-SOCIALPROFILE;type=twitter:" + s.twitter.value] else [])
  }

  /** The eleven lines every card starts with: the frame's opening, the name and the contact fields. */
  function HeadLines(c: ContactData): seq<string>
  {
    var (last, first) := NameParts(c.fullName);
    ["BEGIN:VCARD", "VERSION:3.0",
     "FN:" + c.fullName,
     "N:" + last + ";" + first + ";;;",
     "ORG:" + c.company,
     "TITLE:" + c.title,
     "TEL;TYPE=CELL:" + c.phone,
     "EMAIL:" + c.email,
     "URL:" + c.website,
     "ADR;TYPE=WORK:;;" + c.address + ";;;;",
     "NOTE:" + NotesText(c)]
  }

  /** The lines of the card, in the order they are written. */
  function VCardLines(c: ContactData): seq<string>
  {
    HeadLines(c) + (SocialLines(c.socials) + ["END:VCARD"])
  }

  /** The card's text: its lines separated by newlines, with no newline after the last. */
  function GenerateVCard(c: ContactData): string
  {
    Join(VCardLines(c), "\n")
  }

  /** The downloaded file's name: the full name, or "contact" when it is empty, with the .vcf extension. */
  function VcfFileName(c: ContactData): (name: string)
    ensures |name| > 4 && name[|name| - 4..] == ".vcf"
    ensures c.fullName != "" ==> name[..|name| - 4] == c.fullName
    ensures c.fullName == "" ==> name == "contact.vcf"
  {
    (if c.fullName != "" then c.fullName else "contact") + ".vcf"
  }

  // ---------------------------------------------------------------------
  // Properties
  // ---------------------------------------------------------------------

  /**
   * The N property gives the full name back: a name with a space is the given
   * names, a space and the family name (which holds no space); a name
   * without one is all given names.
   */
  lemma NamePartsRejoin(fullName: string)
    ensures var (last, first) := NameParts(fullName);
            && ' ' !in last
            && (' ' in fullName ==> first + " " + last == fullName)
            && (' ' !in fullName ==> last == "" && first == fullName)
  {
    var n := Split(fullName, ' ');
    JoinSplit(fullName, ' ');
    if ' ' !in fullName {
      SplitNoSep(fullName, ' ');
    } else if |n| == 1 {
      assert false;
    } else {
      assert n[..|n| - 1] + [n[|n| - 1]] == n;
      JoinSnoc(n[..|n| - 1], n[|n| - 1], " ");
    }
  }

  /** Lines whose first two are `a` and `b` join into a text that starts with them, each followed by a newline. */
  lemma JoinStartsWith(lines: seq<string>, a: string, b: string)
    requires |lines| >= 3 && lines[0] == a && lines[1] == b
    ensures a + "\n" + b + "\n" <= Join(lines, "\n")
  {
    var rest := lines[2..];
    assert lines[1..][1..] == rest;
    assert Join(lines, "\n") == a + "\n" + (b + "\n" + Join(rest, "\n"));
  }

  /** Lines whose last is `z` join into a text that ends with a newline and `z`. */
  lemma JoinEndsWith(lines: seq<string>, z: string)
    requires |lines| >= 2 && lines[|lines| - 1] == z
    ensures var v := Join(lines, "\n");
            |v| >= |z| + 1 && v[|v| - |z| - 1..] == "\n" + z
  {
    var body := lines[..|lines| - 1];
    assert lines == body + [z];
    JoinSnoc(body, z, "\n");
  }

  /** The card starts with the BEGIN and VERSION lines and ends with the END line. */
  lemma VCardFrame(c: ContactData)
    ensures var v := GenerateVCard(c);
            && "BEGIN:VCARD" + "\n" + "VERSION:3.0" + "\n" <= v
            && |v| >= 10 && v[|v| - 10..] == "\n" + "END:VCARD"
  {
    var lines := VCardLines(c);
    assert lines[0] == "BEGIN:VCARD" && lines[1] == "VERSION:3.0";
    assert lines[|lines| - 1] == "END:VCARD";
    JoinStartsWith(lines, "BEGIN:VCARD", "VERSION:3.0");
    JoinEndsWith(lines, "END:VCARD");
  }

  /** None of the exported values holds a line break. */
  predicate SingleLine(c: ContactData)
  {
    && '\n' !in c.fullName && '\n' !in c.company && '\n' !in c.title && '\n' !in c.phone
    && '\n' !in c.email && '\n' !in c.website && '\n' !in c.address && '\n' !in NotesText(c)
    && (c.socials.linkedin.Some? ==> '\n' !in c.socials.linkedin.value)
    && (c.socials.twitter.Some? ==> '\n' !in c.socials.twitter.value)
  }

  lemma NamePartsSingleLine(fullName: string)
    requires '\n' !in fullName
    ensures '\n' !in NameParts(fullName).0 && '\n' !in NameParts(fullName).1
  {
    var n := Split(fullName, ' ');
    SplitChars(fullName, ' ', '\n');
    if |n| > 1 {
      JoinChars(n[..|n| - 1], " ", '\n');
    } else {
      JoinChars(n, " ", '\n');
    }
  }

  lemma HeadSingleLine(c: ContactData)
    requires SingleLine(c)
    ensures forall i :: 0 <= i < |HeadLines(c)| ==> '\n' !in HeadLines(c)[i]
  {
    NamePartsSingleLine(c.fullName);
  }

  lemma SocialSingleLine(c: ContactData)
    requires SingleLine(c)
    ensures forall i :: 0 <= i < |SocialLines(c.socials)| ==> '\n' !in SocialLines(c.socials)[i]
  {
  }

  /** For single-line values, splitting the card at its line breaks gives back its lines. */
  lemma VCardLinesRoundTrip(c: ContactData)
    requires SingleLine(c)
    ensures Split(GenerateVCard(c), '\n') == VCardLines(c)
  {
    var lines, head, social := VCardLines(c), HeadLines(c), SocialLines(c.socials);
    HeadSingleLine(c);
    SocialSingleLine(c);
    forall i | 0 <= i < |lines| ensures '\n' !in lines[i] {
      if i < |head| {
        assert lines[i] == head[i];
      } else if i < |head| + |social| {
        assert lines[i] == social[i - |head|];
      } else {
        assert lines[i] == "END:VCARD";
      }
    }
    SplitJoin(lines, '\n');
  }

  /** The value of the first line that starts with `tag`, as a reader of the card finds it. */
  function FieldValue(lines: seq<string>, tag: string): (v: Option<string>)
    ensures v.Some? ==> exists i :: 0 <= i < |lines| && lines[i] == tag + v.value
    decreases |lines|
  {
    if lines == [] then None
    else if tag <= lines[0] then
      assert lines[0] == tag + lines[0][|tag|..];
      Some(lines[0][|tag|..])
    else FieldValue(lines[1..], tag)
  }

  /** `line` and `tag` differ in one of their first two characters, so `line` does not start with `tag`. */
  predicate DiffersEarly(tag: string, line: string)
  {
    (|tag| > 0 && |line| > 0 && tag[0] != line[0]) || (|tag| > 1 && |line| > 1 && tag[1] != line[1])
  }

  lemma {:induction false} FieldValueAt(lines: seq<string>, tag: string, k: nat)
    requires k < |lines| && tag <= lines[k]
    requires forall j :: 0 <= j < k ==> DiffersEarly(tag, lines[j])
    ensures FieldValue(lines, tag) == Some(lines[k][|tag|..])
    decreases k
  {
    if k > 0 {
      FieldValueAt(lines[1..], tag, k - 1);
    }
  }

  /** A card head's layout: the eleven fixed lines with their values. */
  predicate HeadLayout(lines: seq<string>, fn: string, n: string, org: string, title: string, tel: string,
                       email: string, url: string, adr: string, note: string)
  {
    && |lines| >= 11
    && lines[0] == "BEGIN:VCARD" && lines[1] == "VERSION:3.0" && lines[2] == "FN:" + fn
    && lines[3] == "N:" + n && lines[4] == "ORG:" + org && lines[5] == "TITLE:" + title
    && lines[6] == "TEL;TYPE=CELL:" + tel && lines[7] == "EMAIL:" + email && lines[8] == "URL:" + url
    && lines[9] == "ADR;TYPE=WORK:;;" + adr && lines[10] == "NOTE:" + note
  }

  /** A reader finds the name, organisation and title in a card head. */
  lemma HeadIdentityFields(lines: seq<string>, fn: string, n: string, org: string, title: string, tel: string,
                        email: string, url: string, adr: string, note: string)
    requires HeadLayout(lines, fn, n, org, title, tel, email, url, adr, note)
    ensures FieldValue(lines, "FN:") == Some(fn) && FieldValue(lines, "ORG:") == Some(org) && FieldValue(lines, "TITLE:") == Some(title)
  {
    assert FieldValue(lines, "FN:") == Some(fn) by {
      assert ("FN:" + fn)[|"FN:"|..] == fn;
      FieldValueAt(lines, "FN:", 2);
    }
    assert FieldValue(lines, "ORG:") == Some(org) by {
      assert ("ORG:" + org)[|"ORG:"|..] == org;
      FieldValueAt(lines, "ORG:", 4);
    }
    assert FieldValue(lines, "TITLE:") == Some(title) by {
      assert ("TITLE:" + title)[|"TITLE:"|..] == title;
      FieldValueAt(lines, "TITLE:", 5);
    }
  }

  /** A reader finds the telephone and e-mail in a card head. */
  lemma HeadContactFields(lines: seq<string>, fn: string, n: string, org: string, title: string, tel: string,
                        email: string, url: string, adr: string, note: string)
    requires HeadLayout(lines, fn, n, org, title, tel, email, url, adr, note)
    ensures FieldValue(lines, "TEL;TYPE=CELL:") == Some(tel) && FieldValue(lines, "EMAIL:") == Some(email)
  {
    assert FieldValue(lines, "TEL;TYPE=CELL:") == Some(tel) by {
      assert ("TEL;TYPE=CELL:" + tel)[|"TEL;TYPE=CELL:"|..] == tel;
      FieldValueAt(lines, "TEL;TYPE=CELL:", 6);
    }
    assert FieldValue(lines, "EMAIL:") == Some(email) by {
      assert ("EMAIL:" + email)[|"EMAIL:"|..] == email;
      FieldValueAt(lines, "EMAIL:", 7);
    }
  }

  /** A reader finds the web site and the note in a card head. */
  lemma HeadOtherFields(lines: seq<string>, fn: string, n: string, org: string, title: string, tel: string,
                        email: string, url: string, adr: string, note: string)
    requires HeadLayout(lines, fn, n, org, title, tel, email, url, adr, note)
    ensures FieldValue(lines, "URL:") == Some(url) && FieldValue(lines, "NOTE:") == Some(note)
  {
    assert FieldValue(lines, "URL:") == Some(url) by {
      assert ("URL:" + url)[|"URL:"|..] == url;
      FieldValueAt(lines, "URL:", 8);
    }
    assert FieldValue(lines, "NOTE:") == Some(note) by {
      assert ("NOTE:" + note)[|"NOTE:"|..] == note;
      FieldValueAt(lines, "NOTE:", 10);
    }
  }

  /** A reader finds the structured name and the address's street component in a card head. */
  lemma HeadStructuredFields(lines: seq<string>, fn: string, n: string, org: string, title: string, tel: string,
                             email: string, url: string, adr: string, note: string)
    requires HeadLayout(lines, fn, n, org, title, tel, email, url, adr, note)
    ensures FieldValue(lines, "N:") == Some(n) && FieldValue(lines, "ADR;TYPE=WORK:;;") == Some(adr)
  {
    assert FieldValue(lines, "N:") == Some(n) by {
      assert ("N:" + n)[|"N:"|..] == n;
      FieldValueAt(lines, "N:", 3);
    }
    assert FieldValue(lines, "ADR;TYPE=WORK:;;") == Some(adr) by {
      assert ("ADR;TYPE=WORK:;;" + adr)[|"ADR;TYPE=WORK:;;"|..] == adr;
      FieldValueAt(lines, "ADR;TYPE=WORK:;;", 9);
    }
  }

  /** The head lines have that layout. */
  lemma HeadLinesLayout(c: ContactData)
    ensures var (last, first) := NameParts(c.fullName);
            HeadLayout(HeadLines(c), c.fullName, last + ";" + first + ";;;", c.company, c.title, c.phone,
                       c.email, c.website, c.address + ";;;;", NotesText(c))
  {
    var (last, first) := NameParts(c.fullName);
    assert "N:" + last + ";" + first + ";;;" == "N:" + (last + ";" + first + ";;;");
    assert "ADR;TYPE=WORK:;;" + c.address + ";;;;" == "ADR;TYPE=WORK:;;" + (c.address + ";;;;");
  }

  lemma HeadLayoutExtends(head: seq<string>, rest: seq<string>, fn: string, n: string, org: string, title: string,
                          tel: string, email: string, url: string, adr: string, note: string)
    requires HeadLayout(head, fn, n, org, title, tel, email, url, adr, note)
    ensures HeadLayout(head + rest, fn, n, org, title, tel, email, url, adr, note)
  {
  }

  /** The head of every card has that layout. */
  lemma VCardHead(c: ContactData)
    ensures var (last, first) := NameParts(c.fullName);
            HeadLayout(VCardLines(c), c.fullName, last + ";" + first + ";;;", c.company, c.title, c.phone,
                       c.email, c.website, c.address + ";;;;", NotesText(c))
  {
    var (last, first) := NameParts(c.fullName);
    HeadLinesLayout(c);
    HeadLayoutExtends(HeadLines(c), SocialLines(c.socials) + ["END:VCARD"], c.fullName, last + ";" + first + ";;;",
                      c.company, c.title, c.phone, c.email, c.website, c.address + ";;;;", NotesText(c));
  }

  /**
   * For single-line values, a reader of the card gets every exported field
   * back under its property name: the structured name as `last;first;;;`
   * and the address as the street component of the work address.
   */
  lemma VCardFieldsRecoverable(c: ContactData)
    requires SingleLine(c)
    ensures var lines := Split(GenerateVCard(c), '\n');
            var (last, first) := NameParts(c.fullName);
            && FieldValue(lines, "FN:") == Some(c.fullName)
            && FieldValue(lines, "N:") == Some(last + ";" + first + ";;;")
            && FieldValue(lines, "ORG:") == Some(c.company)
            && FieldValue(lines, "TITLE:") == Some(c.title)
            && FieldValue(lines, "TEL;TYPE=CELL:") == Some(c.phone)
            && FieldValue(lines, "EMAIL:") == Some(c.email)
            && FieldValue(lines, "URL:") == Some(c.website)
            && FieldValue(lines, "ADR;TYPE=WORK:;;") == Some(c.address + ";;;;")
            && FieldValue(lines, "NOTE:") == Some(NotesText(c))
  {
    VCardLinesRoundTrip(c);
    VCardHead(c);
    var (last, first) := NameParts(c.fullName);
    var lines, n, adr := VCardLines(c), last + ";" + first + ";;;", c.address + ";;;;";
    HeadIdentityFields(lines, c.fullName, n, c.company, c.title, c.phone, c.email, c.website, adr, NotesText(c));
    HeadContactFields(lines, c.fullName, n, c.company, c.title, c.phone, c.email, c.website, adr, NotesText(c));
    HeadOtherFields(lines, c.fullName, n, c.company, c.title, c.phone, c.email, c.website, adr, NotesText(c));
    HeadStructuredFields(lines, c.fullName, n, c.company, c.title, c.phone, c.email, c.website, adr, NotesText(c));
  }

  /** Facebook and Instagram handles are never exported: changing them leaves the social lines as they were. */
  lemma SocialLinesIgnoreOthers(s: Socials, p: Platform, v: string)
    requires p == Facebook || p == Instagram
    ensures SocialLines(WithSocial(s, p, v)) == SocialLines(s)
  {
    var r := WithSocial(s, p, v);
    assert SocialOf(r, LinkedIn) == SocialOf(s, LinkedIn) && SocialOf(r, Twitter) == SocialOf(s, Twitter);
  }

  /** One social line per non-empty LinkedIn or Twitter handle, LinkedIn first, each carrying the handle verbatim. */
  lemma SocialLinesExported(s: Socials)
    ensures |SocialLines(s)| == (if Present(s.linkedin) then 1 else 0) + (if Present(s.twitter) then 1 else 0)
    ensures Present(s.linkedin) ==> SocialLines(s)[0] == "X-SOCIALPROFILE;type=linkedin:" + s.linkedin.value
    ensures Present(s.twitter) ==> SocialLines(s)[|SocialLines(s)| - 1] == "X-SOCIALPROFILE;type=twitter:" + s.twitter.value
  {
  }
}
