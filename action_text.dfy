// The pure text builders of the actions screen: the signature's HTML, its
// plain-text form (line breaks kept, tags stripped), the telephone numbers
// of the SMS and WhatsApp links and the social-network links.

module ActionText {

  import opened Seqs
  import opened Types
  import opened Text

  // ---------------------------------------------------------------------
  // Signature HTML
  // ---------------------------------------------------------------------

  const LogoStyle := "display: block; max-height: 80px; max-width: 200px; height: auto; border: 0;"

  /** The logo image appended to a signature that has a logo. */
  function LogoHtml(logo: string): string
  {
    "<br/><br/><img src=\"" + logo + "\" alt=\"Logo\" style=\"" + LogoStyle + "\" />"
  }

  /** A signature's HTML: bold name, italic title and company on three lines, then the logo if any. */
  function SignatureHtml(f: SigData): string
  {
    "<b>" + (f.name + ("</b>" + ("<br/>" + ("<i>" + (f.title + ("</i>" + ("<br/>" + (f.company
    + (if f.logo != "" then LogoHtml(f.logo) else "")))))))))
  }

  /** The logo only ever appends to the text part of the signature; without a logo there is no image. */
  lemma LogoOnlyAppends(f: SigData)
    ensures SignatureHtml(f.(logo := "")) <= SignatureHtml(f)
    ensures SignatureHtml(f) == SignatureHtml(f.(logo := "")) <==> f.logo == ""
  {
    if f.logo != "" {
      assert |SignatureHtml(f)| > |SignatureHtml(f.(logo := ""))|;
    }
  }

  // ---------------------------------------------------------------------
  // Plain text
  // ---------------------------------------------------------------------

  /** What follows a tag's `<`: everything up to and including the next `>`, or all of it when there is none. */
  function SkipTag(s: string): (rest: string)
    ensures |rest| <= |s|
    ensures '>' !in s ==> rest == []
    decreases |s|
  {
    if s == [] then []
    else if s[0] == '>' then s[1..]
    else SkipTag(s[1..])
  }

  /**
   * The global replace of `<[^>]*>?` by nothing: from each `<` the text up to
   * and including the next `>` (or to the end) is dropped.
   */
  function StripTags(s: string): (r: string)
    ensures '<' !in r
    ensures |r| <= |s|
    decreases |s|
  {
    if s == [] then []
    else if s[0] == '<' then StripTags(SkipTag(s[1..]))
    else [s[0]] + StripTags(s[1..])
  }

  /** Text without `<` passes through the stripping unchanged. */
  lemma {:induction false} StripTagsPlain(a: string, b: string)
    requires '<' !in a
    ensures StripTags(a + b) == a + StripTags(b)
    decreases |a|
  {
    if a == [] {
      assert a + b == b;
    } else {
      assert (a + b)[0] == a[0];
      assert (a + b)[1..] == a[1..] + b;
      StripTagsPlain(a[1..], b);
    }
  }

  /** A whole tag: from `<` to the first `>`. */
  predicate IsTag(tag: string)
  {
    |tag| >= 2 && tag[0] == '<' && tag[|tag| - 1] == '>' && '>' !in tag[1..|tag| - 1]
  }

  /** A whole tag disappears. */
  lemma StripTagsTag(tag: string, b: string)
    requires IsTag(tag)
    ensures StripTags(tag + b) == StripTags(b)
  {
    var x := tag[1..|tag| - 1];
    assert (tag + b)[0] == '<';
    assert (tag + b)[1..] == x + ">" + b;
    SkipTagPast(x, b);
  }

  lemma {:induction false} SkipTagPast(x: string, b: string)
    requires '>' !in x
    ensures SkipTag(x + ">" + b) == b
    decreases |x|
  {
    if x == [] {
      assert x + ">" + b == ">" + b;
    } else {
      assert (x + ">" + b)[0] == x[0];
      assert (x + ">" + b)[1..] == x[1..] + ">" + b;
      SkipTagPast(x[1..], b);
    }
  }

  /** Stripping is idempotent: its result has no `<` left to strip. */
  lemma StripTagsIdempotent(s: string)
    ensures StripTags(StripTags(s)) == StripTags(s)
  {
    StripTagsPlain(StripTags(s), []);
    assert StripTags(s) + [] == StripTags(s);
  }

  /** The plain text of a signature: each `<br/>` becomes a line break, then tags are stripped. */
  function PlainText(html: string): (r: string)
    ensures '<' !in r
  {
    StripTags(ReplaceAll(html, "<br/>", "\n"))
  }

  /** A tag other than `<br/>`, with no further `<`, that cannot start a `<br/>`. */
  predicate OtherTag(x: string)
  {
    |x| >= 3 && x[0] == '<' && '<' !in x[1..] && (x[1] != 'b' || x[2] != 'r')
  }

  /** Such a tag passes through the replace of `<br/>`. */
  lemma ReplaceBrSkipsTag(x: string, b: string)
    requires OtherTag(x)
    ensures ReplaceAll(x + b, "<br/>", "\n") == x + ReplaceAll(b, "<br/>", "\n")
  {
    assert (x + b)[1] == x[1] && (x + b)[2] == x[2];
    assert (x + b)[0] == x[0];
    assert !("<br/>" <= x + b);
    assert (x + b)[1..] == x[1..] + b;
    ReplaceAllSkips(x[1..], b, "<br/>", "\n");
    assert [x[0]] + x[1..] == x;
  }

  lemma ReplaceBrAtBreak(b: string)
    ensures ReplaceAll("<br/>" + b, "<br/>", "\n") == "\n" + ReplaceAll(b, "<br/>", "\n")
  {
    assert ("<br/>" + b)[5..] == b;
  }

  /** The text of a tagged field with the rest of the document after it. */
  lemma ReplaceBrTagged(open: string, v: string, rest: string)
    requires OtherTag(open) && '<' !in v
    ensures ReplaceAll(open + (v + rest), "<br/>", "\n") == open + (v + ReplaceAll(rest, "<br/>", "\n"))
  {
    ReplaceAllSkips(v, rest, "<br/>", "\n");
    ReplaceBrSkipsTag(open, v + rest);
  }

  /** The line-break replace of three fields, the first two wrapped in tags, each followed by `<br/>`. */
  lemma SignatureBreaksReplaced(bo: string, bc: string, io: string, ic: string, n: string, t: string, c: string)
    requires OtherTag(bo) && OtherTag(bc) && OtherTag(io) && OtherTag(ic)
    requires '<' !in n && '<' !in t && '<' !in c
    ensures ReplaceAll(bo + (n + (bc + ("<br/>" + (io + (t + (ic + ("<br/>" + c))))))), "<br/>", "\n")
            == bo + (n + (bc + ("\n" + (io + (t + (ic + ("\n" + c)))))))
  {
    var pat, rep := "<br/>", "\n";
    ReplaceAllSkips(c, [], pat, rep);
    assert c + [] == c;
    ReplaceBrAtBreak(c);
    ReplaceBrSkipsTag(ic, "<br/>" + c);
    ReplaceBrTagged(io, t, ic + ("<br/>" + c));
    ReplaceBrAtBreak(io + (t + (ic + ("<br/>" + c))));
    ReplaceBrSkipsTag(bc, "<br/>" + (io + (t + (ic + ("<br/>" + c)))));
    ReplaceBrTagged(bo, n, bc + ("<br/>" + (io + (t + (ic + ("<br/>" + c))))));
  }

  /** A tagged field, then the rest: the tag goes, the field stays. */
  lemma StripTagged(open: string, v: string, rest: string)
    requires IsTag(open) && '<' !in v
    ensures StripTags(open + (v + rest)) == v + StripTags(rest)
  {
    StripTagsPlain(v, rest);
    StripTagsTag(open, v + rest);
  }

  /** The tag stripping of the replaced three fields. */
  lemma SignatureTagsStripped(bo: string, bc: string, io: string, ic: string, n: string, t: string, c: string)
    requires IsTag(bo) && IsTag(bc) && IsTag(io) && IsTag(ic)
    requires '<' !in n && '<' !in t && '<' !in c
    ensures StripTags(bo + (n + (bc + ("\n" + (io + (t + (ic + ("\n" + c))))))))
            == n + ("\n" + (t + ("\n" + c)))
  {
    StripTagsPlain("\n" + c, []);
    assert "\n" + c + [] == "\n" + c;
    StripTagged(ic, "\n" + c, []);
    assert ic + ("\n" + c) == ic + ("\n" + c + []);
    StripTagged(io, t, ic + ("\n" + c));
    StripTagged(bc, "\n", io + (t + (ic + ("\n" + c))));
    StripTagged(bo, n, bc + ("\n" + (io + (t + (ic + ("\n" + c))))));
  }

  /** The four tags of a signature. */
  lemma SignatureTags()
    ensures IsTag("<b>") && IsTag("</b>") && IsTag("<i>") && IsTag("</i>")
    ensures OtherTag("<b>") && OtherTag("</b>") && OtherTag("<i>") && OtherTag("</i>")
  {
    assert "<b>"[1..2] == "b" && "<i>"[1..2] == "i";
    assert "</b>"[1..3] == "/b" && "</i>"[1..3] == "/i";
    assert "<b>"[1..] == "b>" && "<i>"[1..] == "i>";
    assert "</b>"[1..] == "/b>" && "</i>"[1..] == "/i>";
  }

  /**
   * Without a logo, the plain text of a signature whose fields hold no `<`
   * is its name, title and company on three lines.
   */
  lemma PlainSignatureText(f: SigData)
    requires f.logo == "" && '<' !in f.name && '<' !in f.title && '<' !in f.company
    ensures PlainText(SignatureHtml(f)) == f.name + ("\n" + (f.title + ("\n" + f.company)))
  {
    assert f.company + "" == f.company;
    SignatureTags();
    SignatureBreaksReplaced("<b>", "</b>", "<i>", "</i>", f.name, f.title, f.company);
    SignatureTagsStripped("<b>", "</b>", "<i>", "</i>", f.name, f.title, f.company);
  }

  /** The body of the e-mail link: the draft, the signature separator and the plain signature. */
  function MailBody(draft: string, sigHtml: string): (body: string)
    ensures draft + "\n\n--\n" <= body
    ensures '<' !in body[|draft| + 5..]
  {
    var plain := PlainText(sigHtml);
    var body := draft + "\n\n--\n" + plain;
    assert body[|draft| + 5..] == plain;
    body
  }

  /** The mail body of a logo-less signature: the draft, the separator, then name, title and company on three lines. */
  lemma MailBodyOfSignature(draft: string, f: SigData)
    requires f.logo == "" && '<' !in f.name && '<' !in f.title && '<' !in f.company
    ensures MailBody(draft, SignatureHtml(f)) == draft + "\n\n--\n" + f.name + "\n" + f.title + "\n" + f.company
  {
    PlainSignatureText(f);
    assert f.name + ("\n" + (f.title + ("\n" + f.company))) == f.name + "\n" + f.title + "\n" + f.company;
  }

  // ---------------------------------------------------------------------
  // Telephone numbers and messaging links
  // ---------------------------------------------------------------------

  predicate IsDigit(c: char)
  {
    '0' <= c <= '9'
  }

  function Dialable(): char -> bool
  {
    (c: char) => IsDigit(c) || c == '+'
  }

  function Digits(): char -> bool
  {
    (c: char) => IsDigit(c)
  }

  /** The SMS number: the telephone with every character other than a digit or `+` removed. */
  function SmsPhone(phone: string): (r: string)
    ensures forall i :: 0 <= i < |r| ==> IsDigit(r[i]) || r[i] == '+'
    ensures forall c :: c in r <==> c in phone && (IsDigit(c) || c == '+')
    ensures Sublist(r, phone)
    ensures forall c :: multiset(r)[c] == if IsDigit(c) || c == '+' then multiset(phone)[c] else 0
  {
    FilterIsSublist(phone, Dialable());
    FilterCounts(phone, Dialable());
    Filter(phone, Dialable())
  }

  /** The WhatsApp number: the telephone's digits only. */
  function WhatsAppPhone(phone: string): (r: string)
    ensures forall i :: 0 <= i < |r| ==> IsDigit(r[i])
    ensures forall c :: c in r <==> c in phone && IsDigit(c)
    ensures Sublist(r, phone)
    ensures forall c :: multiset(r)[c] == if IsDigit(c) then multiset(phone)[c] else 0
  {
    FilterIsSublist(phone, Digits());
    FilterCounts(phone, Digits());
    Filter(phone, Digits())
  }

  /** The two numbers keep the same digits in the same order: the WhatsApp number is the SMS number without `+`. */
  lemma WhatsAppPhoneOfSmsPhone(phone: string)
    ensures WhatsAppPhone(phone) == Filter(SmsPhone(phone), Digits())
  {
    FilterNarrower(phone, Dialable(), Digits());
  }

  /** A number already written with digits and `+` only is used as it is. */
  lemma SmsPhoneOfDialable(phone: string)
    requires forall i :: 0 <= i < |phone| ==> IsDigit(phone[i]) || phone[i] == '+'
    ensures SmsPhone(phone) == phone
  {
    FilterAllKept(phone, Dialable());
  }

  lemma SmsPhoneIdempotent(phone: string)
    ensures SmsPhone(SmsPhone(phone)) == SmsPhone(phone)
  {
    SmsPhoneOfDialable(SmsPhone(phone));
  }

  /** The separator before the SMS body: `&` on iOS, `?` elsewhere. */
  function SmsSeparator(isIOS: bool): string
  {
    if isIOS then "&" else "?"
  }

  /** The SMS link; the body is the already encoded message. */
  function SmsUrl(phone: string, encodedBody: string, isIOS: bool): (url: string)
    ensures "sms:" + SmsPhone(phone) <= url
    ensures |url| == 4 + |SmsPhone(phone)| + 1 + 5 + |encodedBody|
    ensures url[4 + |SmsPhone(phone)|] == (if isIOS then '&' else '?')
    ensures url[|url| - |encodedBody| - 5..] == "body=" + encodedBody
  {
    var head := "sms:" + SmsPhone(phone);
    var url := head + SmsSeparator(isIOS) + ("body=" + encodedBody);
    assert url[|head|] == SmsSeparator(isIOS)[0];
    url
  }

  function WhatsAppUrl(phone: string, encodedBody: string): (url: string)
    ensures "https://wa.me/" + WhatsAppPhone(phone) + "?text=" <= url
    ensures |url| == 14 + |WhatsAppPhone(phone)| + 6 + |encodedBody|
    ensures url[|url| - |encodedBody|..] == encodedBody
  {
    "https://wa.me/" + WhatsAppPhone(phone) + "?text=" + encodedBody
  }

  // ---------------------------------------------------------------------
  // Social links
  // ---------------------------------------------------------------------

  /** The replace of `/\/$/`: one trailing slash removed. */
  function DropTrailingSlash(v: string): (r: string)
    ensures v != [] && v[|v| - 1] == '/' ==> v == r + "/"
    ensures v == [] || v[|v| - 1] != '/' ==> r == v
  {
    if v != [] && v[|v| - 1] == '/' then v[..|v| - 1] else v
  }

  /** The last `/`-separated segment. */
  function LastSegment(v: string): (r: string)
    ensures '/' !in r
    ensures |r| <= |v| && r == v[|v| - |r|..]
    ensures |r| < |v| ==> v[|v| - |r| - 1] == '/'
  {
    var parts := Split(v, '/');
    SplitLastPart(v, '/');
    parts[|parts| - 1]
  }

  /** The replace of a literal one-character string: its first occurrence removed. */
  function RemoveFirst(s: string, c: char): (r: string)
    ensures c !in s ==> r == s
    ensures c in s ==> |r| == |s| - 1
    ensures forall x :: x in r ==> x in s
    decreases |s|
  {
    if s == [] then []
    else if s[0] == c then s[1..]
    else [s[0]] + RemoveFirst(s[1..], c)
  }

  /** It is the first occurrence that goes: the text before it and the text after it are kept. */
  lemma {:induction false} RemoveFirstAt(s: string, c: char, i: nat)
    requires i < |s| && s[i] == c && c !in s[..i]
    ensures RemoveFirst(s, c) == s[..i] + s[i + 1..]
    decreases i
  {
    if i > 0 {
      assert s[0] in s[..i];
      assert s[1..][..i - 1] == s[1..i];
      RemoveFirstAt(s[1..], c, i - 1);
      assert s[..i] == [s[0]] + s[1..i];
      assert s[i + 1..] == s[1..][i..];
    }
  }

  /**
   * The handle of a social value: one trailing slash dropped, the last path
   * segment taken when the value mentions `http`, the first `@` removed.
   */
  function SocialHandle(value: string): string
  {
    var h := DropTrailingSlash(value);
    var h2 := if Contains(h, "http") then LastSegment(h) else h;
    RemoveFirst(h2, '@')
  }

  /** The page opened when the contact has no value for the platform. */
  function HomeUrl(p: Platform): string
  {
    match p
    case LinkedIn => "https://www.linkedin.com"
    case Twitter => "https://twitter.com"
    case Facebook => "https://www.facebook.com"
    case Instagram => "https://www.instagram.com"
  }

  /** The link prefix a handle is appended to. */
  function ProfileUrlPrefix(p: Platform): string
  {
    match p
    case LinkedIn => "https://www.linkedin.com/in/"
    case Twitter => "https://twitter.com/"
    case Facebook => "http://m.me/"
    case Instagram => "https://ig.me/m/"
  }

  /**
   * The link opened for a platform: the home page without a value; with one,
   * the handle after the platform's prefix, except that a LinkedIn value
   * mentioning `http` is opened as it is.
   */
  function SocialUrl(p: Platform, value: Option<string>): (url: string)
    ensures value.None? || value.value == "" ==> url == HomeUrl(p)
    ensures value.Some? && value.value != "" && !(p.LinkedIn? && Contains(value.value, "http")) ==>
              url == ProfileUrlPrefix(p) + SocialHandle(value.value)
    ensures value.Some? && p.LinkedIn? && Contains(value.value, "http") ==> url == value.value
  {
    if value.Some? && value.value != "" then
      var v := value.value;
      var handle := SocialHandle(v);
      match p
      case LinkedIn => if Contains(v, "http") then v else ProfileUrlPrefix(p) + handle
      case Twitter => ProfileUrlPrefix(p) + handle
      case Facebook => ProfileUrlPrefix(p) + handle
      case Instagram => ProfileUrlPrefix(p) + handle
    else HomeUrl(p)
  }

  /** An occurrence of a substring survives appending text after it. */
  lemma ContainsExtend(a: string, b: string, sub: string)
    requires Contains(a, sub)
    ensures Contains(a + b, sub)
  {
    ContainsAt(a, sub);
    var i :| OccursAt(a, sub, i);
    assert (a + b)[i..i + |sub|] == a[i..i + |sub|];
    assert OccursAt(a + b, sub, i);
    ContainsAt(a + b, sub);
  }

  /** Dropping a trailing slash keeps every mention of `http`. */
  lemma DropTrailingSlashKeepsHttp(v: string)
    ensures Contains(DropTrailingSlash(v), "http") <==> Contains(v, "http")
  {
    var h := DropTrailingSlash(v);
    if h != v {
      assert v == h + "/";
      if Contains(h, "http") {
        ContainsExtend(h, "/", "http");
      }
      if Contains(v, "http") {
        ContainsAt(v, "http");
        var i :| OccursAt(v, "http", i);
        assert v[i..i + 4] == "http" && "http"[3] == 'p' && v[i..i + 4][3] == v[i + 3];
        assert v[i + 3] == 'p';
        assert i + 4 <= |h|;
        assert h[i..i + 4] == v[i..i + 4];
        assert OccursAt(h, "http", i);
        ContainsAt(h, "http");
      }
    }
  }

  /** A value that mentions `http` gives a handle without any `/`. */
  lemma SocialHandleOfLink(value: string)
    requires Contains(value, "http")
    ensures '/' !in SocialHandle(value)
  {
    DropTrailingSlashKeepsHttp(value);
  }

  /** A plain handle: not empty, and without `/`, `@` or a mention of `http`. */
  predicate PlainHandle(h: string)
  {
    h != "" && '/' !in h && '@' !in h && !Contains(h, "http")
  }

  /** A plain handle is its own handle. */
  lemma SocialHandleOfHandle(h: string)
    requires PlainHandle(h)
    ensures SocialHandle(h) == h
  {
    assert h[|h| - 1] in h;
  }

  /** A plain handle after `@` gives the handle. */
  lemma SocialHandleOfAtHandle(h: string)
    requires PlainHandle(h)
    ensures SocialHandle("@" + h) == h
  {
    var at := "@" + h;
    assert at[|at| - 1] == h[|h| - 1];
    assert h[|h| - 1] in h;
    assert at[0] == '@' && at[1..] == h;
    assert !Contains(at, "http");
  }

  /** The last segment of a link ending in `/` and a slash-free segment is that segment. */
  lemma LastSegmentOfLink(site: string, h: string)
    requires '/' !in h
    ensures LastSegment(site + "/" + h) == h
  {
    SplitAppend(site, h, '/');
    SplitNoSep(h, '/');
  }

  /** A link mentioning `http` and ending in a slash-free segment without `@` gives that segment. */
  lemma SocialHandleOfLinkEnd(link: string, site: string, h: string)
    requires link == site + "/" + h && Contains(link, "http") && h != "" && '/' !in h && '@' !in h
    ensures SocialHandle(link) == h
  {
    assert link[|link| - 1] == h[|h| - 1];
    assert h[|h| - 1] in h;
    LastSegmentOfLink(site, h);
  }

  /** A profile link ending in a plain handle, with or without a trailing slash, gives the handle. */
  lemma SocialHandleOfProfileLink(site: string, h: string)
    requires PlainHandle(h) && Contains(site, "http")
    ensures SocialHandle(site + "/" + h) == h
    ensures SocialHandle(site + "/" + h + "/") == h
  {
    ProfileLinkFacts(site, h);
    SocialHandleOfLinkEnd(site + "/" + h, site, h);
    SocialHandleOfSlashed(site + "/" + h);
  }

  lemma ProfileLinkFacts(site: string, h: string)
    requires PlainHandle(h) && Contains(site, "http")
    ensures var link := site + "/" + h;
            Contains(link, "http") && link != [] && link[|link| - 1] != '/'
  {
    var link := site + "/" + h;
    ContainsExtend(site, "/" + h, "http");
    assert link == site + ("/" + h);
    assert link[|link| - 1] == h[|h| - 1] && h[|h| - 1] in h;
  }

  /** One trailing slash added to a value not ending in `/` does not change its handle. */
  lemma SocialHandleOfSlashed(v: string)
    requires v != [] && v[|v| - 1] != '/'
    ensures SocialHandle(v + "/") == SocialHandle(v)
  {
    assert DropTrailingSlash(v + "/") == v;
    assert DropTrailingSlash(v) == v;
  }

  /**
   * Whatever spelling the contact's value uses (the handle, `@` and the
   * handle, or the platform's own profile link), the link opened for the
   * other platforms than LinkedIn is the same.
   */
  lemma SocialUrlSpellings(p: Platform, h: string)
    requires PlainHandle(h) && !p.LinkedIn?
    ensures SocialUrl(p, Some(h)) == ProfileUrlPrefix(p) + h
    ensures SocialUrl(p, Some("@" + h)) == ProfileUrlPrefix(p) + h
    ensures SocialUrl(p, Some(HomeUrl(p) + "/" + h)) == ProfileUrlPrefix(p) + h
  {
    assert OccursAt(HomeUrl(p), "http", 0);
    ContainsAt(HomeUrl(p), "http");
    SocialHandleOfHandle(h);
    SocialHandleOfAtHandle(h);
    SocialHandleOfProfileLink(HomeUrl(p), h);
  }

  /** A LinkedIn value mentioning `http` is opened verbatim; a handle goes after the profile prefix. */
  lemma LinkedInUrlSpellings(h: string, link: string)
    requires PlainHandle(h) && Contains(link, "http")
    ensures SocialUrl(LinkedIn, Some(link)) == link
    ensures SocialUrl(LinkedIn, Some(h)) == "https://www.linkedin.com/in/" + h
    ensures SocialUrl(LinkedIn, Some("@" + h)) == "https://www.linkedin.com/in/" + h
  {
    SocialHandleOfHandle(h);
    SocialHandleOfAtHandle(h);
    var at := "@" + h;
    assert at[0] == '@' && at[1..] == h;
    assert !Contains(at, "http");
  }
}
