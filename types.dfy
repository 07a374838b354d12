// Domain types of the card-scanner application: the workflow steps, the
// contact record, e-mail templates, sending signatures, the application
// state aggregate and the closed union of reducer actions.

module Types {

  import opened Seqs

  /** The six workflow steps; nothing else is a step. */
  datatype AppStep = Scan | QrScan | Processing | Validate | Actions | History

  /** The platforms a contact may carry a social handle for. */
  datatype Platform = LinkedIn | Twitter | Facebook | Instagram

  /** A partial map over exactly the four platforms: each key present or absent. */
  datatype Socials = Socials(
    linkedin: Option<string>,
    twitter: Option<string>,
    facebook: Option<string>,
    instagram: Option<string>)

  const NoSocials := Socials(None, None, None, None)

  function SocialOf(s: Socials, p: Platform): Option<string>
  {
    match p
    case LinkedIn => s.linkedin
    case Twitter => s.twitter
    case Facebook => s.facebook
    case Instagram => s.instagram
  }

  /** `socials` with the key `p` set to `v`, every other key kept. */
  function WithSocial(s: Socials, p: Platform, v: string): (r: Socials)
    ensures SocialOf(r, p) == Some(v)
    ensures forall q :: q != p ==> SocialOf(r, q) == SocialOf(s, q)
  {
    match p
    case LinkedIn => s.(linkedin := Some(v))
    case Twitter => s.(twitter := Some(v))
    case Facebook => s.(facebook := Some(v))
    case Instagram => s.(instagram := Some(v))
  }

  /** A contact: seven required text fields, three optional ones, and the socials. */
  datatype ContactData = ContactData(
    id: string,
    timestamp: int,
    scanImage: Option<string>,
    profileImage: Option<string>,
    fullName: string,
    title: string,
    company: string,
    email: string,
    phone: string,
    website: string,
    address: string,
    socials: Socials,
    notes: Option<string>)

  /** The text-valued keys of a contact that the field-update action can name. */
  datatype ContactField =
    | IdField | FullNameField | TitleField | CompanyField | EmailField | PhoneField
    | WebsiteField | AddressField | ScanImageField | ProfileImageField | NotesField

  /** The value a text field holds in a contact, an absent optional field read as None. */
  function FieldOf(c: ContactData, f: ContactField): Option<string>
  {
    match f
    case IdField => Some(c.id)
    case FullNameField => Some(c.fullName)
    case TitleField => Some(c.title)
    case CompanyField => Some(c.company)
    case EmailField => Some(c.email)
    case PhoneField => Some(c.phone)
    case WebsiteField => Some(c.website)
    case AddressField => Some(c.address)
    case ScanImageField => c.scanImage
    case ProfileImageField => c.profileImage
    case NotesField => c.notes
  }

  /** The contact with field `f` set to `v` and every other field, timestamp and socials kept. */
  function WithField(c: ContactData, f: ContactField, v: string): (r: ContactData)
    ensures FieldOf(r, f) == Some(v)
    ensures forall g :: g != f ==> FieldOf(r, g) == FieldOf(c, g)
    ensures r.timestamp == c.timestamp && r.socials == c.socials
  {
    match f
    case IdField => c.(id := v)
    case FullNameField => c.(fullName := v)
    case TitleField => c.(title := v)
    case CompanyField => c.(company := v)
    case EmailField => c.(email := v)
    case PhoneField => c.(phone := v)
    case WebsiteField => c.(website := v)
    case AddressField => c.(address := v)
    case ScanImageField => c.(scanImage := Some(v))
    case ProfileImageField => c.(profileImage := Some(v))
    case NotesField => c.(notes := Some(v))
  }

  datatype EmailTemplate = EmailTemplate(id: string, name: string, category: string)

  /** The structured source of a signature, when present. */
  datatype SigData = SigData(name: string, title: string, company: string, logo: string)

  datatype UserSignature = UserSignature(
    id: string,
    name: string,
    content: string,
    isDefault: bool,
    data: Option<SigData>)

  /** The application state; categories and templates are single unified lists. */
  datatype AppState = AppState(
    step: AppStep,
    currentContact: Option<ContactData>,
    history: seq<ContactData>,
    signatures: seq<UserSignature>,
    categories: seq<string>,
    templates: seq<EmailTemplate>,
    isDarkMode: bool,
    processingStatus: string)

  /**
   * The closed union of sixteen reducer actions. The contact, template and
   * signature deletions carry an id; the category deletion carries the
   * category value itself. Setting the current contact may carry no contact
   * (the "go home" handler clears the draft that way).
   */
  datatype AppAction =
    | SetStep(step: AppStep)
    | SetProcessingStatus(status: string)
    | SetCurrentContact(contact: Option<ContactData>)
    | UpdateContactField(field: ContactField, value: string)
    | UpdateSocial(platform: Platform, handle: string)
    | SaveContact(saved: ContactData)
    | DeleteContact(contactId: string)
    | LoadContact(loaded: ContactData)
    | AddSignature(signature: UserSignature)
    | UpdateSignature(replacement: UserSignature)
    | DeleteSignature(signatureId: string)
    | AddCategory(category: string)
    | DeleteCategory(deleted: string)
    | AddTemplate(template: EmailTemplate)
    | DeleteTemplate(templateId: string)
    | ToggleTheme
}
