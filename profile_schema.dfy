/** The two zod object schemas: `profileFormSchema`, run on the form in the browser,
    and the weaker `profileSchema`, run by the server action on the merged candidate.
    A validator returns the parsed record or the ordered list of issues: fields in
    declaration order, and within a string field every failing check in the order
    the checks are chained. */
module ProfileSchema {
  import opened JsValues
  import opened Text

  /** Every field either schema declares, in the order the schemas declare them. */
  datatype FieldName = Username | Bio | ProfileImage | FullName | PhoneNumber | Email | Id | ImageUrl

  /** The rule an issue reports: the type test of `z.string()` or one chained check. */
  datatype Check = TypeCheck | MinLength | MaxLength | Pattern | UrlFormat | EmailFormat

  datatype Issue = Issue(field: FieldName, check: Check, message: string)

  datatype Validation<+T> = Valid(value: T) | Invalid(issues: seq<Issue>)

  /** zod's `.url()` and `.email()` recognisers, which this model does not define. */
  datatype Recognisers = Recognisers(isUrl: string -> bool, isEmail: string -> bool)

  /** A possibly missing, possibly null string, as `.optional().nullable()` parses it. */
  datatype Nullish = Absent | ExplicitNull | Present(s: string)

  const UsernameTooShort := "Nazwa użytkownika musi mieć co najmniej 3 znaki"
  const UsernameTooLong := "Nazwa użytkownika nie może przekraczać 30 znaków"
  const UsernameBadChars := "Nazwa użytkownika może zawierać tylko litery, cyfry i podkreślniki"
  const BioTooLong := "Bio nie może przekraczać 160 znaków"
  const UsernameRequired := "Nazwa użytkownika jest wymagana"
  const EmailInvalid := "Nieprawidłowy adres email"
  const IdInvalid := "Nieprawidłowe ID"
  const IdRequired := "ID jest wymagane"
  const UrlInvalid := "Nieprawidłowy URL"
  /** zod's own text for a failed `.url()` without a custom message. */
  const DefaultUrlInvalid := "Invalid url"

  /** zod's own text for a value that is not a string. */
  function TypeMessage(v: JsValue): string
    requires !v.JsString?
  {
    match v
    case Undefined => "Required"
    case Null => "Expected string, received null"
    case JsOther(t) => "Expected string, received " + t
  }

  /** Fields are reported in declaration order, and the checks of one field in chain order. */
  function FieldRank(f: FieldName): nat {
    match f
    case Username => 0 case Bio => 1 case ProfileImage => 2 case FullName => 3
    case PhoneNumber => 4 case Email => 5 case Id => 6 case ImageUrl => 7
  }

  function CheckRank(c: Check): nat {
    match c
    case TypeCheck => 0 case MinLength => 1 case MaxLength => 2
    case Pattern => 3 case UrlFormat => 4 case EmailFormat => 5
  }

  function Rank(i: Issue): nat {
    FieldRank(i.field) * 6 + CheckRank(i.check)
  }

  /** Issues are strictly ordered by field, then by check. */
  predicate Ordered(issues: seq<Issue>) {
    forall i, j :: 0 <= i < j < |issues| ==> Rank(issues[i]) < Rank(issues[j])
  }

  predicate AllAbout(issues: seq<Issue>, f: FieldName) {
    forall i :: 0 <= i < |issues| ==> issues[i].field == f
  }

  /** Every issue concerns a field declared before position `n`. */
  predicate RanksBelow(issues: seq<Issue>, n: nat) {
    forall i :: 0 <= i < |issues| ==> FieldRank(issues[i].field) < n
  }

  /** Appending the issues of a later-declared field keeps the list ordered. */
  lemma AppendField(a: seq<Issue>, n: nat, b: seq<Issue>, f: FieldName)
    requires Ordered(a) && RanksBelow(a, n) && n <= FieldRank(f)
    requires Ordered(b) && AllAbout(b, f)
    ensures Ordered(a + b) && RanksBelow(a + b, FieldRank(f) + 1)
  {
  }

  /** One character of `[a-zA-Z0-9_]`. */
  predicate IsUsernameChar(c: char) {
    IsAsciiLetter(c) || IsAsciiDigit(c) || c == '_'
  }

  /** `/^[a-zA-Z0-9_]+$/.test(s)` */
  predicate MatchesUsernamePattern(s: string) {
    |s| > 0 && forall k :: 0 <= k < |s| ==> IsUsernameChar(s[k])
  }

  /** The issue a field reports when its value is not a string. */
  function NotAString(f: FieldName, v: JsValue): (r: seq<Issue>)
    requires !v.JsString?
  {
    [Issue(f, TypeCheck, TypeMessage(v))]
  }

  // ---------------------------------------------------------------- form schema

  datatype FormInput = FormInput(username: JsValue, bio: JsValue, profileImage: JsValue)

  datatype FormProfile = FormProfile(username: string, bio: Option<string>, profileImage: Option<string>)

  /** `z.string().min(3).max(30).regex(/^[a-zA-Z0-9_]+$/)` */
  function FormUsernameIssues(v: JsValue): (r: seq<Issue>)
    ensures r == [] <==> v.JsString? && 3 <= |v.s| <= 30 && forall k :: 0 <= k < |v.s| ==> IsUsernameChar(v.s[k])
    ensures v.JsString? ==>
              && (Issue(Username, MinLength, UsernameTooShort) in r <==> |v.s| < 3)
              && (Issue(Username, MaxLength, UsernameTooLong) in r <==> |v.s| > 30)
              && (Issue(Username, Pattern, UsernameBadChars) in r <==> !MatchesUsernamePattern(v.s))
              && forall x :: x in r ==> x in [Issue(Username, MinLength, UsernameTooShort),
                                              Issue(Username, MaxLength, UsernameTooLong),
                                              Issue(Username, Pattern, UsernameBadChars)]
    ensures !v.JsString? ==> r == [Issue(Username, TypeCheck, TypeMessage(v))]
    ensures AllAbout(r, Username) && Ordered(r) && |r| <= 3
  {
    match v
    case JsString(s) =>
      (if |s| < 3 then [Issue(Username, MinLength, UsernameTooShort)] else [])
      + (if |s| > 30 then [Issue(Username, MaxLength, UsernameTooLong)] else [])
      + (if !MatchesUsernamePattern(s) then [Issue(Username, Pattern, UsernameBadChars)] else [])
    case _ => NotAString(Username, v)
  }

  /** `z.string().max(160).optional()` */
  function FormBioIssues(v: JsValue): (r: seq<Issue>)
    ensures r == [] <==> v.Undefined? || (v.JsString? && |v.s| <= 160)
    ensures v.JsString? && |v.s| > 160 ==> r == [Issue(Bio, MaxLength, BioTooLong)]
    ensures v.Null? || v.JsOther? ==> r == [Issue(Bio, TypeCheck, TypeMessage(v))]
    ensures AllAbout(r, Bio) && |r| <= 1
  {
    match v
    case Undefined => []
    case JsString(s) => if |s| > 160 then [Issue(Bio, MaxLength, BioTooLong)] else []
    case _ => NotAString(Bio, v)
  }

  /** `z.string().url().optional()` */
  function FormProfileImageIssues(rec: Recognisers, v: JsValue): (r: seq<Issue>)
    ensures r == [] <==> v.Undefined? || (v.JsString? && rec.isUrl(v.s))
    ensures v.JsString? && !rec.isUrl(v.s) ==> r == [Issue(ProfileImage, UrlFormat, DefaultUrlInvalid)]
    ensures v.Null? || v.JsOther? ==> r == [Issue(ProfileImage, TypeCheck, TypeMessage(v))]
    ensures AllAbout(r, ProfileImage) && |r| <= 1
  {
    match v
    case Undefined => []
    case JsString(s) => if rec.isUrl(s) then [] else [Issue(ProfileImage, UrlFormat, DefaultUrlInvalid)]
    case _ => NotAString(ProfileImage, v)
  }

  /** The form schema's issues: every field's, in declaration order. */
  function FormIssues(rec: Recognisers, input: FormInput): (r: seq<Issue>)
    ensures Ordered(r)
  {
    var a := FormUsernameIssues(input.username);
    var b := FormBioIssues(input.bio);
    var c := FormProfileImageIssues(rec, input.profileImage);
    AppendField(a, 1, b, Bio);
    AppendField(a + b, 2, c, ProfileImage);
    a + b + c
  }

  /** A string field that is optional: undefined parses to a missing value. */
  function OptionalString(v: JsValue): Option<string> {
    if v.JsString? then Some(v.s) else None
  }

  /** `profileFormSchema.safeParse` */
  function ValidateProfileForm(rec: Recognisers, input: FormInput): (r: Validation<FormProfile>)
    ensures r.Valid? <==>
              && input.username.JsString? && 3 <= |input.username.s| <= 30
              && (forall k :: 0 <= k < |input.username.s| ==> IsUsernameChar(input.username.s[k]))
              && (input.bio.Undefined? || (input.bio.JsString? && |input.bio.s| <= 160))
              && (input.profileImage.Undefined? || (input.profileImage.JsString? && rec.isUrl(input.profileImage.s)))
    ensures r.Valid? ==> r.value.username == input.username.s
                         && r.value.bio == OptionalString(input.bio)
                         && r.value.profileImage == OptionalString(input.profileImage)
    ensures r.Invalid? ==> |r.issues| > 0 && Ordered(r.issues)
    ensures r.Invalid? ==> r.issues == FormUsernameIssues(input.username) + FormBioIssues(input.bio)
                                       + FormProfileImageIssues(rec, input.profileImage)
  {
    var a := FormUsernameIssues(input.username);
    var b := FormBioIssues(input.bio);
    var c := FormProfileImageIssues(rec, input.profileImage);
    assert FormIssues(rec, input) == a + b + c;
    if a + b + c == [] then
      assert a == [] && b == [] && c == [];
      Valid(FormProfile(input.username.s, OptionalString(input.bio), OptionalString(input.profileImage)))
    else
      Invalid(a + b + c)
  }

  // -------------------------------------------------------------- server schema

  datatype ProfileInput = ProfileInput(
    username: JsValue, bio: JsValue, fullName: JsValue, phoneNumber: JsValue,
    email: JsValue, id: JsValue, imageUrl: JsValue)

  datatype ProfileData = ProfileData(
    username: string, bio: Nullish, fullName: Option<string>, phoneNumber: Nullish,
    email: string, id: string, imageUrl: Option<string>)

  /** `z.string().min(3, "... jest wymagana")` */
  function UsernameIssues(v: JsValue): (r: seq<Issue>)
    ensures r == [] <==> v.JsString? && |v.s| >= 3
    ensures v.JsString? && |v.s| < 3 ==> r == [Issue(Username, MinLength, UsernameRequired)]
    ensures !v.JsString? ==> r == [Issue(Username, TypeCheck, TypeMessage(v))]
    ensures AllAbout(r, Username) && |r| <= 1
  {
    match v
    case JsString(s) => if |s| < 3 then [Issue(Username, MinLength, UsernameRequired)] else []
    case _ => NotAString(Username, v)
  }

  /** `z.string().optional().nullable()`, used for `bio` and `phoneNumber`. */
  function NullableStringIssues(f: FieldName, v: JsValue): (r: seq<Issue>)
    ensures r == [] <==> !v.JsOther?
    ensures v.JsOther? ==> r == [Issue(f, TypeCheck, TypeMessage(v))]
    ensures AllAbout(r, f) && |r| <= 1
  {
    if v.JsOther? then NotAString(f, v) else []
  }

  /** `z.string().optional()`, used for `fullName`. */
  function OptionalStringIssues(f: FieldName, v: JsValue): (r: seq<Issue>)
    ensures r == [] <==> v.Undefined? || v.JsString?
    ensures v.Null? || v.JsOther? ==> r == [Issue(f, TypeCheck, TypeMessage(v))]
    ensures AllAbout(r, f) && |r| <= 1
  {
    if v.Undefined? || v.JsString? then [] else NotAString(f, v)
  }

  /** `z.string().email({ message: ... })` */
  function EmailIssues(rec: Recognisers, v: JsValue): (r: seq<Issue>)
    ensures r == [] <==> v.JsString? && rec.isEmail(v.s)
    ensures v.JsString? && !rec.isEmail(v.s) ==> r == [Issue(Email, EmailFormat, EmailInvalid)]
    ensures !v.JsString? ==> r == [Issue(Email, TypeCheck, TypeMessage(v))]
    ensures AllAbout(r, Email) && |r| <= 1
  {
    match v
    case JsString(s) => if rec.isEmail(s) then [] else [Issue(Email, EmailFormat, EmailInvalid)]
    case _ => NotAString(Email, v)
  }

  /** `z.string({ invalid_type_error, required_error })` */
  function IdIssues(v: JsValue): (r: seq<Issue>)
    ensures r == [] <==> v.JsString?
    ensures v.Undefined? ==> r == [Issue(Id, TypeCheck, IdRequired)]
    ensures v.Null? || v.JsOther? ==> r == [Issue(Id, TypeCheck, IdInvalid)]
    ensures AllAbout(r, Id)
  {
    match v
    case JsString(_) => []
    case Undefined => [Issue(Id, TypeCheck, IdRequired)]
    case _ => [Issue(Id, TypeCheck, IdInvalid)]
  }

  /** `z.string().url({ message: ... }).optional()` */
  function ImageUrlIssues(rec: Recognisers, v: JsValue): (r: seq<Issue>)
    ensures r == [] <==> v.Undefined? || (v.JsString? && rec.isUrl(v.s))
    ensures v.JsString? && !rec.isUrl(v.s) ==> r == [Issue(ImageUrl, UrlFormat, UrlInvalid)]
    ensures v.Null? || v.JsOther? ==> r == [Issue(ImageUrl, TypeCheck, TypeMessage(v))]
    ensures AllAbout(r, ImageUrl) && |r| <= 1
  {
    match v
    case Undefined => []
    case JsString(s) => if rec.isUrl(s) then [] else [Issue(ImageUrl, UrlFormat, UrlInvalid)]
    case _ => NotAString(ImageUrl, v)
  }

  /** The issues the server schema reports for one field; `profileImage` is not one of its fields. */
  function ServerFieldIssues(rec: Recognisers, input: ProfileInput, f: FieldName): (r: seq<Issue>)
    ensures AllAbout(r, f) && |r| <= 1
    ensures f == ProfileImage ==> r == []
  {
    match f
    case Username => UsernameIssues(input.username)
    case Bio => NullableStringIssues(Bio, input.bio)
    case ProfileImage => []
    case FullName => OptionalStringIssues(FullName, input.fullName)
    case PhoneNumber => NullableStringIssues(PhoneNumber, input.phoneNumber)
    case Email => EmailIssues(rec, input.email)
    case Id => IdIssues(input.id)
    case ImageUrl => ImageUrlIssues(rec, input.imageUrl)
  }

  /** zod walks the object shape in declaration order and collects every field's issues. */
  function ProfileIssues(rec: Recognisers, input: ProfileInput): (r: seq<Issue>)
    ensures r == [] <==> ProfileAccepted(rec, input)
  {
    ServerFieldIssues(rec, input, Username)
    + ServerFieldIssues(rec, input, Bio)
    + ServerFieldIssues(rec, input, FullName)
    + ServerFieldIssues(rec, input, PhoneNumber)
    + ServerFieldIssues(rec, input, Email)
    + ServerFieldIssues(rec, input, Id)
    + ServerFieldIssues(rec, input, ImageUrl)
  }

  /** What a nullable optional string parses to. */
  function AsNullish(v: JsValue): Nullish {
    match v
    case JsString(s) => Present(s)
    case Null => ExplicitNull
    case _ => Absent
  }

  /** The server's acceptance condition, field by field. */
  predicate ProfileAccepted(rec: Recognisers, input: ProfileInput) {
    && input.username.JsString? && |input.username.s| >= 3
    && !input.bio.JsOther?
    && (input.fullName.Undefined? || input.fullName.JsString?)
    && !input.phoneNumber.JsOther?
    && input.email.JsString? && rec.isEmail(input.email.s)
    && input.id.JsString?
    && (input.imageUrl.Undefined? || (input.imageUrl.JsString? && rec.isUrl(input.imageUrl.s)))
  }

  /** `profileSchema.safeParse` */
  function ValidateProfile(rec: Recognisers, input: ProfileInput): (r: Validation<ProfileData>)
    ensures r.Valid? <==> ProfileAccepted(rec, input)
    ensures r.Valid? ==>
              && r.value.username == input.username.s && r.value.email == input.email.s
              && r.value.id == input.id.s
              && r.value.bio == AsNullish(input.bio) && r.value.phoneNumber == AsNullish(input.phoneNumber)
              && r.value.fullName == OptionalString(input.fullName)
              && r.value.imageUrl == OptionalString(input.imageUrl)
    ensures r.Invalid? ==> |r.issues| > 0 && Ordered(r.issues)
    ensures r.Invalid? ==> forall x :: x in r.issues <==> x in ServerFieldIssues(rec, input, x.field)
  {
    var issues := ProfileIssues(rec, input);
    if issues == [] then
      Valid(ProfileData(input.username.s, AsNullish(input.bio), OptionalString(input.fullName),
                        AsNullish(input.phoneNumber), input.email.s, input.id.s,
                        OptionalString(input.imageUrl)))
    else
      ProfileIssuesOrdered(rec, input);
      ProfileIssuesAreFieldIssues(rec, input);
      Invalid(issues)
  }

  lemma ProfileIssuesOrdered(rec: Recognisers, input: ProfileInput)
    ensures Ordered(ProfileIssues(rec, input))
  {
    var a := ServerFieldIssues(rec, input, Username);
    var b := ServerFieldIssues(rec, input, Bio);
    var c := ServerFieldIssues(rec, input, FullName);
    var d := ServerFieldIssues(rec, input, PhoneNumber);
    var e := ServerFieldIssues(rec, input, Email);
    var f := ServerFieldIssues(rec, input, Id);
    var g := ServerFieldIssues(rec, input, ImageUrl);
    AppendField(a, 1, b, Bio);
    AppendField(a + b, 2, c, FullName);
    AppendField(a + b + c, 4, d, PhoneNumber);
    AppendField(a + b + c + d, 5, e, Email);
    AppendField(a + b + c + d + e, 6, f, Id);
    AppendField(a + b + c + d + e + f, 7, g, ImageUrl);
  }

  /** The issues reported are exactly the issues of their own fields: nothing is
      dropped and nothing is misattributed. */
  lemma ProfileIssuesAreFieldIssues(rec: Recognisers, input: ProfileInput)
    ensures forall x :: x in ProfileIssues(rec, input) <==> x in ServerFieldIssues(rec, input, x.field)
  {
  }

  /** The first issue the server reports, the one the action shows, belongs to the first
      declared field that fails. */
  lemma FirstFailingFieldComesFirst(rec: Recognisers, input: ProfileInput, f: FieldName)
    requires ServerFieldIssues(rec, input, f) != []
    requires forall g :: FieldRank(g) < FieldRank(f) ==> ServerFieldIssues(rec, input, g) == []
    ensures var r := ValidateProfile(rec, input);
            r.Invalid? && r.issues[0] == ServerFieldIssues(rec, input, f)[0]
  {
  }

  // ------------------------------------------------------------------- relations

  /** Every username the form accepts, the server accepts. */
  lemma FormUsernameImpliesServer(v: JsValue)
    requires FormUsernameIssues(v) == []
    ensures UsernameIssues(v) == []
  {
  }

  /** The converse fails: 31 characters, or a `-`, still pass the server. */
  lemma ServerUsernameIsWeaker()
    ensures var long := JsString("abcdefghijklmnopqrstuvwxyz01234");
            UsernameIssues(long) == [] && FormUsernameIssues(long) != []
    ensures UsernameIssues(JsString("a-b")) == [] && FormUsernameIssues(JsString("a-b")) != []
  {
    assert |"abcdefghijklmnopqrstuvwxyz01234"| == 31;
    assert !IsUsernameChar("a-b"[1]);
  }

  /** An invalid or missing email always fails the server schema. */
  lemma ServerRejectsBadEmail(rec: Recognisers, input: ProfileInput)
    requires !(input.email.JsString? && rec.isEmail(input.email.s))
    ensures ValidateProfile(rec, input).Invalid?
    ensures exists i :: 0 <= i < |ValidateProfile(rec, input).issues| &&
                        ValidateProfile(rec, input).issues[i].field == Email
  {
    var a := ServerFieldIssues(rec, input, Username) + ServerFieldIssues(rec, input, Bio)
             + ServerFieldIssues(rec, input, FullName) + ServerFieldIssues(rec, input, PhoneNumber);
    var e := ServerFieldIssues(rec, input, Email);
    var rest := ServerFieldIssues(rec, input, Id) + ServerFieldIssues(rec, input, ImageUrl);
    assert ProfileIssues(rec, input) == a + e + rest;
    assert ProfileIssues(rec, input)[|a|] == e[0];
  }
}
