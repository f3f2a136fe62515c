/** The server action `submitProfile`: it merges the signed-in user's identity-provider
    record with the submitted form, validates the merged candidate with the server schema,
    and upserts the user row keyed by the provider's id. The identity provider's answer and
    the persistence fault are inputs. */
module SubmitProfile {
  import opened JsValues
  import opened ProfileSchema
  import opened UserStore
  import opened FormDataEntries

  /** The fields of the identity provider's user record that the action reads. */
  datatype ProviderUser = ProviderUser(
    id: string, firstName: Option<string>, lastName: Option<string>,
    phoneNumbers: Option<seq<string>>, primaryEmail: Option<string>, imageUrl: string)

  /** `ActionState`: what the action hands back to the form. */
  datatype ActionState = ActionState(error: Option<string>, success: Option<bool>, redirect: Option<bool>)

  /** Either a state returned to the form, or navigation away from it. */
  datatype SubmitOutcome = Returned(state: ActionState) | Redirected(path: string)

  const NotAuthenticated := "Użytkownik nie jest uwierzytelniony"
  const SaveFailed := "Nie udało się zaktualizować profilu. Spróbuj ponownie."

  function ErrorState(message: string): ActionState {
    ActionState(Some(message), None, None)
  }

  /** `firstName && lastName ? first + " " + last : firstName || ""` */
  function FullName(u: ProviderUser): (name: string)
    ensures Truthy(u.firstName) && Truthy(u.lastName) ==> name == u.firstName.value + " " + u.lastName.value
    ensures Truthy(u.firstName) && !Truthy(u.lastName) ==> name == u.firstName.value
    ensures !Truthy(u.firstName) ==> name == ""
    ensures name == "" <==> !Truthy(u.firstName)
    ensures Truthy(u.firstName) ==> name[..|u.firstName.value|] == u.firstName.value
  {
    if Truthy(u.firstName) && Truthy(u.lastName) then u.firstName.value + " " + u.lastName.value
    else OrElse(u.firstName, "")
  }

  /** The number of the first registered phone, or null. */
  function PhoneNumber(u: ProviderUser): (p: Option<string>)
    ensures p.Some? <==> u.phoneNumbers.Some? && |u.phoneNumbers.value| > 0
    ensures p.Some? ==> p.value == u.phoneNumbers.value[0]
  {
    if u.phoneNumbers.Some? && |u.phoneNumbers.value| > 0 then Some(u.phoneNumbers.value[0]) else None
  }

  /** A form field as the schema sees it: `formData.get(key)` is a string or null. */
  function FormField(fd: FormData, key: string): (v: JsValue)
    ensures v.Null? || v.JsString?
    ensures v.JsString? <==> Get(fd, key).Some?
    ensures v.JsString? ==> Get(fd, key) == Some(v.s)
  {
    match Get(fd, key)
    case Some(s) => JsString(s)
    case None => Null
  }

  function OptionalToJs(o: Option<string>, none: JsValue): JsValue {
    match o
    case Some(s) => JsString(s)
    case None => none
  }

  /** The object the action hands to `profileSchema.safeParse`. */
  function Candidate(u: ProviderUser, fd: FormData): (c: ProfileInput)
    ensures c.imageUrl == JsString(OrElse(Get(fd, "profileImage"), u.imageUrl))
    ensures c.id == JsString(u.id)
    ensures c.fullName == JsString(FullName(u))
    ensures c.phoneNumber.JsString? <==> PhoneNumber(u).Some?
  {
    ProfileInput(
      FormField(fd, "username"),
      FormField(fd, "bio"),
      JsString(FullName(u)),
      OptionalToJs(PhoneNumber(u), Null),
      OptionalToJs(u.primaryEmail, Undefined),
      JsString(u.id),
      JsString(OrElse(Get(fd, "profileImage"), u.imageUrl)))
  }

  /** The candidate validates exactly when the form sent a username of three or more
      characters, the provider has a primary address the email recogniser accepts,
      and the URL recogniser accepts the chosen image URL. */
  lemma CandidateAcceptance(rec: Recognisers, u: ProviderUser, fd: FormData)
    ensures ProfileAccepted(rec, Candidate(u, fd)) <==>
              && Get(fd, "username").Some? && |Get(fd, "username").value| >= 3
              && u.primaryEmail.Some? && rec.isEmail(u.primaryEmail.value)
              && rec.isUrl(OrElse(Get(fd, "profileImage"), u.imageUrl))
  {
  }

  /** What a validated candidate holds: every optional field is defined, so the upsert
      overwrites the whole row, and the id is the provider's. */
  lemma ValidatedCandidate(rec: Recognisers, u: ProviderUser, fd: FormData)
    requires ValidateProfile(rec, Candidate(u, fd)).Valid?
    ensures var d := ValidateProfile(rec, Candidate(u, fd)).value;
            && Complete(d) && d.id == u.id && d.fullName == Some(FullName(u))
            && Some(d.email) == u.primaryEmail
            && Some(d.username) == Get(fd, "username")
            && Column(d.bio) == Get(fd, "bio")
            && Column(d.phoneNumber) == PhoneNumber(u)
            && d.imageUrl == Some(OrElse(Get(fd, "profileImage"), u.imageUrl))
  {
  }

  /** The action's behaviour: its outcome and the table it leaves. */
  function Submit(table: map<string, UserRecord>, rec: Recognisers, user: Option<ProviderUser>,
                  fd: FormData, fault: bool): (res: (SubmitOutcome, map<string, UserRecord>))
    ensures res.0.Redirected? ==> res.0.path == "/"
    ensures res.0.Returned? ==> res.1 == table && res.0.state.error.Some?
  {
    match user
    case None => (Returned(ActionState(Some(NotAuthenticated), None, Some(true))), table)
    case Some(u) =>
      match ValidateProfile(rec, Candidate(u, fd))
      case Invalid(issues) => (Returned(ErrorState(issues[0].message)), table)
      case Valid(d) =>
        if fault then (Returned(ErrorState(SaveFailed)), table)
        else (Redirected("/"), Upserted(table, d))
  }

  /** `submitProfile(prevState, formData)` against the user table. */
  method SubmitProfileAction(db: UserTable, rec: Recognisers, user: Option<ProviderUser>, fd: FormData, fault: bool)
    returns (outcome: SubmitOutcome)
    requires db.Valid()
    modifies db
    ensures db.Valid()
    ensures (outcome, db.users) == Submit(old(db.users), rec, user, fd, fault)
  {
    if user.None? {
      return Returned(ActionState(Some(NotAuthenticated), None, Some(true)));
    }
    var u := user.value;
    var candidate := Candidate(u, fd);
    var validated := ValidateProfile(rec, candidate);
    if validated.Invalid? {
      return Returned(ErrorState(validated.issues[0].message));
    }
    var data := validated.value;
    var failed := db.Upsert(data, fault);
    if failed {
      return Returned(ErrorState(SaveFailed));
    }
    outcome := Redirected("/");
  }

  // ------------------------------------------------------------------- properties

  /** Without a signed-in user the action asks for a redirect and writes nothing. */
  lemma UnauthenticatedWritesNothing(table: map<string, UserRecord>, rec: Recognisers, fd: FormData, fault: bool)
    ensures Submit(table, rec, None, fd, fault) ==
            (Returned(ActionState(Some(NotAuthenticated), None, Some(true))), table)
  {
  }

  /** A candidate the schema rejects yields the first issue's message and writes nothing. */
  lemma InvalidWritesNothing(table: map<string, UserRecord>, rec: Recognisers, u: ProviderUser, fd: FormData, fault: bool)
    requires !ProfileAccepted(rec, Candidate(u, fd))
    ensures var issues := ValidateProfile(rec, Candidate(u, fd)).issues;
            |issues| > 0 && Submit(table, rec, Some(u), fd, fault) == (Returned(ErrorState(issues[0].message)), table)
  {
  }

  /** The message shown for a rejected candidate is the first issue of the first
      declared field that fails. */
  lemma ShownMessageIsFirstFailingField(table: map<string, UserRecord>, rec: Recognisers, u: ProviderUser,
                                        fd: FormData, fault: bool, f: FieldName)
    requires ServerFieldIssues(rec, Candidate(u, fd), f) != []
    requires forall g :: FieldRank(g) < FieldRank(f) ==> ServerFieldIssues(rec, Candidate(u, fd), g) == []
    ensures Submit(table, rec, Some(u), fd, fault)
            == (Returned(ErrorState(ServerFieldIssues(rec, Candidate(u, fd), f)[0].message)), table)
  {
    FirstFailingFieldComesFirst(rec, Candidate(u, fd), f);
  }

  /** Without a `username` entry the user sees zod's type message, not the custom one. */
  lemma MissingUsernameMessage(table: map<string, UserRecord>, rec: Recognisers, u: ProviderUser,
                               fd: FormData, fault: bool)
    requires Get(fd, "username").None?
    ensures Submit(table, rec, Some(u), fd, fault)
            == (Returned(ErrorState("Expected string, received null")), table)
  {
  }

  /** With an acceptable username but no primary email address, the user sees zod's
      "Required" for the email field. */
  lemma MissingEmailMessage(table: map<string, UserRecord>, rec: Recognisers, u: ProviderUser,
                            fd: FormData, fault: bool)
    requires Get(fd, "username").Some? && |Get(fd, "username").value| >= 3
    requires u.primaryEmail.None?
    ensures Submit(table, rec, Some(u), fd, fault) == (Returned(ErrorState("Required")), table)
  {
  }

  /** A persistence fault yields the fixed message, never the fault, and writes nothing. */
  lemma FaultWritesNothing(table: map<string, UserRecord>, rec: Recognisers, u: ProviderUser, fd: FormData)
    requires ProfileAccepted(rec, Candidate(u, fd))
    ensures Submit(table, rec, Some(u), fd, true) == (Returned(ErrorState(SaveFailed)), table)
  {
  }

  /** The action navigates away exactly when someone is signed in, the candidate
      validates and the write succeeds. */
  lemma RedirectsExactlyOnSuccess(table: map<string, UserRecord>, rec: Recognisers, user: Option<ProviderUser>,
                                  fd: FormData, fault: bool)
    ensures Submit(table, rec, user, fd, fault).0.Redirected?
            <==> user.Some? && ProfileAccepted(rec, Candidate(user.value, fd)) && !fault
  {
  }

  /** A successful submission (accepted candidate, no fault) leaves exactly the merged record under the user's id,
      changes no other row, and adds at most one row. */
  lemma SuccessfulSubmitWrites(table: map<string, UserRecord>, rec: Recognisers, u: ProviderUser, fd: FormData)
    requires KeysMatchIds(table)
    requires ProfileAccepted(rec, Candidate(u, fd))
    ensures var t := Submit(table, rec, Some(u), fd, false).1;
            && u.id in t
            && t[u.id] == UserRecord(u.id, u.primaryEmail.value, Get(fd, "username").value, Get(fd, "bio"),
                                     Some(FullName(u)), PhoneNumber(u),
                                     Some(OrElse(Get(fd, "profileImage"), u.imageUrl)))
            && (forall k :: k in table && k != u.id ==> k in t && t[k] == table[k])
            && t.Keys == table.Keys + {u.id}
            && |t| <= |table| + 1
  {
    var d := ValidateProfile(rec, Candidate(u, fd)).value;
    ValidatedCandidate(rec, u, fd);
    CompleteUpsertOverwrites(table, d);
  }

  /** Submitting the same inputs twice leaves the table as submitting once. */
  lemma SubmitIdempotent(table: map<string, UserRecord>, rec: Recognisers, user: Option<ProviderUser>,
                         fd: FormData, fault: bool)
    ensures var once := Submit(table, rec, user, fd, fault).1;
            Submit(once, rec, user, fd, fault).1 == once
  {
    if user.Some? && ProfileAccepted(rec, Candidate(user.value, fd)) && !fault {
      var d := ValidateProfile(rec, Candidate(user.value, fd)).value;
      UpsertIdempotent(table, d);
    }
  }

  /** No submission ever removes a row. */
  lemma SubmitKeepsRows(table: map<string, UserRecord>, rec: Recognisers, user: Option<ProviderUser>,
                        fd: FormData, fault: bool)
    ensures table.Keys <= Submit(table, rec, user, fd, fault).1.Keys
  {
  }
}
