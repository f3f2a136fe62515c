/** The `/account-details` page: who gets the profile form. */
module AccountDetails {
  import opened JsValues
  import opened UserStore
  import opened FormDataEntries
  import opened ProfileSchema
  import opened SubmitProfile

  datatype PageOutcome = RedirectTo(path: string) | ShowProfileForm

  /** Looking a row up by its `id` column finds it under its key. */
  lemma KeyLookupFindsById(table: map<string, UserRecord>, id: string)
    requires KeysMatchIds(table)
    ensures id in table <==> exists k :: k in table && table[k].id == id
  {
  }

  /** `Page()`: to sign-in without a user, home once the user has a row, else the form. */
  function AccountDetailsPage(user: Option<ProviderUser>, table: map<string, UserRecord>): (p: PageOutcome)
    ensures user.None? ==> p == RedirectTo("/sign-in")
    ensures user.Some? && user.value.id in table ==> p == RedirectTo("/")
    ensures p == ShowProfileForm <==> user.Some? && user.value.id !in table
  {
    if user.None? then RedirectTo("/sign-in")
    else if user.value.id in table then RedirectTo("/")
    else ShowProfileForm
  }

  /** `Page()` against the user table: the row is looked up with `findFirst` by id. */
  method Page(db: UserTable, user: Option<ProviderUser>) returns (p: PageOutcome)
    requires db.Valid()
    ensures p == AccountDetailsPage(user, db.users)
  {
    if user.None? {
      return RedirectTo("/sign-in");
    }
    var dbUser := db.Find(user.value.id);
    if dbUser.Some? {
      return RedirectTo("/");
    }
    return ShowProfileForm;
  }

  /** After a successful submission by a user (accepted candidate, no fault), the page sends that user home. */
  lemma NoFormAfterSuccessfulSubmit(table: map<string, UserRecord>, rec: Recognisers, u: ProviderUser,
                                    fd: FormData)
    requires ProfileAccepted(rec, Candidate(u, fd))
    ensures AccountDetailsPage(Some(u), Submit(table, rec, Some(u), fd, false).1) == RedirectTo("/")
  {
  }

  /** Once the user has a row, no later submission, by anyone, brings the form back. */
  lemma FormNeverShownAgain(table: map<string, UserRecord>, u: ProviderUser, rec: Recognisers,
                            submitter: Option<ProviderUser>, fd: FormData, fault: bool)
    requires AccountDetailsPage(Some(u), table) == RedirectTo("/")
    ensures AccountDetailsPage(Some(u), Submit(table, rec, submitter, fd, fault).1) == RedirectTo("/")
  {
  }
}
