# Profile onboarding: a Dafny model

This project models the original logic of a small onboarding web application. A user signs in
through an external identity provider, then fills in a one-time profile form (username, bio,
avatar). A server action merges that form with the provider's user record, validates the
result, and upserts one row per user id. The modelled pieces are:

- `EmailCheck`: the email-shape regular expression `isEmailValid`, given as an explicit
  matching predicate and a decision procedure proved equal to it.
- `ProfileSchema`: the client form schema and the weaker server schema. Each returns
  `Valid(record)` or an ordered list of issues (field declaration order, then check order).
- `UserStore`: the user table (`map<string, UserRecord>` in class `UserTable`) and the
  create-or-update semantics of the upsert. On update an `undefined` value keeps the old
  column. On create `name` is `fullName || ""`.
- `SubmitProfile`: the server action. It derives `fullName`, `phoneNumber` and the image
  URL, validates the merged candidate, and writes it or maps the failure to an error.
  `Submit` is the action as a function; `SubmitProfileAction` is the method on the table,
  proved equal to it.
- `AccountDetails`: the page that sends a user to sign-in, home, or the form.
- `Avatar`: the storage key `userId + "-profile." + extension` and the
  `uploading`/`imageUrl`/`error` states of the file handler.
- `ProfileForm`: the form state, the invariant linking the form's `profileImage` to the
  held avatar URL, and the `onSubmit` loop that builds the ordered payload.
- `FormDataEntries`: `FormData` as an ordered list of entries. `get` returns the first one.
- `Text` and `JsValues` are shared helpers: string search, and JavaScript values and truthiness.

Inputs that stand for external services:
- the identity provider's current user is an `Option<ProviderUser>`;
- a persistence fault is a `bool`;
- the storage upload's outcome is a `bool`, and its public-URL lookup is a function parameter;
- zod's URL and email recognisers are the two functions of a `Recognisers` value;
- the characters of `\s` are a set parameter `ws`.

Behaviour of the code worth knowing, which the model follows:
- The server schema checks only `min(3)` on `username`, so 31-character or `a-b` usernames
  pass it although the form rejects them (`ProfileSchema.ServerUsernameIsWeaker`).
- A missing `username` on the server fails zod's type test ("Expected string, received null").
  It does not get the custom username message (`SubmitProfile.MissingUsernameMessage`).
- `fullName` tests truthiness. An empty first name gives `""` even when a last name is present.

## Model

| member | source | states |
|---|---|---|
| `EmailCheck.IsEmailValid` | src/lib/isEmailValid.ts:1-4 | total on every string; true iff some placement of the literal `@` and final `.` matches `[^\s@]+@[^\s@]+\.[a-zA-Z]{2,}` |
| `EmailCheck.MatchPlacementIsUnique` | src/lib/isEmailValid.ts:2 | any match puts its `@` at the first `@` and its `.` at the last `.` of the string |
| `EmailCheck.ValidEmailHasExactlyOneAt` | src/lib/isEmailValid.ts:2 | an accepted string has exactly one `@`, preceded by a non-empty part free of whitespace and `@` |
| `EmailCheck.ValidEmailDomainShape` | src/lib/isEmailValid.ts:2 | the part after `@` has no whitespace or `@`; its last `.` has non-empty text before it and two or more ASCII letters after it |
| `EmailCheck.ValidEmailHasNoWhitespace` | src/lib/isEmailValid.ts:2 | no accepted string contains a whitespace character |
| `EmailCheck.EmailExamples` | src/lib/isEmailValid.ts:2-3 | `a@b.co` is accepted; `a@b`, the empty string, `a@.co` and `a@b.c1` are rejected |
| `ProfileSchema.FormUsernameIssues` | src/lib/validation/profileSchema.ts:5-12 | no issue iff a string of 3 to 30 characters, all in `[a-zA-Z0-9_]`; for a string, "co najmniej 3 znaki" is reported iff it is shorter than 3, "nie może przekraczać 30 znaków" iff longer than 30, the character-class message iff it fails the regex, and nothing else; issues come in min, max, regex order; a non-string gets exactly zod's type message |
| `ProfileSchema.FormBioIssues` | src/lib/validation/profileSchema.ts:13 | no issue iff absent or a string of at most 160 characters; a longer string gets exactly "Bio nie może przekraczać 160 znaków", null or another value zod's type message |
| `ProfileSchema.FormProfileImageIssues` | src/lib/validation/profileSchema.ts:14 | no issue iff absent or a string the URL recogniser accepts; an unrecognised string gets exactly zod's default "Invalid url", null or another value zod's type message |
| `ProfileSchema.ValidateProfileForm` | src/lib/validation/profileSchema.ts:4-15 | valid iff all three field rules hold, returning those values; otherwise a non-empty issue list ordered by field, then check, made of exactly the username's, the bio's and the image's issues in that order |
| `ProfileSchema.FormIssues` | src/lib/validation/profileSchema.ts:4-15 | the form schema's issues over its fields in declaration order are strictly ordered by field, then check |
| `ProfileSchema.UsernameIssues` | src/lib/validation/profileSchema.ts:18 | the server accepts any string of length at least 3; a shorter string gets exactly "Nazwa użytkownika jest wymagana", a non-string exactly zod's type message |
| `ProfileSchema.NullableStringIssues` | src/lib/validation/profileSchema.ts:19-21 | `bio` and `phoneNumber` may be absent, null or any string; any other value gets exactly zod's type message |
| `ProfileSchema.OptionalStringIssues` | src/lib/validation/profileSchema.ts:20 | `fullName` may be absent or any string; null or another value gets exactly zod's type message |
| `ProfileSchema.EmailIssues` | src/lib/validation/profileSchema.ts:22 | `email` is required and must satisfy the email recogniser; an unrecognised string gets exactly "Nieprawidłowy adres email", a non-string (missing: "Required") zod's type message |
| `ProfileSchema.IdIssues` | src/lib/validation/profileSchema.ts:23-26 | `id` must be a string; missing gives "ID jest wymagane", any other value "Nieprawidłowe ID" |
| `ProfileSchema.ImageUrlIssues` | src/lib/validation/profileSchema.ts:27 | `imageUrl` may be absent; if present it must satisfy the URL recogniser; an unrecognised string gets exactly "Nieprawidłowy URL", null or another value zod's type message |
| `ProfileSchema.ServerFieldIssues` | src/lib/validation/profileSchema.ts:17-28 | the issues of one server field all concern that field, at most one per field; `profileImage` is not a server field and has none |
| `ProfileSchema.ProfileIssues` | src/lib/validation/profileSchema.ts:17-28 | zod's walk over the server fields in declaration order reports nothing iff every server field rule holds |
| `ProfileSchema.ValidateProfile` | src/lib/validation/profileSchema.ts:17-28 | valid iff every server field rule holds, and the parsed record carries the input values; otherwise a non-empty issue list ordered by field, then check, holding exactly the failing fields' own issues |
| `ProfileSchema.ProfileIssuesOrdered` | src/lib/validation/profileSchema.ts:17-28 | server issues are strictly ordered by field declaration, then by check |
| `ProfileSchema.AppendField` | src/lib/validation/profileSchema.ts:17-28 | appending a later-declared field's issues keeps the list ordered |
| `ProfileSchema.FormUsernameImpliesServer` | src/lib/validation/profileSchema.ts:5-18 | every username the form accepts, the server accepts |
| `ProfileSchema.ServerUsernameIsWeaker` | src/lib/validation/profileSchema.ts:5-18 | a 31-character username and `a-b` pass the server but not the form |
| `ProfileSchema.ProfileIssuesAreFieldIssues` | src/lib/validation/profileSchema.ts:17-28 | an issue is reported iff it is an issue of its own field: none dropped, none misattributed |
| `ProfileSchema.FirstFailingFieldComesFirst` | src/lib/validation/profileSchema.ts:17-28 | when every field declared before `f` passes and `f` fails, the first reported issue is `f`'s first issue |
| `ProfileSchema.ServerRejectsBadEmail` | src/lib/validation/profileSchema.ts:22 | an invalid or missing email always fails validation, with an email issue |
| `UserStore.CreateRecord` | src/actions/submitProfile.ts:65-73 | a new row holds the data's id, email, username, bio, phone and image; its name is `fullName`, or `""` when `fullName` is undefined, so never null |
| `UserStore.Overwrite` | src/actions/submitProfile.ts:57-64 | an `undefined` update value keeps the column, any other replaces it |
| `UserStore.UpdateRecord` | src/actions/submitProfile.ts:55-64 | an update keeps the row's id and rewrites email and username; name and imageUrl follow the data when defined and are kept when undefined; bio and phoneNumber follow `Overwrite` (kept when undefined, cleared by null, replaced by a string) |
| `UserStore.Upserted` | src/actions/submitProfile.ts:55-74 | the row under the id is the update or the create; the keys gain at most that id; other rows are kept |
| `UserStore.CompleteUpsertOverwrites` | src/actions/submitProfile.ts:55-74 | a write with every optional field defined leaves the same row whether it updated or created |
| `UserStore.UpsertKeepsInvariants` | src/actions/submitProfile.ts:55-74 | rows stay stored under their own id and keep a non-null name |
| `UserStore.UpsertIdempotent` | src/actions/submitProfile.ts:55-74 | repeating an upsert changes nothing further |
| `UserStore.UserTable.Upsert` | src/actions/submitProfile.ts:55-74 | on a fault the table is unchanged; otherwise it becomes the upserted table |
| `FormDataEntries.Get` | src/actions/submitProfile.ts:38-43 | `formData.get` yields the value of the first entry with the key, or null when no entry has it |
| `FormDataEntries.GetAppend` | src/actions/submitProfile.ts:38-43 | in appended entry lists, `get` looks in the second list only when the first has no entry for the key |
| `SubmitProfile.FullName` | src/actions/submitProfile.ts:26-29 | `first + " " + last` if both are truthy, else `first` if truthy, else `""`; empty exactly when the first name is not truthy |
| `SubmitProfile.PhoneNumber` | src/actions/submitProfile.ts:32-35 | the first phone entry's number, or null when the list is absent or empty |
| `SubmitProfile.FormField` | src/actions/submitProfile.ts:37-38 | a form field is a string when the payload has the key, and that string is the value `get` returns, the first entry's; null otherwise |
| `SubmitProfile.Candidate` | src/actions/submitProfile.ts:37-45 | the image URL is the submitted `profileImage` if truthy, else the provider's; id and full name come from the provider |
| `SubmitProfile.CandidateAcceptance` | src/actions/submitProfile.ts:37-50 | the candidate validates iff the form sent a username of 3+ characters, the primary email is recognised and the chosen image URL is recognised |
| `SubmitProfile.ValidatedCandidate` | src/actions/submitProfile.ts:37-52 | validated data has the provider's id, email, full name and phone, the form's username and bio, and no undefined optional field |
| `SubmitProfile.Submit` | src/actions/submitProfile.ts:15-83 | every returned state carries an error and leaves the table as it was; a redirect goes to `/` |
| `SubmitProfile.SubmitProfileAction` | src/actions/submitProfile.ts:15-83 | the action's outcome and new table are those of `Submit`, and the table invariants hold |
| `SubmitProfile.UnauthenticatedWritesNothing` | src/actions/submitProfile.ts:19-23 | with no user the result is `{redirect: true, error: <auth message>}` and the table is unchanged |
| `SubmitProfile.InvalidWritesNothing` | src/actions/submitProfile.ts:46-49 | a rejected candidate gives the first issue's message and no write |
| `SubmitProfile.ShownMessageIsFirstFailingField` | src/actions/submitProfile.ts:36-49 | the error shown is the first issue of the first declared field that fails, and nothing is written |
| `SubmitProfile.MissingUsernameMessage` | src/actions/submitProfile.ts:36-49 | with no `username` entry the user sees "Expected string, received null", not the custom username message |
| `SubmitProfile.MissingEmailMessage` | src/actions/submitProfile.ts:36-49 | with a username of 3+ characters and no primary email address the user sees "Required" |
| `SubmitProfile.FaultWritesNothing` | src/actions/submitProfile.ts:77-82 | a persistence fault gives the fixed generic message and leaves the table unchanged |
| `SubmitProfile.RedirectsExactlyOnSuccess` | src/actions/submitProfile.ts:19-82 | the action navigates away iff a user is signed in, the candidate validates and the write succeeds |
| `SubmitProfile.SuccessfulSubmitWrites` | src/actions/submitProfile.ts:55-74 | after success the user's row holds exactly the merged email, username, bio, name, phone and image; other rows are unchanged; at most one row is added |
| `SubmitProfile.SubmitIdempotent` | src/actions/submitProfile.ts:55-74 | the same submission twice leaves the table as once |
| `SubmitProfile.SubmitKeepsRows` | src/actions/submitProfile.ts:55-74 | no submission removes a row |
| `AccountDetails.KeyLookupFindsById` | src/app/account-details/page.tsx:13 | looking up by the `id` column finds exactly the row stored under that key |
| `AccountDetails.AccountDetailsPage` | src/app/account-details/page.tsx:6-24 | no user goes to `/sign-in`; a user with a row goes to `/`; the form is shown iff signed in without a row |
| `UserStore.UserTable.Find` | src/app/account-details/page.tsx:13 | `findFirst({ where: { id } })`: a row is found iff one is stored under that id, and the row found has that id |
| `AccountDetails.Page` | src/app/account-details/page.tsx:6-24 | the page run against the user table, reading it through `Find`, gives the outcome `AccountDetailsPage` states |
| `AccountDetails.NoFormAfterSuccessfulSubmit` | src/app/account-details/page.tsx:13-17 | after a successful submission by a user, the page sends that user to `/` |
| `AccountDetails.FormNeverShownAgain` | src/app/account-details/page.tsx:13-17 | once a user has a row, no later submission by anyone brings the form back |
| `Avatar.Extension` | src/components/Avatar.tsx:30 | the text after the last `.` (no dot in it), or the whole name when it has no dot |
| `Avatar.StorageKey` | src/components/Avatar.tsx:31 | the key starts with the user id and has the file's extension |
| `Avatar.ExtensionAfterDot` | src/components/Avatar.tsx:30 | the extension of `prefix.ext` is `ext` when `ext` has no dot |
| `Avatar.ExtensionOfKey` | src/components/Avatar.tsx:30-31 | a key's extension is the one it was built from |
| `Avatar.Example` | src/components/Avatar.tsx:30-31 | user `u1` and `photo.png` give the key `u1-profile.png` |
| `Avatar.StorageKeyInjective` | src/components/Avatar.tsx:31-40 | two keys are equal iff the users and the extensions are; the same user and extension always target one key |
| `Avatar.AvatarUpload.constructor` | src/components/Avatar.tsx:20-22 | not uploading, no error, and `imageUrl` is `initialImageUrl` or `""` |
| `Avatar.AvatarUpload.HandleFileChange` | src/components/Avatar.tsx:24-59 | no file: nothing changes. Success: `imageUrl` and the callback get the key's public URL. Failure: fixed error, `imageUrl` kept, no callback. `uploading` ends false |
| `ProfileForm.TruthyEntries` | src/components/forms/ProfileForm.tsx:50-52 | the `if (value)` filter keeps no more entries than it is given, and every entry it keeps has a non-empty value |
| `ProfileForm.TruthyEntriesMembers` | src/components/forms/ProfileForm.tsx:50-52 | an entry is kept exactly when it was there with a truthy value, so an empty `bio` is omitted |
| `ProfileForm.TruthyEntriesAppend` | src/components/forms/ProfileForm.tsx:50-52 | filtering distributes over appending, keeping the entries' order |
| `ProfileForm.Payload` | src/components/forms/ProfileForm.tsx:49-57 | every entry `onSubmit` appends has a non-empty value, and a truthy held avatar URL is the last entry, under `profileImage` |
| `ProfileForm.PayloadLayout` | src/components/forms/ProfileForm.tsx:48-57 | the payload is username, bio and the form's image in key order, then the held image URL; each appears only if truthy |
| `ProfileForm.PayloadImagesAgree` | src/components/forms/ProfileForm.tsx:55-67 | when the form's image is unset or equals the held URL, all `profileImage` entries agree |
| `ProfileForm.PayloadFields` | src/components/forms/ProfileForm.tsx:48-57 | `get` on the payload gives the username, the bio if truthy, and the held URL if truthy |
| `ProfileForm.PayloadAsSubmitted` | src/components/forms/ProfileForm.tsx:48-62 | the server's candidate has the form's username, the bio or null, and the held URL falling back to the provider's |
| `ProfileForm.SubmittedUsernamePassesServer` | src/components/forms/ProfileForm.tsx:48-62 | a username the form accepts reaches the server and passes its username check |
| `ProfileForm.ProfileFormState.constructor` | src/components/forms/ProfileForm.tsx:29-46 | `profileImageUrl` is the provider's image URL, the defaults are `username = ""` and `bio = ""`, and the invariant holds |
| `ProfileForm.ProfileFormState.SetUsername` | src/components/forms/ProfileForm.tsx:88 | editing the username changes only it and keeps the invariant |
| `ProfileForm.ProfileFormState.SetBio` | src/components/forms/ProfileForm.tsx:96-100 | editing the bio changes only it and keeps the invariant |
| `ProfileForm.ProfileFormState.HandleImageUpload` | src/components/forms/ProfileForm.tsx:64-67 | both `profileImageUrl` and the form's `profileImage` become `url`, keeping the invariant |
| `ProfileForm.ProfileFormState.OnSubmit` | src/components/forms/ProfileForm.tsx:48-62 | sends nothing unless the client schema accepts the values; otherwise the payload of truthy entries plus the held URL, with all `profileImage` entries equal |

## Left out

- The identity provider (`currentUser`, `useUser`), storage (`upload`, `getPublicUrl`) and the database client (`upsert`) are external services. They appear only as inputs and abstract outcomes. `findFirst` is a key lookup; `KeyLookupFindsById` justifies this from the table invariant.
- zod's URL and email recognisers are library internals. They are uninterpreted parameters.
- zod's full issue aggregation and message formatting are not modelled. Only issues from these two schemas are, with zod's default text where no custom message is given.
- The redirect needs a note. In Next.js, `redirect` works by throwing, and `redirect("/")` at src/actions/submitProfile.ts:76 sits inside the `try`. The `catch` at lines 77-82 can therefore intercept it after a successful write. The model treats a successful write as the outcome `Redirected("/")` and does not model framework exceptions.
- `\s` is a parameter. JavaScript's Unicode whitespace set is not spelled out, and lengths are sequence lengths, not UTF-16 code units.
- React machinery is not modelled: hooks, `useActionState`/`startTransition`, `isPending`, JSX rendering, and `aria-disabled` (which does not block a resubmit). `prevState` is passed to the action but never read, so the model drops it.
- The `success` flag of `ActionState` is never set by the action, so no outcome sets it.
- `FormData` values are strings only. The form never appends a `File`; a `File` sent some other way is not modelled.
- No selected file and an empty file list are the same input, an empty sequence.
- The file's content type sent with the upload is not modelled.
- Logging (`console.log`, `console.error`) is left out.
- Display-only files are left out: the email icon, the home page, the image-host configuration, and the sign-in and sign-up pages (identity-provider flows).
- The storage upload's `upsert: true` (src/components/Avatar.tsx:40), which overwrites an earlier avatar stored under the same key, is not modelled: the upload is reduced to a success flag.
- Orphaned uploads, concurrency between upload and submit, and the atomicity of the upsert are not modelled. They belong to the external services.
- Avatar.AvatarUpload.HandleFileChange: the body sets `uploading` to true before the upload and back to false after it, but the contract states only the final state, not the value while the upload is awaited.
