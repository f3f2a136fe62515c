/** The profile form component: its field values, the avatar URL it holds beside them,
    and the payload it assembles for the server action on submit. */
module ProfileForm {
  import opened JsValues
  import opened ProfileSchema
  import opened FormDataEntries
  import opened SubmitProfile

  /** The values the form library holds: the two registered inputs, and `profileImage`,
      which only `setValue` ever sets. */
  datatype FormValues = FormValues(username: string, bio: string, profileImage: Option<string>)

  /** The form values as the client schema's resolver sees them. */
  function AsFormInput(v: FormValues): FormInput {
    FormInput(JsString(v.username), JsString(v.bio), OptionalToJs(v.profileImage, Undefined))
  }

  /** `Object.entries(data)` of the parsed values: declared keys that are present, in order. */
  function Entries(p: FormProfile): FormData {
    [("username", p.username)]
    + (if p.bio.Some? then [("bio", p.bio.value)] else [])
    + (if p.profileImage.Some? then [("profileImage", p.profileImage.value)] else [])
  }

  /** The entries whose value is truthy (a non-empty string), in their original order. */
  function TruthyEntries(es: FormData): (r: FormData)
    ensures |r| <= |es|
    ensures forall k :: 0 <= k < |r| ==> r[k].1 != ""
  {
    if es == [] then []
    else TruthyEntries(es[..|es| - 1]) + (if es[|es| - 1].1 != "" then [es[|es| - 1]] else [])
  }

  /** An entry survives the filter exactly when it was there with a truthy value. */
  lemma {:induction false} TruthyEntriesMembers(es: FormData)
    ensures forall e :: e in TruthyEntries(es) <==> e in es && e.1 != ""
  {
    if es != [] {
      TruthyEntriesMembers(es[..|es| - 1]);
      assert es == es[..|es| - 1] + [es[|es| - 1]];
    }
  }

  /** Filtering distributes over appending, so the order of entries is kept. */
  lemma {:induction false} TruthyEntriesAppend(a: FormData, b: FormData)
    ensures TruthyEntries(a + b) == TruthyEntries(a) + TruthyEntries(b)
  {
    if b != [] {
      assert (a + b)[..|a + b| - 1] == a + b[..|b| - 1];
      TruthyEntriesAppend(a, b[..|b| - 1]);
    } else {
      assert a + b == a;
    }
  }

  /** What `onSubmit` appends: the truthy parsed entries, then the held avatar URL if truthy. */
  function Payload(p: FormProfile, profileImageUrl: Option<string>): (r: FormData)
    ensures forall k :: 0 <= k < |r| ==> r[k].1 != ""
    ensures Truthy(profileImageUrl) ==> |r| > 0 && r[|r| - 1] == ("profileImage", profileImageUrl.value)
  {
    TruthyEntries(Entries(p)) + (if Truthy(profileImageUrl) then [("profileImage", profileImageUrl.value)] else [])
  }

  function Kept(key: string, v: Option<string>): FormData {
    if Truthy(v) then [(key, v.value)] else []
  }

  /** The payload's layout: username, bio, the form's image, the held image, each only if truthy. */
  lemma PayloadLayout(p: FormProfile, profileImageUrl: Option<string>)
    ensures Payload(p, profileImageUrl) ==
              Kept("username", Some(p.username)) + Kept("bio", p.bio)
              + Kept("profileImage", p.profileImage) + Kept("profileImage", profileImageUrl)
  {
    var u: FormData := [("username", p.username)];
    var b: FormData := if p.bio.Some? then [("bio", p.bio.value)] else [];
    var i: FormData := if p.profileImage.Some? then [("profileImage", p.profileImage.value)] else [];
    TruthyEntriesAppend(u + b, i);
    TruthyEntriesAppend(u, b);
    assert TruthyEntries(u) == Kept("username", Some(p.username)) by {
      assert u[..0] == [];
    }
    assert TruthyEntries(b) == Kept("bio", p.bio) by {
      if b != [] { assert b[..0] == []; }
    }
    assert TruthyEntries(i) == Kept("profileImage", p.profileImage) by {
      if i != [] { assert i[..0] == []; }
    }
  }

  /** When the form's image is unset or equals the held URL, every `profileImage`
      entry of the payload carries the same value. */
  lemma PayloadImagesAgree(p: FormProfile, profileImageUrl: Option<string>)
    requires p.profileImage.None? || p.profileImage == profileImageUrl
    ensures AgreeOnKey(Payload(p, profileImageUrl), "profileImage")
  {
    PayloadLayout(p, profileImageUrl);
  }

  /** The fields the server reads back from a payload built from valid form values. */
  lemma PayloadFields(p: FormProfile, profileImageUrl: Option<string>)
    requires p.username != ""
    requires p.profileImage.None? || p.profileImage == profileImageUrl
    ensures var fd := Payload(p, profileImageUrl);
            && Get(fd, "username") == Some(p.username)
            && Get(fd, "bio") == (if Truthy(p.bio) then p.bio else None)
            && Get(fd, "profileImage") == (if Truthy(profileImageUrl) then profileImageUrl else None)
  {
    PayloadLayout(p, profileImageUrl);
    var un := Kept("username", Some(p.username));
    var b := Kept("bio", p.bio);
    var i := Kept("profileImage", p.profileImage);
    var x := Kept("profileImage", profileImageUrl);
    GetOfFour(un, b, i, x, "username");
    GetOfFour(un, b, i, x, "bio");
    GetOfFour(un, b, i, x, "profileImage");
    GetKept("username", "username", Some(p.username));
    GetKept("bio", "username", Some(p.username));
    GetKept("bio", "bio", p.bio);
    GetKept("profileImage", "username", Some(p.username));
    GetKept("profileImage", "bio", p.bio);
    GetKept("profileImage", "profileImage", p.profileImage);
    GetKept("profileImage", "profileImage", profileImageUrl);
  }

  /** `get` on four appended lists: the first list with an entry for the key wins. */
  lemma GetOfFour(a: FormData, b: FormData, c: FormData, d: FormData, key: string)
    ensures Get(a + b + c + d, key) ==
            if Get(a, key).Some? then Get(a, key)
            else if Get(b, key).Some? then Get(b, key)
            else if Get(c, key).Some? then Get(c, key)
            else Get(d, key)
  {
    GetAppend(a + b + c, d, key);
    GetAppend(a + b, c, key);
    GetAppend(a, b, key);
  }

  /** `get` on a kept entry: its value when the key matches and the value is truthy. */
  lemma GetKept(key: string, k: string, v: Option<string>)
    ensures Get(Kept(k, v), key) == if key == k && Truthy(v) then v else None
  {
  }

  /** The candidate the server builds from such a payload: the form's username, its bio
      or null when empty, and the held avatar URL falling back to the provider's. */
  lemma PayloadAsSubmitted(u: ProviderUser, p: FormProfile, profileImageUrl: Option<string>)
    requires p.username != ""
    requires p.profileImage.None? || p.profileImage == profileImageUrl
    ensures var c := Candidate(u, Payload(p, profileImageUrl));
            && c.username == JsString(p.username)
            && c.bio == (if Truthy(p.bio) then JsString(p.bio.value) else Null)
            && c.imageUrl == JsString(OrElse(profileImageUrl, u.imageUrl))
  {
    PayloadFields(p, profileImageUrl);
  }

  /** A username the form lets through arrives at the server and passes its check. */
  lemma SubmittedUsernamePassesServer(rec: Recognisers, u: ProviderUser, v: FormValues, profileImageUrl: Option<string>)
    requires ValidateProfileForm(rec, AsFormInput(v)).Valid?
    requires v.profileImage.None? || v.profileImage == profileImageUrl
    ensures var p := ValidateProfileForm(rec, AsFormInput(v)).value;
            UsernameIssues(Candidate(u, Payload(p, profileImageUrl)).username) == []
  {
    var p := ValidateProfileForm(rec, AsFormInput(v)).value;
    PayloadAsSubmitted(u, p, profileImageUrl);
  }

  class ProfileFormState {
    var profileImageUrl: Option<string>
    var values: FormValues

    /** The form's `profileImage` is unset or equals the held avatar URL. */
    ghost predicate Valid()
      reads this
    {
      values.profileImage.None? || values.profileImage == profileImageUrl
    }

    /** `useState(user?.imageUrl)` and `defaultValues: { username: "", bio: "" }` */
    constructor (providerImageUrl: Option<string>)
      ensures Valid()
      ensures profileImageUrl == providerImageUrl
      ensures values == FormValues("", "", None)
    {
      profileImageUrl := providerImageUrl;
      values := FormValues("", "", None);
    }

    /** Typing into the registered username input. */
    method SetUsername(s: string)
      requires Valid()
      modifies this
      ensures Valid()
      ensures values == old(values).(username := s) && profileImageUrl == old(profileImageUrl)
    {
      values := values.(username := s);
    }

    /** Typing into the registered bio input. */
    method SetBio(s: string)
      requires Valid()
      modifies this
      ensures Valid()
      ensures values == old(values).(bio := s) && profileImageUrl == old(profileImageUrl)
    {
      values := values.(bio := s);
    }

    /** `handleImageUpload(url)`: both the held URL and the form's `profileImage` become `url`. */
    method HandleImageUpload(url: string)
      requires Valid()
      modifies this
      ensures Valid()
      ensures profileImageUrl == Some(url)
      ensures values == old(values).(profileImage := Some(url))
    {
      profileImageUrl := Some(url);
      values := values.(profileImage := Some(url));
    }

    /** `handleSubmit(onSubmit)`: nothing is sent unless the client schema accepts the
        values; otherwise the payload of truthy entries and the held avatar URL. */
    method OnSubmit(rec: Recognisers) returns (payload: Option<FormData>)
      requires Valid()
      ensures payload.Some? <==> ValidateProfileForm(rec, AsFormInput(values)).Valid?
      ensures payload.Some? ==> payload.value == Payload(ValidateProfileForm(rec, AsFormInput(values)).value, profileImageUrl)
      ensures payload.Some? ==> AgreeOnKey(payload.value, "profileImage")
    {
      var validated := ValidateProfileForm(rec, AsFormInput(values));
      if validated.Invalid? {
        return None;
      }
      var entries := Entries(validated.value);
      var formData: FormData := [];
      var i := 0;
      while i < |entries|
        invariant 0 <= i <= |entries|
        invariant formData == TruthyEntries(entries[..i])
      {
        var (key, value) := entries[i];
        assert entries[..i + 1][..i] == entries[..i];
        if value != "" {
          formData := formData + [(key, value)];
        }
        i := i + 1;
      }
      assert entries[..i] == entries;
      if Truthy(profileImageUrl) {
        formData := formData + [("profileImage", profileImageUrl.value)];
      }
      PayloadImagesAgree(validated.value, profileImageUrl);
      payload := Some(formData);
    }
  }
}
