/** The user record, the `add_user` payload, and the normalisation `add_user` applies. */
module Users {
  import opened Wrappers
  import opened JsString
  import opened EmailFormat
  import opened UserIds

  /** A stored item of the user table. `phone == None` is the explicit `null`. */
  datatype User = User(
    id: string,
    name: string,
    email: string,
    phone: Option<string>,
    createdAt: string,
    updatedAt: string)

  /** The `data` field of an `add_user` request; each field may be absent. */
  datatype UserData = UserData(name: Option<string>, email: Option<string>, phone: Option<string>)

  /** The negation of `!userData || !userData.name || !userData.email`. */
  predicate HasNameAndEmail(data: Option<UserData>) {
    data.Some? && Truthy(data.value.name) && Truthy(data.value.email)
  }

  /** `email.toLowerCase().trim()`: the form emails are stored and looked up in. */
  function NormalizeEmail(email: string): string {
    Trim(ToLower(email))
  }

  /** `phone?.trim() || null`: absent, empty and all-white-space phones become `null`. */
  function NormalizePhone(phone: Option<string>): Option<string> {
    if phone.Some? && Trim(phone.value) != "" then Some(Trim(phone.value)) else None
  }

  /** The stored phone is `null` exactly when the input phone is absent or blank; otherwise it is the trimmed, non-empty input. */
  lemma NormalizePhoneSpec(phone: Option<string>)
    ensures NormalizePhone(phone).None? <==> (phone.None? || AllWhitespace(phone.value))
    ensures NormalizePhone(phone).Some? ==>
      var p := NormalizePhone(phone).value;
      p == Trim(phone.value) && p != "" && Trimmed(p)
  {
    if phone.Some? {
      TrimEmptyIffAllWhitespace(phone.value);
      TrimSpec(phone.value);
    }
  }

  /** The item `add_user` builds from its input, an id and the creation instant. */
  function NewUser(id: string, data: UserData, now: string): User
    requires data.name.Some? && data.email.Some?
  {
    User(id, Trim(data.name.value), NormalizeEmail(data.email.value), NormalizePhone(data.phone), now, now)
  }

  /** What every record created by `add_user` satisfies. */
  predicate IsNormalized(u: User) {
    && MatchesIdPattern(u.id)
    && Trimmed(u.name)
    && IsEmail(u.email)
    && NormalizeEmail(u.email) == u.email
    && (u.phone.Some? ==> u.phone.value != "" && Trimmed(u.phone.value))
    && u.createdAt == u.updatedAt
  }

  /** Normalising an email twice is normalising it once. */
  lemma NormalizeEmailIdempotent(email: string)
    ensures NormalizeEmail(NormalizeEmail(email)) == NormalizeEmail(email)
  {
    var lower := ToLower(email);
    TrimLowerCommute(lower);
    ToLowerIdempotent(email);
    TrimIdempotent(ToLower(lower));
  }

  /** For an accepted email the trim is a no-op, and the normalised form is still accepted. */
  lemma NormalizeValidEmail(email: string)
    requires IsEmail(email)
    ensures NormalizeEmail(email) == ToLower(email)
    ensures IsEmail(NormalizeEmail(email))
  {
    EmailHasNoWhitespace(email);
    ToLowerKeepsNoWhitespace(email);
    TrimOfNoWhitespace(ToLower(email));
    ToLowerKeepsEmail(email);
  }

  /** A record built from input that passed both checks is normalised. */
  lemma NewUserIsNormalized(nowMillis: nat, random: Random4, data: UserData, now: string)
    requires HasNameAndEmail(Some(data)) && IsEmail(data.email.value)
    ensures IsNormalized(NewUser(GenerateUserId(nowMillis, random), data, now))
  {
    NormalizeValidEmail(data.email.value);
    NormalizeEmailIdempotent(data.email.value);
    NormalizePhoneSpec(data.phone);
    TrimSpec(data.name.value);
  }

  /** A name of blanks passes the presence check but is stored as the empty string. */
  lemma BlankNameIsStoredEmpty(id: string, name: string, email: string, now: string)
    requires name != "" && AllWhitespace(name) && email != ""
    ensures HasNameAndEmail(Some(UserData(Some(name), Some(email), None)))
    ensures NewUser(id, UserData(Some(name), Some(email), None), now).name == ""
  {
    TrimEmptyIffAllWhitespace(name);
  }
}
