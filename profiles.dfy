/**
 * The profile every learner-facing page creates when a signed-in user has
 * no `profiles` row yet: a display name taken from the sign-up metadata or
 * the e-mail's local part, and a user type decided by the company e-mail
 * domain. `user_type` and `audience` are the database's text columns.
 */
module Profiles {
  import opened Base
  import opened Text

  const InternalType: string := "internal"
  const ExternalType: string := "external"
  const CompanyDomain: string := "@anchorp.com"

  /** `user.email ?? ""`. */
  function EmailOrEmpty(email: Option<string>): string
  {
    if email.Some? then email.value else ""
  }

  /**
   * `email.toLowerCase().endsWith("@anchorp.com") ? "internal" : "external"`:
   * company addresses, in any letter case, are employees.
   */
  function DefaultUserType(email: Option<string>): (t: string)
    ensures t == InternalType <==> EndsWith(Lower(EmailOrEmpty(email)), CompanyDomain)
    ensures t == InternalType || t == ExternalType
  {
    if EndsWith(Lower(EmailOrEmpty(email)), CompanyDomain) then InternalType else ExternalType
  }

  /** The letter case of the address does not change the default type. */
  lemma DefaultUserTypeIgnoresCase(email: string)
    ensures DefaultUserType(Some(email)) == DefaultUserType(Some(Lower(email)))
  {
    LowerIdempotent(email);
  }

  /**
   * `user_metadata.full_name || email.split("@")[0] || "Learner"`: never empty,
   * and taken from the address only when no name was given at sign-up.
   */
  function DefaultFullName(metadataName: Option<string>, email: Option<string>): (name: string)
    ensures name != ""
    ensures Truthy(metadataName) ==> name == metadataName.value
    ensures !Truthy(metadataName) ==>
      '@' !in name && (name == "Learner" || StartsWith(EmailOrEmpty(email), name))
    ensures !Truthy(metadataName) && EmailOrEmpty(email) != "" && EmailOrEmpty(email)[0] != '@' ==>
      name == Split(EmailOrEmpty(email), '@')[0]
  {
    var local := Split(EmailOrEmpty(email), '@')[0];
    BeforeFirstIsFirstPart(EmailOrEmpty(email), '@');
    if Truthy(metadataName) then metadataName.value
    else if local != "" then local
    else "Learner"
  }

  /** An address without a local part (empty, or starting with `@`) falls back to "Learner". */
  lemma DefaultFullNameFallback(email: Option<string>)
    requires EmailOrEmpty(email) == "" || EmailOrEmpty(email)[0] == '@'
    ensures DefaultFullName(None, email) == "Learner"
  {
    BeforeFirstIsFirstPart(EmailOrEmpty(email), '@');
  }

  /** The profile row inserted for a first visit. */
  datatype NewProfile = NewProfile(id: string, email: string, full_name: string, user_type: string)

  function DefaultProfile(userId: string, email: Option<string>, metadataName: Option<string>): NewProfile
  {
    NewProfile(userId, EmailOrEmpty(email), DefaultFullName(metadataName, email), DefaultUserType(email))
  }

  /** A `profiles` row as the learner pages read it. */
  datatype Profile = Profile(id: string, full_name: Option<string>, email: Option<string>, user_type: Option<string>)

  /** The signed-in user as the auth service returns it. */
  datatype SignedInUser = SignedInUser(id: string, email: Option<string>, metadataName: Option<string>)

  /** The profile insert a page sends, if any, and the profile it goes on with or the message it stops with. */
  datatype ProfileOutcome = ProfileOutcome(insert: Option<NewProfile>, profile: Result<Profile>)

  /**
   * The opening of every learner page's `loadData`: an auth error or a
   * missing user stops it (with the page's own message for the latter); an
   * existing profile is used as it is; otherwise the default profile is
   * inserted and the inserted row is used.
   */
  function ResolveProfile(user: Result<Option<SignedInUser>>, existing: Result<Option<Profile>>,
                          inserted: Result<Profile>, signedOutMessage: string): (r: ProfileOutcome)
    ensures user.Err? ==> r == ProfileOutcome(None, Err(user.error))
    ensures user == Ok(None) ==> r == ProfileOutcome(None, Err(signedOutMessage))
    ensures r.insert.Some? ==>
      user.Ok? && user.value.Some? && existing == Ok(None)
      && r.insert.value == DefaultProfile(user.value.value.id, user.value.value.email, user.value.value.metadataName)
      && r.profile == inserted
    ensures r.profile.Ok? && r.insert.None? ==> existing == Ok(Some(r.profile.value))
    ensures user.Ok? && user.value.Some? && existing.Err? ==> r == ProfileOutcome(None, Err(existing.error))
    ensures user.Ok? && user.value.Some? && existing.Ok? && existing.value.Some? ==>
      r == ProfileOutcome(None, Ok(existing.value.value))
    ensures user.Ok? && user.value.Some? && existing == Ok(None) ==> r.insert.Some? && r.profile == inserted
  {
    match user
    case Err(message) => ProfileOutcome(None, Err(message))
    case Ok(None) => ProfileOutcome(None, Err(signedOutMessage))
    case Ok(Some(u)) =>
      match existing
      case Err(message) => ProfileOutcome(None, Err(message))
      case Ok(Some(p)) => ProfileOutcome(None, Ok(p))
      case Ok(None) => ProfileOutcome(Some(DefaultProfile(u.id, u.email, u.metadataName)), inserted)
  }

  /** A first visit inserts a profile typed by the company e-mail domain, and named. */
  lemma FirstVisitInsertsDefault(u: SignedInUser, inserted: Result<Profile>, signedOutMessage: string)
    ensures var r := ResolveProfile(Ok(Some(u)), Ok(None), inserted, signedOutMessage);
      r.insert.Some? && r.insert.value.id == u.id && r.insert.value.full_name != ""
      && (r.insert.value.user_type == InternalType <==> EndsWith(Lower(EmailOrEmpty(u.email)), CompanyDomain))
  {
  }
}
