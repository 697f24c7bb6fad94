/** The decisions the authentication context takes, as functions of what storage and the
    network returned: e-mail and password checks, the user-record merge, the account-deletion
    id lookup and error messages, and the policy when the realtime hub connection closes. */
module AuthRules {
  import opened Outcomes
  import opened JsString
  import opened JsData

  /** A user record as the profile endpoint returns it: field name to value. */
  type User = map<string, JsValue>

  /** The e-mail domains of the two universities. */
  const UniversityDomains: seq<string> :=
    ["@oamk.fi", "@students.oamk.fi", "@fontys.nl", "@student.fontys.nl"]

  /** `isValidEmail(email)`. */
  predicate IsValidEmail(email: string) {
    || EndsWith(email, "@oamk.fi")
    || EndsWith(email, "@students.oamk.fi")
    || EndsWith(email, "@fontys.nl")
    || EndsWith(email, "@student.fontys.nl")
  }

  /** An address is accepted exactly when it ends with one of the university domains; so an
      accepted address holds an `@` and is at least as long as the shortest domain. */
  lemma ValidEmailIff(email: string)
    ensures IsValidEmail(email) <==> exists i :: 0 <= i < |UniversityDomains| && EndsWith(email, UniversityDomains[i])
    ensures IsValidEmail(email) ==> '@' in email && |email| >= 8
  {
    if IsValidEmail(email) {
      var i: nat;
      if EndsWith(email, "@oamk.fi") { i := 0; }
      else if EndsWith(email, "@students.oamk.fi") { i := 1; }
      else if EndsWith(email, "@fontys.nl") { i := 2; }
      else { i := 3; }
      assert EndsWith(email, UniversityDomains[i]);
      DomainSuffixHoldsAt(email, UniversityDomains[i]);
    }
  }

  lemma DomainSuffixHoldsAt(email: string, domain: string)
    requires EndsWith(email, domain) && |domain| > 0 && domain[0] == '@'
    ensures '@' in email && |email| >= |domain|
  {
    assert email[|email| - |domain|] == email[|email| - |domain|..][0];
  }

  /** The domain is compared with its letter case: an upper-case domain is refused. */
  lemma UpperCaseDomainRefused()
    ensures !IsValidEmail("ann@OAMK.FI")
  {
    var e := "ann@OAMK.FI";
    assert e[|e| - 8..][1] == 'O';
    assert e[|e| - 10..][0] == 'n';
  }

  /** Only the ending is checked: an address with nothing before the domain is accepted. */
  lemma EmptyLocalPartAccepted()
    ensures IsValidEmail("@oamk.fi")
  {
    var e := "@oamk.fi";
    assert e[|e| - 8..] == "@oamk.fi";
  }

  /** A look-alike domain without the `@` is refused. */
  lemma LookalikeDomainRefused()
    ensures !IsValidEmail("eve@notoamk.fi")
  {
    var e := "eve@notoamk.fi";
    assert e[|e| - 8..][0] == 't';
    assert e[|e| - 10..][0] == 'n';
  }

  /** A student address of a university is accepted. */
  lemma StudentAddressAccepted()
    ensures IsValidEmail("ann@students.oamk.fi")
  {
    var e := "ann@students.oamk.fi";
    assert e[|e| - 17..] == "@students.oamk.fi";
  }

  const MinPasswordLength: nat := 8

  /** What `register` does before calling the registration endpoint. */
  datatype RegisterCheck = InvalidEmail | WeakPassword | Proceed

  /** The two checks of `register`, the e-mail first. The password length is its
      `length`, in UTF-16 code units. */
  function CheckRegistration(email: string, password: string): (r: RegisterCheck)
    ensures r == Proceed <==> IsValidEmail(email) && Utf16Length(password) >= MinPasswordLength
    ensures !IsValidEmail(email) ==> r == InvalidEmail
    ensures r == WeakPassword ==> IsValidEmail(email) && Utf16Length(password) < MinPasswordLength
  {
    if !IsValidEmail(email) then InvalidEmail
    else if Utf16Length(password) < MinPasswordLength then WeakPassword
    else Proceed
  }

  /** Any password of 8 characters passes the length check, and so does one of only 4
      characters when each lies outside the Basic Multilingual Plane. */
  lemma PasswordLengthCountsCodeUnits(email: string, password: string)
    requires IsValidEmail(email)
    ensures |password| >= MinPasswordLength ==> CheckRegistration(email, password) == Proceed
    ensures |password| == 4 && (forall i :: 0 <= i < 4 ==> password[i] as int > 0xFFFF)
      ==> CheckRegistration(email, password) == Proceed
  {
    if |password| == 4 && (forall i :: 0 <= i < 4 ==> password[i] as int > 0xFFFF) {
      AstralLength(password);
    }
  }

  /** A string made only of characters outside the Basic Multilingual Plane is twice as long
      in UTF-16 code units. */
  lemma {:induction false} AstralLength(s: string)
    requires forall i :: 0 <= i < |s| ==> s[i] as int > 0xFFFF
    ensures Utf16Length(s) == 2 * |s|
  {
    if s != [] {
      assert forall i :: 0 <= i < |s[1..]| ==> s[1..][i] == s[i + 1];
      AstralLength(s[1..]);
    }
  }

  /** The toast text when registration fails: the server's message when it sent a non-empty
      one, else a generic prompt. */
  function RegistrationFailureText(serverMessage: Option<string>): (text: string)
    ensures text != ""
    ensures serverMessage.Some? && serverMessage.value != "" ==> text == serverMessage.value
  {
    if serverMessage.Some? && serverMessage.value != "" then serverMessage.value else "Please try again."
  }

  /** `{ ...user, ...patch }`: every field of the patch overrides, every other field stays. */
  function MergeUser(user: User, patch: User): (r: User)
    ensures r.Keys == user.Keys + patch.Keys
    ensures forall k :: k in patch ==> r[k] == patch[k]
    ensures forall k :: k in user && k !in patch ==> r[k] == user[k]
  {
    user + patch
  }

  /** Merging the same patch twice changes nothing more. */
  lemma MergeUserIdempotent(user: User, patch: User)
    ensures MergeUser(MergeUser(user, patch), patch) == MergeUser(user, patch)
  {
  }

  /** The user's `id` is present and truthy (`user?.id`). */
  predicate HasTruthyId(user: Option<User>) {
    user.Some? && "id" in user.value && Truthy(user.value["id"])
  }

  const SessionKeys: set<string> := {"userData", "user", "accessToken", "refreshToken"}

  /** The storage left after a sign-out: the four session keys removed, every other key kept. */
  function ClearSession(storage: Storage): (r: Storage)
    ensures r.Keys == storage.Keys - SessionKeys
    ensures forall k :: k in r ==> r[k] == storage[k]
  {
    storage - SessionKeys
  }

  lemma ClearSessionIdempotent(storage: Storage)
    ensures ClearSession(ClearSession(storage)) == ClearSession(storage)
  {
  }

  /** Messages of `deleteAccount` by response status. */
  const DeleteDefaultMessage: string := "Failed to delete account"

  function DeleteErrorMessage(status: int): (m: string)
    ensures status !in {401, 403, 404, 500} ==> m == DeleteDefaultMessage
    ensures status in {401, 403, 404, 500} ==> m != DeleteDefaultMessage
  {
    match status
    case 401 => "Unauthorized. Please log in again."
    case 403 => "You do not have permission to delete this account."
    case 404 => "User account not found."
    case 500 => "Server error. Please try again later."
    case _ => DeleteDefaultMessage
  }

  /** The four statuses with a message of their own get four different messages. */
  lemma DeleteErrorMessagesDistinct(a: int, b: int)
    requires a in {401, 403, 404, 500} && b in {401, 403, 404, 500} && a != b
    ensures DeleteErrorMessage(a) != DeleteErrorMessage(b)
  {
  }

  /** The outcome of the profile request `deleteAccount` falls back to. */
  datatype ProfileFetch = ProfileThrew(error: string) | ProfileNotOk | ProfileBody(body: JsValue)

  const NoUserIdMessage: string := "Could not determine user ID for deletion"

  /** `userId = JSON.parse(userData).id`, read only when the stored `userData` is truthy
      (`None` otherwise): text that is not JSON is a SyntaxError and a stored `null` a TypeError. */
  function StoredUserId(userData: Option<Stored>): (r: Result<Option<JsValue>, string>)
    ensures !StoredTruthy(userData) ==> r == Ok(None)
    ensures r.Err? <==> StoredTruthy(userData) && (userData.value.Raw? || userData.value.value.JNull?)
    ensures r.Ok? && r.value.Some? ==>
      userData.Some? && userData.value.Doc? && userData.value.value.JObj?
      && "id" in userData.value.value.fields && r.value.value == userData.value.value.fields["id"]
  {
    if !StoredTruthy(userData) then Ok(None)
    else
      match ParseStored(userData.value)
      case Err(e) => Err(e)
      case Ok(parsed) => Property(parsed, "id")
  }

  /** The stored `userData` parses but gives no truthy id, so `deleteAccount` falls back to
      the user in memory and then to the profile endpoint. */
  predicate NoStoredId(userData: Option<Stored>) {
    !StoredTruthy(userData)
    || (userData.value.Doc? && !userData.value.value.JNull?
        && !(userData.value.value.JObj? && "id" in userData.value.value.fields
             && Truthy(userData.value.value.fields["id"])))
  }

  /** The user id `deleteAccount` resolves: from the stored `userData` first, then from the
      user in memory, then from the profile endpoint (asked only when both give no truthy id).
      An `Err` is the message of what was thrown. */
  function ResolveUserId(userData: Option<Stored>, user: Option<User>, profile: ProfileFetch)
    : (r: Result<JsValue, string>)
    ensures r.Ok? ==> Truthy(r.value)
    ensures StoredTruthy(userData) && userData.value.Raw? ==> r == Err("SyntaxError")
    ensures StoredTruthy(userData) && userData.value.Doc? && userData.value.value.JNull?
      ==> r == Err("TypeError")
    ensures StoredTruthy(userData) && userData.value.Doc? && userData.value.value.JObj?
      && "id" in userData.value.value.fields && Truthy(userData.value.value.fields["id"])
      ==> r == Ok(userData.value.value.fields["id"])
    ensures NoStoredId(userData) && HasTruthyId(user) ==> r == Ok(user.value["id"])
    ensures NoStoredId(userData) && !HasTruthyId(user) && profile.ProfileThrew?
      ==> r == Err(profile.error)
    ensures NoStoredId(userData) && !HasTruthyId(user) && profile.ProfileNotOk?
      ==> r == Err(NoUserIdMessage)
    ensures NoStoredId(userData) && !HasTruthyId(user) && profile.ProfileBody? && profile.body.JNull?
      ==> r == Err("TypeError")
    ensures NoStoredId(userData) && !HasTruthyId(user) && profile.ProfileBody?
      && profile.body.JObj? && "id" in profile.body.fields && Truthy(profile.body.fields["id"])
      ==> r == Ok(profile.body.fields["id"])
    ensures NoStoredId(userData) && !HasTruthyId(user) && profile.ProfileBody? && !profile.body.JNull?
      && !(profile.body.JObj? && "id" in profile.body.fields && Truthy(profile.body.fields["id"]))
      ==> r == Err(NoUserIdMessage)
  {
    match StoredUserId(userData)
    case Err(e) => Err(e)
    case Ok(stored) =>
      if TruthyOpt(stored) then Ok(stored.value)
      else if HasTruthyId(user) then Ok(user.value["id"])
      else
        match profile
        case ProfileThrew(e) => Err(e)
        case ProfileNotOk => Err(NoUserIdMessage)
        case ProfileBody(body) =>
          match Property(body, "id")
          case Err(e) => Err(e)
          case Ok(id) => if TruthyOpt(id) then Ok(id.value) else Err(NoUserIdMessage)
  }

  /** The outcome of a `POST /auth/refresh`: the request threw, the server answered with a
      non-ok status, or it issued a new access token. */
  datatype RefreshResult = RefreshThrew | RefreshRefused | RefreshGranted(accessToken: string)

  /** What the context does when the hub connection closes. */
  datatype CloseAction = Ignore | Restart(accessToken: string) | ForceLogout

  /** The `onclose` policy. `message` is `error?.message` (`None` when there is none);
      `refreshToken` is what storage holds; `restarted` says whether `connection.start()`
      succeeded after a granted refresh (a failure lands in the same `catch` as a failed
      refresh). */
  function CloseDecision(message: Option<string>, refreshToken: Option<Stored>, refresh: RefreshResult,
                         restarted: bool): (a: CloseAction)
  {
    if message.None? || !Contains(message.value, "401") then Ignore
    else if !StoredTruthy(refreshToken) then ForceLogout
    else match refresh
      case RefreshGranted(token) => if restarted then Restart(token) else ForceLogout
      case _ => ForceLogout
  }

  /** A refresh is attempted only for a close whose message mentions 401; every other close is
      left to the automatic reconnect. */
  lemma CloseWithout401Ignored(message: Option<string>, refreshToken: Option<Stored>, refresh: RefreshResult,
                               restarted: bool)
    ensures CloseDecision(message, refreshToken, refresh, restarted) == Ignore
      <==> message.None? || !exists i :: OccursAt(message.value, "401", i)
  {
    if message.Some? {
      ContainsIff(message.value, "401");
    }
  }

  /** After a 401 close the session survives only if a refresh token is stored, the refresh
      grants a new token and the connection restarts; every other path logs out. */
  lemma CloseAfter401(message: string, refreshToken: Option<Stored>, refresh: RefreshResult, restarted: bool)
    requires Contains(message, "401")
    ensures CloseDecision(Some(message), refreshToken, refresh, restarted) != Ignore
    ensures CloseDecision(Some(message), refreshToken, refresh, restarted).Restart?
      <==> StoredTruthy(refreshToken) && refresh.RefreshGranted? && restarted
    ensures CloseDecision(Some(message), refreshToken, refresh, restarted).Restart?
      ==> CloseDecision(Some(message), refreshToken, refresh, restarted).accessToken == refresh.accessToken
  {
  }
}
