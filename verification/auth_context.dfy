/** The authentication context: the signed-in user, the e-mail awaiting verification and the
    persistent key-value store, changed step by step by the context's operations. Network
    results arrive as parameters. */
module AuthContext {
  import opened Outcomes
  import opened JsData
  import opened AuthRules
  import opened JsString

  const MissingAuthMessage: string := "Missing auth info"
  const NoTokenMessage: string := "Authentication token not found. Please log in again."

  class AuthProvider {
    var user: Option<User>
    var storage: Storage
    var verificationEmail: Option<string>

    /** Nobody is signed in and no session key is stored. */
    predicate SignedOut()
      reads this
    {
      user.None? && storage.Keys !! SessionKeys
    }

    constructor (stored: Storage)
      ensures user.None? && storage == stored && verificationEmail.None?
    {
      user := None;
      storage := stored;
      verificationEmail := None;
    }

    /** `logout()`: removes the four session keys and forgets the user. */
    method Logout()
      modifies this
      ensures storage == ClearSession(old(storage)) && user.None?
      ensures verificationEmail == old(verificationEmail)
      ensures SignedOut()
    {
      storage := storage - {"userData"};
      storage := storage - {"user"};
      storage := storage - {"accessToken"};
      storage := storage - {"refreshToken"};
      user := None;
    }

    /** `loadUser()` at app start. `profileWithStored` is the profile request made with the
        stored access token, `refresh` the refresh request, `profileAfterRefresh` the profile
        request made with the refreshed token; each is consulted only when the code reaches it. */
    method LoadUser(profileWithStored: Result<User, string>, refresh: RefreshResult,
                    profileAfterRefresh: Result<User, string>)
      modifies this
      ensures verificationEmail == old(verificationEmail)
      ensures var access := StoredTruthy(GetItem(old(storage), "accessToken"));
        var refreshable := StoredTruthy(GetItem(old(storage), "refreshToken"));
        && (!access && !refreshable ==> user == old(user) && storage == old(storage))
        && (access && profileWithStored.Ok? ==> user == Some(profileWithStored.value) && storage == old(storage))
        && ((!access || profileWithStored.Err?) && !refreshable ==> user == old(user) && storage == old(storage))
        && ((!access || profileWithStored.Err?) && refreshable && refresh.RefreshThrew?
            ==> user == old(user) && storage == old(storage))
        && ((!access || profileWithStored.Err?) && refreshable && refresh.RefreshRefused?
            ==> user.None? && storage == ClearSession(old(storage)))
        && ((!access || profileWithStored.Err?) && refreshable && refresh.RefreshGranted?
            ==> storage == old(storage)["accessToken" := Raw(refresh.accessToken)]
                && user == if profileAfterRefresh.Ok? then Some(profileAfterRefresh.value) else old(user))
    {
      var accessToken := GetItem(storage, "accessToken");
      var refreshToken := GetItem(storage, "refreshToken");
      if !StoredTruthy(accessToken) && !StoredTruthy(refreshToken) {
        return;
      }
      if StoredTruthy(accessToken) {
        if profileWithStored.Ok? {
          user := Some(profileWithStored.value);
          return;
        }
      }
      if StoredTruthy(refreshToken) {
        match refresh {
          case RefreshThrew =>
          case RefreshGranted(newToken) =>
            storage := storage["accessToken" := Raw(newToken)];
            if profileAfterRefresh.Ok? {
              user := Some(profileAfterRefresh.value);
            }
          case RefreshRefused =>
            storage := storage - {"accessToken", "refreshToken", "user", "userData"};
            user := None;
        }
      }
    }

    /** `register(...)`. `response` is the registration request's outcome, with the server's
        message on failure. `requested` says whether the request was made; `message` is the
        toast text. */
    method Register(email: string, password: string, response: Result<(), Option<string>>)
      returns (requested: bool, registered: bool, message: string)
      modifies this`verificationEmail
      ensures requested <==> CheckRegistration(email, password) == Proceed
      ensures registered <==> requested && response.Ok?
      ensures verificationEmail == if registered then Some(email) else old(verificationEmail)
      ensures CheckRegistration(email, password) == InvalidEmail ==> message == "Email must be an OAMK or Fontys email."
      ensures CheckRegistration(email, password) == WeakPassword ==> message == "Password must be at least 8 characters."
      ensures requested && response.Err? ==> message == RegistrationFailureText(response.error)
    {
      requested, registered := false, false;
      if !IsValidEmail(email) {
        message := "Email must be an OAMK or Fontys email.";
        return;
      }
      if Utf16Length(password) < MinPasswordLength {
        message := "Password must be at least 8 characters.";
        return;
      }
      requested := true;
      match response {
        case Ok(_) =>
          verificationEmail := Some(email);
          registered := true;
          message := "Please verify your email.";
        case Err(serverMessage) =>
          message := RegistrationFailureText(serverMessage);
      }
    }

    /** `login(email, password)`. `tokens` is the login request's (refresh, access) token pair;
        `profile` the profile request made with the new access token. */
    method Login(tokens: Result<(string, string), string>, profile: Result<User, string>)
      returns (ok: bool)
      modifies this
      ensures verificationEmail == old(verificationEmail)
      ensures ok <==> tokens.Ok? && profile.Ok?
      ensures tokens.Err? ==> storage == old(storage) && user == old(user)
      ensures tokens.Ok? ==> storage == old(storage)["refreshToken" := Raw(tokens.value.0)]["accessToken" := Raw(tokens.value.1)]
      ensures tokens.Ok? ==> user == if profile.Ok? then Some(profile.value) else old(user)
    {
      ok := false;
      if tokens.Err? {
        return;
      }
      var (refreshToken, accessToken) := tokens.value;
      storage := storage["refreshToken" := Raw(refreshToken)];
      storage := storage["accessToken" := Raw(accessToken)];
      if profile.Ok? {
        user := Some(profile.value);
        ok := true;
      }
    }

    /** `updateUser(patch)`. `response` is the profile update request's outcome; its error is
        re-thrown. `requested` says whether the request was made. */
    method UpdateUser(patch: User, response: Result<(), string>) returns (requested: bool, r: Result<(), string>)
      modifies this
      ensures verificationEmail == old(verificationEmail)
      ensures requested <==> StoredTruthy(GetItem(old(storage), "accessToken")) && HasTruthyId(old(user))
      ensures !requested ==> r == Err(MissingAuthMessage)
      ensures requested && response.Err? ==> r == response
      ensures r.Err? ==> user == old(user) && storage == old(storage)
      ensures r.Ok? <==> requested && response.Ok?
      ensures r.Ok? ==> var merged := MergeUser(old(user).value, patch);
        && user == Some(merged)
        && storage == old(storage)["user" := Doc(JObj(merged))]["userData" := Doc(JObj(merged))]
    {
      var accessToken := GetItem(storage, "accessToken");
      if !StoredTruthy(accessToken) || !HasTruthyId(user) {
        return false, Err(MissingAuthMessage);
      }
      requested := true;
      if response.Err? {
        return requested, response;
      }
      var updated := MergeUser(user.value, patch);
      user := Some(updated);
      storage := storage["user" := Doc(JObj(updated))];
      storage := storage["userData" := Doc(JObj(updated))];
      r := Ok(());
    }

    /** `deleteAccount()`. `profile` is the profile request used as the last source of the user
        id; `deletion` the DELETE request's status, or its error. `deletedId` is the id the
        DELETE request was sent for. */
    method DeleteAccount(profile: ProfileFetch, deletion: Result<int, string>)
      returns (r: Result<bool, string>, deletedId: Option<JsValue>)
      modifies this
      ensures verificationEmail == old(verificationEmail)
      ensures !StoredTruthy(GetItem(old(storage), "accessToken")) ==> r == Err(NoTokenMessage) && deletedId.None?
      ensures deletedId.Some? ==> Truthy(deletedId.value)
      ensures r.Ok? ==> r.value && deletedId.Some? && deletion.Ok? && 200 <= deletion.value < 300
      ensures r.Ok? ==> storage == ClearSession(old(storage)) && SignedOut()
      ensures r.Err? ==> storage == old(storage) && user == old(user)
      ensures deletedId.Some? && deletion.Ok? && !(200 <= deletion.value < 300)
        ==> r == Err(DeleteErrorMessage(deletion.value))
      ensures deletedId.Some? && deletion.Err? ==> r == Err(deletion.error)
      ensures var resolved := ResolveUserId(GetItem(old(storage), "userData"), old(user), profile);
        && (StoredTruthy(GetItem(old(storage), "accessToken")) ==> (deletedId.Some? <==> resolved.Ok?))
        && (deletedId.Some? ==> deletedId.value == resolved.value)
        && (StoredTruthy(GetItem(old(storage), "accessToken")) && resolved.Err? ==> r == Err(resolved.error))
      ensures deletedId.Some? && deletion.Ok? && 200 <= deletion.value < 300
        ==> r == Ok(true) && storage == ClearSession(old(storage)) && SignedOut()
    {
      deletedId := None;
      var accessToken := GetItem(storage, "accessToken");
      if !StoredTruthy(accessToken) {
        return Err(NoTokenMessage), deletedId;
      }
      var userId := ResolveUserId(GetItem(storage, "userData"), user, profile);
      if userId.Err? {
        return Err(userId.error), deletedId;
      }
      deletedId := Some(userId.value);
      if deletion.Err? {
        return Err(deletion.error), deletedId;
      }
      var status := deletion.value;
      if 200 <= status < 300 {
        Logout();
        return Ok(true), deletedId;
      }
      r := Err(DeleteErrorMessage(status));
    }

    /** The hub connection's `onclose` handler. */
    method OnClose(message: Option<string>, refresh: RefreshResult, restarted: bool)
      modifies this
      ensures verificationEmail == old(verificationEmail)
      ensures var action := CloseDecision(message, GetItem(old(storage), "refreshToken"), refresh, restarted);
        && (action == Ignore ==> storage == old(storage) && user == old(user))
        && (action == ForceLogout ==> storage == ClearSession(old(storage)) && user.None?)
        && (action.Restart? ==> storage == old(storage)["accessToken" := Raw(action.accessToken)] && user == old(user))
    {
      if message.None? || !Contains(message.value, "401") {
        return;
      }
      var refreshToken := GetItem(storage, "refreshToken");
      if !StoredTruthy(refreshToken) {
        Logout();
        return;
      }
      match refresh {
        case RefreshGranted(newToken) =>
          ghost var before := storage;
          storage := storage["accessToken" := Raw(newToken)];
          if !restarted {
            assert ClearSession(storage) == ClearSession(before);
            Logout();
          }
        case _ =>
          Logout();
      }
    }
  }
}
