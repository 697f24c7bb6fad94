/** The group details page: the member grid, the room header and its edit form, and the
    invitation flow. Storage, the room endpoints, the user search and the invitation POST arrive
    as parameters holding their outcomes. */
module GroupChat {
  import opened Outcomes
  import opened JsString
  import opened JsNumber
  import opened JsData
  import opened ChatMessages

  /** A user as the member list and the user search return it; `id` is `None` when the field
      is missing and `username` is `None` when it is not a string. */
  datatype UserEntry = UserEntry(id: Option<int>, username: Option<string>, profilePicture: Option<JsValue>)

  // ---------------------------------------------------------------- the member grid

  const VisibleMembersCount: nat := 8

  /** `members.slice(0, visibleMembersCount)`. */
  function ShownMembers(members: seq<UserEntry>): (r: seq<UserEntry>)
    ensures |r| <= VisibleMembersCount && r <= members
    ensures |members| <= VisibleMembersCount ==> r == members
  {
    if |members| <= VisibleMembersCount then members else members[..VisibleMembersCount]
  }

  predicate HasMoreMembers(members: seq<UserEntry>) {
    |members| > VisibleMembersCount
  }

  /** The "See More" badge, `+{members.length - visibleMembersCount}`. */
  function MoreLabel(members: seq<UserEntry>): string
    requires HasMoreMembers(members)
  {
    "+" + IntToString(|members| - VisibleMembersCount)
  }

  /** Every member is either in the grid or counted by the badge, and the badge appears exactly
      when some member is left out of the grid. */
  lemma GridAccountsForEveryMember(members: seq<UserEntry>)
    ensures HasMoreMembers(members) <==> |ShownMembers(members)| < |members|
    ensures HasMoreMembers(members) ==>
      |ShownMembers(members)| == VisibleMembersCount
      && MoreLabel(members)[0] == '+'
      && ParseInt(MoreLabel(members)[1..]) == Some(|members| - |ShownMembers(members)|)
  {
    if HasMoreMembers(members) {
      var hidden := |members| - VisibleMembersCount;
      var digits := IntToString(hidden);
      ParseIntOfIntToString(hidden);
      assert |ShownMembers(members)| == VisibleMembersCount;
      assert MoreLabel(members) == "+" + digits;
      assert MoreLabel(members)[1..] == digits;
    }
  }

  // ---------------------------------------------------------------- the invitation flow

  const EmptyUsernameMessage := "Please enter a username"
  const NotLoggedInMessage := "You need to be logged in"
  const SearchFailedMessage := "Failed to find user"
  const UserNotFoundMessage := "User not found"
  const AlreadyMemberMessage := "User is already a member of this group"
  const InviteSentMessage := "Invitation sent successfully"
  const ConflictMessage := "Invitation already exists or user is already a member"
  const BadRequestMessage := "Invalid invitation request"
  const InviteFailedMessage := "Failed to send invitation"
  const NetworkErrorMessage := "Network error"

  /** The username comparison of the search: `user.username.toLowerCase() === input.toLowerCase()`. */
  predicate NameMatches(u: UserEntry, input: string) {
    u.username.Some? && ToLower(u.username.value) == ToLower(input)
  }

  /** `data.find(...)` over the search results: the first user whose name matches; a user
      without a string name met before any match makes `toLowerCase` throw. */
  function FindExactMatch(users: seq<UserEntry>, input: string): (r: Result<Option<UserEntry>, string>)
    ensures r.Ok? && r.value.Some? ==> r.value.value in users && NameMatches(r.value.value, input)
    ensures r.Ok? && r.value.None? ==> forall k :: 0 <= k < |users| ==> users[k].username.Some? && !NameMatches(users[k], input)
    ensures r.Err? ==> exists k :: (0 <= k < |users| && users[k].username.None?
      && forall j :: 0 <= j < k ==> !NameMatches(users[j], input))
  {
    if users == [] then Ok(None)
    else if users[0].username.None? then Err("TypeError")
    else if NameMatches(users[0], input) then Ok(Some(users[0]))
    else
      var rest := FindExactMatch(users[1..], input);
      if rest.Err? then
        assert exists k :: (0 <= k < |users| && users[k].username.None?
          && forall j :: 0 <= j < k ==> !NameMatches(users[j], input)) by {
          var k :| 0 <= k < |users| - 1 && users[1..][k].username.None?
            && forall j :: 0 <= j < k ==> !NameMatches(users[1..][j], input);
          assert users[k + 1] == users[1..][k];
          assert forall j :: 0 <= j < k + 1 ==> !NameMatches(users[j], input) by {
            forall j | 0 <= j < k + 1 ensures !NameMatches(users[j], input) {
              if j > 0 { assert users[j] == users[1..][j - 1]; }
            }
          }
        }
        rest
      else rest
  }

  /** The chosen user is the first one whose name matches, and every user before it has a
      string name that does not. */
  lemma {:induction false} FindExactMatchIsFirst(users: seq<UserEntry>, input: string)
    requires FindExactMatch(users, input).Ok? && FindExactMatch(users, input).value.Some?
    ensures exists k :: (0 <= k < |users| && users[k] == FindExactMatch(users, input).value.value
      && forall j :: 0 <= j < k ==> users[j].username.Some? && !NameMatches(users[j], input))
  {
    var found := FindExactMatch(users, input).value.value;
    if !NameMatches(users[0], input) {
      FindExactMatchIsFirst(users[1..], input);
      var k :| 0 <= k < |users| - 1 && users[1..][k] == found
        && forall j :: 0 <= j < k ==> users[1..][j].username.Some? && !NameMatches(users[1..][j], input);
      assert users[k + 1] == found;
      forall j | 0 <= j < k + 1 ensures users[j].username.Some? && !NameMatches(users[j], input) {
        if j > 0 { assert users[j] == users[1..][j - 1]; }
      }
    } else {
      assert users[0] == found;
    }
  }

  /** `members.some(member => member.id === exactMatch.id)`. */
  predicate IsMember(members: seq<UserEntry>, id: Option<int>) {
    exists k :: 0 <= k < |members| && members[k].id == id
  }

  /** The user search: a thrown request, or the answer, whose data is `None` when it is not an
      array. */
  datatype SearchOutcome = SearchThrew | SearchAnswered(users: Option<seq<UserEntry>>)

  /** The invitation POST: a 2xx answer, an error response (status and body), or an error
      without a response. */
  datatype InvitePost = InviteAnswered | InviteRejected(status: int, body: JsValue) | InviteUnanswered

  /** The body of the invitation POST; `chatRoomId` is `None` where `parseInt` gives NaN. */
  datatype Invitation = Invitation(receiverId: Option<int>, chatRoomId: Option<int>)

  /** The toast after the invitation POST. */
  function InviteResultMessage(post: InvitePost): (m: string)
    ensures post.InviteAnswered? ==> m == InviteSentMessage
    ensures post.InviteUnanswered? ==> m == NetworkErrorMessage
    ensures post.InviteRejected? && post.status == 409 ==> m == ConflictMessage
    ensures post.InviteRejected? && post.status == 400 ==>
      m == (if post.body.JStr? then post.body.s else BadRequestMessage)
    ensures post.InviteRejected? && post.status != 409 && post.status != 400 ==> m == InviteFailedMessage
  {
    match post
    case InviteAnswered => InviteSentMessage
    case InviteRejected(status, body) =>
      if status == 409 then ConflictMessage
      else if status == 400 then (if body.JStr? then body.s else BadRequestMessage)
      else InviteFailedMessage
    case InviteUnanswered => NetworkErrorMessage
  }

  /** The decision of `handleSendInvite()`: the toast shown and, when the POST is made, its
      body. */
  function InviteOutcome(input: string, token: Option<Stored>, members: seq<UserEntry>, roomId: Option<string>,
                         search: SearchOutcome, post: InvitePost): (r: (string, Option<Invitation>))
    ensures r.1.Some? ==> r.0 == InviteResultMessage(post)
    ensures r.1.Some? ==> r.1.value.chatRoomId == (if roomId.Some? then ParseInt(roomId.value) else None)
  {
    if IsBlank(input) then (EmptyUsernameMessage, None)
    else if !StoredTruthy(token) then (NotLoggedInMessage, None)
    else if search.SearchThrew? || search.users.None? then (SearchFailedMessage, None)
    else
      var found := FindExactMatch(search.users.value, input);
      if found.Err? then (SearchFailedMessage, None)
      else if found.value.None? then (UserNotFoundMessage, None)
      else if IsMember(members, found.value.value.id) then (AlreadyMemberMessage, None)
      else
        var roomNumber := if roomId.Some? then ParseInt(roomId.value) else None;
        (InviteResultMessage(post), Some(Invitation(found.value.value.id, roomNumber)))
  }

  /** A blank input and a missing token each get their own toast, and no refusal claims
      success. */
  lemma InviteRefusalsHaveOwnToasts(input: string, token: Option<Stored>, members: seq<UserEntry>,
                                    roomId: Option<string>, search: SearchOutcome, post: InvitePost)
    ensures IsBlank(input) ==> InviteOutcome(input, token, members, roomId, search, post) == (EmptyUsernameMessage, None)
    ensures !IsBlank(input) && !StoredTruthy(token) ==>
      InviteOutcome(input, token, members, roomId, search, post) == (NotLoggedInMessage, None)
    ensures InviteOutcome(input, token, members, roomId, search, post).1.None? ==>
      InviteOutcome(input, token, members, roomId, search, post).0 != InviteSentMessage
  {
    var r := InviteOutcome(input, token, members, roomId, search, post);
    if r.1.None? {
      assert r.0 in {EmptyUsernameMessage, NotLoggedInMessage, SearchFailedMessage, UserNotFoundMessage,
                     AlreadyMemberMessage};
    }
  }

  /** An invitation is posted only for a non-blank input, with a token, to a user of the search
      whose name matches the input regardless of case and who is not already a member. */
  lemma InviteOnlyToMatchingNonMember(input: string, token: Option<Stored>, members: seq<UserEntry>,
                                      roomId: Option<string>, search: SearchOutcome, post: InvitePost)
    requires InviteOutcome(input, token, members, roomId, search, post).1.Some?
    ensures !IsBlank(input) && StoredTruthy(token) && search.SearchAnswered? && search.users.Some?
    ensures var receiver := InviteOutcome(input, token, members, roomId, search, post).1.value.receiverId;
      && (exists k :: (0 <= k < |search.users.value| && NameMatches(search.users.value[k], input)
                       && search.users.value[k].id == receiver))
      && !IsMember(members, receiver)
  {
    var users := search.users.value;
    var found := FindExactMatch(users, input);
    assert found.Ok? && found.value.Some?;
    var receiver := found.value.value;
    assert InviteOutcome(input, token, members, roomId, search, post).1.value.receiverId == receiver.id;
    var k :| 0 <= k < |users| && users[k] == receiver;
    assert NameMatches(users[k], input);
  }

  /** Conversely, a non-blank input with a token posts an invitation to the first user of the
      search whose name matches it, whenever that user is not already a member; the toast is
      the one for the POST's answer. */
  lemma InviteToFirstMatchingNonMember(input: string, token: Option<Stored>, members: seq<UserEntry>,
                                       roomId: Option<string>, users: seq<UserEntry>, post: InvitePost, k: nat)
    requires !IsBlank(input) && StoredTruthy(token)
    requires k < |users| && NameMatches(users[k], input)
    requires forall j :: 0 <= j < k ==> users[j].username.Some? && !NameMatches(users[j], input)
    requires !IsMember(members, users[k].id)
    ensures InviteOutcome(input, token, members, roomId, SearchAnswered(Some(users)), post)
      == (InviteResultMessage(post),
          Some(Invitation(users[k].id, if roomId.Some? then ParseInt(roomId.value) else None)))
  {
    FindExactMatchOfFirst(users, input, k);
  }

  /** The search picks the first matching user when every user before it has a string name. */
  lemma {:induction false} FindExactMatchOfFirst(users: seq<UserEntry>, input: string, k: nat)
    requires k < |users| && NameMatches(users[k], input)
    requires forall j :: 0 <= j < k ==> users[j].username.Some? && !NameMatches(users[j], input)
    ensures FindExactMatch(users, input) == Ok(Some(users[k]))
  {
    if k > 0 {
      assert users[0].username.Some? && !NameMatches(users[0], input);
      forall j | 0 <= j < k - 1
        ensures users[1..][j].username.Some? && !NameMatches(users[1..][j], input)
      {
        assert users[1..][j] == users[j + 1];
      }
      FindExactMatchOfFirst(users[1..], input, k - 1);
    }
  }

  /** A search that answers with no matching user ends in "User not found", never in a POST. */
  lemma UnknownUserNotInvited(input: string, token: Option<Stored>, members: seq<UserEntry>,
                              roomId: Option<string>, users: seq<UserEntry>, post: InvitePost)
    requires !IsBlank(input) && StoredTruthy(token)
    requires forall k :: 0 <= k < |users| ==> users[k].username.Some? && !NameMatches(users[k], input)
    ensures InviteOutcome(input, token, members, roomId, SearchAnswered(Some(users)), post) == (UserNotFoundMessage, None)
  {
    FindExactMatchOfNoMatch(users, input);
  }

  lemma {:induction false} FindExactMatchOfNoMatch(users: seq<UserEntry>, input: string)
    requires forall k :: 0 <= k < |users| ==> users[k].username.Some? && !NameMatches(users[k], input)
    ensures FindExactMatch(users, input) == Ok(None)
  {
    if users != [] {
      FindExactMatchOfNoMatch(users[1..], input);
    }
  }

  // ---------------------------------------------------------------- the header edit

  const EmptyGroupNameAlert := Alert("Error", "Group name cannot be empty")
  const EditNotLoggedInAlert := Alert("Authentication Error", "You need to be logged in to edit group details")
  const EditSavedAlert := Alert("Success", "Group information updated successfully")
  const EditFailedAlert := Alert("Error", "Failed to update group information")

  /** The body of the room update. */
  datatype RoomUpdate = RoomUpdate(id: Option<int>, name: string, description: string)

  /** The PUT of the room update: answered with a status, or thrown. */
  datatype SaveResponse = SaveAnswered(status: int) | SaveThrew

  /** `GET /api/ChatRoom/{id}` as the page reads it: a failure, or the room's name and
      description. */
  datatype RoomInfo = RoomInfoFailed | RoomInfoOk(name: Option<string>, description: Option<string>)

  /** The members request: a failure, or the list. */
  datatype MembersResponse = MembersFailed | MembersOk(list: seq<UserEntry>)

  /** `s || ""` for a route parameter. */
  function OrEmpty(s: Option<string>): (r: string)
    ensures r == "" <==> !Filled(s)
    ensures Filled(s) ==> r == s.value
  {
    if s.Some? then s.value else ""
  }

  /** Truthiness of an optional string. */
  predicate Filled(s: Option<string>) {
    s.Some? && s.value != ""
  }

  /** A 200 or 204 answer to the room update. */
  predicate SaveSucceeded(response: SaveResponse) {
    response.SaveAnswered? && (response.status == 200 || response.status == 204)
  }

  /** The decision of `handleSaveEdit()`: the alert shown and, when the PUT is made, its body. */
  function SaveEditOutcome(name: string, text: string, token: Option<Stored>, roomId: Option<string>,
                           response: SaveResponse): (r: (Alert, Option<RoomUpdate>))
    ensures r.1.Some? ==> r.1.value.name == name && r.1.value.description == text
    ensures r.0 == EditSavedAlert <==> r.1.Some? && SaveSucceeded(response)
  {
    if IsBlank(name) then (EmptyGroupNameAlert, None)
    else if !StoredTruthy(token) then (EditNotLoggedInAlert, None)
    else
      var request := RoomUpdate(if roomId.Some? then ParseInt(roomId.value) else None, name, text);
      (if SaveSucceeded(response) then EditSavedAlert else EditFailedAlert, Some(request))
  }

  /** A name of only white space is refused before anything else; without a token nothing is
      sent; otherwise the PUT carries the parsed room id and the edited name and description,
      and every answer but 200 or 204 is reported as a failure. */
  lemma SaveEditSteps(name: string, text: string, token: Option<Stored>, roomId: Option<string>,
                      response: SaveResponse)
    ensures var r := SaveEditOutcome(name, text, token, roomId, response);
      && (IsBlank(name) ==> r == (EmptyGroupNameAlert, None))
      && (!IsBlank(name) && !StoredTruthy(token) ==> r == (EditNotLoggedInAlert, None))
      && (r.1.Some? <==> !IsBlank(name) && StoredTruthy(token))
      && (r.1.Some? ==> r.1.value == RoomUpdate(if roomId.Some? then ParseInt(roomId.value) else None, name, text))
      && (r.1.Some? && !SaveSucceeded(response) ==> r.0 == EditFailedAlert)
  {
  }

  class GroupChatPage {
    const roomId: Option<string>
    var members: seq<UserEntry>
    var loading: bool
    var title: string
    var description: string
    var editTitle: string
    var editDescription: string
    var isModalVisible: bool
    var inviteModalVisible: bool
    var inviteInput: string
    var inviteLoading: bool

    /** The page as it opens with its route parameters. */
    constructor (room: Option<string>, initialTitle: Option<string>, initialDescription: Option<string>)
      ensures roomId == room && members == [] && loading
      ensures title == OrEmpty(initialTitle) && editTitle == title
      ensures description == OrEmpty(initialDescription) && editDescription == description
      ensures !isModalVisible && !inviteModalVisible && inviteInput == "" && !inviteLoading
    {
      roomId := room;
      members := [];
      loading := true;
      title := OrEmpty(initialTitle);
      editTitle := OrEmpty(initialTitle);
      description := OrEmpty(initialDescription);
      editDescription := OrEmpty(initialDescription);
      isModalVisible := false;
      inviteModalVisible := false;
      inviteInput := "";
      inviteLoading := false;
    }

    /** `fetchChatRoomInfo()`: a fetched name or description replaces the shown one and the
        edit form's copy only when it is a non-empty string; a missing room id or a failed
        request changes nothing. */
    method FetchChatRoomInfo(info: RoomInfo)
      modifies this`title, this`editTitle, this`description, this`editDescription
      ensures Filled(roomId) && info.RoomInfoOk? && Filled(info.name) ==>
        title == info.name.value && editTitle == info.name.value
      ensures !(Filled(roomId) && info.RoomInfoOk? && Filled(info.name)) ==>
        title == old(title) && editTitle == old(editTitle)
      ensures Filled(roomId) && info.RoomInfoOk? && Filled(info.description) ==>
        description == info.description.value && editDescription == info.description.value
      ensures !(Filled(roomId) && info.RoomInfoOk? && Filled(info.description)) ==>
        description == old(description) && editDescription == old(editDescription)
    {
      if !Filled(roomId) || info.RoomInfoFailed? {
        return;
      }
      if Filled(info.name) {
        title := info.name.value;
        editTitle := info.name.value;
      }
      if Filled(info.description) {
        description := info.description.value;
        editDescription := info.description.value;
      }
    }

    /** `fetchMembers()`: the list is replaced by the fetched one, or emptied when the request
        fails; loading ends either way. */
    method FetchMembers(response: MembersResponse)
      modifies this`members, this`loading
      ensures !loading
      ensures !Filled(roomId) ==> members == old(members)
      ensures Filled(roomId) ==> members == (if response.MembersOk? then response.list else [])
    {
      if Filled(roomId) {
        members := if response.MembersOk? then response.list else [];
      }
      loading := false;
    }

    /** `handleInvitePress()`: opens the invitation form empty. */
    method OpenInviteForm()
      modifies this`inviteModalVisible, this`inviteInput
      ensures inviteModalVisible && inviteInput == ""
    {
      inviteModalVisible := true;
      inviteInput := "";
    }

    /** `handleSendInvite()`: shows the toast `InviteOutcome` decides; a blank input changes
        nothing else, any other input ends with loading off, and only an answered POST closes and
        clears the form. */
    method HandleSendInvite(storage: Storage, search: SearchOutcome, post: InvitePost)
      returns (toast: string, posted: Option<Invitation>)
      modifies this`inviteModalVisible, this`inviteInput, this`inviteLoading
      ensures (toast, posted) == InviteOutcome(old(inviteInput), TokenWithFallback(storage), members, roomId, search, post)
      ensures IsBlank(old(inviteInput)) ==> inviteLoading == old(inviteLoading)
      ensures !IsBlank(old(inviteInput)) ==> !inviteLoading
      ensures posted.Some? && post.InviteAnswered? ==> !inviteModalVisible && inviteInput == ""
      ensures !(posted.Some? && post.InviteAnswered?) ==>
        inviteModalVisible == old(inviteModalVisible) && inviteInput == old(inviteInput)
    {
      var input := inviteInput;
      var blank := IsBlank(input);
      var outcome := InviteOutcome(input, TokenWithFallback(storage), members, roomId, search, post);
      toast, posted := outcome.0, outcome.1;
      if blank {
        return;
      }
      EndInvite(posted.Some? && post.InviteAnswered?);
    }

    /** The end of a non-blank `handleSendInvite()`: loading stops, and the form is closed and
        cleared when `sent`. */
    method EndInvite(sent: bool)
      modifies this`inviteModalVisible, this`inviteInput, this`inviteLoading
      ensures !inviteLoading
      ensures sent ==> !inviteModalVisible && inviteInput == ""
      ensures !sent ==> inviteModalVisible == old(inviteModalVisible) && inviteInput == old(inviteInput)
    {
      if sent {
        inviteModalVisible := false;
        inviteInput := "";
      }
      inviteLoading := false;
    }

    /** `handleSaveEdit()`: shows the alert `SaveEditOutcome` decides; only a saved edit makes
        the edited name and description the shown ones and closes the form. */
    method HandleSaveEdit(storage: Storage, response: SaveResponse) returns (alert: Alert, request: Option<RoomUpdate>)
      modifies this`title, this`description, this`isModalVisible
      ensures (alert, request) == SaveEditOutcome(editTitle, editDescription, TokenWithFallback(storage), roomId, response)
      ensures request.Some? && SaveSucceeded(response) ==>
        title == editTitle && description == editDescription && !isModalVisible
      ensures !(request.Some? && SaveSucceeded(response)) ==>
        title == old(title) && description == old(description) && isModalVisible == old(isModalVisible)
    {
      var outcome := SaveEditOutcome(editTitle, editDescription, TokenWithFallback(storage), roomId, response);
      alert, request := outcome.0, outcome.1;
      if request.Some? && SaveSucceeded(response) {
        ShowSavedHeader(editTitle, editDescription);
      }
    }

    /** The end of a saved edit: the header shows the saved name and description and the form
        closes. */
    method ShowSavedHeader(name: string, text: string)
      modifies this`title, this`description, this`isModalVisible
      ensures title == name && description == text && !isModalVisible
    {
      title := name;
      description := text;
      isModalVisible := false;
    }
  }
}
