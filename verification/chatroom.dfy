/** The chat room screen's state: the message list (newest first), the translation cache, the
    selected language, the input box, the room's members and header, and the announcement form.
    Hub events, network results and translations arrive as parameters. */
module Chatroom {
  import opened Outcomes
  import opened JsString
  import opened JsNumber
  import opened JsData
  import opened ChatMessages

  /** What `GET /api/chatroom/{id}` produced: a thrown request, a non-ok status, or the room.
      `members` and `messages` are `None` when the payload's field is not an array. */
  datatype RoomResponse =
    | RoomThrew
    | RoomNotOk(status: int)
    | RoomOk(name: Option<string>, description: Option<string>, members: Option<seq<Member>>,
             messages: Option<seq<HistoryMessage>>)

  const NotLoggedInAlert: Alert := Alert("Authentication Error", "You need to be logged in to send announcements.")

  /** The answer that makes the screen report success and reset the form. */
  predicate Accepted(post: AnnouncementPost) {
    post.Answered? && (post.status == 200 || post.status == 201)
  }

  /** The decision of `sendAnnouncement()`: the alert shown and, when the request is made, its
      body. `userId` and `roomId` are the stored user id and the route's room id; `storage`
      supplies the token; `post` is the request's outcome. */
  function SubmitAnnouncement(title: string, content: string, important: bool, userId: Option<string>,
                              roomId: Option<string>, storage: Storage, post: AnnouncementPost)
    : (r: (Alert, Option<AnnouncementRequest>))
    ensures r.1.Some? ==> r.1.value.title == title && r.1.value.content == content && r.1.value.important == important
    ensures r.0.title == "Success" <==> r.1.Some? && Accepted(post)
  {
    var check := ValidateAnnouncement(title, content, important, userId, roomId);
    if check.Err? then (Alert("Error", check.error), None)
    else if !StoredTruthy(TokenWithFallback(storage)) then (NotLoggedInAlert, None)
    else (AnnouncementAlert(post), Some(check.value))
  }

  /** A request is made exactly when both fields hold more than white space, both ids parse
      and a token is stored; a blank field is reported before anything else, and a missing token
      before any request. */
  lemma SubmitAnnouncementSteps(title: string, content: string, important: bool, userId: Option<string>,
                                roomId: Option<string>, storage: Storage, post: AnnouncementPost)
    ensures var r := SubmitAnnouncement(title, content, important, userId, roomId, storage, post);
      && (IsBlank(title) || IsBlank(content) ==> r == (Alert("Error", EmptyFieldsMessage), None))
      && (r.1.Some? <==>
            (!IsBlank(title) && !IsBlank(content) && userId.Some? && roomId.Some?
             && ParseInt(userId.value).Some? && ParseInt(roomId.value).Some?
             && StoredTruthy(TokenWithFallback(storage))))
      && (r.1.Some? ==> r == (AnnouncementAlert(post), Some(AnnouncementRequest(
            ParseInt(userId.value).value, ParseInt(roomId.value).value, title, content, important))))
      && (ValidateAnnouncement(title, content, important, userId, roomId).Ok? && !StoredTruthy(TokenWithFallback(storage))
          ==> r == (NotLoggedInAlert, None))
  {
  }

  class ChatroomScreen {
    var messages: seq<Message>
    var translations: Cache
    var language: Language
    var inputText: string
    var currentUserId: Option<int>
    var currentUsername: Option<string>
    var members: seq<Member>
    var title: string
    var description: Option<string>
    var canSendAnnouncements: bool
    var announcementTitle: string
    var announcementContent: string
    var isImportant: bool
    var announcementFormOpen: bool

    /** The screen as it mounts for the signed-in user. */
    constructor (userId: Option<int>, username: Option<string>, initialTitle: string)
      ensures messages == [] && translations == map[] && language == EN && inputText == ""
      ensures currentUserId == userId && currentUsername == username
      ensures members == [] && title == initialTitle && description == Some("")
      ensures !canSendAnnouncements && !announcementFormOpen
      ensures announcementTitle == "" && announcementContent == "" && !isImportant
    {
      messages := [];
      translations := map[];
      language := EN;
      inputText := "";
      currentUserId := userId;
      currentUsername := username;
      members := [];
      title := initialTitle;
      description := Some("");
      canSendAnnouncements := false;
      announcementTitle := "";
      announcementContent := "";
      isImportant := false;
      announcementFormOpen := false;
    }

    /** The `ReceiveMessage` handler: the user's own messages are already in the list and are
        dropped; any other message goes on top. */
    method ReceiveMessage(m: HubMessage)
      modifies this`messages
      ensures Some(m.senderId) == currentUserId ==> messages == old(messages)
      ensures Some(m.senderId) != currentUserId ==> messages == [FromHub(m)] + old(messages)
      ensures Some(m.senderId) != currentUserId ==>
        |messages| == |old(messages)| + 1 && messages[1..] == old(messages)
        && ParseInt(messages[0].id) == Some(m.id)
    {
      if Some(m.senderId) != currentUserId {
        messages := [FromHub(m)] + messages;
      }
    }

    /** `sendMessage()` after the hub calls: `delivered` says that every invoke succeeded,
        `now` is the clock, `translate` the translation service. On success the message goes on
        top with the next local id, is translated when a translation is on, and the input is
        cleared; otherwise nothing changes. */
    method SendMessage(delivered: bool, now: int, translate: (string, string) -> string)
      modifies this`messages, this`translations, this`inputText
      ensures !delivered ==> messages == old(messages) && translations == old(translations) && inputText == old(inputText)
      ensures delivered ==> inputText == ""
      ensures delivered ==>
        messages == [LocalMessage(|old(messages)|, old(inputText), now, currentUserId, currentUsername)] + old(messages)
      ensures delivered && language == EN ==> translations == old(translations)
      ensures delivered && language != EN ==>
        translations == CacheSet(old(translations), messages[0].id, TargetCode(language),
                                 translate(old(inputText), TargetCode(language)))
    {
      if !delivered {
        return;
      }
      var text := inputText;
      var newMessage := LocalMessage(|messages|, text, now, currentUserId, currentUsername);
      messages := [newMessage] + messages;
      if language != EN {
        var code := TargetCode(language);
        translations := CacheSet(translations, newMessage.id, code, translate(text, code));
      }
      inputText := "";
    }

    /** `fetchChatroomInfo()`: on success the header, the members and the whole message list
        are replaced; the list becomes the fetched history, newest first. */
    method LoadChatroomInfo(response: RoomResponse)
      modifies this`title, this`description, this`members, this`messages
      ensures !response.RoomOk? ==>
        title == old(title) && description == old(description) && members == old(members) && messages == old(messages)
      ensures response.RoomOk? ==>
        var safeMembers := if response.members.Some? then response.members.value else [];
        var safeMessages := if response.messages.Some? then response.messages.value else [];
        && title == (if response.name.Some? then response.name.value else "")
        && description == response.description
        && members == safeMembers
        && messages == HistoryList(safeMembers, safeMessages)
        && NewestFirst(messages)
        && multiset(messages) == multiset(FormatHistory(safeMembers, safeMessages))
    {
      if !response.RoomOk? {
        return;
      }
      var safeMembers := if response.members.Some? then response.members.value else [];
      var safeMessages := if response.messages.Some? then response.messages.value else [];
      ShowRoom(if response.name.Some? then response.name.value else "", response.description, safeMembers,
               HistoryList(safeMembers, safeMessages));
    }

    /** The state updates of a successful `fetchChatroomInfo()`. */
    method ShowRoom(name: string, text: Option<string>, roomMembers: seq<Member>, list: seq<Message>)
      modifies this`title, this`description, this`members, this`messages
      ensures title == name && description == text && members == roomMembers && messages == list
    {
      title := name;
      description := text;
      members := roomMembers;
      messages := list;
    }

    /** `translateVisibleMessages(code)`: each of the first ten messages whose translation the
        cache lacked when the call began is translated and stored. */
    method TranslateVisibleMessages(code: string, translate: (string, string) -> string)
      modifies this`translations
      ensures translations == TranslateAll(old(translations), VisibleMessages(messages), code, translate)
    {
      var visible := VisibleMessages(messages);
      var snapshot := translations;
      var i := 0;
      while i < |visible|
        invariant 0 <= i <= |visible|
        invariant translations == TranslateAll(snapshot, visible[..i], code, translate)
      {
        TranslateAllStep(snapshot, visible, i, code, translate);
        var m := visible[i];
        if NeedsTranslation(snapshot, m.id, code) {
          translations := CacheSet(translations, m.id, code, translate(m.text, code));
        }
        i := i + 1;
      }
      assert visible[..i] == visible;
    }

    /** `toggleLanguage()`: moves to the next language and, unless that is English, translates
        the visible messages into it. */
    method ToggleLanguage(translate: (string, string) -> string)
      modifies this`language, this`translations
      ensures language == NextLanguage(old(language))
      ensures language == EN ==> translations == old(translations)
      ensures language != EN ==>
        translations == TranslateAll(old(translations), VisibleMessages(messages), TargetCode(language), translate)
    {
      language := NextLanguage(language);
      if language != EN {
        TranslateVisibleMessages(TargetCode(language), translate);
      }
    }

    /** The role check of `getUserData()`: the permission is set only when the stored roles
        parse and the scan finishes; a thrown parse or scan leaves it as it was. */
    method LoadRoles(storedRoles: Option<Stored>)
      modifies this`canSendAnnouncements
      ensures !old(canSendAnnouncements) ==> canSendAnnouncements == CanSendAnnouncements(storedRoles)
      ensures canSendAnnouncements ==> old(canSendAnnouncements) || CanSendAnnouncements(storedRoles)
    {
      if !StoredTruthy(storedRoles) {
        return;
      }
      var parsed := ParseStored(storedRoles.value);
      if parsed.Err? {
        return;
      }
      if !parsed.value.JArr? {
        canSendAnnouncements := false;
        return;
      }
      var scan := SomePrivileged(parsed.value.items);
      if scan.Err? {
        return;
      }
      canSendAnnouncements := scan.value;
    }

    /** Empties the announcement form and shows or hides it. */
    method ResetAnnouncementForm(visible: bool)
      modifies this`announcementTitle, this`announcementContent, this`isImportant, this`announcementFormOpen
      ensures announcementTitle == "" && announcementContent == "" && !isImportant
      ensures announcementFormOpen == visible
    {
      announcementTitle, announcementContent, isImportant := "", "", false;
      announcementFormOpen := visible;
    }

    /** `navigateToSendAnnouncement()`: opens an empty form. */
    method OpenAnnouncementForm()
      modifies this`announcementTitle, this`announcementContent, this`isImportant, this`announcementFormOpen
      ensures announcementTitle == "" && announcementContent == "" && !isImportant && announcementFormOpen
    {
      ResetAnnouncementForm(true);
    }

    /** `sendAnnouncement()`: shows the alert `SubmitAnnouncement` decides on the form's
        contents; only an accepted request, the one alerted as a success, closes and resets the
        form. */
    method SendAnnouncement(userId: Option<string>, roomId: Option<string>, storage: Storage, post: AnnouncementPost)
      returns (alert: Alert, posted: Option<AnnouncementRequest>)
      modifies this`announcementTitle, this`announcementContent, this`isImportant, this`announcementFormOpen
      ensures (alert, posted) == SubmitAnnouncement(old(announcementTitle), old(announcementContent), old(isImportant),
                                                    userId, roomId, storage, post)
      ensures posted.Some? && Accepted(post) ==>
        announcementTitle == "" && announcementContent == "" && !isImportant && !announcementFormOpen
      ensures !(posted.Some? && Accepted(post)) ==>
        announcementTitle == old(announcementTitle) && announcementContent == old(announcementContent)
        && isImportant == old(isImportant) && announcementFormOpen == old(announcementFormOpen)
    {
      var outcome := SubmitAnnouncement(announcementTitle, announcementContent, isImportant, userId, roomId, storage, post);
      alert, posted := outcome.0, outcome.1;
      if posted.Some? && Accepted(post) {
        ResetAnnouncementForm(false);
      }
    }
  }
}
