/** The values and rules behind the chat room's message list: how hub and history messages
    become list entries, the newest-first order, the per-message translation cache, the
    language cycle, and who may post announcements. */
module ChatMessages {
  import opened Outcomes
  import opened JsString
  import opened JsNumber
  import opened JsData

  /** One entry of the message list. `sentAt` is the timestamp (milliseconds) the displayed
      time is formatted from. */
  datatype Message = Message(id: string, text: string, sentAt: int, senderId: Option<int>, senderUsername: string)

  /** A `ReceiveMessage` payload from the hub; `senderUsername` is `message.sender?.username`. */
  datatype HubMessage = HubMessage(id: int, messageText: string, senderId: int, senderUsername: Option<string>, sentAt: int)

  /** A member of the room, as the room endpoint lists them. */
  datatype Member = Member(id: int, username: Option<string>)

  /** A message of the room history, as the room endpoint lists them. */
  datatype HistoryMessage = HistoryMessage(id: int, messageText: string, senderId: int, sentAt: int)

  const UnknownSender: string := "Unknown"

  /** `name || "Unknown"`. */
  function NameOrUnknown(name: Option<string>): (r: string)
    ensures r != ""
    ensures name.Some? && name.value != "" ==> r == name.value
    ensures !(name.Some? && name.value != "") ==> r == UnknownSender
  {
    if name.Some? && name.value != "" then name.value else UnknownSender
  }

  /** The list entry for a message pushed by the hub. */
  function FromHub(m: HubMessage): (r: Message)
    ensures ParseInt(r.id) == Some(m.id)
    ensures r.text == m.messageText && r.senderId == Some(m.senderId) && r.sentAt == m.sentAt
    ensures r.senderUsername == NameOrUnknown(m.senderUsername)
  {
    ParseIntOfIntToString(m.id);
    Message(IntToString(m.id), m.messageText, m.sentAt, Some(m.senderId), NameOrUnknown(m.senderUsername))
  }

  /** The list entry `sendMessage()` builds for the user's own message when the list holds
      `count` messages. */
  function LocalMessage(count: nat, text: string, now: int, userId: Option<int>, username: Option<string>): (r: Message)
    ensures r.text == text && r.sentAt == now && r.senderId == userId
    ensures r.senderUsername == NameOrUnknown(username)
  {
    Message(NatToString(count + 1), text, now, userId, NameOrUnknown(username))
  }

  /** The local id of the user's own message parses to the list length plus one, and differs
      from the local id given at any other length. */
  lemma LocalIdCountsMessages(count: nat, other: nat, text: string, now: int, userId: Option<int>,
                              username: Option<string>)
    ensures ParseInt(LocalMessage(count, text, now, userId, username).id) == Some(count + 1)
    ensures other != count ==>
      LocalMessage(other, text, now, userId, username).id != LocalMessage(count, text, now, userId, username).id
  {
    ParseIntOfNatToString(count + 1);
    ParseIntOfNatToString(other + 1);
  }

  /** `members.find(member => member.id === senderId)?.username || "Unknown"`. */
  function SenderName(members: seq<Member>, senderId: int): string {
    if members == [] then UnknownSender
    else if members[0].id == senderId then NameOrUnknown(members[0].username)
    else SenderName(members[1..], senderId)
  }

  /** The sender's name is the name of the first member with the sender's id. */
  lemma {:induction false} SenderNameIsFirstMatch(members: seq<Member>, senderId: int, k: nat)
    requires k < |members| && members[k].id == senderId
    requires forall j :: 0 <= j < k ==> members[j].id != senderId
    ensures SenderName(members, senderId) == NameOrUnknown(members[k].username)
  {
    if k > 0 {
      assert members[0].id != senderId;
      forall j | 0 <= j < k - 1
        ensures members[1..][j].id != senderId
      {
        assert members[1..][j] == members[j + 1];
      }
      SenderNameIsFirstMatch(members[1..], senderId, k - 1);
    }
  }

  /** The sender's name is "Unknown" when no member has the sender's id. */
  lemma {:induction false} SenderNameOfStranger(members: seq<Member>, senderId: int)
    requires forall i :: 0 <= i < |members| ==> members[i].id != senderId
    ensures SenderName(members, senderId) == UnknownSender
  {
    if members != [] {
      forall i | 0 <= i < |members| - 1
        ensures members[1..][i].id != senderId
      {
        assert members[1..][i] == members[i + 1];
      }
      SenderNameOfStranger(members[1..], senderId);
    }
  }

  /** The list entry for a history message. */
  function FromHistory(members: seq<Member>, m: HistoryMessage): (r: Message)
    ensures ParseInt(r.id) == Some(m.id)
    ensures r.text == m.messageText && r.senderId == Some(m.senderId) && r.sentAt == m.sentAt
    ensures r.senderUsername == SenderName(members, m.senderId)
  {
    ParseIntOfIntToString(m.id);
    Message(IntToString(m.id), m.messageText, m.sentAt, Some(m.senderId), SenderName(members, m.senderId))
  }

  /** The history messages, each turned into a list entry, in the order fetched. */
  function FormatHistory(members: seq<Member>, history: seq<HistoryMessage>): (r: seq<Message>)
    ensures |r| == |history|
    ensures forall i :: 0 <= i < |history| ==> r[i] == FromHistory(members, history[i])
  {
    if history == [] then [] else [FromHistory(members, history[0])] + FormatHistory(members, history[1..])
  }

  /** Newest first: `sentAt` never increases along the list. */
  predicate NewestFirst(s: seq<Message>) {
    forall i, j :: 0 <= i < j < |s| ==> s[i].sentAt >= s[j].sentAt
  }

  /** Puts `m` into a list ahead of the first entry that is not newer than `m`. */
  function Insert(m: Message, s: seq<Message>): seq<Message> {
    if s == [] || m.sentAt >= s[0].sentAt then [m] + s else [s[0]] + Insert(m, s[1..])
  }

  /** No message of `s` was sent after `t`. */
  predicate NoNewerThan(t: int, s: seq<Message>) {
    forall k :: 0 <= k < |s| ==> s[k].sentAt <= t
  }

  /** Inserting a message no newer than `t` keeps every message no newer than `t`. */
  lemma {:induction false} InsertNoNewer(t: int, m: Message, s: seq<Message>)
    requires NoNewerThan(t, s) && m.sentAt <= t
    ensures NoNewerThan(t, Insert(m, s))
  {
    if s != [] && m.sentAt < s[0].sentAt {
      InsertNoNewer(t, m, s[1..]);
    }
  }

  /** Inserting adds exactly `m`. */
  lemma {:induction false} InsertAddsOne(m: Message, s: seq<Message>)
    ensures multiset(Insert(m, s)) == multiset(s) + multiset{m}
  {
    if s != [] && m.sentAt < s[0].sentAt {
      InsertAddsOne(m, s[1..]);
      assert s == [s[0]] + s[1..];
    }
  }

  /** Inserting keeps a newest-first list newest first. */
  lemma {:induction false} InsertKeepsOrder(m: Message, s: seq<Message>)
    requires NewestFirst(s)
    ensures NewestFirst(Insert(m, s))
  {
    if s != [] && m.sentAt < s[0].sentAt {
      var rest := Insert(m, s[1..]);
      InsertKeepsOrder(m, s[1..]);
      assert NoNewerThan(s[0].sentAt, s[1..]);
      InsertNoNewer(s[0].sentAt, m, s[1..]);
      var r := [s[0]] + rest;
      forall i, j | 0 <= i < j < |r| ensures r[i].sentAt >= r[j].sentAt {
        assert r[j] == rest[j - 1];
        if i > 0 {
          assert r[i] == rest[i - 1];
        }
      }
    }
  }

  /** `.sort((a, b) => b.sentAt - a.sentAt)`: a stable sort, newest first. */
  function SortNewestFirst(s: seq<Message>): (r: seq<Message>)
    ensures NewestFirst(r)
    ensures multiset(r) == multiset(s)
  {
    if s == [] then [] else
      var rest := SortNewestFirst(s[1..]);
      InsertAddsOne(s[0], rest);
      InsertKeepsOrder(s[0], rest);
      assert s == [s[0]] + s[1..];
      Insert(s[0], rest)
  }

  /** The list shown after the room history loads: every fetched message exactly once, newest
      first. */
  function HistoryList(members: seq<Member>, history: seq<HistoryMessage>): (r: seq<Message>)
    ensures NewestFirst(r)
    ensures |r| == |history|
    ensures multiset(r) == multiset(FormatHistory(members, history))
  {
    var formatted := FormatHistory(members, history);
    var r := SortNewestFirst(formatted);
    assert |r| == |multiset(r)| == |multiset(formatted)| == |formatted|;
    r
  }

  /** A sorted list that is a permutation of the fetched messages is unique up to the order
      of messages with equal timestamps: a history that is already newest first and has
      distinct timestamps is shown as is. */
  lemma {:induction false} SortKeepsSortedDistinct(s: seq<Message>)
    requires forall i, j :: 0 <= i < j < |s| ==> s[i].sentAt > s[j].sentAt
    ensures SortNewestFirst(s) == s
  {
    if s != [] {
      SortKeepsSortedDistinct(s[1..]);
      var rest := SortNewestFirst(s[1..]);
      assert rest == s[1..];
      if rest != [] {
        assert s[0].sentAt >= rest[0].sentAt;
      }
    }
  }

  /** The display languages, cycled by the toggle. */
  datatype Language = EN | FI | NL

  /** The language after one press of the toggle. */
  function NextLanguage(l: Language): (r: Language)
    ensures r != l
  {
    match l
    case EN => FI
    case FI => NL
    case NL => EN
  }

  /** Three presses bring the toggle back to where it started, passing through all three
      languages. */
  lemma ThreeTogglesReturn(l: Language)
    ensures NextLanguage(NextLanguage(NextLanguage(l))) == l
    ensures {l, NextLanguage(l), NextLanguage(NextLanguage(l))} == {EN, FI, NL}
  {
  }

  /** The translation target code of a non-English language. */
  function TargetCode(l: Language): (code: string)
    requires l != EN
    ensures code == "fi" <==> l == FI
    ensures code == "nl" <==> l == NL
  {
    match l
    case FI => assert "fi"[0] != "nl"[0]; "fi"
    case NL => assert "fi"[0] != "nl"[0]; "nl"
  }

  /** The translation cache: message id, then target code, to translated text. */
  type Cache = map<string, map<string, string>>

  /** `cache[id]?.[code]`. */
  function Cached(cache: Cache, id: string, code: string): Option<string> {
    if id in cache && code in cache[id] then Some(cache[id][code]) else None
  }

  /** `{ ...prev, [id]: { ...(prev[id] || {}), [code]: text } }`. */
  function CacheSet(cache: Cache, id: string, code: string, text: string): (r: Cache)
    ensures forall i, c :: Cached(r, i, c) == if i == id && c == code then Some(text) else Cached(cache, i, c)
    ensures r.Keys == cache.Keys + {id}
  {
    cache[id := (if id in cache then cache[id] else map[])[code := text]]
  }

  /** `!cache[id] || !cache[id][code]`: nothing, or only an empty string, is cached. */
  predicate NeedsTranslation(cache: Cache, id: string, code: string) {
    Cached(cache, id, code).None? || Cached(cache, id, code).value == ""
  }

  /** How many messages from the top of the list get translated. */
  const VisibleCount: nat := 10

  /** The messages on screen: the first ten. */
  function VisibleMessages(messages: seq<Message>): (r: seq<Message>)
    ensures |r| == if |messages| < VisibleCount then |messages| else VisibleCount
    ensures r == messages[..|r|]
  {
    if |messages| <= VisibleCount then messages else messages[..VisibleCount]
  }

  /** Some message of `msgs` has the id `id`. */
  predicate HasId(msgs: seq<Message>, id: string) {
    exists k :: 0 <= k < |msgs| && msgs[k].id == id
  }

  /** The cache after translating `msgs` in order into `code`: each message whose translation
      the starting cache lacks gets `translate(text, code)`. The check reads the cache as it was
      when translation started. */
  function TranslateAll(cache: Cache, msgs: seq<Message>, code: string, translate: (string, string) -> string): Cache
    decreases |msgs|
  {
    if msgs == [] then cache
    else
      var before := TranslateAll(cache, msgs[..|msgs| - 1], code, translate);
      var m := msgs[|msgs| - 1];
      if NeedsTranslation(cache, m.id, code) then CacheSet(before, m.id, code, translate(m.text, code)) else before
  }

  /** Translating one more message of a list extends the translation of its prefix. */
  lemma TranslateAllStep(cache: Cache, msgs: seq<Message>, i: nat, code: string,
                         translate: (string, string) -> string)
    requires i < |msgs|
    ensures var before := TranslateAll(cache, msgs[..i], code, translate);
      TranslateAll(cache, msgs[..i + 1], code, translate)
      == if NeedsTranslation(cache, msgs[i].id, code) then CacheSet(before, msgs[i].id, code, translate(msgs[i].text, code))
         else before
  {
    assert msgs[..i + 1][..i] == msgs[..i];
  }

  /** Translating touches only the entries of `code` for listed messages that lacked a
      translation: every other entry keeps its value. */
  lemma {:induction false} TranslateAllKeeps(cache: Cache, msgs: seq<Message>, code: string,
                                            translate: (string, string) -> string, id: string, c: string)
    requires c != code || !HasId(msgs, id) || !NeedsTranslation(cache, id, code)
    ensures Cached(TranslateAll(cache, msgs, code, translate), id, c) == Cached(cache, id, c)
    decreases |msgs|
  {
    if msgs != [] {
      var init := msgs[..|msgs| - 1];
      if HasId(init, id) {
        var k :| 0 <= k < |init| && init[k].id == id;
        assert msgs[k].id == id;
      }
      TranslateAllKeeps(cache, init, code, translate, id, c);
    }
  }

  /** A listed message whose translation was missing ends up with the translation of the text
      of a listed message with its id. */
  lemma {:induction false} TranslateAllFills(cache: Cache, msgs: seq<Message>, code: string,
                                            translate: (string, string) -> string, id: string)
    requires HasId(msgs, id) && NeedsTranslation(cache, id, code)
    ensures exists k :: (0 <= k < |msgs| && msgs[k].id == id
      && Cached(TranslateAll(cache, msgs, code, translate), id, code) == Some(translate(msgs[k].text, code)))
    decreases |msgs|
  {
    var init := msgs[..|msgs| - 1];
    var last := |msgs| - 1;
    if msgs[last].id == id {
      assert Cached(TranslateAll(cache, msgs, code, translate), id, code) == Some(translate(msgs[last].text, code));
    } else {
      var k :| 0 <= k < |msgs| && msgs[k].id == id;
      assert k < |init| && init[k].id == id;
      TranslateAllFills(cache, init, code, translate, id);
      var j :| (0 <= j < |init| && init[j].id == id
        && Cached(TranslateAll(cache, init, code, translate), id, code) == Some(translate(init[j].text, code)));
      assert msgs[j] == init[j];
    }
  }

  /** The text shown for a message: its cached translation when a non-English language is
      selected and a non-empty translation is cached, else the original text. */
  function DisplayText(m: Message, language: Language, cache: Cache): (text: string)
    ensures language == EN ==> text == m.text
    ensures language != EN && Cached(cache, m.id, TargetCode(language)).Some?
      && Cached(cache, m.id, TargetCode(language)).value != ""
      ==> text == Cached(cache, m.id, TargetCode(language)).value
    ensures language != EN && NeedsTranslation(cache, m.id, TargetCode(language)) ==> text == m.text
    ensures text != m.text ==> language != EN && Cached(cache, m.id, TargetCode(language)) == Some(text)
  {
    if language != EN && !NeedsTranslation(cache, m.id, TargetCode(language))
    then Cached(cache, m.id, TargetCode(language)).value
    else m.text
  }

  /** A role that may post announcements, compared in lower case. Lower-casing is ASCII only;
      no other character lower-cases to a letter of these two words. */
  predicate IsPrivilegedRole(role: string) {
    ToLower(role) == "admin" || ToLower(role) == "moderator"
  }

  /** `roles.some(role => role.toLowerCase() === "admin" || ... === "moderator")`: `Err` when
      the scan reaches a non-string before a match (`toLowerCase` is not a function). */
  function SomePrivileged(roles: seq<JsValue>): Result<bool, string>
    decreases |roles|
  {
    if roles == [] then Ok(false)
    else if !roles[0].JStr? then Err("TypeError")
    else if IsPrivilegedRole(roles[0].s) then Ok(true)
    else SomePrivileged(roles[1..])
  }

  /** Whether the announcement button is granted, from the stored `userRoles` entry. A parse
      failure or a thrown scan is caught and leaves the permission at its initial `false`. */
  function CanSendAnnouncements(storedRoles: Option<Stored>): bool {
    if !StoredTruthy(storedRoles) then false
    else match ParseStored(storedRoles.value)
      case Err(_) => false
      case Ok(JArr(items)) => SomePrivileged(items) == Ok(true)
      case Ok(_) => false
  }

  /** The scan grants exactly when some role is privileged and every role before it is a
      string. */
  lemma {:induction false} SomePrivilegedIff(roles: seq<JsValue>)
    ensures SomePrivileged(roles) == Ok(true) <==>
      exists k :: 0 <= k < |roles| && roles[k].JStr? && IsPrivilegedRole(roles[k].s)
        && forall j :: 0 <= j < k ==> roles[j].JStr?
    decreases |roles|
  {
    if roles != [] {
      SomePrivilegedIff(roles[1..]);
      if SomePrivileged(roles) == Ok(true) && !IsPrivilegedRole(roles[0].s) {
        var k :| 0 <= k < |roles[1..]| && roles[1..][k].JStr? && IsPrivilegedRole(roles[1..][k].s)
          && forall j :: 0 <= j < k ==> roles[1..][j].JStr?;
        assert roles[k + 1] == roles[1..][k];
        assert forall j :: 0 <= j < k + 1 ==> roles[j].JStr? by {
          forall j | 0 <= j < k + 1 ensures roles[j].JStr? {
            if j > 0 { assert roles[j] == roles[1..][j - 1]; }
          }
        }
      }
      if exists k :: (0 <= k < |roles| && roles[k].JStr? && IsPrivilegedRole(roles[k].s)
        && forall j :: 0 <= j < k ==> roles[j].JStr?)
      {
        var k :| 0 <= k < |roles| && roles[k].JStr? && IsPrivilegedRole(roles[k].s)
          && forall j :: 0 <= j < k ==> roles[j].JStr?;
        if k > 0 && !IsPrivilegedRole(roles[0].s) {
          assert roles[1..][k - 1] == roles[k];
          assert forall j :: 0 <= j < k - 1 ==> roles[1..][j].JStr? by {
            forall j | 0 <= j < k - 1 ensures roles[1..][j].JStr? {
              assert roles[1..][j] == roles[j + 1];
            }
          }
        }
      }
    }
  }

  /** Announcements are allowed only for a stored JSON array of roles in which some role is
      privileged; a non-array or an unparsable entry never grants it. */
  lemma CanSendAnnouncementsIff(storedRoles: Option<Stored>)
    ensures CanSendAnnouncements(storedRoles) <==>
      storedRoles.Some? && storedRoles.value.Doc? && storedRoles.value.value.JArr?
      && var roles := storedRoles.value.value.items;
        exists k :: 0 <= k < |roles| && roles[k].JStr? && IsPrivilegedRole(roles[k].s)
          && forall j :: 0 <= j < k ==> roles[j].JStr?
  {
    if storedRoles.Some? && storedRoles.value.Doc? && storedRoles.value.value.JArr? {
      SomePrivilegedIff(storedRoles.value.value.items);
    }
  }

  /** The body of `POST /api/Announcement`. */
  datatype AnnouncementRequest = AnnouncementRequest(senderId: int, chatroomId: int, title: string,
                                                     content: string, important: bool)

  const EmptyFieldsMessage: string := "Please enter both a title and content for the announcement."
  const MissingIdsMessage: string := "Missing user ID or room ID."
  const InvalidIdsMessage: string := "Invalid user or chatroom identifier."

  /** The checks `sendAnnouncement` makes before it looks for a token, in their order; `Err`
      is the alert text. */
  function ValidateAnnouncement(title: string, content: string, important: bool,
                                userId: Option<string>, roomId: Option<string>)
    : (r: Result<AnnouncementRequest, string>)
    ensures IsBlank(title) || IsBlank(content) ==> r == Err(EmptyFieldsMessage)
    ensures !IsBlank(title) && !IsBlank(content) && (userId.None? || userId.value == "" || roomId.None? || roomId.value == "")
      ==> r == Err(MissingIdsMessage)
    ensures !IsBlank(title) && !IsBlank(content) && userId.Some? && userId.value != "" && roomId.Some?
      && roomId.value != "" && (ParseInt(userId.value).None? || ParseInt(roomId.value).None?)
      ==> r == Err(InvalidIdsMessage)
    ensures r.Ok? <==> (!IsBlank(title) && !IsBlank(content) && userId.Some? && roomId.Some?
      && ParseInt(userId.value).Some? && ParseInt(roomId.value).Some?)
    ensures r.Ok? ==> r.value == AnnouncementRequest(ParseInt(userId.value).value, ParseInt(roomId.value).value,
                                                     title, content, important)
  {
    if IsBlank(title) || IsBlank(content) then Err(EmptyFieldsMessage)
    else if userId.None? || userId.value == "" || roomId.None? || roomId.value == "" then Err(MissingIdsMessage)
    else
      var senderId := ParseInt(userId.value);
      var chatroomId := ParseInt(roomId.value);
      if senderId.None? || chatroomId.None? then Err(InvalidIdsMessage)
      else Ok(AnnouncementRequest(senderId.value, chatroomId.value, title, content, important))
  }

  /** The announcement POST as axios reports it: a 2xx answer, an error with a response (status
      and the server's `message`), an error without a response, or some other thrown value. */
  datatype AnnouncementPost =
    | Answered(status: int)
    | Rejected(status: int, serverMessage: Option<string>)
    | NoResponse(errorMessage: string)
    | OtherError

  datatype Alert = Alert(title: string, message: string)

  /** The alert after the POST; `Success` is the only outcome that closes and resets the form. */
  function AnnouncementAlert(post: AnnouncementPost): (a: Alert)
    ensures a.title == "Success" <==> post.Answered? && (post.status == 200 || post.status == 201)
  {
    match post
    case Answered(status) =>
      if status == 200 || status == 201 then Alert("Success", "Announcement sent successfully!")
      else Alert("Warning", "Announcement may not have been sent correctly.")
    case Rejected(status, serverMessage) =>
      if status == 500 then Alert("Server Error", "An internal server error occurred. Please try again later.")
      else if status == 401 then Alert("Authentication Error", "Your session has expired. Please log in again.")
      else if status == 403 then Alert("Permission Denied", "You don't have permission to send announcements in this chatroom.")
      else Alert("Error", "Failed to send announcement: "
        + (if serverMessage.Some? && serverMessage.value != "" then serverMessage.value
           else "Request failed with status code " + IntToString(status)))
    case NoResponse(errorMessage) => Alert("Error", "Failed to send announcement: " + errorMessage)
    case OtherError => Alert("Network Error", "Could not connect to the server. Please check your internet connection.")
  }
}
