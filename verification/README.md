# UniChat client core, modelled in Dafny

This project models the decision logic of the UniChat React Native client. UniChat is a chat
app for university students: they register with an OAMK or Fontys e-mail, join group chat rooms,
send messages over a SignalR hub, read them translated into Finnish or Dutch, and post
announcements when their role allows it. The model covers these parts:

- the authentication context: session loading, registration, login, profile update, logout,
  account deletion and the policy applied when the hub connection closes;
- the chat room screen: the newest-first message list and its optimistic local echo, the
  history load, the translation cache, the language toggle, the role gate and the announcement
  form;
- the group page: the member grid, the invitation flow, the room header and its edit form;
- the avatar resolution of the header and of the member grid;
- the chat room service and the API base-URL choice.

Each part of the source that works by changing state step by step is a class:
`AuthContext.AuthProvider`, `Chatroom.ChatroomScreen` and `GroupChat.GroupChatPage`. Their
fields are the React state and the key-value store, and their methods say what each handler
leaves behind. The rules those handlers apply are pure functions with lemmas beside them.
Requests to the server, the hub, the clock and the translation service become parameters. Such
a parameter holds the outcome the code would see: a status, a body, a thrown error, or a
function from text to translated text.

The JavaScript behaviour the code relies on is written out in three small modules:

- `JsString`: `trim`, ASCII `toLowerCase`, `startsWith`, `endsWith`, `includes`;
- `JsNumber`: `String(n)` and `parseInt`, with `None` standing for `NaN`;
- `JsData`: truthiness, property access that throws on `null`, and the store.

The store is a map from keys to entries. An entry is either raw text or a JSON document, and
raw text does not parse as JSON.

Three behaviours of the code are easy to misread, and the model states them as the code has them:

- When the hub connection closes with an error that does not mention `401`, `onclose` does
  nothing: the session stays as it was. Only a `401` close refreshes the token, and a failure
  there logs out (`AuthRules.CloseDecision`).
- The `catch` of `loadUser` is commented "ensure user is logged out", but it changes nothing.
  `AuthContext.AuthProvider.LoadUser` leaves the user and the store as they were when the
  refresh request throws.
- The avatar tables are plain object literals. A key such as `toString` or `__proto__` is not
  one of their entries, yet the lookup finds the member every object inherits, which is truthy.
  Both screens then use that member as the image (`Avatars.InheritedNamesPassLookup`).

## Model

| member | source | states |
|---|---|---|
| ApiConfig.GetApiUrl | config/apiConfig.ts:16-36 | a development build on Android uses the emulator host `10.0.2.2:5222`; any other development build uses `localhost:5222`; a production build uses the production URL |
| ApiConfig.ApiBaseUrl | config/apiConfig.ts:38-41 | the `__DEV__` choice between the development and production URL always equals `getApiUrl()` |
| ApiConfig.SecureIffProduction | config/apiConfig.ts:16-41 | the base URL is `https://` exactly in production; in development it is `http://` on port 5222 |
| Avatars.HeaderAvatarSource | components/Header.tsx:29-48 | the header shows what the table lookup found (an own asset, or the inherited member for a key every object inherits), or else the image the caller supplied |
| Avatars.HeaderAvatarPriority | components/Header.tsx:29-48 | a known avatar name wins; then the user's known `profilePicture` key; then a supplied image; then the default avatar |
| Avatars.UnknownNameNeverUsed | components/Header.tsx:31-47 | an avatar name the table lookup does not find never selects an image of that name; the header shows another table entry |
| Avatars.InheritedNamesPassLookup | components/Header.tsx:31-41 | an avatar name or a `profilePicture` such as `toString` or `__proto__` passes the lookup, and the header and the member grid use the inherited member, not the default avatar |
| Avatars.MemberAvatarSource | app/GroupChatPage.tsx:421-436 | a member picture is a URI exactly when it is a string starting with `http`; anything else shown came out of the table; a supplied image is never used |
| Avatars.MemberAvatarFallbacks | app/GroupChatPage.tsx:421-436 | a table key yields that asset; a missing, non-string or unknown key yields the default avatar |
| ChatroomService.ProjectRooms | services/chatroomService.tsx:41-46 | a body that is not an array, or that holds a `null` room, throws a TypeError; otherwise each room becomes a `GroupChat` with the `id`, `name` and `description` read from it (undefined when absent), in the same order |
| ChatroomService.FetchOwnChatRooms | services/chatroomService.tsx:18-51 | no stored token is an error before any request; a thrown request is re-thrown; 401 gives the "Unauthorized" error before the generic one; a 2xx status gives the projection of the body, so rooms are returned exactly for a 2xx status and a projectable body |
| ChatroomService.FetchChatRooms | services/chatroomService.tsx:8-16 | the response data is returned on success and the same error is re-thrown on failure |
| JsData.TokenWithFallback | app/Chatroom/Chatroom.tsx:84-101 | the token comes from `accessToken`, else `authToken`, else `token`, the first one that is truthy |
| JsData.TokenWithFallbackSource | app/GroupChatPage.tsx:228-231 | a token is found exactly when one of the three keys holds a truthy value |
| JsString.TrimStartDropsWhitePrefix | app/Chatroom/Chatroom.tsx:524 | trimming the start removes a prefix made only of white space and stops at the first other character |
| JsString.TrimEndDropsWhiteSuffix | app/Chatroom/Chatroom.tsx:524 | trimming the end removes a suffix made only of white space and stops at the last other character |
| JsString.TrimIsInnerSlice | app/Chatroom/Chatroom.tsx:524 | `s.trim()` is the part of `s` between its leading and trailing white space, and starts and ends with a non-white character |
| JsString.BlankIffAllWhite | app/GroupChatPage.tsx:220 | `!s.trim()` holds exactly when every character of `s` is white space |
| JsNumber.LeadingDigitsIsLongestPrefix | app/Chatroom/Chatroom.tsx:540-541 | `parseInt` reads the longest prefix of digits: every character it keeps is a digit and the next one is not |
| JsNumber.ParseIntOfIntToString | app/Chatroom/Chatroom.tsx:371 | `parseInt(String(n))` gives back `n` for every integer |
| JsNumber.IntToStringInjective | app/Chatroom/Chatroom.tsx:371 | different numbers get different strings, so an id string names exactly one number |
| AuthRules.ValidEmailIff | contexts/AuthContext.tsx:116-123 | an e-mail is accepted exactly when it ends with one of the four university domains; an accepted one holds an `@` and has at least 8 characters |
| AuthRules.UpperCaseDomainRefused | contexts/AuthContext.tsx:116-123 | the domain is compared with its letter case, so `ann@OAMK.FI` is refused |
| AuthRules.EmptyLocalPartAccepted | contexts/AuthContext.tsx:116-123 | only the ending is checked, so `@oamk.fi` with nothing before the domain is accepted |
| AuthRules.LookalikeDomainRefused | contexts/AuthContext.tsx:116-123 | `eve@notoamk.fi` is refused: the domain must begin with `@` |
| AuthRules.StudentAddressAccepted | contexts/AuthContext.tsx:116-123 | an address on `@students.oamk.fi` is accepted |
| JsString.Utf16Length | contexts/AuthContext.tsx:145 | `password.length` counts UTF-16 code units: at least one and at most two per character, and exactly one per character when all lie in the Basic Multilingual Plane |
| AuthRules.CheckRegistration | contexts/AuthContext.tsx:135-153 | registration proceeds exactly for a university e-mail and a password whose `length` is at least 8; the e-mail is checked first |
| AuthRules.PasswordLengthCountsCodeUnits | contexts/AuthContext.tsx:145-150 | with a valid e-mail, 8 characters always pass the length check, and so do 4 characters that each lie outside the Basic Multilingual Plane |
| AuthRules.RegistrationFailureText | contexts/AuthContext.tsx:164-170 | the server's message is shown when it is non-empty, otherwise a non-empty default |
| AuthRules.MergeUser | contexts/AuthContext.tsx:233-236 | the merged user has every key of either object; the patch wins on shared keys |
| AuthRules.MergeUserIdempotent | contexts/AuthContext.tsx:233-236 | applying the same patch twice changes nothing further |
| AuthRules.ClearSession | contexts/AuthContext.tsx:250-257 | exactly the four session keys are removed and every other entry is kept |
| AuthRules.ClearSessionIdempotent | contexts/AuthContext.tsx:250-257 | logging out twice leaves the same store as logging out once |
| AuthRules.DeleteErrorMessage | contexts/AuthContext.tsx:325-345 | statuses 401, 403, 404 and 500 have messages of their own; every other status gets "Failed to delete account" |
| AuthRules.DeleteErrorMessagesDistinct | contexts/AuthContext.tsx:325-345 | the four specific messages are pairwise different |
| AuthRules.StoredUserId | contexts/AuthContext.tsx:271-275 | no truthy `userData` gives no id; a stored entry throws exactly when it is not JSON or is `null`; an id found is the `id` field of the stored object |
| AuthRules.ResolveUserId | contexts/AuthContext.tsx:268-298 | a truthy stored id wins; only when there is none (and the stored data parsed) does the user in memory give its id, and only then is the profile asked; a thrown profile request is re-thrown, a `null` profile body throws, and a profile that is not ok or gives no truthy id is the "Could not determine user ID" error; unparsable or `null` stored data throws; a resolved id is truthy |
| AuthRules.CloseWithout401Ignored | contexts/AuthContext.tsx:373-376 | a close is ignored exactly when its message is missing or does not contain `401` |
| AuthRules.CloseAfter401 | contexts/AuthContext.tsx:376-408 | after a 401 close the connection restarts with the new token exactly when a refresh token is stored, the refresh grants a token and the restart succeeds; every other path logs out |
| AuthContext.AuthProvider.Logout | contexts/AuthContext.tsx:250-257 | the store loses the session keys, the user is forgotten, and the provider is signed out |
| AuthContext.AuthProvider.LoadUser | contexts/AuthContext.tsx:53-111 | with no token nothing changes; a valid stored token loads the profile; otherwise a refused refresh clears the session; a granted refresh stores the new token and loads the profile; a throw changes nothing further |
| AuthContext.AuthProvider.Register | contexts/AuthContext.tsx:126-172 | a request is made exactly when `CheckRegistration` proceeds; the verification e-mail is set exactly on success; each refusal has its own message |
| AuthContext.AuthProvider.Login | contexts/AuthContext.tsx:174-191 | both tokens are stored once issued; the user is set from the profile; success needs both requests |
| AuthContext.AuthProvider.UpdateUser | contexts/AuthContext.tsx:214-247 | without a token or a user id the request is not made and "Missing auth info" is thrown; a failure changes nothing and is re-thrown; success stores the merged user under `user` and `userData` |
| AuthContext.AuthProvider.DeleteAccount | contexts/AuthContext.tsx:260-353 | without a token nothing is sent; with one, the DELETE is sent exactly when `ResolveUserId` resolves, for that id, and its error is thrown otherwise; a 2xx answer returns `true`, clears the session and signs out; every error leaves the state as it was and reports the status message |
| AuthContext.AuthProvider.OnClose | contexts/AuthContext.tsx:373-410 | the provider does what `CloseDecision` decides: nothing, store the refreshed token, or log out |
| ChatMessages.NameOrUnknown | app/Chatroom/Chatroom.tsx:279 | a non-empty name is kept; a missing or empty one becomes "Unknown" |
| ChatMessages.FromHub | app/Chatroom/Chatroom.tsx:268-280 | a hub message keeps its text, sender and time; its id string parses back to the hub id |
| ChatMessages.LocalMessage | app/Chatroom/Chatroom.tsx:370-380 | the user's own message keeps the typed text, the user's id and the time; its name falls back to "Unknown" |
| ChatMessages.LocalIdCountsMessages | app/Chatroom/Chatroom.tsx:371 | the local id `String(messages.length + 1)` parses back to the length plus one, so lists of different lengths give different ids |
| ChatMessages.SenderNameIsFirstMatch | app/Chatroom/Chatroom.tsx:433-448 | the sender name is the name of the first member with the sender's id, "Unknown" when that name is empty or missing |
| ChatMessages.SenderNameOfStranger | app/Chatroom/Chatroom.tsx:433-448 | the sender name is "Unknown" when no member has the sender's id |
| ChatMessages.FromHistory | app/Chatroom/Chatroom.tsx:432-449 | a history entry keeps its text, sender and time, and is named after its sender |
| ChatMessages.FormatHistory | app/Chatroom/Chatroom.tsx:431-450 | one formatted message per history entry, in order |
| ChatMessages.InsertAddsOne | app/Chatroom/Chatroom.tsx:452 | inserting a message into a list adds exactly that message and removes nothing |
| ChatMessages.InsertKeepsOrder | app/Chatroom/Chatroom.tsx:452 | inserting into a newest-first list keeps it newest-first |
| ChatMessages.SortNewestFirst | app/Chatroom/Chatroom.tsx:452 | the sorted list is newest-first and a permutation of its input |
| ChatMessages.HistoryList | app/Chatroom/Chatroom.tsx:425-453 | the loaded list is newest-first and a permutation of the formatted history |
| ChatMessages.SortKeepsSortedDistinct | app/Chatroom/Chatroom.tsx:452 | a list already strictly newest-first is left exactly as it is |
| ChatMessages.NextLanguage | app/Chatroom/Chatroom.tsx:150-152 | the toggle always changes the language |
| ChatMessages.ThreeTogglesReturn | app/Chatroom/Chatroom.tsx:150-152 | three toggles return to the start, passing through all three languages |
| ChatMessages.TargetCode | app/Chatroom/Chatroom.tsx:156 | Finnish translates to `fi` and Dutch to `nl` |
| ChatMessages.CacheSet | app/Chatroom/Chatroom.tsx:133-139 | a stored translation replaces only the entry for that message and language |
| ChatMessages.VisibleMessages | app/Chatroom/Chatroom.tsx:124 | the visible messages are the first ten, or all when there are fewer |
| ChatMessages.TranslateAllKeeps | app/Chatroom/Chatroom.tsx:122-145 | the pass leaves alone every entry of another language, of a message not on screen, or whose translation was already there at the start |
| ChatMessages.TranslateAllFills | app/Chatroom/Chatroom.tsx:122-145 | after the pass, a visible message whose translation was missing at the start has the translation of the text of a visible message with its id |
| ChatMessages.DisplayText | app/Chatroom/Chatroom.tsx:745-752 | English shows the original text; in Finnish or Dutch a non-empty cached translation for that language is shown, and a missing or empty one shows the original text |
| ChatMessages.SomePrivilegedIff | app/Chatroom/Chatroom.tsx:195-199 | the role scan says yes exactly when some role is `admin` or `moderator` in any case and every role before it is a string |
| ChatMessages.CanSendAnnouncementsIff | app/Chatroom/Chatroom.tsx:185-206 | announcements are allowed exactly when the stored roles parse to an array whose scan finds a privileged role |
| ChatMessages.ValidateAnnouncement | app/Chatroom/Chatroom.tsx:524-545 | a blank title or content is refused first, then a missing id, then an id that does not parse; an accepted form becomes a request with the parsed ids |
| ChatMessages.AnnouncementAlert | app/Chatroom/Chatroom.tsx:581-632 | "Success" is shown exactly for an answered 200 or 201 |
| Chatroom.SubmitAnnouncement | app/Chatroom/Chatroom.tsx:523-636 | the request carries the form's title, content and flag; "Success" is shown exactly when the request is made and answered 200 or 201 |
| Chatroom.SubmitAnnouncementSteps | app/Chatroom/Chatroom.tsx:523-566 | a request is made exactly for non-blank fields, parsable ids and a stored token; a blank field and a missing token each get their own alert |
| Chatroom.ChatroomScreen.ReceiveMessage | app/Chatroom/Chatroom.tsx:258-283 | the user's own messages are dropped; any other message goes on top and the rest of the list is unchanged |
| Chatroom.ChatroomScreen.SendMessage | app/Chatroom/Chatroom.tsx:336-404 | after a delivered send the message is on top with id `length + 1` and is translated when a translation is on, and the input is cleared; a failed send changes nothing |
| Chatroom.ChatroomScreen.LoadChatroomInfo | app/Chatroom/Chatroom.tsx:406-457 | a failed load changes nothing; a successful one replaces the header and members, and the list becomes the history newest-first, a permutation of the formatted entries |
| Chatroom.ChatroomScreen.TranslateVisibleMessages | app/Chatroom/Chatroom.tsx:122-145 | the loop leaves the cache that `TranslateAll` describes |
| Chatroom.ChatroomScreen.ToggleLanguage | app/Chatroom/Chatroom.tsx:148-158 | the language moves to the next one; English leaves the cache alone, and any other language translates the visible messages |
| Chatroom.ChatroomScreen.LoadRoles | app/Chatroom/Chatroom.tsx:185-206 | from the initial state the permission becomes `CanSendAnnouncements`; a thrown parse or scan never grants it |
| Chatroom.ChatroomScreen.OpenAnnouncementForm | app/Chatroom/Chatroom.tsx:512-520 | the form opens empty and not marked important |
| Chatroom.ChatroomScreen.SendAnnouncement | app/Chatroom/Chatroom.tsx:523-636 | the alert and the request are those of `SubmitAnnouncement`; only "Success" closes and resets the form |
| GroupChat.ShownMembers | app/GroupChatPage.tsx:485-487 | the grid shows at most 8 members, a prefix of the list, and all of them when there are 8 or fewer |
| GroupChat.GridAccountsForEveryMember | app/GroupChatPage.tsx:417-419 | "See More" appears exactly when some member is not shown; its label `+n` names how many are hidden |
| GroupChat.FindExactMatch | app/GroupChatPage.tsx:264-267 | a match is a search result whose name equals the input ignoring case; no match means every name differs; a throw comes from a user without a string name met before any match |
| GroupChat.FindExactMatchIsFirst | app/GroupChatPage.tsx:264-267 | the match is the first matching user, and every user before it has a string name that does not match |
| GroupChat.InviteResultMessage | app/GroupChatPage.tsx:294-341 | an answered POST says "Invitation sent successfully"; 409 is the conflict message; 400 shows a string body or "Invalid invitation request"; other statuses say "Failed to send invitation"; no response is "Network error" |
| GroupChat.InviteOutcome | app/GroupChatPage.tsx:217-354 | the toast after a POST is the POST's message; the POST carries the room id as `parseInt` reads it |
| GroupChat.InviteRefusalsHaveOwnToasts | app/GroupChatPage.tsx:217-354 | a blank input and a missing token each get their own toast; no refusal claims success |
| GroupChat.InviteOnlyToMatchingNonMember | app/GroupChatPage.tsx:217-292 | a POST is made only for a non-blank input with a token, to a search result whose name matches the input regardless of case and who is not already a member |
| GroupChat.InviteToFirstMatchingNonMember | app/GroupChatPage.tsx:217-292 | conversely, a non-blank input with a token posts an invitation to the first search result whose name matches, whenever that user is not a member, with the POST's toast |
| GroupChat.FindExactMatchOfFirst | app/GroupChatPage.tsx:264-267 | the search picks the first matching user when every user before it has a string name |
| GroupChat.UnknownUserNotInvited | app/GroupChatPage.tsx:269-274 | a search with no matching user ends in "User not found" and no POST |
| GroupChat.OrEmpty | app/GroupChatPage.tsx:83-88 | the initial title or description is empty exactly when the route parameter is missing or empty, and is the parameter itself otherwise |
| GroupChat.GroupChatPage.FetchChatRoomInfo | app/GroupChatPage.tsx:100-121 | a fetched name or description replaces the shown one and its edit copy only when it is a non-empty string; a failure changes nothing |
| GroupChat.GroupChatPage.FetchMembers | app/GroupChatPage.tsx:123-156 | the member list becomes the fetched list, or is emptied on failure; loading ends either way |
| GroupChat.GroupChatPage.OpenInviteForm | app/GroupChatPage.tsx:212-215 | the invitation form opens with an empty input |
| GroupChat.GroupChatPage.HandleSendInvite | app/GroupChatPage.tsx:217-354 | the toast and the POST are those of `InviteOutcome`; a blank input changes nothing; otherwise loading ends off, and only an answered POST closes and clears the form |
| GroupChat.SaveEditOutcome | app/GroupChatPage.tsx:360-414 | the PUT carries the edited name and description; "updated successfully" is shown exactly when the PUT is made and answered 200 or 204 |
| GroupChat.SaveEditSteps | app/GroupChatPage.tsx:360-414 | a blank name is refused first; without a token nothing is sent; a PUT is made exactly for a non-blank name and a token, with the room id as `parseInt` reads it; any other answer than 200 or 204 is a failure |
| GroupChat.GroupChatPage.HandleSaveEdit | app/GroupChatPage.tsx:360-414 | the alert and the PUT are those of `SaveEditOutcome`; only a saved edit shows the edited name and description and closes the form; anything else changes nothing |

## Left out

- The SignalR connection's life cycle is not modelled: building, starting, joining and leaving rooms, and re-registering handlers. A hub send is reduced to one flag that says whether every `invoke` succeeded. `HandleLeaveGroup` is left out for the same reason: it is a DELETE followed by a hub `invoke`.
- `setMessages` in `ReceiveMessage` and in `fetchChatroomInfo` can race; each handler is modelled as one atomic step on the current state.
- The Google Translate request is not modelled. It is a parameter from text and language code to the translated text, and the source falls back to the original text inside that request.
- Locale time formatting (`toLocaleTimeString`) is left out. Messages carry the integer timestamp they are sorted by.
- JWT decoding and the user-id lookup of `getUserData` are left out, and so is the development default user id "3". The user id reaches `SendAnnouncement` as a parameter.
- Toasts, alerts, navigation, modals' rendering, loading spinners and styles are left out. Alerts and toasts are returned as values.
- The authentication service module and the avatar screen are not part of this model.
- JavaScript numbers are modelled as integers. `NaN` appears only as the `None` result of `parseInt`.
- JSON text is not modelled character by character. A stored document is kept as a value, and stored raw text fails to parse.
- Identity comparison (`===`) is modelled on optional integer ids. Ids that are objects would compare by reference in the source.
- JsString.ToLower: only ASCII letters are mapped. JavaScript also lower-cases other scripts, and one character (the Kelvin sign) lower-cases to ASCII `k`. Comparisons with `admin` and `moderator` come out the same; invitation usernames with non-ASCII letters can differ.
- ChatMessages.SortNewestFirst: the relative order of messages with equal timestamps is not stated. The model's insertion sort is stable, as `Array.prototype.sort` is.
- ChatMessages.FromHub: a hub message is assumed to carry a numeric id. A payload without one makes `message.id.toString()` throw inside the handler, so the message is dropped; the model does not state that case.
- Chatroom.ChatroomScreen.LoadChatroomInfo: history ids are integers. So the partial update is not modelled where a history entry without an id makes `toString` throw after the header and members were already set.
- GroupChat.GroupChatPage.FetchChatRoomInfo: a name or description is a string or missing. A truthy value of another type, which the source would show as is, is not modelled.
- GroupChat.GroupChatPage.FetchMembers: the fetched member data is a list. The source stores a non-array payload as it is.
- The storage calls themselves never fail in the model. The outer `catch` of `handleSendInvite` for a failing store is therefore not reached.
