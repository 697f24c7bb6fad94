/** The chat-room REST service: the list of all rooms and the rooms the user belongs to. */
module ChatroomService {
  import opened Outcomes
  import opened JsData

  /** A response of `fetch`: the status code, its reason phrase and the JSON body. */
  datatype HttpResponse<T> = HttpResponse(status: int, statusText: string, body: T)

  /** `response.ok`. */
  predicate IsOk(status: int) {
    200 <= status <= 299
  }

  /** The projection of one room in the user's room list. `None` is a field the server left out. */
  datatype GroupChat = GroupChat(id: Option<JsValue>, name: Option<JsValue>, description: Option<JsValue>)

  const NoTokenMessage: string := "No access token found. Please log in again."
  const UnauthorizedMessage: string := "Unauthorized. Please log in again."
  const FailedPrefix: string := "Failed to fetch own chat rooms: "

  /** `room.name` for a room that is not `null`: `undefined` (`None`) unless the room is an
      object holding that field. */
  function Field(room: JsValue, name: string): Option<JsValue> {
    if room.JObj? && name in room.fields then Some(room.fields[name]) else None
  }

  const TypeErrorName: string := "TypeError"

  /** `chatRooms.map(room => ({ id: room.id, name: room.name, description: room.description }))`
      over the parsed body: a body that is not an array has no `map` method, and a `null` room
      has no fields to read; both throw a TypeError. */
  function ProjectRooms(body: JsValue): (r: Result<seq<GroupChat>, string>)
    ensures r.Err? <==> !body.JArr? || exists i :: 0 <= i < |body.items| && body.items[i].JNull?
    ensures r.Err? ==> r.error == TypeErrorName
    ensures r.Ok? ==> |r.value| == |body.items|
    ensures r.Ok? ==> forall i :: 0 <= i < |body.items| ==>
      r.value[i] == GroupChat(Field(body.items[i], "id"), Field(body.items[i], "name"),
                              Field(body.items[i], "description"))
  {
    if body.JArr? then ProjectEach(body.items) else Err(TypeErrorName)
  }

  /** The callback of `map` applied to every room in order; the first `null` room throws. */
  function ProjectEach(rooms: seq<JsValue>): (r: Result<seq<GroupChat>, string>)
    ensures r.Err? <==> exists i :: 0 <= i < |rooms| && rooms[i].JNull?
    ensures r.Err? ==> r.error == TypeErrorName
    ensures r.Ok? ==> |r.value| == |rooms|
    ensures r.Ok? ==> forall i :: 0 <= i < |rooms| ==>
      r.value[i] == GroupChat(Field(rooms[i], "id"), Field(rooms[i], "name"), Field(rooms[i], "description"))
  {
    if rooms == [] then Ok([])
    else if rooms[0].JNull? then Err(TypeErrorName)
    else
      var room := rooms[0];
      var rest := ProjectEach(rooms[1..]);
      if rest.Err? then
        assert exists i :: 0 <= i < |rooms| && rooms[i].JNull? by {
          var j :| 0 <= j < |rooms[1..]| && rooms[1..][j].JNull?;
          assert rooms[j + 1].JNull?;
        }
        rest
      else
        var r := Ok([GroupChat(Field(room, "id"), Field(room, "name"), Field(room, "description"))] + rest.value);
        assert forall i :: 0 <= i < |rooms| ==> !rooms[i].JNull? by {
          forall i | 0 <= i < |rooms| ensures !rooms[i].JNull? {
            if i > 0 { assert rooms[i] == rooms[1..][i - 1]; }
          }
        }
        assert forall i :: 1 <= i < |rooms| ==> r.value[i] == rest.value[i - 1];
        r
  }

  /** `fetchOwnChatRooms()`. `token` is the stored access token; `response` is `Err` when the
      request itself throws, and that error is re-thrown. The body is the parsed JSON of the
      response. An `Err` result carries the message of the thrown error. */
  function FetchOwnChatRooms(token: Option<Stored>, response: Result<HttpResponse<JsValue>, string>)
    : (r: Result<seq<GroupChat>, string>)
    ensures !StoredTruthy(token) ==> r == Err(NoTokenMessage)
    ensures StoredTruthy(token) && response.Err? ==> r == Err(response.error)
    ensures StoredTruthy(token) && response.Ok? && response.value.status == 401
      ==> r == Err(UnauthorizedMessage)
    ensures StoredTruthy(token) && response.Ok? && response.value.status != 401
      && !IsOk(response.value.status)
      ==> r == Err(FailedPrefix + response.value.statusText)
    ensures StoredTruthy(token) && response.Ok? && IsOk(response.value.status)
      ==> r == ProjectRooms(response.value.body)
    ensures r.Ok? <==> (StoredTruthy(token) && response.Ok? && IsOk(response.value.status)
      && ProjectRooms(response.value.body).Ok?)
  {
    if !StoredTruthy(token) then Err(NoTokenMessage)
    else if response.Err? then Err(response.error)
    else if response.value.status == 401 then Err(UnauthorizedMessage)
    else if !IsOk(response.value.status) then Err(FailedPrefix + response.value.statusText)
    else ProjectRooms(response.value.body)
  }

  /** An axios response: status and body. */
  datatype AxiosResponse = AxiosResponse(status: int, data: JsValue)

  /** `fetchChatRooms()`: the body of the response, or the request's error re-thrown. */
  function FetchChatRooms<E>(response: Result<AxiosResponse, E>): (r: Result<JsValue, E>)
    ensures r.Ok? <==> response.Ok?
    ensures r.Ok? ==> r.value == response.value.data
    ensures r.Err? ==> r.error == response.error
  {
    match response
    case Ok(res) => Ok(res.data)
    case Err(e) => Err(e)
  }
}
