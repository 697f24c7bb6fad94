/** JSON-shaped values as the screens receive them, JavaScript truthiness, and the
    key-value store (AsyncStorage) that holds tokens and cached user records. */
module JsData {
  import opened Outcomes

  /** A JSON value. Numbers are integers here. */
  datatype JsValue =
    | JNull
    | JBool(b: bool)
    | JNum(n: int)
    | JStr(s: string)
    | JArr(items: seq<JsValue>)
    | JObj(fields: map<string, JsValue>)

  /** JavaScript truthiness of a value. */
  predicate Truthy(v: JsValue) {
    match v
    case JNull => false
    case JBool(b) => b
    case JNum(n) => n != 0
    case JStr(s) => s != ""
    case JArr(_) => true
    case JObj(_) => true
  }

  /** Truthiness of a value that may be `undefined` (`None`). */
  predicate TruthyOpt(v: Option<JsValue>) {
    v.Some? && Truthy(v.value)
  }

  /** Reading `v.name`: `undefined` when absent, a TypeError (`Err`) when `v` is null. */
  function Property(v: JsValue, name: string): (r: Result<Option<JsValue>, string>)
    ensures r.Err? <==> v.JNull?
    ensures r.Ok? && r.value.Some? ==> v.JObj? && name in v.fields && r.value.value == v.fields[name]
  {
    match v
    case JNull => Err("TypeError")
    case JObj(fields) => Ok(if name in fields then Some(fields[name]) else None)
    case _ => Ok(None)
  }

  /** One stored entry: AsyncStorage holds strings. `Doc` is a string that `JSON.stringify`
      produced, and `JSON.parse` gives its value back; `Raw` is any other text (a token, an id),
      which `JSON.parse` rejects. */
  datatype Stored = Raw(text: string) | Doc(value: JsValue)

  type Storage = map<string, Stored>

  /** `AsyncStorage.getItem(key)`: `None` stands for `null`. */
  function GetItem(storage: Storage, key: string): (r: Option<Stored>)
    ensures r.Some? <==> key in storage
  {
    if key in storage then Some(storage[key]) else None
  }

  /** Truthiness of what `getItem` returned: only the empty string and `null` are falsy. */
  predicate StoredTruthy(v: Option<Stored>) {
    match v
    case None => false
    case Some(Raw(t)) => t != ""
    case Some(Doc(_)) => true
  }

  /** `JSON.parse` of a stored entry. */
  function ParseStored(v: Stored): Result<JsValue, string> {
    match v
    case Doc(value) => Ok(value)
    case Raw(_) => Err("SyntaxError")
  }

  /** The token lookup chain shared by the chat screens:
      `getItem("accessToken") || getItem("authToken") || getItem("token")`. */
  function TokenWithFallback(storage: Storage): (r: Option<Stored>)
    ensures StoredTruthy(GetItem(storage, "accessToken")) ==> r == GetItem(storage, "accessToken")
    ensures !StoredTruthy(GetItem(storage, "accessToken")) && StoredTruthy(GetItem(storage, "authToken"))
      ==> r == GetItem(storage, "authToken")
    ensures !StoredTruthy(GetItem(storage, "accessToken")) && !StoredTruthy(GetItem(storage, "authToken"))
      ==> r == GetItem(storage, "token")
  {
    var access := GetItem(storage, "accessToken");
    if StoredTruthy(access) then access
    else
      var auth := GetItem(storage, "authToken");
      if StoredTruthy(auth) then auth else GetItem(storage, "token")
  }

  /** A truthy token comes from one of the three keys, each holding a truthy value. */
  lemma TokenWithFallbackSource(storage: Storage)
    ensures StoredTruthy(TokenWithFallback(storage)) <==>
      StoredTruthy(GetItem(storage, "accessToken")) || StoredTruthy(GetItem(storage, "authToken"))
      || StoredTruthy(GetItem(storage, "token"))
  {
  }
}
