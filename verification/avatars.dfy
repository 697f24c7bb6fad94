/** Avatar image resolution: the header's own avatar and the member tiles of the group page.
    Both screens hold the same table of bundled avatar images. */
module Avatars {
  import opened Outcomes
  import opened JsString
  import opened JsData

  /** Keys of the bundled avatar table (`AVATAR_IMAGES`). */
  const AvatarKeys: set<string> :=
    {"avatar1", "avatar2", "avatar3", "avatar4", "avatar5", "avatar6", "avatar7", "avatar8",
     "defaultAvatar"}

  const DefaultAvatarKey: string := "defaultAvatar"

  /** Keys that an object literal inherits from `Object.prototype`. Indexing the table with one
      of them yields that inherited member (a function, or the prototype itself for
      `__proto__`), which is truthy. */
  const InheritedKeys: set<string> :=
    {"constructor", "hasOwnProperty", "isPrototypeOf", "propertyIsEnumerable", "toLocaleString",
     "toString", "valueOf", "__proto__", "__defineGetter__", "__defineSetter__",
     "__lookupGetter__", "__lookupSetter__"}

  /** An image source handed to `<Image>`: a bundled asset, a remote URI, an image source
      object the caller supplied (identified by `ref`), or the inherited `Object.prototype`
      member that a table lookup returned for a key outside the table's own entries. */
  datatype ImageSource = Asset(key: string) | Uri(uri: string) | Supplied(ref: int) | Inherited(name: string)

  /** The header's `avatar` prop: a string, a truthy non-string image source, or a falsy
      non-string (`undefined`, `null`, ...). */
  datatype AvatarProp = AvatarName(name: string) | AvatarImage(image: ImageSource) | NoAvatar

  /** `AVATAR_IMAGES[key]` is truthy: an own entry or an inherited member. */
  predicate InTable(key: string) {
    key in AvatarKeys || key in InheritedKeys
  }

  /** `AVATAR_IMAGES[key]` for a key the lookup finds. */
  function TableEntry(key: string): (src: ImageSource)
    requires InTable(key)
    ensures src.Asset? <==> key in AvatarKeys
    ensures src.Asset? ==> src.key == key
    ensures src.Inherited? <==> key !in AvatarKeys
    ensures src.Inherited? ==> src.name == key
  {
    if key in AvatarKeys then Asset(key) else Inherited(key)
  }

  /** A source that came out of the table: an own asset or an inherited member. */
  predicate FromTable(src: ImageSource) {
    (src.Asset? && src.key in AvatarKeys) || (src.Inherited? && src.name in InheritedKeys)
  }

  /** A `profilePicture` value that passes `key && typeof key === "string"`. */
  function StringKey(v: Option<JsValue>): Option<string> {
    if v.Some? && v.value.JStr? && v.value.s != "" then Some(v.value.s) else None
  }

  /** `getAvatarSource()` of the header. `profilePicture` is `authUser?.profilePicture`. */
  function HeaderAvatarSource(avatar: AvatarProp, profilePicture: Option<JsValue>): (src: ImageSource)
    ensures FromTable(src) || avatar == AvatarImage(src)
  {
    if avatar.AvatarName? && InTable(avatar.name) then TableEntry(avatar.name)
    else
      var key := StringKey(profilePicture);
      if key.Some? && InTable(key.value) then TableEntry(key.value)
      else if avatar.AvatarImage? then avatar.image
      else Asset(DefaultAvatarKey)
  }

  /** The priority order of the header: a known avatar name beats the user's picture, which
      beats a supplied image, which beats the default. */
  lemma HeaderAvatarPriority(avatar: AvatarProp, profilePicture: Option<JsValue>)
    ensures avatar.AvatarName? && InTable(avatar.name)
      ==> HeaderAvatarSource(avatar, profilePicture) == TableEntry(avatar.name)
    ensures !(avatar.AvatarName? && InTable(avatar.name)) && profilePicture.Some?
      && profilePicture.value.JStr? && InTable(profilePicture.value.s)
      ==> HeaderAvatarSource(avatar, profilePicture) == TableEntry(profilePicture.value.s)
    ensures !(avatar.AvatarName? && InTable(avatar.name))
      && !(StringKey(profilePicture).Some? && InTable(StringKey(profilePicture).value))
      ==> HeaderAvatarSource(avatar, profilePicture)
          == if avatar.AvatarImage? then avatar.image else Asset(DefaultAvatarKey)
  {
    if profilePicture.Some? && profilePicture.value.JStr? && InTable(profilePicture.value.s) {
      assert profilePicture.value.s != "";
    }
  }

  /** A string avatar the table does not know is never shown as an image of its own: the
      header falls back to another table entry. */
  lemma UnknownNameNeverUsed(name: string, profilePicture: Option<JsValue>)
    requires !InTable(name)
    ensures FromTable(HeaderAvatarSource(AvatarName(name), profilePicture))
    ensures HeaderAvatarSource(AvatarName(name), profilePicture) != Asset(name)
    ensures HeaderAvatarSource(AvatarName(name), profilePicture) != Inherited(name)
  {
  }

  /** A name inherited from `Object.prototype` passes the truthiness test of both screens, so
      the lookup's inherited member is what they hand to `<Image>` rather than the default. */
  lemma InheritedNamesPassLookup(name: string, other: ImageSource)
    requires name in InheritedKeys
    ensures HeaderAvatarSource(AvatarName(name), None) == Inherited(name)
    ensures HeaderAvatarSource(AvatarImage(other), Some(JStr(name))) == Inherited(name)
    ensures MemberAvatarSource(Some(JStr(name))) == Inherited(name)
  {
    InheritedNotUrl(name);
  }

  /** No inherited key starts with `http`. */
  lemma InheritedNotUrl(name: string)
    requires name in InheritedKeys
    ensures !StartsWith(name, "http")
  {
    if name == "hasOwnProperty" {
      assert name[1] == 'a';
    } else {
      assert name[0] in {'c', 'i', 'p', 't', 'v', '_'};
    }
  }

  /** `getMemberAvatarSource(member)`; `profilePicture` is `member?.profilePicture`. */
  function MemberAvatarSource(profilePicture: Option<JsValue>): (src: ImageSource)
    ensures src.Uri? <==> StringKey(profilePicture).Some? && StartsWith(StringKey(profilePicture).value, "http")
    ensures src.Uri? ==> profilePicture == Some(JStr(src.uri))
    ensures !src.Uri? ==> FromTable(src)
    ensures !src.Supplied?
  {
    var key := StringKey(profilePicture);
    if key.Some? && StartsWith(key.value, "http") then Uri(key.value)
    else if key.Some? && InTable(key.value) then TableEntry(key.value)
    else Asset(DefaultAvatarKey)
  }

  /** A table key names its asset, and everything that is neither a URL nor a table key
      gets the default avatar. */
  lemma MemberAvatarFallbacks(profilePicture: Option<JsValue>)
    ensures forall k :: (k in AvatarKeys && profilePicture == Some(JStr(k))
      ==> MemberAvatarSource(profilePicture) == Asset(k))
    ensures (StringKey(profilePicture).None?
      || (!StartsWith(StringKey(profilePicture).value, "http") && !InTable(StringKey(profilePicture).value)))
      ==> MemberAvatarSource(profilePicture) == Asset(DefaultAvatarKey)
  {
    forall k | k in AvatarKeys && profilePicture == Some(JStr(k))
      ensures MemberAvatarSource(profilePicture) == Asset(k)
    {
      assert k[0] != 'h' by {
        assert k == "avatar1" || k == "avatar2" || k == "avatar3" || k == "avatar4" || k == "avatar5"
          || k == "avatar6" || k == "avatar7" || k == "avatar8" || k == "defaultAvatar";
      }
    }
  }
}
