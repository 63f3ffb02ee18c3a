/** The client's session store (frontend/src/services/authService.ts): the access token,
    the refresh token and the user, kept in the browser's `localStorage` under three keys.
    `JSON.stringify` and `JSON.parse` are a parameter, assumed to invert each other on
    users. The login, signup and refresh requests are network calls and are not modelled. */
module AuthStorage {
  import opened Wrappers
  import opened ClientTypes

  const AccessTokenKey := "access_token"
  const RefreshTokenKey := "refresh_token"
  const UserKey := "user"
  const AuthKeys: set<string> := {AccessTokenKey, RefreshTokenKey, UserKey}

  /** What `JSON.parse` makes of a stored string: it throws, it gives a falsy value (such
      as `null`), or it gives a user. */
  datatype Parsed = Malformed | Falsy | UserValue(user: User)

  /** `JSON.stringify` and `JSON.parse`, restricted to users. */
  datatype Codec = Codec(stringify: User -> string, parse: string -> Parsed)

  /** Parsing what was written gives the user back, and `JSON.parse('')` throws. */
  ghost predicate RoundTrips(c: Codec) {
    (forall u: User :: c.parse(c.stringify(u)) == UserValue(u)) && c.parse([]) == Malformed
  }

  /** No user is written as the empty string, since that would parse back as an error. */
  lemma StringifyNonEmpty(c: Codec, u: User)
    requires RoundTrips(c)
    ensures c.stringify(u) != []
  {
    assert c.parse(c.stringify(u)) == UserValue(u);
  }

  /** The browser's `localStorage`: strings under string keys. */
  class LocalStorage {
    var items: map<string, string>

    constructor()
      ensures items == map[]
    {
      items := map[];
    }

    /** `setItem`: the key now holds the value; nothing else changes. */
    method SetItem(key: string, value: string)
      modifies this
      ensures items == old(items)[key := value]
    {
      items := items[key := value];
    }

    /** `removeItem`: the key is gone, whether it was there or not; nothing else changes. */
    method RemoveItem(key: string)
      modifies this
      ensures items == old(items) - {key}
    {
      items := items - {key};
    }

    /** `getItem`: the value under the key, or `null`. */
    function GetItem(key: string): (r: Option<string>)
      reads this
      ensures r.Some? <==> key in items
      ensures r.Some? ==> r.value == items[key]
    {
      if key in items then Some(items[key]) else None
    }
  }

  /** The store after `storeAuthData(a)`. */
  function WithAuthData(items: map<string, string>, a: AuthResponse, stringify: User -> string): (r: map<string, string>)
    ensures r.Keys == items.Keys + AuthKeys
    ensures r[AccessTokenKey] == a.accessToken && r[RefreshTokenKey] == a.refreshToken
    ensures r[UserKey] == stringify(a.user)
    ensures forall k :: k in items && k !in AuthKeys ==> r[k] == items[k]
  {
    items[AccessTokenKey := a.accessToken][RefreshTokenKey := a.refreshToken][UserKey := stringify(a.user)]
  }

  /** The store after `logout()`. */
  function WithoutAuthData(items: map<string, string>): (r: map<string, string>)
    ensures r.Keys == items.Keys - AuthKeys
    ensures forall k :: k in r ==> r[k] == items[k]
  {
    items - AuthKeys
  }

  /** What `getStoredUser()` gives for a store: `null` (falsy) when the key is missing or
      holds the empty string, else what parsing the string gives. */
  function StoredUser(items: map<string, string>, parse: string -> Parsed): (r: Parsed)
    ensures UserKey !in items || items[UserKey] == [] ==> r == Falsy
  {
    if UserKey in items && items[UserKey] != [] then parse(items[UserKey]) else Falsy
  }

  /** `storeAuthData`: the two tokens and the user, as JSON, under their keys. */
  method StoreAuthData(store: LocalStorage, a: AuthResponse, codec: Codec)
    modifies store
    ensures store.items == WithAuthData(old(store.items), a, codec.stringify)
  {
    store.SetItem(AccessTokenKey, a.accessToken);
    store.SetItem(RefreshTokenKey, a.refreshToken);
    store.SetItem(UserKey, codec.stringify(a.user));
  }

  /** `logout`: the three keys removed. */
  method Logout(store: LocalStorage)
    modifies store
    ensures store.items == WithoutAuthData(old(store.items))
  {
    store.RemoveItem(AccessTokenKey);
    store.RemoveItem(RefreshTokenKey);
    store.RemoveItem(UserKey);
    assert store.items.Keys == old(store.items).Keys - AuthKeys;
  }

  /** `getStoredUser`: reads the user key and parses it when it is non-empty. */
  method GetStoredUser(store: LocalStorage, codec: Codec) returns (r: Parsed)
    ensures r == StoredUser(store.items, codec.parse)
  {
    var userStr := store.GetItem(UserKey);
    if userStr.Some? && userStr.value != [] {
      r := codec.parse(userStr.value);
    } else {
      r := Falsy;
    }
  }

  /** After storing a login, the stored user is the login's user. */
  lemma StoreThenGet(items: map<string, string>, a: AuthResponse, codec: Codec)
    requires RoundTrips(codec)
    ensures StoredUser(WithAuthData(items, a, codec.stringify), codec.parse) == UserValue(a.user)
  {
    StringifyNonEmpty(codec, a.user);
  }

  /** After logging out there is no stored user. */
  lemma LogoutThenGet(items: map<string, string>, parse: string -> Parsed)
    ensures StoredUser(WithoutAuthData(items), parse) == Falsy
  {
  }

  /** Logging out after a login leaves the store as logging out would have without it:
      nothing of the session survives, and every other key is as before. */
  lemma LogoutUndoesStore(items: map<string, string>, a: AuthResponse, stringify: User -> string)
    ensures WithoutAuthData(WithAuthData(items, a, stringify)) == WithoutAuthData(items)
  {
    var l, r := WithoutAuthData(WithAuthData(items, a, stringify)), WithoutAuthData(items);
    assert l.Keys == r.Keys;
    forall k | k in l ensures l[k] == r[k] {
      assert k !in AuthKeys;
    }
  }

  /** Logging out twice is logging out once. */
  lemma LogoutIdempotent(items: map<string, string>)
    ensures WithoutAuthData(WithoutAuthData(items)) == WithoutAuthData(items)
  {
  }
}
