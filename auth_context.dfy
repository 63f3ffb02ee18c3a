/** The client's session (frontend/src/context/AuthContext.tsx): `AuthProvider` holds the
    signed-in user and whether the stored session is still being restored, and keeps them
    in step with the store `AuthStorage` manages. The answers of the login and signup
    requests are parameters. */
module AuthContext {
  import opened Wrappers
  import opened ClientTypes
  import opened AuthStorage

  class AuthProvider {
    var user: Option<User>
    var isLoading: bool
    const store: LocalStorage
    const codec: Codec

    /** The user shown is the user stored; once the session is restored, no user shown
        means none stored. */
    ghost predicate Valid()
      reads this, store
    {
      RoundTrips(codec)
      && (user.Some? ==> StoredUser(store.items, codec.parse) == UserValue(user.value))
      && (!isLoading && user.None? ==> StoredUser(store.items, codec.parse) == Falsy)
    }

    /** The provider starts without a user, loading. */
    constructor(store: LocalStorage, codec: Codec)
      requires RoundTrips(codec)
      ensures this.store == store && this.codec == codec
      ensures user.None? && isLoading && Valid()
    {
      this.store := store;
      this.codec := codec;
      user := None;
      isLoading := true;
    }

    /** `isAuthenticated`: a user is signed in. Once the session is restored, that is
        exactly when the store holds a user. */
    function IsAuthenticated(): (r: bool)
      reads this, store
      ensures r <==> user.Some?
      ensures Valid() && !isLoading ==> (r <==> StoredUser(store.items, codec.parse).UserValue?)
    {
      user.Some?
    }

    /** The mount effect: a stored user becomes the user, and loading ends. If the stored
        string does not parse, `JSON.parse` throws out of the effect before loading ends. */
    method Mount() returns (threw: bool)
      modifies this
      ensures var p := StoredUser(store.items, codec.parse);
        (p.Malformed? ==> threw && user == old(user) && isLoading == old(isLoading))
        && (p.Falsy? ==> !threw && user == old(user) && !isLoading)
        && (p.UserValue? ==> !threw && user == Some(p.user) && !isLoading)
      ensures old(Valid()) ==> Valid()
    {
      var storedUser := GetStoredUser(store, codec);
      match storedUser {
        case Malformed =>
          return true;
        case Falsy =>
        case UserValue(u) =>
          user := Some(u);
      }
      isLoading := false;
      threw := false;
    }

    /** `login` and `signup`, which differ only in the request: with the request's answer,
        the session is stored and its user signed in; when the request throws (`None`),
        nothing changes. */
    method SignIn(response: Option<AuthResponse>)
      modifies this, store
      ensures response.None? ==> user == old(user) && store.items == old(store.items)
      ensures response.Some? ==>
        store.items == WithAuthData(old(store.items), response.value, codec.stringify)
        && user == Some(response.value.user)
      ensures isLoading == old(isLoading)
      ensures old(Valid()) ==> Valid()
    {
      if response.None? {
        return;
      }
      var authData := response.value;
      StoreAuthData(store, authData, codec);
      user := Some(authData.user);
      if RoundTrips(codec) {
        StoreThenGet(old(store.items), authData, codec);
      }
    }

    /** `logout`: the session is removed from the store and the user signed out. */
    method Logout()
      modifies this, store
      ensures store.items == WithoutAuthData(old(store.items)) && user.None?
      ensures isLoading == old(isLoading)
      ensures old(Valid()) ==> Valid()
    {
      AuthStorage.Logout(store);
      user := None;
      LogoutThenGet(old(store.items), codec.parse);
    }
  }

  /** What `useAuth` gives: the provider's value, or the error it throws. */
  datatype Hook<T> = Provided(value: T) | Throws(message: string)

  const OutsideProvider := "useAuth must be used within an AuthProvider"

  /** `useAuth`: the nearest provider's value; outside any provider it throws. */
  function UseAuth<T>(context: Option<T>): (r: Hook<T>)
    ensures r.Throws? <==> context.None?
    ensures r.Throws? ==> r.message == OutsideProvider
    ensures r.Provided? ==> r.value == context.value
  {
    if context.None? then Throws(OutsideProvider) else Provided(context.value)
  }
}
