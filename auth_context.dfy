/** The mock authentication store: the signed-in user, the `isAuthenticated`
    flag and the `imageGenHubUser` entry of local storage that keeps the
    session across page loads. */
module AuthContext {
  import opened Wrappers
  import JsString

  datatype User = User(id: string, username: string, email: string, avatar: Option<string>)

  /** Every mock login yields this user id. */
  const MockUserId: string := "123"

  /** Avatars are generated by the avatar service from this prefix and the email. */
  const AvatarPrefix: string := "https://api.dicebear.com/7.x/avataaars/svg?seed="

  /** The user a mock login installs: the username is the part of the email
      before its first '@' (all of it when there is none). */
  function MockUser(email: string): (u: User)
    ensures u.id == MockUserId && u.email == email
    ensures |u.username| <= |email| && email[..|u.username|] == u.username && '@' !in u.username
    ensures |u.username| < |email| ==> email[|u.username|] == '@'
    ensures u.avatar == Some(AvatarPrefix + email)
  {
    User(MockUserId, JsString.BeforeFirst(email, '@'), email, Some(AvatarPrefix + email))
  }

  /** The username of a mock login is the local part of the address. */
  lemma MockUserExample()
    ensures MockUser("dev@example.com").username == "dev"
    ensures MockUser("nobody").username == "nobody"
  {
    JsString.BeforeFirstUpTo("dev@example.com", '@', 3);
    JsString.BeforeFirstUpTo("nobody", '@', 6);
  }

  class AuthStore {
    var user: Option<User>
    var isAuthenticated: bool
    /** The `imageGenHubUser` slot of local storage (a serialised user). */
    var savedUser: Option<User>

    /** The flag mirrors the presence of a user, and a signed-in user is
        always the one persisted. */
    ghost predicate Valid()
      reads this
    {
      isAuthenticated == user.Some? && (user.Some? ==> savedUser == user)
    }

    /** A fresh provider: no user yet; local storage holds whatever an earlier
        session left there. */
    constructor (stored: Option<User>)
      ensures Valid()
      ensures user == None && !isAuthenticated && savedUser == stored
    {
      user := None;
      isAuthenticated := false;
      savedUser := stored;
    }

    /** The startup effect: installs the stored user when the slot is set. */
    method RestoreSession()
      requires Valid()
      modifies this
      ensures Valid()
      ensures savedUser == old(savedUser)
      ensures old(savedUser).Some? ==> user == old(savedUser) && isAuthenticated
      ensures old(savedUser).None? ==> user == old(user) && isAuthenticated == old(isAuthenticated)
    {
      if savedUser.Some? {
        user := savedUser;
        isAuthenticated := true;
      }
    }

    /** Accepts every email and password; the password is never looked at. */
    method Login(email: string, password: string)
      modifies this
      ensures Valid()
      ensures user == Some(MockUser(email)) && isAuthenticated
      ensures savedUser == user
    {
      var mockUser := MockUser(email);
      user := Some(mockUser);
      isAuthenticated := true;
      savedUser := Some(mockUser);
    }

    /** Registration is a stub: it establishes no session and changes nothing. */
    method Register(username: string, email: string, password: string)
      ensures unchanged(this)
    {
    }

    /** Ends the session and forgets it; the new state does not depend on the
        old one, so logging out twice is the same as once. */
    method Logout()
      modifies this
      ensures Valid()
      ensures user == None && !isAuthenticated && savedUser == None
    {
      user := None;
      isAuthenticated := false;
      savedUser := None;
    }
  }

  /** A logout followed by a reload (a new store restoring from the emptied
      slot) leaves the application signed out. */
  method LogoutThenReload(store: AuthStore) returns (reloaded: AuthStore)
    modifies store
    ensures fresh(reloaded) && reloaded.Valid()
    ensures !reloaded.isAuthenticated && reloaded.user == None
  {
    store.Logout();
    reloaded := new AuthStore(store.savedUser);
    reloaded.RestoreSession();
  }

  /** A login survives a reload: a new store restoring from the slot signs
      the same mock user back in. */
  method LoginThenReload(store: AuthStore, email: string, password: string) returns (reloaded: AuthStore)
    modifies store
    ensures fresh(reloaded) && reloaded.Valid()
    ensures reloaded.isAuthenticated && reloaded.user == Some(MockUser(email)) == store.user
  {
    store.Login(email, password);
    reloaded := new AuthStore(store.savedUser);
    reloaded.RestoreSession();
  }
}
