/** The page header: a logged-in flag read from the session when it mounts, and the
    logout button. */
module Header {
  import opened Session

  /** What the header holds and where, if anywhere, it sends the browser. */
  datatype HeaderState = HeaderState(storage: Storage, isLoggedIn: bool, navigateTo: string)

  /** Mounting: logged in exactly when the session holds a non-empty token. No navigation
      happens yet (the empty path). */
  function Mount(st: Storage): (h: HeaderState)
    ensures h.isLoggedIn <==> TokenKey in st && st[TokenKey] != ""
    ensures h.storage == st && h.navigateTo == ""
  {
    HeaderState(st, HasToken(st), "")
  }

  /** `handleLogout`: remove the token, show the logged-out header, go to `/`. */
  function Logout(h: HeaderState): (r: HeaderState)
    ensures !r.isLoggedIn && r.navigateTo == "/"
    ensures TokenKey !in r.storage
    ensures forall k :: k != TokenKey ==> (k in r.storage <==> k in h.storage)
  {
    HeaderState(RemoveToken(h.storage), false, "/")
  }

  /** Logging out sticks: a header mounted afterwards, on any page, shows the session
      as logged out. */
  lemma LogoutThenMount(h: HeaderState)
    ensures !Mount(Logout(h).storage).isLoggedIn
  {
  }
}
