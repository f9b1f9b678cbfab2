/** The browser session: a string-to-string store (`localStorage`) whose `token` entry
    says whether someone is logged in. */
module Session {
  import opened Options

  type Storage = map<string, string>

  const TokenKey := "token"

  /** `!!localStorage.getItem("token")`: the entry exists and is not the empty string. */
  predicate HasToken(st: Storage)
  {
    TokenKey in st && st[TokenKey] != ""
  }

  /** `localStorage.setItem("token", token)`: the value is stored as a string, so an
      undefined token is stored as the text `undefined`. Other entries are kept. */
  function StoreToken(st: Storage, token: Option<string>): (r: Storage)
    ensures TokenKey in r && r[TokenKey] == (if token.Some? then token.value else "undefined")
    ensures forall k :: k != TokenKey ==> (k in r <==> k in st)
    ensures forall k :: k != TokenKey && k in st ==> r[k] == st[k]
  {
    st[TokenKey := if token.Some? then token.value else "undefined"]
  }

  /** `localStorage.removeItem("token")`: only the token entry goes. */
  function RemoveToken(st: Storage): (r: Storage)
    ensures TokenKey !in r
    ensures forall k :: k != TokenKey ==> (k in r <==> k in st)
    ensures forall k :: k != TokenKey && k in st ==> r[k] == st[k]
  {
    st - {TokenKey}
  }

  /** After storing a token there is one exactly when the stored text is not empty, which
      an undefined token never is. After removing it there is none, whatever was stored
      before, and removing forgets a store. */
  lemma StoreThenRemove(st: Storage, token: Option<string>)
    ensures HasToken(StoreToken(st, token)) <==> token.None? || token.value != ""
    ensures !HasToken(RemoveToken(st))
    ensures RemoveToken(StoreToken(st, token)) == RemoveToken(st)
  {
  }
}
