/** The login state store (packages/storage/lib/authStorage.ts). */
module AuthStorage {

  datatype Data = Data(userId: string, authToken: string, isLoggedIn: bool)

  const Initial: Data := Data("", "", false)

  /** Stores the token and marks the user logged in. */
  function UpdateAuthToken(d: Data, token: string): (r: Data)
    ensures r.authToken == token && r.isLoggedIn
    ensures r.userId == d.userId
  {
    d.(authToken := token, isLoggedIn := true)
  }

  /** Forgets the token and marks the user logged out. */
  function ClearAuthToken(d: Data): (r: Data)
    ensures r.authToken == "" && !r.isLoggedIn
    ensures r.userId == d.userId
  {
    d.(authToken := "", isLoggedIn := false)
  }

  function UpdateUserId(d: Data, userId: string): (r: Data)
    ensures r.userId == userId
    ensures r.authToken == d.authToken && r.isLoggedIn == d.isLoggedIn
  {
    d.(userId := userId)
  }

  /** Logging out twice is logging out once, and logging out after
      logging in returns the token fields to their initial values. */
  lemma ClearAuthTokenIdempotent(d: Data, token: string)
    ensures ClearAuthToken(ClearAuthToken(d)) == ClearAuthToken(d)
    ensures ClearAuthToken(UpdateAuthToken(d, token)) == ClearAuthToken(d)
    ensures ClearAuthToken(UpdateAuthToken(Initial, token)) == Initial
  {
  }
}
