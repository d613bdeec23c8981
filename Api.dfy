/** The client's HTTP layer: the two interceptors that every request and
    every failed response pass through, and the authentication calls that
    keep the session in two keys of the device's key-value store,
    `auth_token` and `user`. The network is not modelled: a call's response
    (or its failure) is a parameter. */
module Api {
  import opened Wrappers
  import opened Accounts

  const AuthorizationHeader := "Authorization"
  const BearerPrefix := "Bearer "
  const CalculationsPath := "/calculations"

  /** A failed request: the HTTP status of the response, or `None` when no response arrived. */
  datatype HttpError = HttpError(status: Option<int>)

  /** The header value the request interceptor sends for a stored token. */
  function BearerHeader(token: string): (h: string)
    ensures |h| == |BearerPrefix| + |token|
    ensures h[..|BearerPrefix|] == BearerPrefix && h[|BearerPrefix|..] == token
  {
    BearerPrefix + token
  }

  /** The path `calculationsAPI.delete(id)` requests: the id is appended as it is. */
  function DeleteUrl(id: string): (url: string)
    ensures |url| == |CalculationsPath| + 1 + |id|
    ensures url[..|CalculationsPath| + 1] == CalculationsPath + "/"
    ensures url[|CalculationsPath| + 1..] == id
  {
    CalculationsPath + "/" + id
  }

  /** The session as the two store keys hold it. */
  class AuthStore {
    var authToken: Option<string>
    var user: Option<User>

    constructor ()
      ensures authToken == None && user == None
    {
      authToken := None;
      user := None;
    }

    /** `authAPI.isAuthenticated`: a token is stored and it is not empty. */
    predicate IsAuthenticated()
      reads this
    {
      authToken.Some? && authToken.value != ""
    }

    /** `authAPI.getStoredUser`: the stored user, or none. */
    function GetStoredUser(): Option<User>
      reads this
    {
      user
    }

    /** The request interceptor: adds `Authorization: Bearer <token>` when a
        non-empty token is stored, and otherwise sends the headers unchanged. */
    method InterceptRequest(headers: map<string, string>) returns (sent: map<string, string>)
      ensures IsAuthenticated() ==> sent == headers[AuthorizationHeader := BearerHeader(authToken.value)]
      ensures !IsAuthenticated() ==> sent == headers
    {
      sent := headers;
      var token := authToken;
      if token.Some? && token.value != "" {
        sent := sent[AuthorizationHeader := BearerHeader(token.value)];
      }
    }

    /** The response interceptor for failures: a 401 removes both keys; the
        error is passed on unchanged in every case. */
    method InterceptError(error: HttpError) returns (rejected: HttpError)
      modifies this
      ensures rejected == error
      ensures error.status == Some(401) ==> authToken == None && user == None
      ensures error.status != Some(401) ==> authToken == old(authToken) && user == old(user)
    {
      if error.status == Some(401) {
        authToken := None;
        user := None;
      }
      rejected := error;
    }

    /** `authAPI.register` and `authAPI.login` after the POST: on success the
        token and the user are stored and the answer returned; on failure the
        error interceptor has run and the error is passed on. */
    method ReceiveAuthResponse(response: Result<AuthResponse, HttpError>) returns (r: Result<AuthResponse, HttpError>)
      modifies this
      ensures r == response
      ensures response.Ok? ==> authToken == Some(response.value.token) && user == Some(response.value.user)
      ensures response.Err? && response.error.status == Some(401) ==> authToken == None && user == None
      ensures response.Err? && response.error.status != Some(401) ==> authToken == old(authToken) && user == old(user)
    {
      match response
      case Ok(data) =>
        authToken := Some(data.token);
        user := Some(data.user);
        r := response;
      case Err(error) =>
        var rejected := InterceptError(error);
        r := Err(rejected);
    }

    /** `authAPI.logout`: remove both keys. */
    method Logout()
      modifies this
      ensures authToken == None && user == None
      ensures !IsAuthenticated() && GetStoredUser() == None
    {
      authToken := None;
      user := None;
    }
  }

  /** Once a login has stored a non-empty token, every request carries it as a bearer token. */
  method LoginThenRequest(store: AuthStore, answer: AuthResponse, headers: map<string, string>)
    returns (sent: map<string, string>)
    requires answer.token != ""
    modifies store
    ensures AuthorizationHeader in sent && sent[AuthorizationHeader] == BearerPrefix + answer.token
    ensures forall k :: k in headers && k != AuthorizationHeader ==> k in sent && sent[k] == headers[k]
    ensures store.IsAuthenticated() && store.GetStoredUser() == Some(answer.user)
  {
    var r := store.ReceiveAuthResponse(Ok(answer));
    sent := store.InterceptRequest(headers);
  }

  /** After a 401 no later request carries a token until the next login. */
  method UnauthorizedThenRequest(store: AuthStore, headers: map<string, string>)
    returns (sent: map<string, string>)
    modifies store
    ensures sent == headers
    ensures !store.IsAuthenticated() && store.GetStoredUser() == None
  {
    var rejected := store.InterceptError(HttpError(Some(401)));
    sent := store.InterceptRequest(headers);
  }
}
