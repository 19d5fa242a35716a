/**
  The token refresh of the Strava client: when the user's access token has
  expired, one POST to the OAuth token endpoint carrying the refresh token,
  whose response replaces the user's three token fields.

  Whether the token has expired (`User.is_token_expired`) is passed in as
  `expired`, and the HTTP call (`make_request`) as the function `post` from
  the request sent to the response's fields; a key missing from the response
  reads as None, as `dict.get` gives.
*/
module StravaClient {
  import opened Wrappers

  /** `STRAVA_BASE_URL` followed by the token endpoint's path. */
  const TokenUrl: string := "https://www.strava.com/oauth/token"

  /** The user record the client refreshes in place. */
  class User {
    var accessToken: Option<string>
    var refreshToken: Option<string>
    var expiresAt: Option<int>
    var id: Option<int>
    var username: Option<string>

    constructor (accessToken: Option<string>, refreshToken: Option<string>, expiresAt: Option<int>)
      ensures this.accessToken == accessToken && this.refreshToken == refreshToken && this.expiresAt == expiresAt
      ensures id == None && username == None
    {
      this.accessToken := accessToken;
      this.refreshToken := refreshToken;
      this.expiresAt := expiresAt;
      id := None;
      username := None;
    }
  }

  /** A form-encoded request to the token endpoint. */
  datatype TokenRequest = TokenRequest(
    url: string, verb: string,
    clientId: string, clientSecret: string, grantType: string, refreshToken: Option<string>)

  /** The fields of the token endpoint's JSON answer that the client reads. */
  datatype TokenResponse = TokenResponse(accessToken: Option<string>, expiresAt: Option<int>, refreshToken: Option<string>)

  class Strava {
    const clientId: string
    const clientSecret: string
    const user: User

    constructor (user: User, clientId: string, clientSecret: string)
      ensures this.user == user && this.clientId == clientId && this.clientSecret == clientSecret
    {
      this.user := user;
      this.clientId := clientId;
      this.clientSecret := clientSecret;
    }

    /**
      `refresh_tokens`: always reports success. An unexpired token leaves the
      user alone and sends nothing; an expired one sends exactly one refresh
      request and stores the answer's access token, expiry and refresh token,
      each None when the answer lacks it.
    */
    method RefreshTokens(expired: bool, post: TokenRequest -> TokenResponse) returns (ok: bool, sent: Option<TokenRequest>)
      modifies user
      ensures ok
      ensures !expired ==> sent == None && unchanged(user)
      ensures expired ==>
                sent == Some(TokenRequest(TokenUrl, "POST", clientId, clientSecret, "refresh_token", old(user.refreshToken)))
      ensures expired ==>
                var answer := post(sent.value);
                user.accessToken == answer.accessToken && user.expiresAt == answer.expiresAt &&
                user.refreshToken == answer.refreshToken
      ensures user.id == old(user.id) && user.username == old(user.username)
    {
      if !expired {
        return true, None;
      }
      var request := TokenRequest(TokenUrl, "POST", clientId, clientSecret, "refresh_token", user.refreshToken);
      var response := post(request);
      user.accessToken := response.accessToken;
      user.expiresAt := response.expiresAt;
      user.refreshToken := response.refreshToken;
      return true, Some(request);
    }
  }

  /** The answer of the repository's refresh test, whatever was asked. */
  function TestAnswer(request: TokenRequest): TokenResponse {
    TokenResponse(Some("new_access_token"), Some(1234567890), Some("new_refresh_token"))
  }

  /**
    An expired token is refreshed with the stored refresh token, and the
    user ends up holding the answer's tokens.
  */
  method TestRefreshExpired() returns (ok: bool, sent: Option<TokenRequest>, tokens: TokenResponse)
    ensures ok
    ensures sent == Some(TokenRequest("https://www.strava.com/oauth/token", "POST",
                                      "mock_client_id", "mock_client_secret", "refresh_token", Some("mock_refresh_token")))
    ensures tokens == TokenResponse(Some("new_access_token"), Some(1234567890), Some("new_refresh_token"))
  {
    var user := new User(Some("mock_access_token"), Some("mock_refresh_token"), None);
    var strava := new Strava(user, "mock_client_id", "mock_client_secret");
    ok, sent := strava.RefreshTokens(true, TestAnswer);
    tokens := TokenResponse(user.accessToken, user.expiresAt, user.refreshToken);
  }

  /** A live token makes no request and the user keeps the tokens it had. */
  method TestRefreshNotNeeded() returns (ok: bool, sent: Option<TokenRequest>, tokens: TokenResponse)
    ensures ok && sent == None
    ensures tokens == TokenResponse(Some("mock_access_token"), None, Some("mock_refresh_token"))
  {
    var user := new User(Some("mock_access_token"), Some("mock_refresh_token"), None);
    var strava := new Strava(user, "mock_client_id", "mock_client_secret");
    ok, sent := strava.RefreshTokens(false, TestAnswer);
    tokens := TokenResponse(user.accessToken, user.expiresAt, user.refreshToken);
  }
}
