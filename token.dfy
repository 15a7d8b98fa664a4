/**
 * Building the service-account token request (the OAuth 2.0 JWT-bearer grant of RFC 7523):
 * the claims set to be signed and the form posted to the token endpoint, and reading the
 * access token out of the endpoint's JSON reply. Signing itself (RS256 over the PEM key) is a
 * parameter of the model; the signed JWT is an opaque string.
 */
module TokenBroker {
  import opened Wrappers
  import opened Json
  import opened Transport

  /** The three fields the programs read from `credentials.json`. */
  datatype ServiceAccount = ServiceAccount(clientEmail: string, privateKey: string, tokenUri: string)

  /** The JWT claims set, in the declaration order serde serialises it. Times are Unix seconds. */
  datatype Claims = Claims(iss: string, scope: string, aud: string, exp: int, iat: int)

  const SpreadsheetsScope := "https://www.googleapis.com/auth/spreadsheets"
  const JwtBearerGrantType := "urn:ietf:params:oauth:grant-type:jwt-bearer"
  /** `Duration::minutes(60)`, in seconds. */
  const TokenLifetime := 3600

  /** The claims every program signs: issued by the service account, addressed to its token
      endpoint, for the spreadsheets scope, issued at `now` and expiring an hour later. */
  function MakeClaims(sa: ServiceAccount, now: int): (c: Claims)
    ensures c.iss == sa.clientEmail && c.aud == sa.tokenUri && c.scope == SpreadsheetsScope
    ensures c.iat == now && c.exp - c.iat == TokenLifetime
  {
    Claims(sa.clientEmail, SpreadsheetsScope, sa.tokenUri, now + TokenLifetime, now)
  }

  /** The form fields of the token request (section 2.1 of RFC 7523), in the order they are sent. */
  function TokenForm(jwt: string): seq<(string, string)> {
    [("grant_type", JwtBearerGrantType), ("assertion", jwt)]
  }

  /** The value the token endpoint reads for form field `name`: the first field with that name. */
  function FormField(form: seq<(string, string)>, name: string): (r: Option<string>)
    ensures r.Some? <==> exists j :: 0 <= j < |form| && form[j].0 == name
    ensures r.Some? ==> exists j :: 0 <= j < |form| && form[j] == (name, r.value)
    decreases |form|
  {
    if form == [] then None
    else if form[0].0 == name then Some(form[0].1)
    else FormField(form[1..], name)
  }

  /** The token form carries the JWT-bearer grant type and the signed assertion, and nothing else. */
  lemma TokenFormFields(jwt: string, name: string)
    ensures FormField(TokenForm(jwt), "grant_type") == Some(JwtBearerGrantType)
    ensures FormField(TokenForm(jwt), "assertion") == Some(jwt)
    ensures name != "grant_type" && name != "assertion" ==> FormField(TokenForm(jwt), name) == None
  {
  }

  /** The token request: a POST to the credential's `token_uri` whose form carries the JWT-bearer
      grant type and the signed assertion, and no other field. */
  function TokenRequest(sa: ServiceAccount, jwt: string): (r: Request)
    ensures r.TokenPost? && !r.IsSheetsRequest()
    ensures r.endpoint == sa.tokenUri && r.form == TokenForm(jwt)
    ensures FormField(r.form, "grant_type") == Some(JwtBearerGrantType)
    ensures FormField(r.form, "assertion") == Some(jwt)
    ensures forall name :: name != "grant_type" && name != "assertion" ==> FormField(r.form, name) == None
  {
    TokenFormFields(jwt, "");
    forall name | name != "grant_type" && name != "assertion"
      ensures FormField(TokenForm(jwt), name) == None
    {
      TokenFormFields(jwt, name);
    }
    TokenPost(sa.tokenUri, TokenForm(jwt))
  }

  /** `token_resp["access_token"].as_str()`: the token exactly when the reply has a string
      `access_token` member. */
  function AccessToken(reply: Json): (r: Option<string>)
    ensures r.Some? <==> Member(reply, "access_token").Str?
    ensures r.Some? ==> Member(reply, "access_token") == Str(r.value)
  {
    var t := Member(reply, "access_token");
    if t.Str? then Some(t.s) else None
  }
}
