/** The Apollo auth link: every outgoing GraphQL request gets an
    `authorization` header computed from the stored token, in the
    `Bearer <token>` form of section 2.1 of RFC 6750. */
module BearerHeader {
  import opened Common
  import opened Text

  /** The header key the link writes; JavaScript object keys are case-sensitive. */
  const AUTHORIZATION: string := "authorization"

  /** The scheme word and the single space that precede the credential. */
  const BEARER_PREFIX: string := "Bearer "

  type Headers = map<string, string>

  /** The header value for the stored token: the bearer credential when the
      token is truthy, the empty string otherwise. */
  function AuthorizationValue(token: Option<string>): (v: string)
    ensures v != BEARER_PREFIX
    ensures v == "" <==> !Present(token)
    ensures v != "" ==> StartsWith(v, BEARER_PREFIX)
  {
    if Present(token) then BEARER_PREFIX + token.value else ""
  }

  /** How a server reads the credential back out of the header value. */
  function Credential(v: string): (t: Option<string>)
    ensures t.Some? ==> t.value != "" && v == BEARER_PREFIX + t.value
  {
    if StartsWith(v, BEARER_PREFIX) && |v| > |BEARER_PREFIX| then Some(v[|BEARER_PREFIX|..]) else None
  }

  /** Reading the credential back yields exactly the stored token when one is
      present, and nothing when the header is empty. */
  lemma CredentialRoundTrip(token: Option<string>)
    ensures Present(token) ==> Credential(AuthorizationValue(token)) == token
    ensures !Present(token) ==> Credential(AuthorizationValue(token)) == None
  {
    if Present(token) {
      var v := AuthorizationValue(token);
      assert v[|BEARER_PREFIX|..] == token.value;
    }
  }

  /** Distinct stored tokens never produce the same non-empty header. */
  lemma AuthorizationValueInjective(a: Option<string>, b: Option<string>)
    requires Present(a) && Present(b)
    requires AuthorizationValue(a) == AuthorizationValue(b)
    ensures a == b
  {
    CredentialRoundTrip(a);
    CredentialRoundTrip(b);
  }

  /** The context the link hands to the HTTP link: the incoming headers
      (none when the operation carried none) with `authorization` set. */
  function AuthLink(headers: Option<Headers>, token: Option<string>): (r: Headers)
    ensures AUTHORIZATION in r && r[AUTHORIZATION] == AuthorizationValue(token)
    ensures forall k :: k in r <==> k == AUTHORIZATION || (headers.Some? && k in headers.value)
    ensures headers.Some? ==>
              forall k :: k in headers.value && k != AUTHORIZATION ==> r[k] == headers.value[k]
  {
    var incoming := if headers.Some? then headers.value else map[];
    incoming[AUTHORIZATION := AuthorizationValue(token)]
  }

  /** Passing the link's output through the link again changes nothing. */
  lemma AuthLinkIdempotent(headers: Option<Headers>, token: Option<string>)
    ensures AuthLink(Some(AuthLink(headers, token)), token) == AuthLink(headers, token)
  {
  }
}
