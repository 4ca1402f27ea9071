/**
  `createAuthenticatedChatTransport` (src/lib/chatTransport.ts): the choice of
  endpoint and request headers for the chat, from the sign-in state, the ID
  token and the selected pet. The library transport object itself is not
  modelled; only the `api` and `headers` options it is given.
 */
module ChatTransport {
  import opened Options
  import opened Text

  const DefaultBaseUrl := "http://localhost:8080"
  const AuthenticatedPath := "/ai/authenticated/chat/vetChatAgent"
  const AnonymousPath := "/ai/anonymous/chat/vetChatAgent"
  const AuthorizationHeader := "Authorization"
  const PetKeyHeader := "X-Pet-Key"
  const BearerPrefix := "Bearer "

  /** The function's options object; `None` stands for `null` / `undefined`. */
  datatype TransportOptions = TransportOptions(
    isAuthenticated: bool,
    idToken: Option<string>,
    petKey: Option<string>,
    baseUrl: Option<string>)

  /** The options handed to the transport: endpoint URL and headers. The
      anonymous branch passes no headers, which is an empty header map here. */
  datatype TransportConfig = TransportConfig(api: string, headers: map<string, string>)

  /** JavaScript truthiness of an optional string. */
  predicate Truthy(s: Option<string>) {
    s.Some? && s.value != ""
  }

  /** The condition of the authenticated branch, `isAuthenticated && idToken`. */
  predicate UsesAuthenticated(o: TransportOptions): (b: bool)
    ensures b <==> o.isAuthenticated && o.idToken != None && o.idToken != Some("")
  {
    o.isAuthenticated && Truthy(o.idToken)
  }

  /** The destructuring default: only an absent `baseUrl` is replaced. */
  function BaseUrl(o: TransportOptions): (base: string)
    ensures o.baseUrl.None? ==> base == DefaultBaseUrl
    ensures o.baseUrl.Some? ==> base == o.baseUrl.value
  {
    o.baseUrl.GetOr(DefaultBaseUrl)
  }

  lemma EndpointsDiffer(base: string)
    ensures base + AuthenticatedPath != base + AnonymousPath
  {
    assert (base + AuthenticatedPath)[|base| + 5] == 'u';
    assert (base + AnonymousPath)[|base| + 5] == 'n';
  }

  function CreateTransport(o: TransportOptions): (t: TransportConfig)
    ensures t.api == BaseUrl(o) + AuthenticatedPath || t.api == BaseUrl(o) + AnonymousPath
    ensures t.api == BaseUrl(o) + AuthenticatedPath <==> UsesAuthenticated(o)
    ensures AuthorizationHeader in t.headers <==> UsesAuthenticated(o)
    ensures AuthorizationHeader in t.headers ==> t.headers[AuthorizationHeader] == BearerPrefix + o.idToken.value
    ensures PetKeyHeader in t.headers <==> UsesAuthenticated(o) && Truthy(o.petKey)
    ensures PetKeyHeader in t.headers ==> t.headers[PetKeyHeader] == o.petKey.value
    ensures t.headers.Keys <= {AuthorizationHeader, PetKeyHeader}
  {
    var base := BaseUrl(o);
    EndpointsDiffer(base);
    if UsesAuthenticated(o) then
      var auth := map[AuthorizationHeader := BearerPrefix + o.idToken.value];
      var headers := if Truthy(o.petKey) then auth[PetKeyHeader := o.petKey.value] else auth;
      TransportConfig(base + AuthenticatedPath, headers)
    else
      TransportConfig(base + AnonymousPath, map[])
  }

  /** What a server reads back as the credential: the `Authorization` value
      with its `Bearer ` scheme removed. */
  function CredentialOf(t: TransportConfig): Option<string> {
    if AuthorizationHeader in t.headers && StartsWith(t.headers[AuthorizationHeader], BearerPrefix)
    then Some(t.headers[AuthorizationHeader][|BearerPrefix|..])
    else None
  }

  /** What a server reads back as the pet key. */
  function PetKeyOf(t: TransportConfig): Option<string> {
    if PetKeyHeader in t.headers then Some(t.headers[PetKeyHeader]) else None
  }

  /** The headers carry exactly the token and the pet key the authenticated
      branch is given, and nothing on the anonymous branch. */
  lemma HeadersRoundTrip(o: TransportOptions)
    ensures CredentialOf(CreateTransport(o)) == if UsesAuthenticated(o) then o.idToken else None
    ensures PetKeyOf(CreateTransport(o)) == if UsesAuthenticated(o) && Truthy(o.petKey) then o.petKey else None
  {
    var t := CreateTransport(o);
    if UsesAuthenticated(o) {
      var h := t.headers[AuthorizationHeader];
      assert h == BearerPrefix + o.idToken.value;
      assert h[..|BearerPrefix|] == BearerPrefix;
      assert h[|BearerPrefix|..] == o.idToken.value;
    }
  }

  /** Off the authenticated branch the transport is fully determined by the
      base URL: anonymous endpoint, no headers at all, so neither a token nor
      a pet key ever travels anonymously. */
  lemma AnonymousTransport(o: TransportOptions)
    requires !UsesAuthenticated(o)
    ensures CreateTransport(o) == TransportConfig(BaseUrl(o) + AnonymousPath, map[])
  {
    var t := CreateTransport(o);
    assert t.headers.Keys == {};
  }

  /** No pet key is treated specially: `unspecified`, the selector's "other"
      option, is sent like any other key. */
  lemma EveryPetKeyForwarded(o: TransportOptions)
    requires UsesAuthenticated(o) && Truthy(o.petKey)
    ensures CreateTransport(o).headers
         == map[AuthorizationHeader := BearerPrefix + o.idToken.value, PetKeyHeader := o.petKey.value]
  {
    var t := CreateTransport(o);
    var expected := map[AuthorizationHeader := BearerPrefix + o.idToken.value, PetKeyHeader := o.petKey.value];
    assert t.headers.Keys == expected.Keys;
  }
}
