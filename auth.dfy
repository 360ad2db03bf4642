/** The `authenticate` and `authorize` middleware of server.ts and the
    allow-list every `/api` route is mounted with.

    jsonwebtoken is not modelled: verifying a token string is a total
    function `verify` supplied by the caller, which yields the signed claims
    or nothing (a bad signature, an expired token, a malformed string). */
module Auth {
  import opened Base
  import Text

  /** The payload signed into a token at login: `{id, role, dealershipId}`. */
  datatype Claims = Claims(id: nat, role: string, dealershipId: Option<nat>)

  /** What a route answers: an error object with its status, an exception
      that escapes the handler (Express's default handler answers 500), or a
      JSON value with its status. */
  datatype Reply<+T> = Refused(status: nat, error: string) | Crashed | Ok(status: nat, value: T)
  {
    function Status(): (s: nat)
      ensures Crashed? ==> s == 500
    {
      match this
      case Refused(s, _) => s
      case Crashed => 500
      case Ok(s, _) => s
    }
  }

  /** The outcome of the middleware chain: the handler runs with `claims`, or
      the request is answered with `status` and `error`. */
  datatype Admission = Admitted(claims: Claims) | Rejected(status: nat, error: string)

  /** `header.split(' ')[1]`: the second space-separated piece, `undefined`
      when the header holds no space. */
  function BearerToken(header: string): (tok: Option<string>)
    ensures ' ' !in header ==> tok.None?
    ensures tok.Some? ==> ' ' !in tok.value
  {
    var parts := Text.Split(header, ' ');
    if ' ' !in header then
      Text.SplitNoSeparator(header, ' ');
      None
    else if |parts| >= 2 then
      assert parts[1] in parts;
      Some(parts[1])
    else None
  }

  /** `Bearer <token>` carries `<token>`, whatever the scheme word is. */
  lemma BearerTokenOfHeader(scheme: string, token: string)
    requires ' ' !in scheme && ' ' !in token
    ensures BearerToken(scheme + " " + token) == Some(token)
  {
    var h := scheme + " " + token;
    assert h == Text.Join([scheme, token], ' ');
    Text.SplitJoin([scheme, token], ' ');
    assert h[|scheme|] == ' ';
  }

  /** `authenticate`: a missing or empty header is 401 'No token provided';
      a header whose second piece is missing or does not verify is 401
      'Invalid token'; otherwise the handler runs with the decoded claims. */
  function Authenticate(header: Option<string>, verify: string -> Option<Claims>): (r: Admission)
    ensures !Truthy(header) ==> r == Rejected(401, "No token provided")
    ensures Truthy(header) && BearerToken(header.value).None? ==> r == Rejected(401, "Invalid token")
    ensures Truthy(header) && BearerToken(header.value).Some? ==>
              r == (match verify(BearerToken(header.value).value)
                    case Some(c) => Admitted(c)
                    case None => Rejected(401, "Invalid token"))
  {
    if !Truthy(header) then Rejected(401, "No token provided")
    else
      match BearerToken(header.value)
      case None => Rejected(401, "Invalid token")
      case Some(token) =>
        match verify(token)
        case Some(c) => Admitted(c)
        case None => Rejected(401, "Invalid token")
  }

  /** `authorize(roles)`: 403 'Forbidden' unless the role in the claims is listed. */
  function Authorize(claims: Claims, roles: seq<string>): (r: Admission)
    ensures r.Admitted? <==> claims.role in roles
    ensures r.Admitted? ==> r.claims == claims
    ensures r.Rejected? ==> r == Rejected(403, "Forbidden")
  {
    if claims.role in roles then Admitted(claims) else Rejected(403, "Forbidden")
  }

  /** The middleware a route is mounted with: `authenticate` alone, or
      `authenticate` followed by `authorize(roles)`. */
  datatype Access = AnySignedIn | OnlyRoles(roles: seq<string>)

  /** The middleware chain run in order; the first refusal answers. The
      refusals come in a fixed order: no header, then a bad token, then a
      role outside the allow-list; a request that passes all three runs with
      the claims of its token. */
  function Guard(header: Option<string>, verify: string -> Option<Claims>, access: Access): (r: Admission)
    ensures !Truthy(header) ==> r == Rejected(401, "No token provided")
    ensures Truthy(header) && (BearerToken(header.value).None? || verify(BearerToken(header.value).value).None?) ==>
              r == Rejected(401, "Invalid token")
    ensures Truthy(header) && BearerToken(header.value).Some? && verify(BearerToken(header.value).value).Some? ==>
              var c := verify(BearerToken(header.value).value).value;
              && (access.OnlyRoles? && c.role !in access.roles ==> r == Rejected(403, "Forbidden"))
              && (access.AnySignedIn? || c.role in access.roles ==> r == Admitted(c))
    ensures r.Admitted? && access.OnlyRoles? ==> r.claims.role in access.roles
  {
    match Authenticate(header, verify)
    case Rejected(s, e) => Rejected(s, e)
    case Admitted(c) =>
      match access
      case AnySignedIn => Admitted(c)
      case OnlyRoles(roles) => Authorize(c, roles)
  }

  /** The `/api` routes of server.ts. */
  datatype Route =
    | LoginRoute | ListDealershipsRoute | CreateDealershipRoute | ListLocationsRoute | CreateLocationRoute
    | ListUsersRoute | CreateUserRoute | ListRolesRoute | GetLeadRoute | ListLeadsRoute | CreateLeadRoute
    | LeadCommunicationsRoute | StatsRoute | ListTasksRoute | CreateTaskRoute | ListMessagesRoute | WebhookRoute

  /** The middleware each route is mounted with; `None` for the two routes
      mounted without any (login and the lead webhook). */
  function AccessOf(route: Route): Option<Access> {
    match route
    case LoginRoute | WebhookRoute => None
    case ListDealershipsRoute | CreateDealershipRoute | CreateLocationRoute => Some(OnlyRoles([SuperAdmin]))
    case CreateUserRoute => Some(OnlyRoles([Principal, Admin]))
    case _ => Some(AnySignedIn)
  }

  /** Only a super_admin token reaches the dealership routes and location
      creation; only a principal or admin token reaches user creation; every
      other route except login and the webhook admits any valid token. */
  lemma RouteAdmission(route: Route, header: Option<string>, verify: string -> Option<Claims>)
    requires AccessOf(route).Some?
    ensures var r := Guard(header, verify, AccessOf(route).value);
      && (route in {ListDealershipsRoute, CreateDealershipRoute, CreateLocationRoute} && r.Admitted? ==>
            r.claims.role == SuperAdmin)
      && (route == CreateUserRoute && r.Admitted? ==> r.claims.role in {Principal, Admin})
      && (route !in {ListDealershipsRoute, CreateDealershipRoute, CreateLocationRoute, CreateUserRoute} ==>
            r == Authenticate(header, verify))
  {
  }

  /** A token that verifies to `c`, sent as `Bearer <token>`, admits `c` to
      any route whose allow-list holds `c.role`. */
  lemma BearerAdmits(token: string, verify: string -> Option<Claims>, c: Claims, access: Access)
    requires ' ' !in token && verify(token) == Some(c)
    requires access.OnlyRoles? ==> c.role in access.roles
    ensures Guard(Some("Bearer " + token), verify, access) == Admitted(c)
  {
    BearerTokenOfHeader("Bearer", token);
    assert "Bearer" + " " + token == "Bearer " + token;
    assert Truthy(Some("Bearer " + token));
  }
}
