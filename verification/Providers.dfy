/** Third-party OAuth2 providers: the validators that run before a provider is created or updated,
    the validator that guards storage, and their agreement. */
module Providers {
  import opened Prelude

  /** A value outside the listed ones is kept as the caller wrote it. */
  datatype Source = NoSource | Stored | Filesystem | OtherSource(text: string)

  datatype Registration = Omitted | Static | Cimd | OtherRegistration(text: string)

  datatype AuthMethod = Unspecified | NoAuthentication | PrivateKeyJwt | SecretBasic | SecretPost | OtherMethod(text: string)

  datatype Flavor = NoFlavor | Standard | GitHub | Google | OtherFlavor(text: string)

  datatype Bootstrap = NoBootstrap | ByCimd | ByDcr | OtherBootstrap(text: string)

  datatype Secret = Absent | Plaintext(text: string) | Ciphertext(bytes: seq<nat>)

  datatype Discovery = Discovery(enabled: bool, resourceUrl: Option<string>, metadataUrl: Option<string>, clientMethod: Bootstrap)

  datatype Status = Status(lastAttempt: Option<Time>, lastSuccess: Option<Time>, failure: Option<string>)

  datatype Endpoints = Endpoints(token: string, authorize: string, jwks: string)

  datatype Identity = Identity(id: string, canonical: Option<string>, clearCanonical: bool, displayName: string)

  datatype Client = Client(
    id: string,
    idProvided: bool,
    secret: Secret,
    secretProvided: bool,
    source: Source,
    sourceProvided: bool,
    sourceTransitioned: bool,
    registration: Registration,
    registrationProvided: bool,
    authMethod: AuthMethod)

  /** The entity's fields; identifiers are empty when absent. */
  datatype Fields = Fields(
    identity: Identity,
    client: Client,
    flavor: Flavor,
    issuer: string,
    endpoints: Endpoints,
    discovery: Discovery,
    status: Status,
    params: map<string, string>,
    resourceExplicit: bool,
    scopes: seq<string>,
    protectedResources: seq<string>)

  /** URL, name and credential-document rules that the model does not look into. */
  datatype Rules = Rules(
    canonicalValid: Option<string> -> bool,
    publicHttps: string -> bool,
    allowedScheme: (string, bool) -> bool,
    discoveryIssuer: string -> bool,
    tokenQueryClean: string -> bool,
    resourceUri: string -> bool,
    namesResource: string -> bool,
    blank: string -> bool,
    reservedParam: string -> bool,
    failureCode: string -> bool,
    scopeValid: string -> bool,
    normalize: string -> Option<string>,
    outboundClean: (map<string, string>, string, AuthMethod) -> bool,
    serviceAccount: string -> Option<(string, string)>,
    sameHost: (string, string) -> bool,
    baseUrl: string -> Option<string>)

  const GOOGLE_AUTHORIZE := "https://accounts.google.com/o/oauth2/auth"

  // ---------------------------------------------------------------- registration and source

  function WithRegistration(f: Fields): Fields {
    if f.client.registration.Omitted? && !f.client.registrationProvided
    then f.(client := f.client.(registration := if f.client.authMethod.PrivateKeyJwt? then Cimd else Static))
    else f
  }

  predicate RegistrationOk(f: Fields, flavor: Flavor) {
    match f.client.registration
    case Cimd =>
      && !flavor.Google? && !f.client.source.Filesystem?
      && (f.client.authMethod.PrivateKeyJwt? || f.client.authMethod.NoAuthentication?)
      && !f.discovery.clientMethod.ByDcr?
    case Static => !f.client.authMethod.PrivateKeyJwt? && !f.discovery.clientMethod.ByCimd?
    case _ => false
  }

  function WithSource(f: Fields): Fields {
    if f.client.source.NoSource? && !f.client.sourceProvided then f.(client := f.client.(source := Stored)) else f
  }

  predicate SourceOk(rules: Rules, f: Fields) {
    match f.client.source
    case Stored => true
    case Filesystem =>
      && f.client.authMethod.Unspecified? && !f.flavor.Google? && f.discovery.resourceUrl.None? && f.discovery.clientMethod.NoBootstrap?
      && f.identity.canonical.Some? && !f.identity.clearCanonical && rules.canonicalValid(f.identity.canonical)
      && !f.client.idProvided && !f.client.secretProvided && f.client.id == "" && f.client.secret.Absent?
    case _ => false
  }

  predicate MethodOk(m: AuthMethod) {
    !m.OtherMethod?
  }

  function Defaults(f: Fields): Fields {
    WithSource(WithRegistration(f))
  }

  predicate SharedSecret(m: AuthMethod) {
    m.SecretBasic? || m.SecretPost?
  }

  // ---------------------------------------------------------------- discovery

  predicate ResourceSourceOk(rules: Rules, d: Discovery) {
    if d.resourceUrl.None? then d.clientMethod.NoBootstrap?
    else d.enabled && d.metadataUrl.None? && rules.publicHttps(d.resourceUrl.value)
  }

  predicate DcrOk(f: Fields) {
    && f.client.id != "" && (f.flavor.NoFlavor? || f.flavor.Standard?)
    && (SharedSecret(f.client.authMethod) || f.client.authMethod.NoAuthentication?)
    && (f.client.authMethod.NoAuthentication? <==> f.client.secret.Absent?)
  }

  /** The resource parameter is there, and is either a valid URI or the discovered one. */
  predicate ResourceParamOk(rules: Rules, f: Fields) {
    f.discovery.resourceUrl.Some? ==>
      && "resource" in f.params
      && (if f.resourceExplicit then rules.resourceUri(f.params["resource"])
          else f.params["resource"] == f.discovery.resourceUrl.value)
  }

  /** Another spelling of the resource parameter would reach the provider as a second one. */
  predicate HasVariant(rules: Rules, params: map<string, string>) {
    exists name :: name in params && name != "resource" && rules.namesResource(name)
  }

  predicate SelectionOk(rules: Rules, f: Fields) {
    && ResourceSourceOk(rules, f.discovery)
    && (f.discovery.resourceUrl.Some? ==>
          && (match f.discovery.clientMethod
              case ByCimd => f.client.authMethod.PrivateKeyJwt? && f.client.secret.Absent? && f.client.id == ""
              case ByDcr => DcrOk(f)
              case _ => false)
          && rules.discoveryIssuer(f.issuer)
          && rules.publicHttps(f.endpoints.authorize) && rules.publicHttps(f.endpoints.token)
          && (f.endpoints.jwks != "" ==> rules.publicHttps(f.endpoints.jwks))
          && rules.tokenQueryClean(f.endpoints.token)
          && ResourceParamOk(rules, f))
  }

  predicate StatusOk(rules: Rules, s: Status, resourceUrl: Option<string>) {
    if resourceUrl.None? then s == Status(None, None, None)
    else
      && s.lastAttempt.Some? && s.lastSuccess.Some?
      && (if s.failure.None? then s.lastAttempt.value == s.lastSuccess.value
          else rules.failureCode(s.failure.value) && s.lastAttempt.value > s.lastSuccess.value)
  }

  // ---------------------------------------------------------------- acceptance for create and update

  function FlavorOf(f: Fields): Flavor {
    if f.flavor.NoFlavor? then Standard else f.flavor
  }

  predicate FlavorOk(flavor: Flavor) {
    flavor.Standard? || flavor.GitHub? || flavor.Google?
  }

  /** Client authentication, once the defaults are in place. */
  predicate AuthenticationOk(rules: Rules, f: Fields, flavor: Flavor) {
    && RegistrationOk(f, flavor) && SourceOk(rules, f) && MethodOk(f.client.authMethod)
    && (!f.client.source.Filesystem? ==>
          && (SharedSecret(f.client.authMethod) ==> f.discovery.clientMethod.ByDcr? && f.discovery.resourceUrl.Some?)
          && (if f.client.registration.Cimd? then f.client.secret.Absent? && f.client.id == ""
              else if f.client.authMethod.NoAuthentication? then !flavor.Google? && f.client.secret.Absent? && f.client.id != ""
              else !f.client.secret.Absent?))
  }

  predicate NeedsCredential(f: Fields) {
    !f.client.source.Filesystem? && !f.client.registration.Cimd? && !f.client.authMethod.NoAuthentication?
  }

  /** An update may keep the ciphertext of a dynamically registered client. */
  predicate CredentialOk(f: Fields, update: bool) {
    NeedsCredential(f) ==>
      match f.client.secret
      case Plaintext(text) => text != ""
      case Ciphertext(bytes) => update && f.discovery.clientMethod.ByDcr? && bytes != []
      case Absent => false
  }

  function CredentialText(f: Fields): string {
    if NeedsCredential(f) && f.client.secret.Plaintext? then f.client.secret.text else ""
  }

  predicate ManualOk(rules: Rules, f: Fields, skipHttps: bool) {
    && (f.client.id != "" || f.client.registration.Cimd? || f.client.source.Filesystem?)
    && f.issuer != "" && rules.allowedScheme(f.issuer, skipHttps)
    && (!f.discovery.enabled ==> f.endpoints.token != "" && f.endpoints.authorize != "")
    && (f.endpoints.token != "" ==> rules.allowedScheme(f.endpoints.token, skipHttps))
    && (f.endpoints.authorize != "" ==> rules.allowedScheme(f.endpoints.authorize, skipHttps))
  }

  predicate GoogleOk(rules: Rules, f: Fields) {
    var key := rules.serviceAccount(CredentialText(f));
    key.Some? && (if f.issuer != "" then rules.sameHost(f.issuer, key.value.1) else rules.baseUrl(key.value.1).Some?)
  }

  /** The Google credential document supplies client ID, endpoints and, if omitted, the issuer. */
  function Enriched(rules: Rules, f: Fields): Fields
    requires GoogleOk(rules, f)
  {
    var key := rules.serviceAccount(CredentialText(f)).value;
    f.(client := f.client.(id := key.0), endpoints := Endpoints(key.1, GOOGLE_AUTHORIZE, ""),
       issuer := if f.issuer != "" then f.issuer else rules.baseUrl(key.1).value)
  }

  predicate ParamsOk(rules: Rules, params: map<string, string>) {
    forall name :: name in params ==> !rules.blank(name) && !rules.blank(params[name]) && !rules.reservedParam(name)
  }

  predicate ResourcesOk(rules: Rules, resources: seq<string>) {
    && (forall i :: 0 <= i < |resources| ==> rules.normalize(resources[i]).Some?)
    && (forall i, j :: 0 <= i < j < |resources| ==> rules.normalize(resources[i]) != rules.normalize(resources[j]))
  }

  predicate OutboundOk(rules: Rules, f: Fields) {
    && (!f.client.source.NoSource? || f.client.sourceProvided ==> SourceOk(rules, f))
    && (f.client.authMethod.NoAuthentication? || f.client.authMethod.PrivateKeyJwt? ==> rules.outboundClean(f.params, f.endpoints.token, f.client.authMethod))
  }

  predicate DetailsOk(rules: Rules, f: Fields, skipHttps: bool) {
    && (f.discovery.metadataUrl.Some? ==> rules.allowedScheme(f.discovery.metadataUrl.value, skipHttps))
    && (forall s :: s in f.scopes ==> rules.scopeValid(s))
    && ResourcesOk(rules, f.protectedResources)
    && ParamsOk(rules, f.params)
    && OutboundOk(rules, f)
  }

  predicate IdentityOk(rules: Rules, f: Fields, update: bool) {
    rules.canonicalValid(f.identity.canonical) && (update ==> f.identity.id != "") && 0 < |f.identity.displayName| <= 255
  }

  predicate FlavorRulesOk(rules: Rules, f: Fields, flavor: Flavor, skipHttps: bool) {
    if flavor.Google? then GoogleOk(rules, f) else ManualOk(rules, f, skipHttps)
  }

  predicate Prepared(rules: Rules, f: Fields, skipHttps: bool, update: bool) {
    && SelectionOk(rules, f) && IdentityOk(rules, f, update)
    && AuthenticationOk(rules, Defaults(f), FlavorOf(f)) && FlavorOk(FlavorOf(f))
    && CredentialOk(Defaults(f), update)
    && FlavorRulesOk(rules, Defaults(f), FlavorOf(f), skipHttps)
  }

  /** A creation forgets that the credential source was changed. */
  function Begun(f: Fields, update: bool): Fields {
    if update then f else f.(client := f.client.(sourceTransitioned := false))
  }

  /** What the flavor's rules make of the fields. */
  function Shaped(rules: Rules, f: Fields, flavor: Flavor, skipHttps: bool): Fields
    requires FlavorRulesOk(rules, f, flavor, skipHttps)
  {
    if flavor.Google? then Enriched(rules, f) else f
  }

  /** What the receiver's fields are after acceptance. */
  function Settled(rules: Rules, f: Fields, skipHttps: bool): Fields
    requires FlavorRulesOk(rules, Defaults(f), FlavorOf(f), skipHttps)
  {
    Shaped(rules, Defaults(f), FlavorOf(f), skipHttps)
  }

  predicate Accepted(rules: Rules, f: Fields, skipHttps: bool, update: bool) {
    Prepared(rules, f, skipHttps, update) && DetailsOk(rules, Settled(rules, f, skipHttps), skipHttps)
  }

  // ---------------------------------------------------------------- acceptance for storage

  predicate StoredMethodOk(f: Fields) {
    match f.discovery.clientMethod
    case ByDcr => DcrOk(f)
    case ByCimd => f.client.authMethod.PrivateKeyJwt?
    case NoBootstrap => !SharedSecret(f.client.authMethod)
    case OtherBootstrap(_) => false
  }

  predicate StoredOk(rules: Rules, f: Fields) {
    var g := Defaults(f);
    && RegistrationOk(WithRegistration(f), f.flavor) && SourceOk(rules, g) && MethodOk(g.client.authMethod)
    && ResourceSourceOk(rules, g.discovery)
    && StatusOk(rules, g.status, g.discovery.resourceUrl)
    && (g.discovery.resourceUrl.Some? ==> !HasVariant(rules, g.params)) && ResourceParamOk(rules, g)
    && (!g.client.source.Filesystem? ==>
          && StoredMethodOk(g)
          && ((g.client.authMethod.NoAuthentication? || g.client.authMethod.PrivateKeyJwt?) <==> g.client.secret.Absent?)
          && !g.client.secret.Plaintext?)
  }

  // ---------------------------------------------------------------- the entity

  class ProviderEntity {
    var fields: Fields

    constructor (f: Fields)
      ensures fields == f
    {
      fields := f;
    }

    method ValidateClientRegistration(flavor: Flavor) returns (ok: bool)
      modifies this
      ensures fields == WithRegistration(old(fields))
      ensures ok <==> RegistrationOk(fields, flavor)
    {
      if fields.client.registration.Omitted? && !fields.client.registrationProvided {
        fields := fields.(client := fields.client.(registration := if fields.client.authMethod.PrivateKeyJwt? then Cimd else Static));
      }
      if !fields.client.registration.Cimd? && !fields.client.registration.Static? {
        return false;
      }
      if fields.client.registration.Cimd? {
        if flavor.Google? || fields.client.source.Filesystem? {
          return false;
        }
        if !fields.client.authMethod.PrivateKeyJwt? && !fields.client.authMethod.NoAuthentication? {
          return false;
        }
        return !fields.discovery.clientMethod.ByDcr?;
      }
      ok := !fields.client.authMethod.PrivateKeyJwt? && !fields.discovery.clientMethod.ByCimd?;
    }

    method ValidateCredentialSource(rules: Rules) returns (ok: bool)
      modifies this
      ensures fields == WithSource(old(fields))
      ensures ok <==> SourceOk(rules, fields)
    {
      if fields.client.source.NoSource? && !fields.client.sourceProvided {
        fields := fields.(client := fields.client.(source := Stored));
      }
      if fields.client.source.Stored? {
        return true;
      }
      if !fields.client.source.Filesystem? {
        return false;
      }
      var f := fields;
      if !f.client.authMethod.Unspecified? || f.flavor.Google? || f.discovery.resourceUrl.Some? || !f.discovery.clientMethod.NoBootstrap? {
        return false;
      }
      if f.identity.canonical.None? || f.identity.clearCanonical || !rules.canonicalValid(f.identity.canonical) {
        return false;
      }
      ok := !f.client.idProvided && !f.client.secretProvided && f.client.id == "" && f.client.secret.Absent?;
    }

    /** The result tells whether the client is a public one. */
    method ValidateClientAuthentication(rules: Rules, flavor: Flavor) returns (isPublic: Option<bool>)
      modifies this
      ensures isPublic.Some? <==> AuthenticationOk(rules, Defaults(old(fields)), flavor)
      ensures isPublic.Some? ==> fields == Defaults(old(fields)) && (isPublic.value <==> !fields.client.source.Filesystem? && fields.client.authMethod.NoAuthentication?)
    {
      var registered := ValidateClientRegistration(flavor);
      if !registered {
        return None;
      }
      var sourced := ValidateCredentialSource(rules);
      var f := fields;
      if !sourced || !MethodOk(f.client.authMethod) {
        return None;
      }
      if f.client.source.Filesystem? {
        return Some(false);
      }
      if SharedSecret(f.client.authMethod) && (!f.discovery.clientMethod.ByDcr? || f.discovery.resourceUrl.None?) {
        return None;
      }
      if f.client.registration.Cimd? {
        if !f.client.secret.Absent? || f.client.id != "" {
          return None;
        }
        return Some(f.client.authMethod.NoAuthentication?);
      }
      if f.client.authMethod.NoAuthentication? {
        if flavor.Google? || !f.client.secret.Absent? || f.client.id == "" {
          return None;
        }
        return Some(true);
      }
      isPublic := if f.client.secret.Absent? then None else Some(false);
    }

    method EnrichForGoogleFlavor(rules: Rules, credential: string) returns (ok: bool)
      requires credential == CredentialText(fields)
      modifies this
      ensures ok <==> GoogleOk(rules, old(fields))
      ensures ok ==> fields == Enriched(rules, old(fields))
    {
      var key := rules.serviceAccount(credential);
      if key.None? {
        return false;
      }
      var issuer := fields.issuer;
      if issuer != "" {
        if !rules.sameHost(issuer, key.value.1) {
          return false;
        }
      } else {
        var base := rules.baseUrl(key.value.1);
        if base.None? {
          return false;
        }
        issuer := base.value;
      }
      fields := fields.(client := fields.client.(id := key.value.0), endpoints := Endpoints(key.value.1, GOOGLE_AUTHORIZE, ""), issuer := issuer);
      ok := true;
    }

    method ValidateDetails(rules: Rules, skipHttps: bool) returns (ok: bool)
      requires !fields.client.source.NoSource?
      modifies this
      ensures fields == old(fields)
      ensures ok <==> DetailsOk(rules, fields, skipHttps)
    {
      if fields.discovery.metadataUrl.Some? && !rules.allowedScheme(fields.discovery.metadataUrl.value, skipHttps) {
        return false;
      }
      ok := ValidateScopes(rules, fields.scopes);
      if !ok {
        return;
      }
      ok := ValidateProtectedResources(rules, fields.protectedResources);
      if !ok {
        return;
      }
      ok := ValidateAuthorizationParams(rules, fields.params);
      if !ok {
        return;
      }
      ok := ValidateCredentialSource(rules);
      if ok && (fields.client.authMethod.NoAuthentication? || fields.client.authMethod.PrivateKeyJwt?) {
        ok := rules.outboundClean(fields.params, fields.endpoints.token, fields.client.authMethod);
      }
    }

    /** The part that create and update share, once the client is authenticated. */
    method ValidateFlavor(rules: Rules, flavor: Flavor, skipHttps: bool) returns (ok: bool)
      modifies this
      ensures ok <==> FlavorRulesOk(rules, old(fields), flavor, skipHttps)
      ensures ok ==> fields == Shaped(rules, old(fields), flavor, skipHttps)
    {
      if flavor.Google? {
        ok := EnrichForGoogleFlavor(rules, CredentialText(fields));
      } else {
        ok := ManualOk(rules, fields, skipHttps);
      }
    }

    /** An accepted entity has its omitted settings resolved in place. */
    method ValidateForCreate(rules: Rules, skipHttps: bool) returns (ok: bool)
      modifies this
      ensures ok <==> Accepted(rules, Begun(old(fields), false), skipHttps, false)
      ensures ok ==> fields == Settled(rules, Begun(old(fields), false), skipHttps)
    {
      fields := fields.(client := fields.client.(sourceTransitioned := false));
      var selected := ValidateDiscoverySelection(rules, fields);
      if !selected || !IdentityOk(rules, fields, false) {
        return false;
      }
      var flavor := FlavorOf(fields);
      var isPublic := ValidateClientAuthentication(rules, flavor);
      if isPublic.None? || !FlavorOk(flavor) {
        return false;
      }
      if !CredentialOk(fields, false) {
        return false;
      }
      ok := ValidateFlavor(rules, flavor, skipHttps);
      if !ok {
        return;
      }
      ok := ValidateDetails(rules, skipHttps);
    }

    method ValidateForUpdate(rules: Rules, skipHttps: bool) returns (ok: bool)
      modifies this
      ensures ok <==> Accepted(rules, old(fields), skipHttps, true)
      ensures ok ==> fields == Settled(rules, old(fields), skipHttps)
    {
      var selected := ValidateDiscoverySelection(rules, fields);
      if !selected || !IdentityOk(rules, fields, true) {
        return false;
      }
      var flavor := FlavorOf(fields);
      var isPublic := ValidateClientAuthentication(rules, flavor);
      if isPublic.None? || !FlavorOk(flavor) {
        return false;
      }
      if !CredentialOk(fields, true) {
        return false;
      }
      ok := ValidateFlavor(rules, flavor, skipHttps);
      if !ok {
        return;
      }
      ok := ValidateDetails(rules, skipHttps);
    }

    method ValidateStoredClientAuthentication(rules: Rules) returns (ok: bool)
      modifies this
      ensures ok <==> StoredOk(rules, old(fields))
      ensures ok ==> fields == Defaults(old(fields))
    {
      var registered := ValidateClientRegistration(fields.flavor);
      if !registered {
        return false;
      }
      var sourced := ValidateCredentialSource(rules);
      if !sourced || !MethodOk(fields.client.authMethod) || !ResourceSourceOk(rules, fields.discovery) {
        return false;
      }
      if !StatusOk(rules, fields.status, fields.discovery.resourceUrl) {
        return false;
      }
      var effective := ValidateEffectiveDiscoveryResource(rules, fields);
      if !effective {
        return false;
      }
      if fields.client.source.Filesystem? {
        return true;
      }
      if !StoredMethodOk(fields) {
        return false;
      }
      if (fields.client.authMethod.NoAuthentication? || fields.client.authMethod.PrivateKeyJwt?) != fields.client.secret.Absent? {
        return false;
      }
      ok := fields.client.secret.Absent? || fields.client.secret.Ciphertext?;
    }
  }

  method ValidateScopes(rules: Rules, scopes: seq<string>) returns (ok: bool)
    ensures ok <==> forall s :: s in scopes ==> rules.scopeValid(s)
  {
    for i := 0 to |scopes|
      invariant forall k :: 0 <= k < i ==> rules.scopeValid(scopes[k])
    {
      if !rules.scopeValid(scopes[i]) {
        assert scopes[i] in scopes;
        return false;
      }
    }
    ok := true;
  }

  /** Every resource has a normal form and no two share one. */
  method ValidateProtectedResources(rules: Rules, resources: seq<string>) returns (ok: bool)
    ensures ok <==> ResourcesOk(rules, resources)
  {
    var seen: set<string> := {};
    for i := 0 to |resources|
      invariant ResourcesOk(rules, resources[..i])
      invariant forall n :: n in seen <==> exists k :: 0 <= k < i && rules.normalize(resources[k]) == Some(n)
    {
      var normal := rules.normalize(resources[i]);
      if normal.None? || normal.value in seen {
        return false;
      }
      seen := seen + {normal.value};
    }
    assert resources[..|resources|] == resources;
    ok := true;
  }

  method ValidateAuthorizationParams(rules: Rules, params: map<string, string>) returns (ok: bool)
    ensures ok <==> ParamsOk(rules, params)
  {
    var rest := params.Keys;
    while rest != {}
      invariant rest <= params.Keys
      invariant forall name :: name in params && name !in rest ==> !rules.blank(name) && !rules.blank(params[name]) && !rules.reservedParam(name)
    {
      var name :| name in rest;
      rest := rest - {name};
      if rules.blank(name) || rules.blank(params[name]) || rules.reservedParam(name) {
        return false;
      }
    }
    ok := true;
  }

  method ValidateEffectiveDiscoveryResource(rules: Rules, f: Fields) returns (ok: bool)
    ensures ok <==> (f.discovery.resourceUrl.Some? ==> !HasVariant(rules, f.params)) && ResourceParamOk(rules, f)
  {
    if f.discovery.resourceUrl.None? {
      return true;
    }
    var rest := f.params.Keys;
    while rest != {}
      invariant rest <= f.params.Keys
      invariant forall name :: name in f.params && name !in rest && name != "resource" ==> !rules.namesResource(name)
    {
      var name :| name in rest;
      rest := rest - {name};
      if name != "resource" && rules.namesResource(name) {
        return false;
      }
    }
    ok := ResourceParamOk(rules, f);
  }

  method ValidateDiscoverySelection(rules: Rules, f: Fields) returns (ok: bool)
    ensures ok <==> SelectionOk(rules, f)
  {
    if !ResourceSourceOk(rules, f.discovery) {
      return false;
    }
    if f.discovery.resourceUrl.None? {
      return true;
    }
    match f.discovery.clientMethod {
      case ByCimd =>
        if !f.client.authMethod.PrivateKeyJwt? || !f.client.secret.Absent? || f.client.id != "" {
          return false;
        }
      case ByDcr =>
        if !DcrOk(f) {
          return false;
        }
      case _ => return false;
    }
    if !rules.discoveryIssuer(f.issuer) || !rules.publicHttps(f.endpoints.authorize) || !rules.publicHttps(f.endpoints.token) {
      return false;
    }
    if f.endpoints.jwks != "" && !rules.publicHttps(f.endpoints.jwks) {
      return false;
    }
    if !rules.tokenQueryClean(f.endpoints.token) {
      return false;
    }
    ok := ResourceParamOk(rules, f);
  }

  // ---------------------------------------------------------------- accepted means storable

  /** The domain service replaces a plaintext secret by its ciphertext before storing. */
  function Encrypted(f: Fields, ciphertext: seq<nat>): Fields {
    if f.client.secret.Plaintext? then f.(client := f.client.(secret := Ciphertext(ciphertext))) else f
  }

  /** What enrichment and encryption leave alone. */
  predicate SameShape(f: Fields, g: Fields) {
    && g.identity == f.identity && g.flavor == f.flavor
    && g.discovery == f.discovery && g.params == f.params && g.resourceExplicit == f.resourceExplicit && g.status == f.status
    && g.client == f.client.(id := g.client.id, secret := g.client.secret)
    && (g.client.secret.Absent? <==> f.client.secret.Absent?)
    && (f.flavor.Google? || g.client.id == f.client.id)
  }

  lemma EnrichedShape(rules: Rules, d: Fields)
    requires GoogleOk(rules, d) && d.flavor.Google?
    ensures SameShape(d, Enriched(rules, d))
  {
  }

  lemma {:induction false} EncryptedShape(g: Fields, ciphertext: seq<nat>)
    ensures SameShape(g, Encrypted(g, ciphertext))
  {
  }

  lemma DefaultsKeepFlavor(f: Fields)
    ensures Defaults(f).flavor == f.flavor
  {
  }

  lemma ShapedShape(rules: Rules, d: Fields, flavor: Flavor, skipHttps: bool)
    requires FlavorRulesOk(rules, d, flavor, skipHttps) && (flavor.Google? <==> d.flavor.Google?)
    ensures SameShape(d, Shaped(rules, d, flavor, skipHttps))
  {
    if flavor.Google? {
      EnrichedShape(rules, d);
    }
  }

  lemma ShapeTransitive(d: Fields, g: Fields, h: Fields)
    requires SameShape(d, g) && SameShape(g, h)
    ensures SameShape(d, h)
  {
  }

  lemma StoredShape(rules: Rules, f: Fields, skipHttps: bool, ciphertext: seq<nat>)
    requires FlavorRulesOk(rules, Defaults(f), FlavorOf(f), skipHttps)
    ensures SameShape(Defaults(f), Encrypted(Settled(rules, f, skipHttps), ciphertext))
  {
    var d, g := Defaults(f), Settled(rules, f, skipHttps);
    DefaultsKeepFlavor(f);
    ShapedShape(rules, d, FlavorOf(f), skipHttps);
    EncryptedShape(g, ciphertext);
    ShapeTransitive(d, g, Encrypted(g, ciphertext));
  }

  lemma DefaultsSettle(f: Fields, h: Fields)
    requires SameShape(Defaults(f), h) && RegistrationOk(Defaults(f), FlavorOf(f)) && !Defaults(f).client.source.NoSource?
    ensures Defaults(h) == h && WithRegistration(h) == h && RegistrationOk(h, h.flavor)
  {
  }

  lemma SourceSettles(rules: Rules, d: Fields, h: Fields)
    requires SameShape(d, h) && SourceOk(rules, d)
    ensures SourceOk(rules, h)
  {
  }

  lemma MethodSettles(rules: Rules, f: Fields, d: Fields, h: Fields)
    requires SameShape(d, h) && SelectionOk(rules, f) && AuthenticationOk(rules, d, FlavorOf(f)) && !d.client.source.Filesystem?
    requires d.discovery == f.discovery && d.client.authMethod == f.client.authMethod && d.flavor == f.flavor && d.client.id == f.client.id && d.client.secret == f.client.secret
    ensures StoredMethodOk(h)
    ensures (h.client.authMethod.NoAuthentication? || h.client.authMethod.PrivateKeyJwt?) <==> h.client.secret.Absent?
  {
  }

  lemma SecretSettles(rules: Rules, f: Fields, skipHttps: bool, update: bool, ciphertext: seq<nat>)
    requires Accepted(rules, f, skipHttps, update)
    ensures !Encrypted(Settled(rules, f, skipHttps), ciphertext).client.secret.Plaintext?
  {
  }

  /** Storability of a settled entity comes down to the two conditions that creation does not check. */
  lemma StorableParts(rules: Rules, f: Fields, h: Fields)
    requires Defaults(h) == h && WithRegistration(h) == h && RegistrationOk(h, h.flavor) && SourceOk(rules, h) && MethodOk(h.client.authMethod)
    requires SelectionOk(rules, f) && h.discovery == f.discovery && h.params == f.params && h.status == f.status && h.resourceExplicit == f.resourceExplicit
    requires !h.client.source.Filesystem? ==>
               && StoredMethodOk(h) && ((h.client.authMethod.NoAuthentication? || h.client.authMethod.PrivateKeyJwt?) <==> h.client.secret.Absent?)
               && !h.client.secret.Plaintext?
    ensures StoredOk(rules, h) <==>
              StatusOk(rules, f.status, f.discovery.resourceUrl) && (f.discovery.resourceUrl.Some? ==> !HasVariant(rules, f.params))
  {
  }

  lemma DefaultsKeep(f: Fields)
    ensures var d := Defaults(f);
            && d.discovery == f.discovery && d.client.authMethod == f.client.authMethod && d.flavor == f.flavor && d.client.id == f.client.id && d.client.secret == f.client.secret
            && d.params == f.params && d.status == f.status && d.resourceExplicit == f.resourceExplicit
  {
  }

  lemma SettledStorable(rules: Rules, f: Fields, h: Fields)
    requires SelectionOk(rules, f) && AuthenticationOk(rules, Defaults(f), FlavorOf(f))
    requires SameShape(Defaults(f), h) && !h.client.secret.Plaintext?
    ensures StoredOk(rules, h) <==>
              StatusOk(rules, f.status, f.discovery.resourceUrl) && (f.discovery.resourceUrl.Some? ==> !HasVariant(rules, f.params))
  {
    var d := Defaults(f);
    DefaultsKeep(f);
    DefaultsSettle(f, h);
    SourceSettles(rules, d, h);
    if !d.client.source.Filesystem? {
      MethodSettles(rules, f, d, h);
    }
    StorableParts(rules, f, h);
  }

  /** An accepted entity is storable exactly when its discovery status is valid and, in discovery
      mode, no parameter is another spelling of resource. */
  lemma AcceptedMeansStorable(rules: Rules, f: Fields, skipHttps: bool, update: bool, ciphertext: seq<nat>)
    requires Accepted(rules, f, skipHttps, update)
    ensures StoredOk(rules, Encrypted(Settled(rules, f, skipHttps), ciphertext)) <==>
              && StatusOk(rules, f.status, f.discovery.resourceUrl)
              && (f.discovery.resourceUrl.Some? ==> !HasVariant(rules, f.params))
  {
    StoredShape(rules, f, skipHttps, ciphertext);
    SecretSettles(rules, f, skipHttps, update, ciphertext);
    SettledStorable(rules, f, Encrypted(Settled(rules, f, skipHttps), ciphertext));
  }

  /** A client whose parts fit together: a hosted client has no credentials of its own, a
      filesystem client none inline, a public one only its ID, and every other one a secret. */
  predicate Coherent(c: Client, canonical: Option<string>, d: Discovery, update: bool) {
    && (c.source == Stored || c.source == Filesystem) && (c.registration == Static || c.registration == Cimd)
    && (c.registration == Cimd ==> c.source == Stored && c.secret == Absent && c.id == "" && c.authMethod in {PrivateKeyJwt, NoAuthentication})
    && (c.source == Filesystem ==> c.secret == Absent && c.id == "" && canonical.Some? && c.authMethod == Unspecified)
    && (c.source == Stored && c.registration == Static ==>
          && c.authMethod in {Unspecified, NoAuthentication, SecretBasic, SecretPost}
          && (c.authMethod == NoAuthentication ==> c.secret == Absent && c.id != "")
          && (c.authMethod != NoAuthentication ==>
                || (c.secret.Plaintext? && c.secret.text != "")
                || (update && c.secret.Ciphertext? && c.secret.bytes != [] && d.clientMethod == ByDcr)))
    && (c.authMethod in {SecretBasic, SecretPost} ==> d.clientMethod == ByDcr && d.resourceUrl.Some?)
  }

  lemma AuthenticationCoherent(rules: Rules, d: Fields, flavor: Flavor, update: bool)
    requires AuthenticationOk(rules, d, flavor) && CredentialOk(d, update)
    ensures Coherent(d.client, d.identity.canonical, d.discovery, update)
  {
  }

  /** The defaults touch an omitted source and an omitted registration, and nothing else. */
  lemma DefaultsByField(f: Fields)
    ensures var c := Defaults(f).client;
            && Defaults(f) == f.(client := c) && c == f.client.(source := c.source, registration := c.registration)
            && c.source == (if f.client.source.NoSource? && !f.client.sourceProvided then Stored else f.client.source)
            && c.registration == (if f.client.registration.Omitted? && !f.client.registrationProvided
                                  then (if f.client.authMethod == PrivateKeyJwt then Cimd else Static) else f.client.registration)
  {
  }

  /** An accepted entity has a coherent client. */
  lemma AcceptedClient(rules: Rules, f: Fields, skipHttps: bool, update: bool)
    requires Accepted(rules, f, skipHttps, update)
    ensures Coherent(Defaults(f).client, f.identity.canonical, f.discovery, update)
  {
    DefaultsByField(f);
    AuthenticationCoherent(rules, Defaults(f), FlavorOf(f), update);
  }

  /** A manual entity is complete: issuer, endpoints unless they are discovered, and a client ID
      unless it is hosted or in a file. */
  lemma AcceptedManual(rules: Rules, f: Fields, skipHttps: bool, update: bool)
    requires Accepted(rules, f, skipHttps, update) && f.flavor != Google
    ensures var g := Settled(rules, f, skipHttps);
            && g == Defaults(f) && g.issuer != "" && rules.allowedScheme(g.issuer, skipHttps)
            && (g.discovery.enabled || (g.endpoints.token != "" && g.endpoints.authorize != ""))
            && (g.client.id != "" || g.client.registration == Cimd || g.client.source == Filesystem)
  {
  }

  /** A Google entity is what its credential document says. */
  lemma AcceptedGoogle(rules: Rules, f: Fields, skipHttps: bool, update: bool)
    requires Accepted(rules, f, skipHttps, update) && f.flavor == Google
    ensures var g := Settled(rules, f, skipHttps);
            && f.client.secret.Plaintext?
            && rules.serviceAccount(f.client.secret.text) == Some((g.client.id, g.endpoints.token))
            && (if f.issuer == "" then rules.baseUrl(g.endpoints.token) == Some(g.issuer)
                else g.issuer == f.issuer && rules.sameHost(f.issuer, g.endpoints.token))
  {
    var d := Defaults(f);
    DefaultsByField(f);
    assert GoogleOk(rules, d) && AuthenticationOk(rules, d, Google);
    GoogleCredential(rules, d);
  }

  lemma GoogleCredential(rules: Rules, d: Fields)
    requires AuthenticationOk(rules, d, Google) && CredentialOk(d, true) && d.flavor == Google && (d.discovery.clientMethod.ByDcr? ==> DcrOk(d))
    ensures d.client.secret.Plaintext? && CredentialText(d) == d.client.secret.text
  {
  }

  predicate CleanParams(rules: Rules, params: map<string, string>) {
    forall name :: name in params ==> !rules.blank(name) && !rules.blank(params[name]) && !rules.reservedParam(name)
  }

  /** Names, parameters and discovery of every accepted entity. */
  lemma AcceptedSurroundings(rules: Rules, f: Fields, skipHttps: bool, update: bool)
    requires Accepted(rules, f, skipHttps, update)
    ensures 0 < |f.identity.displayName| <= 255 && (update ==> f.identity.id != "")
    ensures var g := Settled(rules, f, skipHttps);
            && CleanParams(rules, g.params)
            && (g.client.authMethod in {NoAuthentication, PrivateKeyJwt} ==> rules.outboundClean(g.params, g.endpoints.token, g.client.authMethod))
    ensures f.discovery.resourceUrl.Some? ==>
              && f.discovery.enabled && f.discovery.metadataUrl.None? && rules.publicHttps(f.discovery.resourceUrl.value)
              && "resource" in f.params && (!f.resourceExplicit ==> f.params["resource"] == f.discovery.resourceUrl.value)
    ensures f.discovery.resourceUrl.None? ==> f.discovery.clientMethod == NoBootstrap
  {
    DetailsByField(rules, Settled(rules, f, skipHttps), skipHttps);
  }

  lemma DetailsByField(rules: Rules, g: Fields, skipHttps: bool)
    requires DetailsOk(rules, g, skipHttps)
    ensures CleanParams(rules, g.params)
    ensures g.client.authMethod in {NoAuthentication, PrivateKeyJwt} ==> rules.outboundClean(g.params, g.endpoints.token, g.client.authMethod)
  {
  }

  /** An ordinary confidential provider: manual endpoints, a client ID and a secret. */
  predicate Ordinary(rules: Rules, f: Fields, skipHttps: bool) {
    && f.identity.id != "" && rules.canonicalValid(f.identity.canonical) && 0 < |f.identity.displayName| <= 255
    && f.client.id != "" && f.client.secret.Plaintext? && f.client.secret.text != ""
    && f.client.source in {NoSource, Stored} && !f.client.sourceProvided
    && f.client.registration in {Omitted, Static} && !f.client.registrationProvided && f.client.authMethod == Unspecified
    && f.flavor in {NoFlavor, Standard, GitHub}
    && f.issuer != "" && rules.allowedScheme(f.issuer, skipHttps)
    && f.endpoints.token != "" && rules.allowedScheme(f.endpoints.token, skipHttps)
    && f.endpoints.authorize != "" && rules.allowedScheme(f.endpoints.authorize, skipHttps)
    && f.discovery == Discovery(false, None, None, NoBootstrap) && f.status == Status(None, None, None)
    && (forall s :: s in f.scopes ==> rules.scopeValid(s)) && ResourcesOk(rules, f.protectedResources) && CleanParams(rules, f.params)
  }

  lemma OrdinaryPrepared(rules: Rules, f: Fields, skipHttps: bool, update: bool)
    requires Ordinary(rules, f, skipHttps)
    ensures Prepared(rules, f, skipHttps, update) && !FlavorOf(f).Google?
  {
    DefaultsByField(f);
  }

  /** Every ordinary provider is accepted for creation and for update, and is storable once its
      secret is encrypted. */
  lemma OrdinaryProviderIsStored(rules: Rules, f: Fields, skipHttps: bool, update: bool, ciphertext: seq<nat>)
    requires Ordinary(rules, f, skipHttps)
    ensures Accepted(rules, f, skipHttps, update)
    ensures StoredOk(rules, Encrypted(Settled(rules, f, skipHttps), ciphertext))
  {
    OrdinaryPrepared(rules, f, skipHttps, update);
    DefaultsByField(f);
    OrdinaryDetails(rules, f, Defaults(f), skipHttps);
    AcceptedMeansStorable(rules, f, skipHttps, update, ciphertext);
  }

  lemma OrdinaryDetails(rules: Rules, f: Fields, d: Fields, skipHttps: bool)
    requires Ordinary(rules, f, skipHttps) && d == f.(client := d.client) && d.client.source == Stored && d.client.authMethod == Unspecified
    ensures DetailsOk(rules, d, skipHttps)
  {
  }

  // A provider whose parameters spell resource twice, under rules that accept every URL.

  const SAMPLE_URL := "https://resource.example"

  function SampleRules(): Rules {
    Rules(_ => true, _ => true, (_, _) => true, _ => true, _ => true, _ => true,
          name => name == "resource" || name == "Resource", text => text == "", _ => false, _ => true, _ => true,
          text => Some(text), (_, _, _) => true, _ => None, (_, _) => true, text => Some(text))
  }

  function SampleClient(registration: Registration, source: Source): Client {
    Client("", false, Absent, false, source, false, false, registration, false, PrivateKeyJwt)
  }

  function Sample(client: Client): Fields {
    Fields(Identity("id", None, false, "service"), client, NoFlavor, SAMPLE_URL, Endpoints(SAMPLE_URL, SAMPLE_URL, ""),
           Discovery(true, Some(SAMPLE_URL), None, ByCimd), Status(Some(0), Some(0), None),
           map["resource" := SAMPLE_URL, "Resource" := SAMPLE_URL], false, [], [])
  }

  lemma SampleDefaults()
    ensures Defaults(Sample(SampleClient(Omitted, NoSource))) == Sample(SampleClient(Cimd, Stored))
  {
  }

  lemma SampleSelected()
    ensures SelectionOk(SampleRules(), Sample(SampleClient(Omitted, NoSource)))
    ensures IdentityOk(SampleRules(), Sample(SampleClient(Omitted, NoSource)), false)
  {
  }

  lemma SampleAuthenticated()
    ensures AuthenticationOk(SampleRules(), Sample(SampleClient(Cimd, Stored)), Standard)
    ensures CredentialOk(Sample(SampleClient(Cimd, Stored)), false)
    ensures ManualOk(SampleRules(), Sample(SampleClient(Cimd, Stored)), false)
  {
  }

  lemma SampleDetailed()
    ensures DetailsOk(SampleRules(), Sample(SampleClient(Cimd, Stored)), false)
  {
  }

  lemma ManuallyAccepted(rules: Rules, f: Fields, d: Fields, skipHttps: bool, update: bool)
    requires Defaults(f) == d && FlavorOf(f).Standard?
    requires SelectionOk(rules, f) && IdentityOk(rules, f, update) && AuthenticationOk(rules, d, Standard) && CredentialOk(d, update)
    requires ManualOk(rules, d, skipHttps) && DetailsOk(rules, d, skipHttps)
    ensures Accepted(rules, f, skipHttps, update)
  {
  }

  /** Whatever else holds, a second spelling of resource keeps an accepted discovery entity out of
      storage. */
  lemma VariantIsNotStorable(rules: Rules, f: Fields, skipHttps: bool, update: bool, ciphertext: seq<nat>, name: string)
    requires Accepted(rules, f, skipHttps, update) && f.discovery.resourceUrl.Some?
    requires name in f.params && name != "resource" && rules.namesResource(name)
    ensures !StoredOk(rules, Encrypted(Settled(rules, f, skipHttps), ciphertext))
  {
    assert HasVariant(rules, f.params);
    AcceptedMeansStorable(rules, f, skipHttps, update, ciphertext);
  }

  /** The two sides of the equivalence differ: this entity is accepted for creation and has a valid
      discovery status, but the second spelling of resource keeps it out of storage. */
  lemma AcceptedButNotStorable(ciphertext: seq<nat>) returns (rules: Rules, f: Fields)
    ensures Accepted(rules, f, false, false) && StatusOk(rules, f.status, f.discovery.resourceUrl)
    ensures !StoredOk(rules, Encrypted(Settled(rules, f, false), ciphertext))
  {
    rules, f := SampleRules(), Sample(SampleClient(Omitted, NoSource));
    SampleDefaults();
    SampleSelected();
    SampleAuthenticated();
    SampleDetailed();
    ManuallyAccepted(rules, f, Sample(SampleClient(Cimd, Stored)), false, false);
    VariantIsNotStorable(rules, f, false, false, ciphertext, "Resource");
  }
}
