/** Agent impersonation: first-match rule evaluation over signed credentials, a verification cache
    shared by the rules of one call, and the selection of the error when no rule matches.

    Token parsing, signature verification, expression evaluation, repositories and the token issuer
    are fixed but unknown functions for the duration of one call (World). */
module Impersonation {
  import opened Prelude

  datatype Role = ClientAssertion | Actor | Subject

  datatype Code = AccessDenied | InvalidRequest | InvalidClient | InvalidScope | ServerError

  datatype Failure = Failure(code: Code, reason: string)

  datatype Category = Human | Agent

  /** sub is absent when the claim is missing or not a string. */
  datatype Claims = Claims(sub: Option<string>, others: map<string, string>)

  datatype Token = Token(issuer: string, audience: Option<set<string>>, hasExpiry: bool, claims: Claims)

  type AgentId = nat

  const ZERO_ID: AgentId := 0

  datatype Target = Target(id: AgentId, allowedScopes: seq<string>)

  datatype Request = Request(
    clientAssertion: string,
    actorToken: string,
    subjectToken: string,
    subjectTokenIsJwt: bool,
    scope: string,
    scopes: seq<string>)

  datatype RoleSpec = RoleSpec(expectedAudience: string, requireAbsentAudience: bool, principal: nat, email: Option<nat>, unverified: bool)

  datatype Issuer = Issuer(uri: string, signs: set<Role>, provider: nat, algorithms: set<string>, cacheByProvider: bool)

  /** binds names the subject_token fields that the authorization predicate constrains. */
  datatype Rule = Rule(
    name: string,
    client: RoleSpec,
    actor: RoleSpec,
    subject: RoleSpec,
    issuers: seq<Issuer>,
    authorization: nat,
    binds: set<string>,
    allowsHuman: bool,
    allowsAgent: bool)

  datatype Lookup = Registered | NotFound | Unavailable

  datatype Delegation = Active | Missing | Expired | Unknown | Failed

  datatype MintInput = MintInput(subject: string, email: Option<string>, actor: string, actorIssuer: string, target: AgentId, scopes: seq<string>)

  datatype Context = Context(scope: string, agent: string)

  datatype World = World(
    unverifiedIssuer: string -> Option<string>,
    algorithm: string -> Option<string>,
    verdict: (nat, string) -> Result<Token, string>,
    timely: Token -> bool,
    parseUnverifiedSubject: string -> Option<Claims>,
    extract: (nat, Claims) -> Option<string>,
    authorize: (nat, Claims, Claims, Claims, bool, Context) -> Option<bool>,
    parseAgentId: string -> Option<AgentId>,
    showAgentId: AgentId -> string,
    lookup: AgentId -> Lookup,
    delegation: (string, AgentId) -> Delegation,
    issue: MintInput -> Option<string>)

  const APPROVED: set<string> := {"RS256", "RS384", "RS512", "PS256", "PS384", "PS512", "ES256", "ES384", "ES512", "EdDSA"}

  // ---------------------------------------------------------------- verifying one credential

  function SpecFor(rule: Rule, role: Role): RoleSpec {
    match role
    case ClientAssertion => rule.client
    case Actor => rule.actor
    case Subject => rule.subject
  }

  function IssuerFor(issuers: seq<Issuer>, role: Role, iss: string): Option<Issuer> {
    if |issuers| == 0 then None
    else if issuers[0].uri == iss && role in issuers[0].signs then Some(issuers[0])
    else IssuerFor(issuers[1..], role, iss)
  }

  predicate AlgorithmAllowed(w: World, issuer: Issuer, token: string) {
    var alg := w.algorithm(token);
    alg.Some? && alg.value in APPROVED && alg.value in issuer.algorithms
  }

  predicate ClaimsValid(w: World, issuer: Issuer, spec: RoleSpec, t: Token) {
    && t.hasExpiry && t.issuer == issuer.uri && w.timely(t)
    && (if spec.requireAbsentAudience then t.audience.None?
        else t.audience.Some? && spec.expectedAudience in t.audience.value)
  }

  /** What a credential is good for when it is verified afresh for this rule. */
  function Credential(w: World, rule: Rule, role: Role, token: string): Option<(Claims, Issuer)> {
    var iss := w.unverifiedIssuer(token);
    if iss.None? then None
    else
      var issuer := IssuerFor(rule.issuers, role, iss.value);
      if issuer.None? || !AlgorithmAllowed(w, issuer.value, token) then None
      else
        var verified := w.verdict(issuer.value.provider, token);
        if verified.Err? || !ClaimsValid(w, issuer.value, SpecFor(rule, role), verified.value) then None
        else Some((verified.value.claims, issuer.value))
  }

  datatype CacheKey = CacheKey(role: Role, token: string, provider: nat)

  class VerifiedCredentialCache {
    var verified: map<CacheKey, Result<Token, string>>

    constructor ()
      ensures verified == map[]
    {
      verified := map[];
    }

    /** Every remembered verdict, good or bad, is the provider's verdict on that token. */
    ghost predicate Sound(w: World)
      reads this
    {
      forall k :: k in verified ==> verified[k] == w.verdict(k.provider, k.token)
    }

    method Verify(w: World, role: Role, token: string, issuer: Issuer) returns (result: Result<Token, string>)
      requires Sound(w)
      modifies this
      ensures Sound(w)
      ensures result == w.verdict(issuer.provider, token)
    {
      if !issuer.cacheByProvider {
        return w.verdict(issuer.provider, token);
      }
      var key := CacheKey(role, token, issuer.provider);
      if key in verified {
        return verified[key];
      }
      result := w.verdict(issuer.provider, token);
      verified := verified[key := result];
    }
  }

  method FindIssuer(issuers: seq<Issuer>, role: Role, iss: string) returns (found: Option<Issuer>)
    ensures found == IssuerFor(issuers, role, iss)
  {
    for i := 0 to |issuers|
      invariant IssuerFor(issuers, role, iss) == IssuerFor(issuers[i..], role, iss)
    {
      if issuers[i].uri == iss && role in issuers[i].signs {
        return Some(issuers[i]);
      }
      assert issuers[i..][1..] == issuers[i + 1..];
    }
    found := None;
  }

  /** A cache hit replaces only the signature check: issuer selection, algorithm and claims are
      those of the rule at hand. */
  method ValidateCredential(w: World, rule: Rule, role: Role, token: string, cache: VerifiedCredentialCache) returns (result: Option<(Claims, Issuer)>)
    requires cache.Sound(w)
    modifies cache
    ensures cache.Sound(w)
    ensures result == Credential(w, rule, role, token)
  {
    var iss := w.unverifiedIssuer(token);
    if iss.None? {
      return None;
    }
    var issuer := FindIssuer(rule.issuers, role, iss.value);
    if issuer.None? || !AlgorithmAllowed(w, issuer.value, token) {
      return None;
    }
    var verified := cache.Verify(w, role, token, issuer.value);
    if verified.Err? || !ClaimsValid(w, issuer.value, SpecFor(rule, role), verified.value) {
      return None;
    }
    result := Some((verified.value.claims, issuer.value));
  }

  // ---------------------------------------------------------------- evaluating one rule

  datatype Stop = Fall(failure: Failure) | Abort(failure: Failure)

  datatype Credentials = Credentials(client: Claims, actor: Claims, actorIssuer: Issuer, subject: Claims)

  datatype Identities = Identities(client: string, actor: string, subject: string)

  datatype RuleResult =
    | Matched(mint: MintInput, token: string)
    | FellThrough(failure: Failure)
    | Aborted(failure: Failure, attempt: Option<MintInput>)

  const CATEGORY_INELIGIBLE := Failure(AccessDenied, "subject category is not eligible")

  function SubjectClaims(w: World, rule: Rule, req: Request): Option<Claims> {
    if rule.subject.unverified then w.parseUnverifiedSubject(req.subjectToken)
    else
      var c := Credential(w, rule, Subject, req.subjectToken);
      if c.Some? then Some(c.value.0) else None
  }

  function Authenticate(w: World, rule: Rule, req: Request): Result<Credentials, Failure> {
    var client := Credential(w, rule, ClientAssertion, req.clientAssertion);
    if client.None? then Err(Failure(InvalidClient, "client assertion"))
    else
      var actor := Credential(w, rule, Actor, req.actorToken);
      if actor.None? then Err(Failure(InvalidRequest, "actor token"))
      else if !req.subjectTokenIsJwt then Err(Failure(InvalidRequest, "subject token type"))
      else
        var subject := SubjectClaims(w, rule, req);
        if subject.None? then Err(Failure(InvalidRequest, "subject token"))
        else Ok(Credentials(client.value.0, actor.value.0, actor.value.1, subject.value))
  }

  predicate Usable(identity: Option<string>) {
    identity.Some? && identity.value != ""
  }

  function Identify(w: World, rule: Rule, c: Credentials): Result<Identities, Failure> {
    var client, actor, subject := w.extract(rule.client.principal, c.client), w.extract(rule.actor.principal, c.actor), w.extract(rule.subject.principal, c.subject);
    if !Usable(client) then Err(Failure(InvalidRequest, "client identity"))
    else if !Usable(actor) then Err(Failure(InvalidRequest, "actor identity"))
    else if !Usable(subject) then Err(Failure(InvalidRequest, "subject identity"))
    else Ok(Identities(client.value, actor.value, subject.value))
  }

  function Classify(w: World, rule: Rule, claims: Claims, target: AgentId): Category {
    if claims.sub != Some(w.showAgentId(target)) || (rule.subject.unverified && "sub" !in rule.binds) then Human else Agent
  }

  /** The candidate is the canonical spelling of some other agent's identifier. */
  predicate NamesOther(w: World, target: AgentId, candidate: string) {
    var parsed := w.parseAgentId(candidate);
    parsed.Some? && w.showAgentId(parsed.value) == candidate && parsed.value != target
  }

  /** None stands for an unavailable repository. */
  function OtherAgent(w: World, target: AgentId, candidates: seq<string>): Option<bool> {
    if |candidates| == 0 then Some(false)
    else if !NamesOther(w, target, candidates[0]) then OtherAgent(w, target, candidates[1..])
    else
      match w.lookup(w.parseAgentId(candidates[0]).value)
      case NotFound => OtherAgent(w, target, candidates[1..])
      case Registered => Some(true)
      case Unavailable => None
  }

  /** A subject passes exactly when every other agent it could name is known not to exist. */
  lemma {:induction false} OtherAgentExact(w: World, target: AgentId, candidates: seq<string>)
    ensures OtherAgent(w, target, candidates) == Some(false) <==>
              forall c :: c in candidates && NamesOther(w, target, c) ==> w.lookup(w.parseAgentId(c).value).NotFound?
  {
    if |candidates| > 0 {
      OtherAgentExact(w, target, candidates[1..]);
      assert candidates == [candidates[0]] + candidates[1..];
    }
  }

  /** The look-up loop, which asks about each identifier only once. */
  method IsOtherRegisteredAgent(w: World, target: AgentId, candidates: seq<string>) returns (result: Option<bool>)
    ensures result == OtherAgent(w, target, candidates)
  {
    var checked: set<AgentId> := {};
    for i := 0 to |candidates|
      invariant OtherAgent(w, target, candidates) == OtherAgent(w, target, candidates[i..])
      invariant forall a :: a in checked ==> w.lookup(a).NotFound?
    {
      assert candidates[i..][1..] == candidates[i + 1..];
      if !NamesOther(w, target, candidates[i]) {
        continue;
      }
      var agent := w.parseAgentId(candidates[i]).value;
      if agent in checked {
        continue;
      }
      checked := checked + {agent};
      match w.lookup(agent) {
        case NotFound =>
        case Registered => return Some(true);
        case Unavailable => return None;
      }
    }
    result := Some(false);
  }

  /** The caller controls an unverified sub that the predicate does not bind, so it is not looked up. */
  predicate ChecksOthers(rule: Rule) {
    !rule.subject.unverified || "sub" in rule.binds
  }

  function Candidates(claims: Claims, subject: string): seq<string> {
    [if claims.sub.Some? then claims.sub.value else "", subject]
  }

  predicate Allows(rule: Rule, category: Category) {
    match category case Human => rule.allowsHuman case Agent => rule.allowsAgent
  }

  function Categorize(w: World, rule: Rule, target: AgentId, claims: Claims, subject: string): Result<Category, Stop> {
    var category := Classify(w, rule, claims, target);
    var other := if category.Human? && ChecksOthers(rule) then OtherAgent(w, target, Candidates(claims, subject)) else Some(false);
    if other.None? then Err(Abort(Failure(ServerError, "subject agent lookup")))
    else if other.value || !Allows(rule, category) then Err(Fall(CATEGORY_INELIGIBLE))
    else Ok(category)
  }

  /** The email is minted only for a human, and only from a verified or bound claim. */
  function Email(w: World, rule: Rule, category: Category, claims: Claims): Result<Option<string>, Failure> {
    if category.Agent? || rule.subject.email.None? || (rule.subject.unverified && "email" !in rule.binds) then Ok(None)
    else
      var value := w.extract(rule.subject.email.value, claims);
      if value.None? then Err(Failure(InvalidRequest, "subject email"))
      else if value.value == "" then Ok(None)
      else Ok(value)
  }

  function Delegate(w: World, category: Category, subject: string, target: AgentId): Option<Failure> {
    if category.Agent? then None
    else
      match w.delegation(subject, target)
      case Active => None
      case Missing => Some(Failure(AccessDenied, "consent is missing"))
      case Expired => Some(Failure(AccessDenied, "consent has expired"))
      case _ => Some(Failure(ServerError, "user delegation"))
  }

  function Permit(w: World, rule: Rule, req: Request, target: AgentId, c: Credentials): Option<Stop> {
    match w.authorize(rule.authorization, c.client, c.actor, c.subject, rule.subject.unverified, Context(req.scope, w.showAgentId(target)))
    case None => Some(Abort(Failure(ServerError, "authorization evaluation")))
    case Some(false) => Some(Fall(Failure(AccessDenied, "authorization predicate")))
    case Some(true) => None
  }

  function Halt(stop: Stop): RuleResult {
    match stop case Fall(f) => FellThrough(f) case Abort(f) => Aborted(f, None)
  }

  function MintFor(w: World, req: Request, target: AgentId, category: Category, email: Option<string>, c: Credentials, ids: Identities): MintInput {
    MintInput(if category.Agent? then w.showAgentId(target) else ids.subject, email, ids.actor, c.actorIssuer.uri, target, req.scopes)
  }

  function Mint(w: World, m: MintInput): RuleResult {
    match w.issue(m)
    case Some(token) => Matched(m, token)
    case None => Aborted(Failure(ServerError, "mint"), Some(m))
  }

  /** The steps after the credentials have been validated. */
  function Judge(w: World, rule: Rule, req: Request, target: AgentId, c: Credentials): RuleResult {
    var ids := Identify(w, rule, c);
    if ids.Err? then FellThrough(ids.error)
    else
      var category := Categorize(w, rule, target, c.subject, ids.value.subject);
      if category.Err? then Halt(category.error)
      else
        var email := Email(w, rule, category.value, c.subject);
        if email.Err? then FellThrough(email.error)
        else
          var refusal := Permit(w, rule, req, target, c);
          if refusal.Some? then Halt(refusal.value)
          else
            var undelegated := Delegate(w, category.value, ids.value.subject, target);
            if undelegated.Some? then Aborted(undelegated.value, None)
            else Mint(w, MintFor(w, req, target, category.value, email.value, c, ids.value))
  }

  /** One rule, with every credential verified afresh. */
  function EvaluateRule(w: World, rule: Rule, req: Request, target: AgentId): RuleResult {
    match Authenticate(w, rule, req)
    case Err(f) => FellThrough(f)
    case Ok(c) => Judge(w, rule, req, target, c)
  }

  /** The issuing side: it records every mint it is asked for. */
  class TokenIssuer {
    var requested: seq<MintInput>

    constructor ()
      ensures requested == []
    {
      requested := [];
    }

    method Issue(w: World, m: MintInput) returns (token: Option<string>)
      modifies this
      ensures token == w.issue(m) && requested == old(requested) + [m]
    {
      requested := requested + [m];
      token := w.issue(m);
    }
  }

  function Attempts(r: RuleResult): seq<MintInput> {
    match r
    case Matched(m, _) => [m]
    case Aborted(_, Some(m)) => [m]
    case _ => []
  }

  method AuthenticateCached(w: World, rule: Rule, req: Request, cache: VerifiedCredentialCache) returns (result: Result<Credentials, Failure>)
    requires cache.Sound(w)
    modifies cache
    ensures cache.Sound(w)
    ensures result == Authenticate(w, rule, req)
  {
    var client := ValidateCredential(w, rule, ClientAssertion, req.clientAssertion, cache);
    if client.None? {
      return Err(Failure(InvalidClient, "client assertion"));
    }
    var actor := ValidateCredential(w, rule, Actor, req.actorToken, cache);
    if actor.None? {
      return Err(Failure(InvalidRequest, "actor token"));
    }
    if !req.subjectTokenIsJwt {
      return Err(Failure(InvalidRequest, "subject token type"));
    }
    var claims: Option<Claims>;
    if rule.subject.unverified {
      claims := w.parseUnverifiedSubject(req.subjectToken);
    } else {
      var subject := ValidateCredential(w, rule, Subject, req.subjectToken, cache);
      claims := if subject.Some? then Some(subject.value.0) else None;
    }
    if claims.None? {
      return Err(Failure(InvalidRequest, "subject token"));
    }
    result := Ok(Credentials(client.value.0, actor.value.0, actor.value.1, claims.value));
  }

  method CategorizeByLookup(w: World, rule: Rule, target: AgentId, claims: Claims, subject: string) returns (result: Result<Category, Stop>)
    ensures result == Categorize(w, rule, target, claims, subject)
  {
    var category := Classify(w, rule, claims, target);
    if category.Human? && ChecksOthers(rule) {
      var other := IsOtherRegisteredAgent(w, target, Candidates(claims, subject));
      if other.None? {
        return Err(Abort(Failure(ServerError, "subject agent lookup")));
      }
      if other.value {
        return Err(Fall(CATEGORY_INELIGIBLE));
      }
    }
    if !Allows(rule, category) {
      return Err(Fall(CATEGORY_INELIGIBLE));
    }
    result := Ok(category);
  }

  /** One rule as it runs, with the shared cache and the real issuer. */
  method EvaluateRuleCached(w: World, rule: Rule, req: Request, target: AgentId, cache: VerifiedCredentialCache, issuer: TokenIssuer) returns (result: RuleResult)
    requires cache.Sound(w)
    modifies cache, issuer
    ensures cache.Sound(w)
    ensures result == EvaluateRule(w, rule, req, target)
    ensures issuer.requested == old(issuer.requested) + Attempts(result)
  {
    var c := AuthenticateCached(w, rule, req, cache);
    if c.Err? {
      return FellThrough(c.error);
    }
    var ids := Identify(w, rule, c.value);
    if ids.Err? {
      return FellThrough(ids.error);
    }
    var category := CategorizeByLookup(w, rule, target, c.value.subject, ids.value.subject);
    if category.Err? {
      return Halt(category.error);
    }
    var email := Email(w, rule, category.value, c.value.subject);
    if email.Err? {
      return FellThrough(email.error);
    }
    var refusal := Permit(w, rule, req, target, c.value);
    if refusal.Some? {
      return Halt(refusal.value);
    }
    var undelegated := Delegate(w, category.value, ids.value.subject, target);
    if undelegated.Some? {
      return Aborted(undelegated.value, None);
    }
    var m := MintFor(w, req, target, category.value, email.value, c.value, ids.value);
    var token := issuer.Issue(w, m);
    result := if token.Some? then Matched(m, token.value) else Aborted(Failure(ServerError, "mint"), Some(m));
  }

  // ---------------------------------------------------------------- no rule matched

  function Rank(code: Code): nat {
    match code
    case AccessDenied => 3
    case InvalidRequest => 2
    case InvalidClient => 1
    case _ => 0
  }

  const UNAUTHORIZED := Failure(ServerError, "request could not be authorized")

  /** The first failure of the highest recognized rank. */
  ghost predicate FirstBest(failures: seq<Failure>, best: Failure) {
    exists k :: 0 <= k < |failures| && BestAt(failures, k) && best == failures[k]
  }

  ghost predicate BestAt(failures: seq<Failure>, k: nat)
    requires k < |failures|
  {
    && Rank(failures[k].code) > 0
    && (forall i :: 0 <= i < k ==> Rank(failures[i].code) < Rank(failures[k].code))
    && (forall i :: k <= i < |failures| ==> Rank(failures[i].code) <= Rank(failures[k].code))
  }

  ghost predicate Selects(failures: seq<Failure>, selected: Failure) {
    if forall f :: f in failures ==> Rank(f.code) == 0 then selected == UNAUTHORIZED else FirstBest(failures, selected)
  }

  method SelectNoMatchError(failures: seq<Failure>) returns (selected: Failure)
    ensures Selects(failures, selected)
  {
    var best: Option<Failure> := None;
    var bestRank := 0;
    ghost var at: nat := 0;
    for i := 0 to |failures|
      invariant best.None? ==> bestRank == 0 && forall k :: 0 <= k < i ==> Rank(failures[k].code) == 0
      invariant best.Some? ==> at < i && best.value == failures[at] && bestRank == Rank(failures[at].code) && BestAt(failures[..i], at)
    {
      var rank := Rank(failures[i].code);
      if rank > bestRank {
        best, bestRank, at := Some(failures[i]), rank, i;
      }
    }
    assert failures[..|failures|] == failures;
    if best.None? {
      return UNAUTHORIZED;
    }
    assert failures[at] in failures;
    selected := best.value;
  }

  /** Two selections of the same failures in any order carry the same code. */
  lemma SelectionOrderIndependent(a: seq<Failure>, b: seq<Failure>, x: Failure, y: Failure)
    requires multiset(a) == multiset(b) && Selects(a, x) && Selects(b, y)
    ensures x.code == y.code
  {
    assert forall f :: f in a <==> f in multiset(a);
    assert forall f :: f in b <==> f in multiset(b);
    if !(forall f :: f in a ==> Rank(f.code) == 0) {
      var i :| 0 <= i < |a| && BestAt(a, i) && x == a[i];
      var j :| 0 <= j < |b| && BestAt(b, j) && y == b[j];
      assert x in b && y in a;
    }
  }
}
