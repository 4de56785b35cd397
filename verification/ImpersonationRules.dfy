/** The two validators of impersonation rules, the configuration loader's and the domain's own, and
    the compilation of an accepted rule. */
module ImpersonationRules {
  import opened Prelude
  import opened Impersonation
  import opened ImpersonationTheorems

  const CLIENT_ASSERTION := "client_assertion"
  const ACTOR := "actor"
  const SUBJECT := "subject"
  const ROLE_NAMES := {CLIENT_ASSERTION, ACTOR, SUBJECT}

  const ABSENT := "absent"
  const JWKS := "jwks"
  const NONE := "none"

  // Durations are in nanoseconds.
  const MIN_TIMEOUT := 10_000_000
  const MAX_TIMEOUT := 5_000_000_000

  datatype RoleConfig = RoleConfig(principalExpression: string, emailExpression: string, expectedAudience: string, audienceRequirement: string, verification: string)

  datatype IssuerConfig = IssuerConfig(uri: string, jwksUri: string, minRefresh: int, maxRefresh: int, algorithms: seq<string>, signsRoles: seq<string>)

  datatype RuleConfig = RuleConfig(
    name: string,
    categories: Option<seq<string>>,
    roles: map<string, RoleConfig>,
    authorizationType: string,
    expression: string,
    timeout: int,
    issuers: seq<IssuerConfig>)

  /** URL and key-source checks, expression compilation and the key provider factory. */
  datatype Environment = Environment(
    urlAllowed: string -> bool,
    keySourceValid: IssuerConfig -> bool,
    compileAuthorization: string -> Option<nat>,
    compileExtraction: (string, string) -> Option<nat>,
    references: (nat, string) -> bool,
    binds: nat -> set<string>,
    factory: IssuerConfig -> Option<nat>,
    isPointer: nat -> bool)

  // ---------------------------------------------------------------- subject categories

  predicate CategoriesValid(categories: Option<seq<string>>) {
    categories.Some? ==>
      && 1 <= |categories.value| <= 2
      && (forall c :: c in categories.value ==> c == "human" || c == "agent")
      && (|categories.value| == 2 ==> categories.value[0] != categories.value[1])
  }

  /** Omission means human only; otherwise exactly the listed categories are allowed. */
  function Allowed(categories: Option<seq<string>>): (bool, bool) {
    if categories.None? then (true, false) else ("human" in categories.value, "agent" in categories.value)
  }

  method ParseAllowedSubjectCategories(categories: Option<seq<string>>) returns (result: Option<(bool, bool)>)
    ensures result.Some? <==> CategoriesValid(categories)
    ensures result.Some? ==> result.value == Allowed(categories)
    ensures result.Some? ==> result.value.0 || result.value.1
  {
    if categories.None? {
      return Some((true, false));
    }
    var cs := categories.value;
    if |cs| < 1 || |cs| > 2 {
      return None;
    }
    var human, agent := false, false;
    for i := 0 to |cs|
      invariant human <==> "human" in cs[..i]
      invariant agent <==> "agent" in cs[..i]
      invariant forall k :: 0 <= k < i ==> cs[k] == "human" || cs[k] == "agent"
      invariant i == 2 ==> cs[0] != cs[1]
    {
      assert cs[..i + 1] == cs[..i] + [cs[i]];
      if cs[i] == "human" {
        if human {
          return None;
        }
        human := true;
      } else if cs[i] == "agent" {
        if agent {
          return None;
        }
        agent := true;
      } else {
        assert cs[i] in cs;
        return None;
      }
    }
    assert cs[..|cs|] == cs;
    assert cs[0] in cs;
    result := Some((human, agent));
  }

  // ---------------------------------------------------------------- the domain's invariants

  predicate TimeoutValid(t: int) {
    t == 0 || MIN_TIMEOUT <= t <= MAX_TIMEOUT
  }

  predicate Unverified(roles: map<string, RoleConfig>) {
    SUBJECT in roles && roles[SUBJECT].verification == NONE
  }

  /** One role, as the domain's switch over the audience modes accepts it. */
  predicate RoleInvariant(name: string, r: RoleConfig) {
    && r.principalExpression != ""
    && (r.audienceRequirement == "" || r.audienceRequirement == ABSENT)
    && (if name == SUBJECT && r.verification == NONE then r.audienceRequirement == "" && r.expectedAudience == ""
        else if r.audienceRequirement == ABSENT then r.expectedAudience == ""
        else r.expectedAudience != "")
    && (name != SUBJECT ==> r.emailExpression == "" && r.verification == "")
  }

  predicate Signable(role: string, unverified: bool) {
    role in ROLE_NAMES && (role == SUBJECT ==> !unverified)
  }

  predicate NamedBefore(issuers: seq<IssuerConfig>, i: nat, uri: string)
    requires i <= |issuers|
  {
    exists k :: 0 <= k < i && issuers[k].uri == uri
  }

  predicate SignedBefore(issuers: seq<IssuerConfig>, i: nat, role: string)
    requires i <= |issuers|
  {
    exists k :: 0 <= k < i && role in issuers[k].signsRoles
  }

  predicate IssuerInvariant(issuers: seq<IssuerConfig>, i: nat, unverified: bool)
    requires i < |issuers|
  {
    && issuers[i].uri != "" && !NamedBefore(issuers, i, issuers[i].uri)
    && forall r :: r in issuers[i].signsRoles ==> Signable(r, unverified)
  }

  /** The issuers are named and distinct, sign only signed roles, and together sign all of them. */
  predicate TrustInvariant(issuers: seq<IssuerConfig>, unverified: bool) {
    && |issuers| > 0
    && (forall i :: 0 <= i < |issuers| ==> IssuerInvariant(issuers, i, unverified))
    && (forall role :: role in ROLE_NAMES ==> (role == SUBJECT && unverified) || SignedBefore(issuers, |issuers|, role))
  }

  predicate RuleInvariant(rule: RuleConfig) {
    && CategoriesValid(rule.categories)
    && rule.authorizationType == "cel" && TimeoutValid(rule.timeout)
    && rule.roles.Keys == ROLE_NAMES
    && (forall name :: name in rule.roles ==> RoleInvariant(name, rule.roles[name]))
    && TrustInvariant(rule.issuers, Unverified(rule.roles))
  }

  /** What the invariants mean for a rule, field by field: its predicate and time limit, one way of
      binding the audience for every signed role, and none for an unverified subject. */
  lemma InvariantByField(rule: RuleConfig)
    requires RuleInvariant(rule)
    ensures rule.authorizationType == "cel" && (rule.timeout == 0 || 10_000_000 <= rule.timeout <= 5_000_000_000)
    ensures rule.roles.Keys == {"client_assertion", "actor", "subject"}
    ensures forall name :: name in rule.roles ==>
              var r, unsigned := rule.roles[name], name == "subject" && rule.roles[name].verification == "none";
              && r.principalExpression != ""
              && (unsigned ==> r.expectedAudience == "" && r.audienceRequirement == "")
              && (!unsigned ==> (r.expectedAudience != "" && r.audienceRequirement == "") || (r.expectedAudience == "" && r.audienceRequirement == "absent"))
              && (name != "subject" ==> r.emailExpression == "" && r.verification == "")
    ensures forall i, j :: 0 <= i < j < |rule.issuers| ==> rule.issuers[i].uri != rule.issuers[j].uri
    ensures forall i :: i in rule.issuers ==>
              && i.uri != ""
              && forall r :: r in i.signsRoles ==> r in rule.roles && !(r == "subject" && rule.roles["subject"].verification == "none")
  {
    assert SUBJECT in ROLE_NAMES;
    forall i, j | 0 <= i < j < |rule.issuers| ensures rule.issuers[i].uri != rule.issuers[j].uri {
      assert IssuerInvariant(rule.issuers, j, Unverified(rule.roles));
      assert !NamedBefore(rule.issuers, j, rule.issuers[j].uri);
    }
    forall x | x in rule.issuers
      ensures x.uri != "" && forall r :: r in x.signsRoles ==> r in rule.roles && !(r == "subject" && rule.roles["subject"].verification == "none")
    {
      var i :| 0 <= i < |rule.issuers| && rule.issuers[i] == x;
      assert IssuerInvariant(rule.issuers, i, Unverified(rule.roles));
    }
  }

  method RolesKnown(roles: map<string, RoleConfig>) returns (ok: bool)
    ensures ok <==> roles.Keys <= ROLE_NAMES
  {
    var rest := roles.Keys;
    while rest != {}
      invariant rest <= roles.Keys
      invariant roles.Keys - rest <= ROLE_NAMES
    {
      var name :| name in rest;
      rest := rest - {name};
      if name !in ROLE_NAMES {
        return false;
      }
    }
    ok := true;
  }

  method CheckRole(name: string, r: RoleConfig) returns (ok: bool)
    ensures ok <==> RoleInvariant(name, r)
  {
    if r.principalExpression == "" {
      return false;
    }
    var absent := r.audienceRequirement == ABSENT;
    if r.audienceRequirement != "" && !absent {
      return false;
    }
    if name == SUBJECT && r.verification == NONE {
      if absent || r.expectedAudience != "" {
        return false;
      }
    } else if absent {
      if r.expectedAudience != "" {
        return false;
      }
    } else if r.expectedAudience == "" {
      return false;
    }
    ok := name == SUBJECT || (r.emailExpression == "" && r.verification == "");
  }

  method CheckSignsRoles(roles: seq<string>, unverified: bool) returns (ok: bool)
    ensures ok <==> forall r :: r in roles ==> Signable(r, unverified)
  {
    for i := 0 to |roles|
      invariant forall k :: 0 <= k < i ==> Signable(roles[k], unverified)
    {
      if !Signable(roles[i], unverified) {
        assert roles[i] in roles;
        return false;
      }
    }
    ok := true;
  }

  method RolesCovered(covered: set<string>, unverified: bool) returns (ok: bool)
    ensures ok <==> forall role :: role in ROLE_NAMES ==> (role == SUBJECT && unverified) || role in covered
  {
    ok := CLIENT_ASSERTION in covered && ACTOR in covered && (unverified || SUBJECT in covered);
    assert CLIENT_ASSERTION in ROLE_NAMES && ACTOR in ROLE_NAMES && SUBJECT in ROLE_NAMES;
  }

  method CheckTrustedIssuers(issuers: seq<IssuerConfig>, unverified: bool) returns (ok: bool)
    ensures ok <==> TrustInvariant(issuers, unverified)
  {
    if |issuers| == 0 {
      return false;
    }
    var seen: set<string>, covered: set<string> := {}, {};
    for i := 0 to |issuers|
      invariant forall u :: u in seen <==> NamedBefore(issuers, i, u)
      invariant forall r :: r in covered <==> SignedBefore(issuers, i, r)
      invariant forall k :: 0 <= k < i ==> IssuerInvariant(issuers, k, unverified)
    {
      var issuer := issuers[i];
      if issuer.uri == "" || issuer.uri in seen {
        assert !IssuerInvariant(issuers, i, unverified);
        return false;
      }
      seen := seen + {issuer.uri};
      var signable := CheckSignsRoles(issuer.signsRoles, unverified);
      if !signable {
        assert !IssuerInvariant(issuers, i, unverified);
        return false;
      }
      covered := covered + (set r | r in issuer.signsRoles);
    }
    ok := RolesCovered(covered, unverified);
  }

  method ValidateRuleInvariants(rule: RuleConfig) returns (ok: bool)
    ensures ok <==> RuleInvariant(rule)
  {
    var categories := ParseAllowedSubjectCategories(rule.categories);
    if categories.None? || rule.authorizationType != "cel" || !TimeoutValid(rule.timeout) {
      return false;
    }
    var known := RolesKnown(rule.roles);
    if !known {
      return false;
    }
    if CLIENT_ASSERTION !in rule.roles || ACTOR !in rule.roles || SUBJECT !in rule.roles {
      assert CLIENT_ASSERTION in ROLE_NAMES && ACTOR in ROLE_NAMES && SUBJECT in ROLE_NAMES;
      return false;
    }
    assert rule.roles.Keys == ROLE_NAMES;
    var client := CheckRole(CLIENT_ASSERTION, rule.roles[CLIENT_ASSERTION]);
    var actor := CheckRole(ACTOR, rule.roles[ACTOR]);
    var subject := CheckRole(SUBJECT, rule.roles[SUBJECT]);
    if !client || !actor || !subject {
      return false;
    }
    ok := CheckTrustedIssuers(rule.issuers, Unverified(rule.roles));
  }

  // ---------------------------------------------------------------- the configuration validator

  /** First pass over one role. */
  predicate RoleConfigured(name: string, r: RoleConfig) {
    r.principalExpression != "" && (name != SUBJECT ==> r.emailExpression == "" && r.verification == "")
  }

  /** Second pass over one role: audience binding. */
  predicate AudienceConfigured(name: string, r: RoleConfig, unverified: bool) {
    if r.audienceRequirement != "" then
      !(name == SUBJECT && unverified) && r.audienceRequirement == ABSENT && r.expectedAudience == ""
    else
      (name == SUBJECT && unverified) || r.expectedAudience != ""
  }

  predicate SubjectConfigured(r: RoleConfig) {
    r.verification in {"", JWKS, NONE} && (r.verification == NONE ==> r.expectedAudience == "")
  }

  predicate IssuerAcceptable(env: Environment, issuer: IssuerConfig, unverified: bool) {
    && env.urlAllowed(issuer.uri) && env.urlAllowed(issuer.jwksUri) && env.keySourceValid(issuer)
    && issuer.minRefresh >= 0 && issuer.maxRefresh >= 0
    && issuer.algorithms != [] && (forall a :: a in issuer.algorithms ==> a in APPROVED)
    && issuer.signsRoles != [] && (forall r :: r in issuer.signsRoles ==> Signable(r, unverified))
  }

  predicate IssuerConfigured(env: Environment, issuers: seq<IssuerConfig>, i: nat, unverified: bool)
    requires i < |issuers|
  {
    issuers[i].uri != "" && !NamedBefore(issuers, i, issuers[i].uri) && IssuerAcceptable(env, issuers[i], unverified)
  }

  predicate TrustConfigured(env: Environment, issuers: seq<IssuerConfig>, unverified: bool) {
    && |issuers| > 0
    && (forall i :: 0 <= i < |issuers| ==> IssuerConfigured(env, issuers, i, unverified))
    && (forall role :: role in ROLE_NAMES ==> (role == SUBJECT && unverified) || SignedBefore(issuers, |issuers|, role))
  }

  predicate ConfigAccepts(env: Environment, rule: RuleConfig) {
    && CategoriesValid(rule.categories)
    && rule.roles.Keys == ROLE_NAMES
    && (forall name :: name in rule.roles ==> RoleConfigured(name, rule.roles[name]))
    && SubjectConfigured(rule.roles[SUBJECT])
    && (forall name :: name in rule.roles ==> AudienceConfigured(name, rule.roles[name], Unverified(rule.roles)))
    && rule.authorizationType == "cel" && rule.expression != "" && TimeoutValid(rule.timeout)
    && TrustConfigured(env, rule.issuers, Unverified(rule.roles))
  }

  method ValidateIssuer(env: Environment, issuer: IssuerConfig, unverified: bool) returns (ok: bool)
    ensures ok <==> IssuerAcceptable(env, issuer, unverified)
  {
    if !env.urlAllowed(issuer.uri) || !env.urlAllowed(issuer.jwksUri) || !env.keySourceValid(issuer) {
      return false;
    }
    if issuer.minRefresh < 0 || issuer.maxRefresh < 0 || |issuer.algorithms| == 0 {
      return false;
    }
    for j := 0 to |issuer.algorithms|
      invariant forall k :: 0 <= k < j ==> issuer.algorithms[k] in APPROVED
    {
      if issuer.algorithms[j] !in APPROVED {
        assert issuer.algorithms[j] in issuer.algorithms;
        return false;
      }
    }
    if |issuer.signsRoles| == 0 {
      return false;
    }
    ok := CheckSignsRoles(issuer.signsRoles, unverified);
  }

  method ValidateImpersonationTrustedIssuers(env: Environment, issuers: seq<IssuerConfig>, unverified: bool) returns (ok: bool)
    ensures ok <==> TrustConfigured(env, issuers, unverified)
  {
    if |issuers| == 0 {
      return false;
    }
    var seen: set<string>, covered: set<string> := {}, {};
    for i := 0 to |issuers|
      invariant forall u :: u in seen <==> NamedBefore(issuers, i, u)
      invariant forall r :: r in covered <==> SignedBefore(issuers, i, r)
      invariant forall k :: 0 <= k < i ==> IssuerConfigured(env, issuers, k, unverified)
    {
      var issuer := issuers[i];
      if issuer.uri == "" || issuer.uri in seen {
        assert !IssuerConfigured(env, issuers, i, unverified);
        return false;
      }
      seen := seen + {issuer.uri};
      var acceptable := ValidateIssuer(env, issuer, unverified);
      if !acceptable {
        assert !IssuerConfigured(env, issuers, i, unverified);
        return false;
      }
      covered := covered + (set r | r in issuer.signsRoles);
    }
    ok := RolesCovered(covered, unverified);
  }

  method ValidateImpersonationRule(env: Environment, rule: RuleConfig) returns (ok: bool)
    ensures ok <==> ConfigAccepts(env, rule)
  {
    var categories := ParseAllowedSubjectCategories(rule.categories);
    if categories.None? {
      return false;
    }
    var known := RolesKnown(rule.roles);
    if !known {
      return false;
    }
    if CLIENT_ASSERTION !in rule.roles || ACTOR !in rule.roles || SUBJECT !in rule.roles {
      assert CLIENT_ASSERTION in ROLE_NAMES && ACTOR in ROLE_NAMES && SUBJECT in ROLE_NAMES;
      return false;
    }
    assert rule.roles.Keys == ROLE_NAMES;
    var client, actor, subject := rule.roles[CLIENT_ASSERTION], rule.roles[ACTOR], rule.roles[SUBJECT];
    if !RoleConfigured(CLIENT_ASSERTION, client) || !RoleConfigured(ACTOR, actor) || !RoleConfigured(SUBJECT, subject) {
      return false;
    }
    if !SubjectConfigured(subject) {
      return false;
    }
    var unverified := subject.verification == NONE;
    if !AudienceConfigured(CLIENT_ASSERTION, client, unverified) || !AudienceConfigured(ACTOR, actor, unverified) || !AudienceConfigured(SUBJECT, subject, unverified) {
      return false;
    }
    if rule.authorizationType != "cel" || rule.expression == "" || !TimeoutValid(rule.timeout) {
      return false;
    }
    ok := ValidateImpersonationTrustedIssuers(env, rule.issuers, unverified);
  }

  // ---------------------------------------------------------------- agreement

  /** What the configuration validator asks for beyond the domain's invariants. */
  predicate ConfigOnly(env: Environment, rule: RuleConfig) {
    && rule.expression != ""
    && (SUBJECT in rule.roles ==> rule.roles[SUBJECT].verification in {"", JWKS, NONE})
    && forall i :: i in rule.issuers ==>
         && env.urlAllowed(i.uri) && env.urlAllowed(i.jwksUri) && env.keySourceValid(i)
         && i.minRefresh >= 0 && i.maxRefresh >= 0
         && i.algorithms != [] && (forall a :: a in i.algorithms ==> a in APPROVED)
         && i.signsRoles != []
  }

  lemma RolesAgree(name: string, r: RoleConfig, roles: map<string, RoleConfig>)
    requires name in roles && roles[name] == r && SUBJECT in roles
    requires roles[SUBJECT].verification in {"", JWKS, NONE}
    ensures RoleInvariant(name, r) <==>
              RoleConfigured(name, r) && AudienceConfigured(name, r, Unverified(roles)) && (name == SUBJECT ==> SubjectConfigured(r))
  {
  }

  lemma IssuersAgree(env: Environment, issuers: seq<IssuerConfig>, unverified: bool, i: nat)
    requires i < |issuers|
    ensures IssuerConfigured(env, issuers, i, unverified) ==> IssuerInvariant(issuers, i, unverified)
  {
  }

  /** The configuration validator accepts exactly the rules that meet the domain's invariants and
      its own additional checks; in particular, whatever it accepts the domain accepts. */
  lemma ValidatorsAgree(env: Environment, rule: RuleConfig)
    ensures ConfigAccepts(env, rule) <==> RuleInvariant(rule) && ConfigOnly(env, rule)
  {
    assert SUBJECT in ROLE_NAMES;
    if rule.roles.Keys == ROLE_NAMES && rule.roles[SUBJECT].verification in {"", JWKS, NONE} {
      forall name | name in rule.roles
        ensures RoleInvariant(name, rule.roles[name]) <==>
                  && RoleConfigured(name, rule.roles[name]) && AudienceConfigured(name, rule.roles[name], Unverified(rule.roles))
                  && (name == SUBJECT ==> SubjectConfigured(rule.roles[name]))
      {
        RolesAgree(name, rule.roles[name], rule.roles);
      }
      TrustAgrees(env, rule);
    }
  }

  lemma TrustAgrees(env: Environment, rule: RuleConfig)
    requires rule.roles.Keys == ROLE_NAMES && rule.roles[SUBJECT].verification in {"", JWKS, NONE}
    ensures rule.expression != "" && TrustConfigured(env, rule.issuers, Unverified(rule.roles)) <==>
              TrustInvariant(rule.issuers, Unverified(rule.roles)) && ConfigOnly(env, rule)
  {
    var unverified := Unverified(rule.roles);
    if TrustInvariant(rule.issuers, unverified) && ConfigOnly(env, rule) {
      forall i | 0 <= i < |rule.issuers| ensures IssuerConfigured(env, rule.issuers, i, unverified) {
        assert rule.issuers[i] in rule.issuers && IssuerInvariant(rule.issuers, i, unverified);
      }
    }
    if TrustConfigured(env, rule.issuers, unverified) {
      forall i | 0 <= i < |rule.issuers| ensures IssuerInvariant(rule.issuers, i, unverified) {
        IssuersAgree(env, rule.issuers, unverified, i);
      }
      forall x | x in rule.issuers ensures IssuerAcceptable(env, x, unverified) {
        var i :| 0 <= i < |rule.issuers| && rule.issuers[i] == x;
        assert IssuerConfigured(env, rule.issuers, i, unverified);
      }
    }
  }

  // ---------------------------------------------------------------- compilation

  datatype CompileError = Invariant | Expression | Verification | Algorithms | SignsRoles | KeyFactory | Reference

  function RoleOf(name: string): Role {
    if name == CLIENT_ASSERTION then ClientAssertion else if name == ACTOR then Actor else Subject
  }

  /** The expressions of a role; an email expression counts on the subject role only. */
  predicate RoleCompiles(env: Environment, name: string, r: RoleConfig) {
    && env.compileExtraction(name, r.principalExpression).Some?
    && (name == SUBJECT && r.emailExpression != "" ==> env.compileExtraction(SUBJECT, r.emailExpression).Some?)
  }

  /** An unverified subject and every role without audience must be bound by the predicate. */
  predicate ReferencesBound(env: Environment, roles: map<string, RoleConfig>, authorization: nat) {
    && (Unverified(roles) ==> env.references(authorization, SUBJECT))
    && forall name :: name in roles && roles[name].audienceRequirement == ABSENT ==> env.references(authorization, name)
  }

  /** The library-level conditions of compilation. */
  ghost predicate Compilable(env: Environment, rule: RuleConfig) {
    var authorization := env.compileAuthorization(rule.expression);
    && authorization.Some?
    && RolesCompile(env, rule.roles)
    && (forall i :: i in rule.issuers ==> env.factory(i).Some?)
    && ReferencesBound(env, rule.roles, authorization.value)
  }

  predicate RoleMirrors(env: Environment, name: string, r: RoleConfig, spec: RoleSpec) {
    && spec.expectedAudience == r.expectedAudience
    && (spec.requireAbsentAudience <==> r.audienceRequirement == ABSENT)
    && (spec.unverified <==> name == SUBJECT && r.verification == NONE)
    && env.compileExtraction(name, r.principalExpression) == Some(spec.principal)
    && spec.email == if name == SUBJECT && r.emailExpression != "" then env.compileExtraction(SUBJECT, r.emailExpression) else None
  }

  predicate IssuerMirrors(env: Environment, cfg: IssuerConfig, issuer: Issuer) {
    && issuer.uri == cfg.uri && env.factory(cfg) == Some(issuer.provider)
    && issuer.signs == (set r | r in cfg.signsRoles :: RoleOf(r))
    && issuer.algorithms == (set a | a in cfg.algorithms) && {} < issuer.algorithms <= APPROVED
  }

  ghost predicate Mirrors(env: Environment, cfg: RuleConfig, rule: Rule) {
    && rule.name == cfg.name
    && env.compileAuthorization(cfg.expression) == Some(rule.authorization) && rule.binds == env.binds(rule.authorization)
    && (rule.allowsHuman, rule.allowsAgent) == Allowed(cfg.categories)
    && cfg.roles.Keys == ROLE_NAMES
    && RolesMirror(env, cfg.roles, (rule.client, rule.actor, rule.subject))
    && IssuersMirror(env, cfg.issuers, rule.issuers)
  }

  ghost predicate IssuersMirror(env: Environment, cfgs: seq<IssuerConfig>, issuers: seq<Issuer>) {
    |issuers| == |cfgs| && forall i :: 0 <= i < |cfgs| ==> IssuerMirrors(env, cfgs[i], issuers[i])
  }

  method CompileRole(env: Environment, name: string, r: RoleConfig) returns (result: Result<RoleSpec, CompileError>)
    ensures result.Ok? ==> RoleMirrors(env, name, r, result.value) && RoleCompiles(env, name, r)
    ensures result.Err? ==> (result.error.Expression? && !RoleCompiles(env, name, r))
                            || (result.error.Verification? && name == SUBJECT && r.verification !in {"", JWKS, NONE})
  {
    var principal := env.compileExtraction(name, r.principalExpression);
    if principal.None? {
      return Err(Expression);
    }
    if name == SUBJECT && r.verification != "" && r.verification != JWKS && r.verification != NONE {
      return Err(Verification);
    }
    var email: Option<nat> := None;
    if name == SUBJECT && r.emailExpression != "" {
      email := env.compileExtraction(SUBJECT, r.emailExpression);
      if email.None? {
        return Err(Expression);
      }
    }
    result := Ok(RoleSpec(r.expectedAudience, r.audienceRequirement == ABSENT, principal.value, email, name == SUBJECT && r.verification == NONE));
  }

  ghost predicate RolesMirror(env: Environment, roles: map<string, RoleConfig>, specs: (RoleSpec, RoleSpec, RoleSpec))
    requires roles.Keys == ROLE_NAMES
  {
    && RoleMirrors(env, CLIENT_ASSERTION, roles[CLIENT_ASSERTION], specs.0)
    && RoleMirrors(env, ACTOR, roles[ACTOR], specs.1)
    && RoleMirrors(env, SUBJECT, roles[SUBJECT], specs.2)
  }

  ghost predicate RolesCompile(env: Environment, roles: map<string, RoleConfig>) {
    forall name :: name in roles ==> RoleCompiles(env, name, roles[name])
  }

  method CompileRoles(env: Environment, roles: map<string, RoleConfig>) returns (result: Result<(RoleSpec, RoleSpec, RoleSpec), CompileError>)
    requires roles.Keys == ROLE_NAMES
    ensures result.Ok? ==> RolesMirror(env, roles, result.value) && RolesCompile(env, roles)
    ensures result.Err? ==> (result.error.Expression? && !RolesCompile(env, roles))
                            || (result.error.Verification? && roles[SUBJECT].verification !in {"", JWKS, NONE})
  {
    assert CLIENT_ASSERTION in roles && ACTOR in roles && SUBJECT in roles;
    var client := CompileRole(env, CLIENT_ASSERTION, roles[CLIENT_ASSERTION]);
    if client.Err? {
      return Err(client.error);
    }
    var actor := CompileRole(env, ACTOR, roles[ACTOR]);
    if actor.Err? {
      return Err(actor.error);
    }
    var subject := CompileRole(env, SUBJECT, roles[SUBJECT]);
    if subject.Err? {
      return Err(subject.error);
    }
    result := Ok((client.value, actor.value, subject.value));
  }

  method CompileIssuer(env: Environment, cfg: IssuerConfig) returns (result: Result<Issuer, CompileError>)
    ensures result.Ok? ==> IssuerMirrors(env, cfg, result.value)
    ensures result.Err? ==> (result.error.KeyFactory? && env.factory(cfg).None?)
                            || (result.error.Algorithms? && (cfg.algorithms == [] || exists a :: a in cfg.algorithms && a !in APPROVED))
                            || (result.error.SignsRoles? && cfg.signsRoles == [])
  {
    if |cfg.algorithms| == 0 {
      return Err(Algorithms);
    }
    for i := 0 to |cfg.algorithms|
      invariant forall k :: 0 <= k < i ==> cfg.algorithms[k] in APPROVED
    {
      if cfg.algorithms[i] !in APPROVED {
        assert cfg.algorithms[i] in cfg.algorithms;
        return Err(Algorithms);
      }
    }
    if |cfg.signsRoles| == 0 {
      return Err(SignsRoles);
    }
    var provider := env.factory(cfg);
    if provider.None? {
      return Err(KeyFactory);
    }
    var algorithms := set a | a in cfg.algorithms;
    assert cfg.algorithms[0] in algorithms;
    result := Ok(Issuer(cfg.uri, set r | r in cfg.signsRoles :: RoleOf(r), provider.value, algorithms, env.isPointer(provider.value)));
  }

  /** What can go wrong with the issuers of a rule; the last two cannot once the configuration
      validator has accepted it. */
  ghost predicate IssuersFault(env: Environment, cfgs: seq<IssuerConfig>, error: CompileError) {
    || (error.KeyFactory? && exists c :: c in cfgs && env.factory(c).None?)
    || (error.Algorithms? && exists c :: c in cfgs && (c.algorithms == [] || exists a :: a in c.algorithms && a !in APPROVED))
    || (error.SignsRoles? && exists c :: c in cfgs && c.signsRoles == [])
  }

  method CompileIssuers(env: Environment, cfgs: seq<IssuerConfig>) returns (result: Result<seq<Issuer>, CompileError>)
    ensures result.Ok? ==> IssuersMirror(env, cfgs, result.value)
    ensures result.Err? ==> IssuersFault(env, cfgs, result.error)
  {
    var issuers: seq<Issuer> := [];
    for i := 0 to |cfgs|
      invariant |issuers| == i && forall k :: 0 <= k < i ==> IssuerMirrors(env, cfgs[k], issuers[k])
    {
      var issuer := CompileIssuer(env, cfgs[i]);
      if issuer.Err? {
        assert cfgs[i] in cfgs;
        return Err(issuer.error);
      }
      issuers := issuers + [issuer.value];
    }
    result := Ok(issuers);
  }

  method CheckReferences(env: Environment, roles: map<string, RoleConfig>, authorization: nat) returns (ok: bool)
    requires roles.Keys == ROLE_NAMES
    ensures ok <==> ReferencesBound(env, roles, authorization)
  {
    assert CLIENT_ASSERTION in roles && ACTOR in roles && SUBJECT in roles;
    ok := (roles[SUBJECT].verification == NONE ==> env.references(authorization, SUBJECT))
          && (roles[CLIENT_ASSERTION].audienceRequirement == ABSENT ==> env.references(authorization, CLIENT_ASSERTION))
          && (roles[ACTOR].audienceRequirement == ABSENT ==> env.references(authorization, ACTOR))
          && (roles[SUBJECT].audienceRequirement == ABSENT ==> env.references(authorization, SUBJECT));
  }

  /** Why compilation of a rule that meets the invariants fails. */
  ghost predicate Fault(env: Environment, cfg: RuleConfig, error: CompileError) {
    match error
    case Expression => env.compileAuthorization(cfg.expression).None? || !RolesCompile(env, cfg.roles)
    case Verification => SUBJECT in cfg.roles && cfg.roles[SUBJECT].verification !in {"", JWKS, NONE}
    case Reference => env.compileAuthorization(cfg.expression).Some? && !ReferencesBound(env, cfg.roles, env.compileAuthorization(cfg.expression).value)
    case Invariant => !RuleInvariant(cfg)
    case _ => IssuersFault(env, cfg.issuers, error)
  }

  method CompileRule(env: Environment, cfg: RuleConfig) returns (result: Result<Rule, CompileError>)
    ensures result.Ok? ==> RuleInvariant(cfg) && Mirrors(env, cfg, result.value) && Compilable(env, cfg)
    ensures result.Err? ==> Fault(env, cfg, result.error)
  {
    var valid := ValidateRuleInvariants(cfg);
    if !valid {
      return Err(Invariant);
    }
    var authorization := env.compileAuthorization(cfg.expression);
    if authorization.None? {
      return Err(Expression);
    }
    var specs := CompileRoles(env, cfg.roles);
    if specs.Err? {
      return Err(specs.error);
    }
    var issuers := CompileIssuers(env, cfg.issuers);
    if issuers.Err? {
      return Err(issuers.error);
    }
    var bound := CheckReferences(env, cfg.roles, authorization.value);
    if !bound {
      return Err(Reference);
    }
    var allowed := ParseAllowedSubjectCategories(cfg.categories);
    FactoriesSucceed(env, cfg.issuers, issuers.value);
    result := Ok(Rule(cfg.name, specs.value.0, specs.value.1, specs.value.2, issuers.value, authorization.value,
                      env.binds(authorization.value), allowed.value.0, allowed.value.1));
  }

  /** In a compiled rule an unverified subject is bound by the predicate, and so is every role that
      accepts credentials without an audience. */
  lemma UnboundRulesDoNotCompile(env: Environment, cfg: RuleConfig, rule: Rule, name: string)
    requires Mirrors(env, cfg, rule) && Compilable(env, cfg) && name in cfg.roles
    ensures cfg.roles["subject"].verification == "none" ==> env.references(rule.authorization, "subject")
    ensures cfg.roles[name].audienceRequirement == "absent" ==> env.references(rule.authorization, name)
  {
    assert "subject" in ROLE_NAMES;
  }

  lemma FactoriesSucceed(env: Environment, cfgs: seq<IssuerConfig>, issuers: seq<Issuer>)
    requires IssuersMirror(env, cfgs, issuers)
    ensures forall c :: c in cfgs ==> env.factory(c).Some?
  {
    forall c | c in cfgs ensures env.factory(c).Some? {
      var i :| 0 <= i < |cfgs| && cfgs[i] == c;
      assert IssuerMirrors(env, cfgs[i], issuers[i]);
    }
  }

  /** After the configuration validator only expressions, the key factory and the predicate's
      references can fail, and each failure is real: the rule is then not compilable. */
  lemma AcceptedRulesFailOnlyInLibraries(env: Environment, cfg: RuleConfig, error: CompileError)
    requires ConfigAccepts(env, cfg) && Fault(env, cfg, error)
    ensures error.Expression? || error.KeyFactory? || error.Reference?
    ensures !Compilable(env, cfg)
  {
    ValidatorsAgree(env, cfg);
  }

  predicate SignedRole(rule: Rule, role: Role) {
    role.Subject? ==> !rule.subject.unverified
  }

  lemma NamesAreDistinct(env: Environment, cfg: RuleConfig, rule: Rule)
    requires RuleInvariant(cfg) && Mirrors(env, cfg, rule)
    ensures DistinctIssuers(rule.issuers)
  {
    forall i, j | 0 <= i < j < |rule.issuers| ensures rule.issuers[i].uri != rule.issuers[j].uri {
      assert IssuerMirrors(env, cfg.issuers[i], rule.issuers[i]) && IssuerMirrors(env, cfg.issuers[j], rule.issuers[j]);
      assert IssuerInvariant(cfg.issuers, j, Unverified(cfg.roles));
      assert !NamedBefore(cfg.issuers, j, cfg.issuers[j].uri);
    }
  }

  function NameOf(role: Role): string {
    match role case ClientAssertion => CLIENT_ASSERTION case Actor => ACTOR case Subject => SUBJECT
  }

  /** In a compiled rule a role has a trusted issuer exactly when it is a signed role. */
  lemma SignedRolesHaveIssuers(env: Environment, cfg: RuleConfig, rule: Rule, role: Role)
    requires RuleInvariant(cfg) && Mirrors(env, cfg, rule)
    ensures SignedRole(rule, role) <==> exists iss :: IssuerFor(rule.issuers, role, iss).Some?
  {
    var name := NameOf(role);
    assert name in ROLE_NAMES;
    if SignedRole(rule, role) {
      var i :| 0 <= i < |cfg.issuers| && name in cfg.issuers[i].signsRoles;
      assert IssuerMirrors(env, cfg.issuers[i], rule.issuers[i]);
      assert RoleOf(name) == role;
      IssuerFound(rule.issuers, role, rule.issuers[i].uri);
      assert IssuerFor(rule.issuers, role, rule.issuers[i].uri).Some?;
    } else {
      forall iss ensures IssuerFor(rule.issuers, role, iss).None? {
        IssuerFound(rule.issuers, role, iss);
        UnverifiedSubjectIsUnsigned(env, cfg, rule);
      }
    }
  }

  /** Which configured role yields which trusted role, by name, and which algorithms. */
  lemma TrustByName(env: Environment, cfg: RuleConfig, rule: Rule, i: nat)
    requires RuleInvariant(cfg) && Mirrors(env, cfg, rule) && i < |cfg.issuers|
    ensures |rule.issuers| == |cfg.issuers| && rule.issuers[i].uri == cfg.issuers[i].uri
    ensures ClientAssertion in rule.issuers[i].signs <==> "client_assertion" in cfg.issuers[i].signsRoles
    ensures Actor in rule.issuers[i].signs <==> "actor" in cfg.issuers[i].signsRoles
    ensures Subject in rule.issuers[i].signs <==> "subject" in cfg.issuers[i].signsRoles
    ensures forall alg :: alg in rule.issuers[i].algorithms <==> alg in cfg.issuers[i].algorithms
    ensures rule.client.expectedAudience == cfg.roles["client_assertion"].expectedAudience
    ensures rule.actor.expectedAudience == cfg.roles["actor"].expectedAudience
    ensures rule.subject.expectedAudience == cfg.roles["subject"].expectedAudience
    ensures rule.subject.unverified <==> cfg.roles["subject"].verification == "none"
    ensures env.compileExtraction("client_assertion", cfg.roles["client_assertion"].principalExpression) == Some(rule.client.principal)
    ensures env.compileExtraction("actor", cfg.roles["actor"].principalExpression) == Some(rule.actor.principal)
    ensures env.compileExtraction("subject", cfg.roles["subject"].principalExpression) == Some(rule.subject.principal)
    ensures cfg.categories.None? ==> rule.allowsHuman && !rule.allowsAgent
    ensures cfg.categories.Some? ==> (rule.allowsHuman <==> "human" in cfg.categories.value) && (rule.allowsAgent <==> "agent" in cfg.categories.value)
  {
    assert IssuerMirrors(env, cfg.issuers[i], rule.issuers[i]);
    assert IssuerInvariant(cfg.issuers, i, Unverified(cfg.roles));
    assert RoleOf("client_assertion") == ClientAssertion && RoleOf("actor") == Actor && RoleOf("subject") == Subject;
    assert forall r :: r in cfg.issuers[i].signsRoles ==> r == "client_assertion" || r == "actor" || r == "subject";
    assert "client_assertion" in ROLE_NAMES && "actor" in ROLE_NAMES && "subject" in ROLE_NAMES;
  }

  lemma UnverifiedSubjectIsUnsigned(env: Environment, cfg: RuleConfig, rule: Rule)
    requires RuleInvariant(cfg) && Mirrors(env, cfg, rule) && rule.subject.unverified
    ensures forall i :: i in rule.issuers ==> Subject !in i.signs
  {
    forall x | x in rule.issuers ensures Subject !in x.signs {
      var i :| 0 <= i < |rule.issuers| && rule.issuers[i] == x;
      assert IssuerMirrors(env, cfg.issuers[i], rule.issuers[i]);
      assert IssuerInvariant(cfg.issuers, i, true);
    }
  }

  /** The issuer chosen for a credential does not depend on the order of the trusted issuers. */
  lemma IssuerOrderIrrelevant(a: seq<Issuer>, b: seq<Issuer>, role: Role, iss: string)
    requires DistinctIssuers(a) && multiset(a) == multiset(b)
    ensures IssuerFor(a, role, iss) == IssuerFor(b, role, iss)
  {
    IssuerFound(a, role, iss);
    IssuerFound(b, role, iss);
    assert forall i :: i in a <==> i in multiset(a);
    assert forall i :: i in b <==> i in multiset(b);
    var x, y := IssuerFor(a, role, iss), IssuerFor(b, role, iss);
    if x.Some? && y.Some? {
      var i :| 0 <= i < |a| && a[i] == x.value;
      var j :| 0 <= j < |a| && a[j] == y.value;
      assert i == j;
    }
  }
}
