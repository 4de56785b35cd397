/** Impersonate as a whole, and what it guarantees about minting and refusing. */
module ImpersonationTheorems {
  import opened Prelude
  import opened Impersonation

  const REFRESH_TOKEN_SCOPES := {"offline", "offline_access"}

  datatype Outcome = Issued(token: string) | Refused(failure: Failure)

  predicate ScopeAllowed(allowed: seq<string>, scope: string) {
    scope in REFRESH_TOKEN_SCOPES || |allowed| == 0 || scope in allowed
  }

  /** Every requested scope is one that asks for a refresh token or one that the target allows; a
      target without allowed scopes allows all. */
  predicate Admissible(req: Request, target: Option<Target>) {
    && target.Some? && target.value.id != ZERO_ID
    && (target.value.allowedScopes == [] ||
        forall s :: s in req.scopes ==> s == "offline" || s == "offline_access" || s in target.value.allowedScopes)
  }

  /** The result of every rule, in rule order. */
  function Results(w: World, rules: seq<Rule>, req: Request, target: AgentId): seq<RuleResult> {
    seq(|rules|, i requires 0 <= i < |rules| => EvaluateRule(w, rules[i], req, target))
  }

  /** Rule k decides: it is the first one that does not fall through. */
  ghost predicate Decides(results: seq<RuleResult>, k: nat) {
    k < |results| && !results[k].FellThrough? && forall i :: 0 <= i < k ==> results[i].FellThrough?
  }

  ghost predicate AllFell(results: seq<RuleResult>) {
    forall i :: 0 <= i < |results| ==> results[i].FellThrough?
  }

  function Failures(results: seq<RuleResult>): seq<Failure>
    requires forall i :: 0 <= i < |results| ==> results[i].FellThrough?
  {
    seq(|results|, i requires 0 <= i < |results| => results[i].failure)
  }

  /** What a call may answer and which mints it may request, given the rules' fresh results. */
  ghost predicate Answers(results: seq<RuleResult>, outcome: Outcome, mints: seq<MintInput>) {
    if AllFell(results) then outcome.Refused? && Selects(Failures(results), outcome.failure) && mints == []
    else exists k: nat :: Decides(results, k) && mints == Attempts(results[k]) && outcome == OutcomeOf(results[k])
  }

  function OutcomeOf(r: RuleResult): Outcome
    requires !r.FellThrough?
  {
    match r
    case Matched(_, token) => Issued(token)
    case Aborted(f, _) => Refused(f)
  }

  /** The rule loop with the shared cache answers as if every rule verified its credentials afresh. */
  method EvaluateRules(w: World, rules: seq<Rule>, req: Request, target: AgentId, issuer: TokenIssuer) returns (outcome: Outcome)
    modifies issuer
    ensures old(issuer.requested) <= issuer.requested
    ensures Answers(Results(w, rules, req, target), outcome, issuer.requested[|old(issuer.requested)|..])
  {
    var cache := new VerifiedCredentialCache();
    ghost var results := Results(w, rules, req, target);
    var failures: seq<Failure> := [];
    for i := 0 to |rules|
      invariant cache.Sound(w) && fresh(cache)
      invariant issuer.requested == old(issuer.requested)
      invariant |failures| == i && forall k :: 0 <= k < i ==> results[k] == FellThrough(failures[k])
    {
      var result := EvaluateRuleCached(w, rules[i], req, target, cache, issuer);
      assert result == results[i];
      match result {
        case FellThrough(f) => failures := failures + [f];
        case Matched(_, token) =>
          assert Decides(results, i);
          return Issued(token);
        case Aborted(f, _) =>
          assert Decides(results, i);
          return Refused(f);
      }
    }
    assert failures == Failures(results);
    var selected := SelectNoMatchError(failures);
    outcome := Refused(selected);
  }

  method Impersonate(w: World, rules: seq<Rule>, req: Request, target: Option<Target>, issuer: TokenIssuer) returns (outcome: Outcome)
    modifies issuer
    ensures old(issuer.requested) <= issuer.requested
    ensures !Admissible(req, target) ==> outcome.Refused? && issuer.requested == old(issuer.requested)
    ensures target.None? || target.value.id == ZERO_ID ==> outcome.Refused? && outcome.failure.code.ServerError?
    ensures !Admissible(req, target) && target.Some? && target.value.id != ZERO_ID ==> outcome.Refused? && outcome.failure.code.InvalidScope?
    ensures Admissible(req, target) ==> Answers(Results(w, rules, req, target.value.id), outcome, issuer.requested[|old(issuer.requested)|..])
  {
    if target.None? || target.value.id == ZERO_ID {
      return Refused(Failure(ServerError, "target agent"));
    }
    for i := 0 to |req.scopes|
      invariant forall k :: 0 <= k < i ==> ScopeAllowed(target.value.allowedScopes, req.scopes[k])
    {
      if !ScopeAllowed(target.value.allowedScopes, req.scopes[i]) {
        return Refused(Failure(InvalidScope, "requested scope"));
      }
    }
    outcome := EvaluateRules(w, rules, req, target.value.id, issuer);
  }

  // ---------------------------------------------------------------- mint safety

  /** RSA, RSA-PSS and ECDSA with SHA-2, or EdDSA; never none and never a shared secret. */
  predicate Asymmetric(alg: string) {
    || alg in {"RS256", "RS384", "RS512"}
    || alg in {"PS256", "PS384", "PS512"}
    || alg in {"ES256", "ES384", "ES512"}
    || alg == "EdDSA"
  }

  /** The issuer is trusted by the rule to sign this role with this algorithm, and its provider
      vouches for the token, which names that issuer, carries an expiry, is within its time, and
      carries the role's audience, or none where the role forbids one. */
  ghost predicate Vouches(w: World, issuers: seq<Issuer>, role: Role, spec: RoleSpec, token: string, issuer: Issuer, claims: Claims) {
    && issuer in issuers && role in issuer.signs
    && w.unverifiedIssuer(token) == Some(issuer.uri)
    && (exists alg :: w.algorithm(token) == Some(alg) && alg in issuer.algorithms && Asymmetric(alg))
    && exists t :: w.verdict(issuer.provider, token) == Ok(t)
                   && t.claims == claims && t.issuer == issuer.uri && t.hasExpiry && w.timely(t)
                   && (spec.requireAbsentAudience ==> t.audience.None?)
                   && (!spec.requireAbsentAudience ==> t.audience.Some? && spec.expectedAudience in t.audience.value)
  }

  datatype Evidence = Evidence(
    clientIssuer: Issuer,
    actorIssuer: Issuer,
    subjectIssuer: Option<Issuer>,
    client: Claims,
    actor: Claims,
    subject: Claims,
    ids: Identities,
    category: Category)

  ghost predicate SubjectRead(w: World, rule: Rule, req: Request, e: Evidence) {
    if rule.subject.unverified
    then w.parseUnverifiedSubject(req.subjectToken) == Some(e.subject)
    else e.subjectIssuer.Some? && Vouches(w, rule.issuers, Subject, rule.subject, req.subjectToken, e.subjectIssuer.value, e.subject)
  }

  ghost predicate Authenticated(w: World, rule: Rule, req: Request, e: Evidence) {
    && Vouches(w, rule.issuers, ClientAssertion, rule.client, req.clientAssertion, e.clientIssuer, e.client)
    && Vouches(w, rule.issuers, Actor, rule.actor, req.actorToken, e.actorIssuer, e.actor)
    && req.subjectTokenIsJwt
    && SubjectRead(w, rule, req, e)
  }

  ghost predicate Identified(w: World, rule: Rule, e: Evidence) {
    && w.extract(rule.client.principal, e.client) == Some(e.ids.client) && e.ids.client != ""
    && w.extract(rule.actor.principal, e.actor) == Some(e.ids.actor) && e.ids.actor != ""
    && w.extract(rule.subject.principal, e.subject) == Some(e.ids.subject) && e.ids.subject != ""
  }

  /** The text is the canonical spelling of some other agent's identifier, whose look-up answers so. */
  ghost predicate OtherAnswers(w: World, target: AgentId, text: string, answer: Lookup) {
    exists a :: w.parseAgentId(text) == Some(a) && w.showAgentId(a) == text && a != target && w.lookup(a) == answer
  }

  ghost predicate Harmless(w: World, target: AgentId, text: string) {
    !OtherAnswers(w, target, text, Registered) && !OtherAnswers(w, target, text, Unavailable)
  }

  /** The subject is the target itself, by a sub that is verified or bound by the predicate. */
  ghost predicate IsTarget(w: World, rule: Rule, target: AgentId, subject: Claims) {
    subject.sub == Some(w.showAgentId(target)) && (!rule.subject.unverified || "sub" in rule.binds)
  }

  function RawSub(subject: Claims): string {
    if subject.sub.Some? then subject.sub.value else ""
  }

  /** An agent subject is the target itself; a human subject names no other registered agent. */
  ghost predicate Eligible(w: World, rule: Rule, target: AgentId, e: Evidence) {
    && (if e.category.Agent? then rule.allowsAgent else rule.allowsHuman)
    && (e.category.Agent? <==> IsTarget(w, rule, target, e.subject))
    && (e.category.Human? && (!rule.subject.unverified || "sub" in rule.binds) ==>
          Harmless(w, target, RawSub(e.subject)) && Harmless(w, target, e.ids.subject))
  }

  ghost predicate EmailRight(w: World, rule: Rule, e: Evidence, email: Option<string>) {
    if e.category.Human? && rule.subject.email.Some? && (rule.subject.unverified ==> "email" in rule.binds)
    then w.extract(rule.subject.email.value, e.subject) == Some(if email.Some? then email.value else "") && email != Some("")
    else email.None?
  }

  ghost predicate Permitted(w: World, rule: Rule, req: Request, target: AgentId, e: Evidence) {
    && w.authorize(rule.authorization, e.client, e.actor, e.subject, rule.subject.unverified, Context(req.scope, w.showAgentId(target))) == Some(true)
    && (e.category.Human? ==> w.delegation(e.ids.subject, target).Active?)
  }

  /** Everything a rule must establish before it may ask for the token m. */
  ghost predicate Justified(w: World, rule: Rule, req: Request, target: AgentId, m: MintInput, e: Evidence) {
    && Authenticated(w, rule, req, e) && Identified(w, rule, e) && Eligible(w, rule, target, e)
    && EmailRight(w, rule, e, m.email) && Permitted(w, rule, req, target, e)
    && m.subject == (if e.category.Agent? then w.showAgentId(target) else e.ids.subject)
    && m.actor == e.ids.actor && m.actorIssuer == e.actorIssuer.uri && m.target == target && m.scopes == req.scopes
  }

  lemma {:induction false} IssuerFound(issuers: seq<Issuer>, role: Role, iss: string)
    ensures var found := IssuerFor(issuers, role, iss);
            && (found.Some? ==> found.value in issuers && found.value.uri == iss && role in found.value.signs)
            && (found.None? ==> forall i :: i in issuers && i.uri == iss ==> role !in i.signs)
  {
    if |issuers| > 0 {
      IssuerFound(issuers[1..], role, iss);
      assert issuers == [issuers[0]] + issuers[1..];
    }
  }

  ghost predicate DistinctIssuers(issuers: seq<Issuer>) {
    forall i, j :: 0 <= i < j < |issuers| ==> issuers[i].uri != issuers[j].uri
  }

  lemma VouchedFor(w: World, rule: Rule, role: Role, token: string)
    ensures var c := Credential(w, rule, role, token);
            c.Some? ==> Vouches(w, rule.issuers, role, SpecFor(rule, role), token, c.value.1, c.value.0)
  {
    var iss := w.unverifiedIssuer(token);
    if iss.Some? {
      IssuerFound(rule.issuers, role, iss.value);
    }
  }

  lemma VouchingSuffices(w: World, rule: Rule, role: Role, token: string, issuer: Issuer, claims: Claims)
    requires DistinctIssuers(rule.issuers) && Vouches(w, rule.issuers, role, SpecFor(rule, role), token, issuer, claims)
    ensures Credential(w, rule, role, token) == Some((claims, issuer))
  {
    IssuerFound(rule.issuers, role, issuer.uri);
    var found := IssuerFor(rule.issuers, role, issuer.uri);
    var i :| 0 <= i < |rule.issuers| && rule.issuers[i] == issuer;
    var j :| 0 <= j < |rule.issuers| && rule.issuers[j] == found.value;
    assert i == j;
  }

  function EvidenceOf(c: Credentials, client: Issuer, subject: Option<Issuer>, ids: Identities, category: Category): Evidence {
    Evidence(client, c.actorIssuer, subject, c.client, c.actor, c.subject, ids, category)
  }

  lemma AuthenticationEvidence(w: World, rule: Rule, req: Request, ids: Identities, category: Category) returns (e: Evidence)
    requires Authenticate(w, rule, req).Ok?
    ensures var c := Authenticate(w, rule, req).value;
            && Authenticated(w, rule, req, e)
            && e.client == c.client && e.actor == c.actor && e.subject == c.subject && e.actorIssuer == c.actorIssuer
            && e.ids == ids && e.category == category
  {
    VouchedFor(w, rule, ClientAssertion, req.clientAssertion);
    VouchedFor(w, rule, Actor, req.actorToken);
    VouchedFor(w, rule, Subject, req.subjectToken);
    var client := Credential(w, rule, ClientAssertion, req.clientAssertion).value.1;
    var subject := Credential(w, rule, Subject, req.subjectToken);
    e := EvidenceOf(Authenticate(w, rule, req).value, client, if subject.Some? then Some(subject.value.1) else None, ids, category);
  }

  /** The two look-ups of a human subject: no other agent, some other agent, or no answer. */
  lemma OtherAgentCases(w: World, target: AgentId, claims: Claims, subject: string)
    ensures var r := OtherAgent(w, target, Candidates(claims, subject));
            && (r == Some(false) <==> Harmless(w, target, RawSub(claims)) && Harmless(w, target, subject))
            && (r.None? <==> || OtherAnswers(w, target, RawSub(claims), Unavailable)
                             || (Harmless(w, target, RawSub(claims)) && OtherAnswers(w, target, subject, Unavailable)))
  {
    var cs := Candidates(claims, subject);
    assert cs[1..][0] == cs[1] && cs[1..][1..] == [];
    CandidateCases(w, target, cs[0], cs[1..]);
    CandidateCases(w, target, cs[1], []);
    assert cs == [cs[0]] + cs[1..] && cs[1..] == [cs[1]] + [];
  }

  lemma CandidateCases(w: World, target: AgentId, text: string, rest: seq<string>)
    ensures OtherAgent(w, target, [text] + rest) ==
              if OtherAnswers(w, target, text, Registered) then Some(true)
              else if OtherAnswers(w, target, text, Unavailable) then None
              else OtherAgent(w, target, rest)
  {
    assert ([text] + rest)[1..] == rest;
  }

  /** Categorisation succeeds exactly for the eligible category. */
  lemma CategorizeExact(w: World, rule: Rule, target: AgentId, e: Evidence)
    ensures Categorize(w, rule, target, e.subject, e.ids.subject) == Ok(e.category) <==> Eligible(w, rule, target, e)
  {
    OtherAgentCases(w, target, e.subject, e.ids.subject);
  }

  lemma EmailExact(w: World, rule: Rule, e: Evidence, email: Option<string>)
    ensures Email(w, rule, e.category, e.subject) == Ok(email) <==> EmailRight(w, rule, e, email)
  {
  }

  /** A rule asks for a token only with full justification, and asks at most once. */
  lemma MintIsJustified(w: World, rule: Rule, req: Request, target: AgentId, m: MintInput) returns (e: Evidence)
    requires Attempts(EvaluateRule(w, rule, req, target)) == [m]
    ensures Justified(w, rule, req, target, m, e)
  {
    var c := Authenticate(w, rule, req).value;
    var ids, category := JudgedMint(w, rule, req, target, c, m);
    e := AuthenticationEvidence(w, rule, req, ids, category);
    CategorizeExact(w, rule, target, e);
    EmailExact(w, rule, e, m.email);
  }

  lemma JudgedMint(w: World, rule: Rule, req: Request, target: AgentId, c: Credentials, m: MintInput) returns (ids: Identities, category: Category)
    requires Attempts(Judge(w, rule, req, target, c)) == [m]
    ensures Identify(w, rule, c) == Ok(ids) && Categorize(w, rule, target, c.subject, ids.subject) == Ok(category)
    ensures Email(w, rule, category, c.subject) == Ok(m.email)
    ensures Permit(w, rule, req, target, c).None? && Delegate(w, category, ids.subject, target).None?
    ensures m == MintFor(w, req, target, category, m.email, c, ids)
  {
    ids := Identify(w, rule, c).value;
    category := Categorize(w, rule, target, c.subject, ids.subject).value;
  }

  /** Evidence that reaches the authorization predicate. */
  ghost predicate Presented(w: World, rule: Rule, req: Request, target: AgentId, e: Evidence, email: Option<string>) {
    && Authenticated(w, rule, req, e) && Identified(w, rule, e) && Eligible(w, rule, target, e)
    && EmailRight(w, rule, e, email)
  }

  function CredentialsOf(e: Evidence): Credentials {
    Credentials(e.client, e.actor, e.actorIssuer, e.subject)
  }

  lemma AuthenticatedSuffices(w: World, rule: Rule, req: Request, e: Evidence)
    requires DistinctIssuers(rule.issuers) && Authenticated(w, rule, req, e)
    ensures Authenticate(w, rule, req) == Ok(CredentialsOf(e))
  {
    VouchingSuffices(w, rule, ClientAssertion, req.clientAssertion, e.clientIssuer, e.client);
    VouchingSuffices(w, rule, Actor, req.actorToken, e.actorIssuer, e.actor);
    if !rule.subject.unverified {
      VouchingSuffices(w, rule, Subject, req.subjectToken, e.subjectIssuer.value, e.subject);
    }
  }

  /** What is left to decide once the evidence is presented. */
  lemma PresentedIsJudged(w: World, rule: Rule, req: Request, target: AgentId, e: Evidence, email: Option<string>)
    requires DistinctIssuers(rule.issuers) && Presented(w, rule, req, target, e, email)
    ensures var refusal := Permit(w, rule, req, target, CredentialsOf(e));
            EvaluateRule(w, rule, req, target) ==
              if refusal.Some? then Halt(refusal.value)
              else
                var undelegated := Delegate(w, e.category, e.ids.subject, target);
                if undelegated.Some? then Aborted(undelegated.value, None)
                else Mint(w, MintFor(w, req, target, e.category, email, CredentialsOf(e), e.ids))
  {
    AuthenticatedSuffices(w, rule, req, e);
    assert Identify(w, rule, CredentialsOf(e)) == Ok(e.ids);
    CategorizeExact(w, rule, target, e);
    EmailExact(w, rule, e, email);
  }

  /** Conversely a justified mint is always attempted, when issuer URIs are distinct. */
  lemma JustifiedMints(w: World, rule: Rule, req: Request, target: AgentId, m: MintInput, e: Evidence)
    requires DistinctIssuers(rule.issuers) && Justified(w, rule, req, target, m, e)
    ensures EvaluateRule(w, rule, req, target) == Mint(w, m)
  {
    PresentedIsJudged(w, rule, req, target, e, m.email);
  }

  /** A result tells the truth about what the issuer did. */
  ghost predicate Honest(w: World, r: RuleResult) {
    && (r.Matched? ==> w.issue(r.mint) == Some(r.token))
    && (r.Aborted? && r.attempt.Some? ==> w.issue(r.attempt.value).None?)
  }

  lemma ResultsAreHonest(w: World, rule: Rule, req: Request, target: AgentId)
    ensures Honest(w, EvaluateRule(w, rule, req, target))
  {
  }

  lemma DecidingRule(w: World, results: seq<RuleResult>, outcome: Outcome, mints: seq<MintInput>)
    requires Answers(results, outcome, mints) && forall r :: r in results ==> Honest(w, r)
    ensures |mints| <= 1
    ensures outcome.Issued? <==> |mints| == 1 && w.issue(mints[0]).Some?
    ensures outcome.Issued? ==> w.issue(mints[0]) == Some(outcome.token)
    ensures |mints| == 1 ==> exists k: nat :: Decides(results, k) && Attempts(results[k]) == [mints[0]]
  {
    if !AllFell(results) {
      var k: nat :| Decides(results, k) && mints == Attempts(results[k]) && outcome == OutcomeOf(results[k]);
      assert Honest(w, results[k]);
    }
  }

  /** The rule is the first that does not fall through, and it was entitled to ask for m. */
  ghost predicate MintedBy(w: World, rules: seq<Rule>, req: Request, target: AgentId, m: MintInput, k: nat, e: Evidence) {
    && k < |rules| && Decides(Results(w, rules, req, target), k)
    && Justified(w, rules[k], req, target, m, e)
  }

  /** Mint safety of a whole call: at most one mint is requested; it is requested by the first rule
      that does not fall through, with full justification; and a token is returned exactly when
      that mint succeeded. */
  lemma MintSafety(w: World, rules: seq<Rule>, req: Request, target: AgentId, outcome: Outcome, mints: seq<MintInput>)
    requires Answers(Results(w, rules, req, target), outcome, mints)
    ensures |mints| <= 1
    ensures outcome.Issued? <==> |mints| == 1 && w.issue(mints[0]).Some?
    ensures outcome.Issued? ==> w.issue(mints[0]) == Some(outcome.token)
    ensures |mints| == 1 ==> exists k: nat, e :: MintedBy(w, rules, req, target, mints[0], k, e)
  {
    var results := Results(w, rules, req, target);
    forall r | r in results ensures Honest(w, r) {
      var i :| 0 <= i < |results| && results[i] == r;
      ResultsAreHonest(w, rules[i], req, target);
    }
    DecidingRule(w, results, outcome, mints);
    if |mints| == 1 {
      var k: nat :| Decides(results, k) && Attempts(results[k]) == [mints[0]];
      var e := MintIsJustified(w, rules[k], req, target, mints[0]);
      assert MintedBy(w, rules, req, target, mints[0], k, e);
    }
  }

  lemma MintDecides(w: World, rule: Rule, req: Request, target: AgentId, m: MintInput, e: Evidence)
    requires DistinctIssuers(rule.issuers) && Justified(w, rule, req, target, m, e)
    ensures var r := EvaluateRule(w, rule, req, target); !r.FellThrough? && Attempts(r) == [m]
  {
    JustifiedMints(w, rule, req, target, m, e);
  }

  /** The first rule that does not fall through mints whenever it is entitled to. */
  lemma FirstJustifiedRuleMints(w: World, rules: seq<Rule>, req: Request, target: AgentId, k: nat, m: MintInput, e: Evidence,
                                outcome: Outcome, mints: seq<MintInput>)
    requires k < |rules| && DistinctIssuers(rules[k].issuers) && Justified(w, rules[k], req, target, m, e)
    requires forall i :: 0 <= i < k ==> Results(w, rules, req, target)[i].FellThrough?
    requires Answers(Results(w, rules, req, target), outcome, mints)
    ensures mints == [m]
  {
    var results := Results(w, rules, req, target);
    MintDecides(w, rules[k], req, target, m, e);
    assert results[k] == EvaluateRule(w, rules[k], req, target);
    FirstDecides(results, k, m, outcome, mints);
  }

  lemma FirstDecides(results: seq<RuleResult>, k: nat, m: MintInput, outcome: Outcome, mints: seq<MintInput>)
    requires Decides(results, k) && Attempts(results[k]) == [m] && Answers(results, outcome, mints)
    ensures mints == [m]
  {
    var j: nat :| Decides(results, j) && mints == Attempts(results[j]);
    assert j == k;
  }

  /** An agent subject is minted as exactly the target; a human only under an active delegation. */
  lemma SubjectIsTargetOrDelegated(w: World, rule: Rule, req: Request, target: AgentId, m: MintInput)
    requires Attempts(EvaluateRule(w, rule, req, target)) == [m]
    ensures m.subject == w.showAgentId(target) || w.delegation(m.subject, target).Active?
    ensures m.email.Some? ==> w.delegation(m.subject, target).Active?
  {
    var e := MintIsJustified(w, rule, req, target, m);
  }

  // ---------------------------------------------------------------- what aborts and what falls through

  /** The outcome of the authorization predicate on the presented evidence. */
  function Authorization(w: World, rule: Rule, req: Request, target: AgentId, e: Evidence): Option<bool> {
    w.authorize(rule.authorization, e.client, e.actor, e.subject, rule.subject.unverified, Context(req.scope, w.showAgentId(target)))
  }

  /** The rule ends the call without asking for a token: its predicate cannot be evaluated, or a
      human subject has no delegation that is known to be active. */
  ghost predicate MustAbort(w: World, rule: Rule, req: Request, target: AgentId, e: Evidence, code: Code) {
    || (Authorization(w, rule, req, target, e).None? && code == ServerError)
    || (Authorization(w, rule, req, target, e) == Some(true) && e.category.Human? &&
        match w.delegation(e.ids.subject, target)
        case Active => false
        case Missing => code == AccessDenied
        case Expired => code == AccessDenied
        case Unknown => code == ServerError
        case Failed => code == ServerError)
  }

  ghost predicate AbortsWith(r: RuleResult, code: Code) {
    r.Aborted? && r.attempt.None? && r.failure.code == code
  }

  ghost predicate FallsByCode(r: RuleResult, code: Code) {
    r.FellThrough? && r.failure.code == code
  }

  /** Once the evidence is presented, a predicate that cannot be evaluated and a delegation that is
      not active abort, and only a false predicate falls through. */
  lemma PresentedOutcome(w: World, rule: Rule, req: Request, target: AgentId, e: Evidence, email: Option<string>, code: Code)
    requires DistinctIssuers(rule.issuers) && Presented(w, rule, req, target, e, email)
    ensures MustAbort(w, rule, req, target, e, code) ==> AbortsWith(EvaluateRule(w, rule, req, target), code)
    ensures Authorization(w, rule, req, target, e) == Some(false) <==> FallsByCode(EvaluateRule(w, rule, req, target), AccessDenied)
    ensures EvaluateRule(w, rule, req, target).FellThrough? ==> Authorization(w, rule, req, target, e) == Some(false)
  {
    PresentedIsJudged(w, rule, req, target, e, email);
  }

  /** The look-ups of a human subject: a registered other agent and a category that the rule does not
      allow fall through; an unavailable repository aborts. */
  lemma CategoryOutcome(w: World, rule: Rule, req: Request, target: AgentId, e: Evidence)
    requires DistinctIssuers(rule.issuers) && Authenticated(w, rule, req, e) && Identified(w, rule, e)
    ensures var r, sub := EvaluateRule(w, rule, req, target), RawSub(e.subject);
            && (IsTarget(w, rule, target, e.subject) && !rule.allowsAgent ==> FallsByCode(r, AccessDenied))
            && (!IsTarget(w, rule, target, e.subject) && (!rule.subject.unverified || "sub" in rule.binds) ==>
                  && (OtherAnswers(w, target, sub, Unavailable) ==> AbortsWith(r, ServerError))
                  && (OtherAnswers(w, target, sub, Registered) ==> FallsByCode(r, AccessDenied))
                  && (Harmless(w, target, sub) && OtherAnswers(w, target, e.ids.subject, Unavailable) ==> AbortsWith(r, ServerError))
                  && (Harmless(w, target, sub) && OtherAnswers(w, target, e.ids.subject, Registered) ==> FallsByCode(r, AccessDenied))
                  && (Harmless(w, target, sub) && Harmless(w, target, e.ids.subject) && !rule.allowsHuman ==> FallsByCode(r, AccessDenied)))
            && (!IsTarget(w, rule, target, e.subject) && rule.subject.unverified && "sub" !in rule.binds && !rule.allowsHuman ==> FallsByCode(r, AccessDenied))
  {
    AuthenticatedSuffices(w, rule, req, e);
    assert Identify(w, rule, CredentialsOf(e)) == Ok(e.ids);
    OtherAgentCases(w, target, e.subject, e.ids.subject);
  }

  ghost predicate Vouched(w: World, issuers: seq<Issuer>, role: Role, spec: RoleSpec, token: string) {
    exists issuer, claims :: Vouches(w, issuers, role, spec, token, issuer, claims)
  }

  lemma CredentialExact(w: World, rule: Rule, role: Role, token: string)
    requires DistinctIssuers(rule.issuers)
    ensures Credential(w, rule, role, token).Some? <==> Vouched(w, rule.issuers, role, SpecFor(rule, role), token)
  {
    VouchedFor(w, rule, role, token);
    if Vouched(w, rule.issuers, role, SpecFor(rule, role), token) {
      var issuer, claims :| Vouches(w, rule.issuers, role, SpecFor(rule, role), token, issuer, claims);
      VouchingSuffices(w, rule, role, token, issuer, claims);
    }
  }

  /** A client assertion that no trusted issuer vouches for is invalid_client; after that, an actor
      or subject token that is not vouched for, or of the wrong type, is invalid_request. */
  lemma CredentialOutcome(w: World, rule: Rule, req: Request, target: AgentId)
    requires DistinctIssuers(rule.issuers)
    ensures var r := EvaluateRule(w, rule, req, target);
            var client := Vouched(w, rule.issuers, ClientAssertion, rule.client, req.clientAssertion);
            var actor := Vouched(w, rule.issuers, Actor, rule.actor, req.actorToken);
            var subject := if rule.subject.unverified then w.parseUnverifiedSubject(req.subjectToken).Some?
                           else Vouched(w, rule.issuers, Subject, rule.subject, req.subjectToken);
            && (!client ==> FallsByCode(r, InvalidClient))
            && (client && !(actor && req.subjectTokenIsJwt && subject) ==> FallsByCode(r, InvalidRequest))
  {
    CredentialExact(w, rule, ClientAssertion, req.clientAssertion);
    CredentialExact(w, rule, Actor, req.actorToken);
    CredentialExact(w, rule, Subject, req.subjectToken);
  }

  /** An identity that cannot be extracted is invalid_request, and so is an email. */
  lemma IdentityOutcome(w: World, rule: Rule, req: Request, target: AgentId, e: Evidence)
    requires DistinctIssuers(rule.issuers) && Authenticated(w, rule, req, e)
    ensures var r := EvaluateRule(w, rule, req, target);
            var client, actor, subject := w.extract(rule.client.principal, e.client), w.extract(rule.actor.principal, e.actor), w.extract(rule.subject.principal, e.subject);
            client in {None, Some("")} || actor in {None, Some("")} || subject in {None, Some("")} ==> FallsByCode(r, InvalidRequest)
    ensures Identified(w, rule, e) && Eligible(w, rule, target, e) && e.category.Human? && rule.subject.email.Some?
            && (!rule.subject.unverified || "email" in rule.binds) && w.extract(rule.subject.email.value, e.subject).None?
            ==> FallsByCode(EvaluateRule(w, rule, req, target), InvalidRequest)
  {
    AuthenticatedSuffices(w, rule, req, e);
    if Identified(w, rule, e) {
      assert Identify(w, rule, CredentialsOf(e)) == Ok(e.ids);
      CategorizeExact(w, rule, target, e);
    }
  }

  /** An abort ends the call: when rule k aborts without a mint and every rule before it fell
      through, the answer is that refusal and no token is asked for, whatever later rules say. */
  lemma AbortEndsCall(w: World, rules: seq<Rule>, req: Request, target: AgentId, k: nat, code: Code, outcome: Outcome, mints: seq<MintInput>)
    requires k < |rules| && AbortsWith(EvaluateRule(w, rules[k], req, target), code)
    requires forall i :: 0 <= i < k ==> Results(w, rules, req, target)[i].FellThrough?
    requires Answers(Results(w, rules, req, target), outcome, mints)
    ensures outcome.Refused? && outcome.failure.code == code && mints == []
  {
    AbortDecides(Results(w, rules, req, target), k, code, outcome, mints);
  }

  lemma AbortDecides(results: seq<RuleResult>, k: nat, code: Code, outcome: Outcome, mints: seq<MintInput>)
    requires Decides(results, k) && AbortsWith(results[k], code) && Answers(results, outcome, mints)
    ensures outcome.Refused? && outcome.failure.code == code && mints == []
  {
    var j: nat :| Decides(results, j) && mints == Attempts(results[j]) && outcome == OutcomeOf(results[j]);
    assert j == k;
  }

  // ---------------------------------------------------------------- refusal

  lemma FallThroughIsRecognized(w: World, rule: Rule, req: Request, target: AgentId)
    ensures var r := EvaluateRule(w, rule, req, target);
            r.FellThrough? ==> Rank(r.failure.code) > 0
  {
  }

  lemma SelectedIsHighest(failures: seq<Failure>, selected: Failure)
    requires Selects(failures, selected) && forall f :: f in failures ==> Rank(f.code) > 0
    ensures |failures| == 0 <==> selected.code.ServerError?
    ensures forall f :: f in failures ==> Rank(f.code) <= Rank(selected.code)
    ensures |failures| > 0 ==> selected in failures
  {
    if |failures| > 0 {
      assert failures[0] in failures;
      var k :| 0 <= k < |failures| && BestAt(failures, k) && selected == failures[k];
    }
  }

  ghost predicate FallsBelow(w: World, rule: Rule, req: Request, target: AgentId, f: Failure) {
    var r := EvaluateRule(w, rule, req, target);
    r.FellThrough? && Rank(r.failure.code) <= Rank(f.code)
  }

  ghost predicate FallsWith(w: World, rule: Rule, req: Request, target: AgentId, f: Failure) {
    EvaluateRule(w, rule, req, target) == FellThrough(f)
  }

  lemma RecognizedFailures(w: World, rules: seq<Rule>, req: Request, target: AgentId)
    requires AllFell(Results(w, rules, req, target))
    ensures forall f :: f in Failures(Results(w, rules, req, target)) ==> Rank(f.code) > 0
  {
    var results := Results(w, rules, req, target);
    forall f | f in Failures(results) ensures Rank(f.code) > 0 {
      var i :| 0 <= i < |results| && Failures(results)[i] == f;
      FallThroughIsRecognized(w, rules[i], req, target);
    }
  }

  /** When every rule falls through, the answer is the highest-precedence failure of some rule, and
      is a server error only for an empty rule list. */
  lemma RefusalIsHighest(w: World, rules: seq<Rule>, req: Request, target: AgentId, outcome: Outcome, mints: seq<MintInput>)
    requires AllFell(Results(w, rules, req, target)) && Answers(Results(w, rules, req, target), outcome, mints)
    ensures outcome.Refused? && mints == []
    ensures |rules| == 0 <==> outcome.failure.code.ServerError?
    ensures forall r :: r in rules ==> FallsBelow(w, r, req, target, outcome.failure)
    ensures |rules| > 0 ==> exists r :: r in rules && FallsWith(w, r, req, target, outcome.failure)
  {
    var results := Results(w, rules, req, target);
    var failures := Failures(results);
    RecognizedFailures(w, rules, req, target);
    SelectedIsHighest(failures, outcome.failure);
    forall r | r in rules ensures FallsBelow(w, r, req, target, outcome.failure) {
      var i :| 0 <= i < |rules| && rules[i] == r;
      assert results[i] == EvaluateRule(w, r, req, target) && failures[i] in failures;
    }
    if |rules| > 0 {
      var k :| 0 <= k < |failures| && failures[k] == outcome.failure;
      assert rules[k] in rules && FallsWith(w, rules[k], req, target, outcome.failure);
    }
  }

  /** Reordering the rules of a call that no rule decides never changes the refusal's code. */
  lemma RefusalOrderIndependent(w: World, rules: seq<Rule>, reordered: seq<Rule>, req: Request, target: AgentId,
                                outcome: Outcome, mints: seq<MintInput>, outcome': Outcome, mints': seq<MintInput>)
    requires multiset(rules) == multiset(reordered)
    requires AllFell(Results(w, rules, req, target)) && Answers(Results(w, rules, req, target), outcome, mints)
    requires Answers(Results(w, reordered, req, target), outcome', mints')
    ensures AllFell(Results(w, reordered, req, target))
    ensures outcome.Refused? && outcome'.Refused? && outcome.failure.code == outcome'.failure.code
  {
    SameMembers(rules, reordered);
    RefusalIsHighest(w, rules, req, target, outcome, mints);
    forall i | 0 <= i < |reordered| ensures Results(w, reordered, req, target)[i].FellThrough? {
      assert FallsBelow(w, reordered[i], req, target, outcome.failure);
    }
    RefusalIsHighest(w, reordered, req, target, outcome', mints');
    if |rules| > 0 {
      var r :| r in rules && FallsWith(w, r, req, target, outcome.failure);
      var r' :| r' in reordered && FallsWith(w, r', req, target, outcome'.failure);
      assert FallsBelow(w, r, req, target, outcome'.failure) && FallsBelow(w, r', req, target, outcome.failure);
    }
  }

  lemma SameMembers(a: seq<Rule>, b: seq<Rule>)
    requires multiset(a) == multiset(b)
    ensures forall r :: r in a <==> r in b
    ensures |a| == |b|
  {
    assert forall r :: r in a <==> r in multiset(a);
    assert forall r :: r in b <==> r in multiset(b);
    assert |a| == |multiset(a)| == |multiset(b)| == |b|;
  }

  /** The precedence by code: access_denied before invalid_request before invalid_client. */
  lemma RefusalByCode(w: World, rules: seq<Rule>, req: Request, target: AgentId, outcome: Outcome, mints: seq<MintInput>)
    requires AllFell(Results(w, rules, req, target)) && Answers(Results(w, rules, req, target), outcome, mints) && |rules| > 0
    ensures outcome.Refused?
    ensures var denied, malformed := SomeFalls(w, rules, req, target, AccessDenied), SomeFalls(w, rules, req, target, InvalidRequest);
            outcome.failure.code == if denied then AccessDenied else if malformed then InvalidRequest else InvalidClient
  {
    RefusalIsHighest(w, rules, req, target, outcome, mints);
    var r :| r in rules && FallsWith(w, r, req, target, outcome.failure);
    assert FallsByCode(EvaluateRule(w, r, req, target), outcome.failure.code);
    FallThroughIsRecognized(w, r, req, target);
    if SomeFalls(w, rules, req, target, AccessDenied) {
      var x :| x in rules && FallsByCode(EvaluateRule(w, x, req, target), AccessDenied);
      assert FallsBelow(w, x, req, target, outcome.failure);
    } else if SomeFalls(w, rules, req, target, InvalidRequest) {
      var x :| x in rules && FallsByCode(EvaluateRule(w, x, req, target), InvalidRequest);
      assert FallsBelow(w, x, req, target, outcome.failure);
    }
  }

  ghost predicate SomeFalls(w: World, rules: seq<Rule>, req: Request, target: AgentId, code: Code) {
    exists r :: r in rules && FallsByCode(EvaluateRule(w, r, req, target), code)
  }
}
