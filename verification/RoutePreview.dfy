/** Source eligibility and the route preview: when a route is blocked, and what every counted account satisfies. */
module RoutePreview {
  import opened Units
  import opened RouteSources
  import opened RouteCompatibility

  // ---------------------------------------------------------------- accounts

  /** routeAccountInFlight and routeAccountConcurrencyLimit. */
  function InFlight(n: Number): int { if n.Finite? && n.x.Floor > 0 then n.x.Floor else 0 }
  function Limit(n: Number): int { if n.Finite? && n.x.Floor > 1 then n.x.Floor else 1 }

  /** isRouteAccountCurrentlySchedulable. */
  predicate Schedulable(a: Account, now: int) {
    && !a.status.Disabled? && !a.status.Expired? && !a.status.Checking?
    && !(a.status.Cooldown? && a.cooldownUntil.None?)
    && (if a.cooldownUntil.Some? then a.cooldownUntil.value else 0) <= now
    && InFlight(a.inFlight) < Limit(a.maxConcurrency)
  }

  /** What an account is judged by: the providers, what is known of their capabilities, and the model with its policy. */
  datatype Context = Context(
    providers: seq<Provider>,
    capability: (Provider, Option<Str>, Str) -> Option<bool>,
    model: Option<Str>,
    poolSelects: bool,
    poolModels: seq<Str>)
  {
    function Provider(id: Str): Option<Provider> { ProviderOf(providers, id) }
  }

  /** accountSupportsModel, with a provider required. */
  predicate SupportsModel(a: Account, c: Context) {
    var p := c.Provider(a.provider);
    p.Some?
    && (c.model.None?
        || (var m := c.model.value;
            && (c.poolSelects ==> m in c.poolModels)
            && (a.selectedModels ==> m in a.allowlist)
            && ((p.value.source.Relay? && m in p.value.models) || !a.refreshed || m in a.available)))
  }

  datatype Verdict = Verified | Unknown | Unsupported

  predicate Denied(a: Account, c: Context, capability: Str) {
    c.Provider(a.provider).None? || c.capability(c.Provider(a.provider).value, c.model, capability) == Some(false)
  }

  predicate Proved(a: Account, c: Context, capability: Str) {
    c.Provider(a.provider).Some? && c.capability(c.Provider(a.provider).value, c.model, capability) == Some(true)
  }

  /** accountCapabilityEligibility, with a provider required. */
  method JudgeAccount(a: Account, c: Context, required: seq<Str>) returns (v: Verdict)
    ensures v == Judge(a, c, required)
  {
    var p := c.Provider(a.provider);
    if p.None? { return Unsupported; }
    var unknown, i := false, 0;
    while i < |required|
      invariant i <= |required|
      invariant forall j :: 0 <= j < i ==> !Denied(a, c, required[j])
      invariant unknown <==> exists j :: 0 <= j < i && !Proved(a, c, required[j])
    {
      var value := c.capability(p.value, c.model, required[i]);
      if value == Some(false) {
        assert Denied(a, c, required[i]);
        return Unsupported;
      }
      if value != Some(true) { unknown := true; }
      i := i + 1;
    }
    return if unknown then Unknown else Verified;
  }

  /** One denial excludes; otherwise everything has to be proved to be verified. */
  function Judge(a: Account, c: Context, required: seq<Str>): Verdict {
    if c.Provider(a.provider).None? || exists x <- required :: Denied(a, c, x) then Unsupported
    else if forall x <- required :: Proved(a, c, x) then Verified
    else Unknown
  }

  // ---------------------------------------------------------------- eligibility

  /** uniqueCapabilities: each capability once. */
  method Unique(required: seq<Str>) returns (r: seq<Str>)
    ensures forall x :: x in r <==> x in required
    ensures forall j, k :: 0 <= j < k < |r| ==> r[j] != r[k]
  {
    r := [];
    var i := 0;
    while i < |required|
      invariant i <= |required|
      invariant forall x :: x in r <==> x in required[..i]
      invariant forall j, k :: 0 <= j < k < |r| ==> r[j] != r[k]
    {
      assert required[..i + 1] == required[..i] + [required[i]];
      if required[i] !in r { r := r + [required[i]]; }
      i := i + 1;
    }
    assert required[..i] == required;
  }

  /** A verdict depends only on which capabilities are required. */
  lemma SameVerdict(a: Account, c: Context, distinct: seq<Str>, required: seq<Str>)
    requires forall x :: x in distinct <==> x in required
    ensures Judge(a, c, distinct) == Judge(a, c, required)
  {
    hide Denied, Proved;
  }

  function Keep(accounts: seq<Account>, f: Account -> bool): seq<Account> {
    if accounts == [] then []
    else
      var n := |accounts| - 1;
      Keep(accounts[..n], f) + if f(accounts[n]) then [accounts[n]] else []
  }

  lemma {:induction false} KeepExact(accounts: seq<Account>, f: Account -> bool)
    ensures forall a :: a in Keep(accounts, f) <==> a in accounts && f(a)
  {
    if accounts != [] { KeepExact(accounts[..|accounts| - 1], f); }
  }

  function ForModel(c: Context): Account -> bool { (a: Account) => SupportsModel(a, c) }

  function WithVerdict(c: Context, required: seq<Str>, v: Verdict): Account -> bool {
    (a: Account) => SupportsModel(a, c) && Judge(a, c, required) == v
  }

  /** evaluateSourceEligibility: members that support the model, by what is known of the capabilities. */
  datatype Eligibility = Eligibility(modelEligible: seq<Account>, verified: seq<Account>, unknown: seq<Account>, unsupported: seq<Account>)

  /** The candidates of the scheduler: verified members are preferred to unknown ones. */
  function Candidates(e: Eligibility): seq<Account> {
    if e.verified != [] then e.verified else e.unknown
  }

  function Evaluate(accounts: seq<Account>, c: Context, required: seq<Str>): Eligibility {
    Eligibility(Keep(accounts, ForModel(c)), Keep(accounts, WithVerdict(c, required, Verified)),
                Keep(accounts, WithVerdict(c, required, Unknown)), Keep(accounts, WithVerdict(c, required, Unsupported)))
  }

  method EvaluateSource(accounts: seq<Account>, c: Context, required: seq<Str>) returns (e: Eligibility)
    ensures e == Evaluate(accounts, c, required)
  {
    hide Judge, SupportsModel;
    e := Eligibility([], [], [], []);
    var distinct := Unique(required);
    var i := 0;
    while i < |accounts|
      invariant i <= |accounts|
      invariant e == Evaluate(accounts[..i], c, required)
    {
      var a := accounts[i];
      assert accounts[..i + 1][..i] == accounts[..i];
      if SupportsModel(a, c) {
        var v := JudgeAccount(a, c, distinct);
        SameVerdict(a, c, distinct, required);
        e := e.(modelEligible := e.modelEligible + [a]);
        match v {
          case Verified => e := e.(verified := e.verified + [a]);
          case Unknown => e := e.(unknown := e.unknown + [a]);
          case Unsupported => e := e.(unsupported := e.unsupported + [a]);
        }
      }
      i := i + 1;
    }
    assert accounts[..i] == accounts;
  }

  /** Every candidate supports the model, has a provider, and no required capability is denied. */
  lemma CandidatesSound(accounts: seq<Account>, c: Context, required: seq<Str>)
    ensures forall a <- Candidates(Evaluate(accounts, c, required)) ::
              && a in accounts && c.Provider(a.provider).Some? && SupportsModel(a, c)
              && (forall x <- required :: !Denied(a, c, x))
    ensures Candidates(Evaluate(accounts, c, required)) == [] <==>
            forall a <- accounts :: SupportsModel(a, c) ==> exists x <- required :: Denied(a, c, x)
  {
    hide Denied, Proved;
    KeepExact(accounts, WithVerdict(c, required, Verified));
    KeepExact(accounts, WithVerdict(c, required, Unknown));
    var e := Evaluate(accounts, c, required);
    if Candidates(e) == [] {
      forall a | a in accounts && SupportsModel(a, c) ensures exists x <- required :: Denied(a, c, x) {
        assert a !in e.verified && a !in e.unknown;
      }
    } else {
      assert Candidates(e)[0] in Candidates(e);
    }
  }

  // ---------------------------------------------------------------- the preview

  datatype Severity = Info | Warning | Error

  datatype Code =
    | RouteDisabled | InvalidProtocol | SourceMissing | SourceOverridden | SourceUnavailable | ProtocolConversion
    | ModelMapped | ModelUnavailable | CapabilityUnsupported | CapabilityUnknown

  /** An issue may be about one required capability. */
  datatype Issue = Issue(code: Code, severity: Severity, capability: Option<Str> := None)

  datatype Outcome = Blocked | Warned | Ready

  datatype Preview = Preview(outcome: Outcome, count: nat, issues: seq<Issue>)

  predicate HasError(issues: seq<Issue>) { exists x <- issues :: x.severity.Error? }
  predicate HasWarning(issues: seq<Issue>) { exists x <- issues :: x.severity.Warning? }

  /** result. */
  function Conclude(count: nat, issues: seq<Issue>): Preview {
    Preview(if HasError(issues) then Blocked else if HasWarning(issues) then Warned else Ready, count, issues)
  }

  /** The route and the request: whether a model is routed, mapped to another or sent to another source. */
  datatype Request = Request(
    enabled: bool, client: Client, inbound: Wire, routed: bool, mapped: bool, overridden: bool, required: seq<Str>, now: int)

  /** What the preview looks at besides. */
  datatype Snapshot = Snapshot(pools: seq<Pool>, providers: seq<Provider>, accounts: seq<Account>)

  function SourceOf(id: Str, x: Snapshot): Option<Source> { Resolve(id, x.pools, x.providers, x.accounts) }

  ghost predicate IsValid(s: Source, x: Snapshot) { TopologyValid(s.pool, x.accounts, x.providers) }

  /** routeSourceWireProtocols. */
  function WireProtocols(accounts: seq<Account>, providers: seq<Provider>): set<Wire> {
    set a <- accounts | ProviderOf(providers, a.provider).Some? :: ProviderOf(providers, a.provider).value.protocol
  }

  /** Whether a request in the inbound protocol has to be converted for the source. */
  predicate Converted(s: Source, providers: seq<Provider>, inbound: Wire) {
    var wires := WireProtocols(s.accounts, providers);
    if wires != {} then wires != {inbound} else s.pool.protocol != OnWire(inbound)
  }

  function SchedulableAt(now: int): Account -> bool { (a: Account) => Schedulable(a, now) }

  /** The schedulable accounts of a usable source. */
  function Usable(q: Request, s: Source, topologyValid: bool, providers: seq<Provider>): seq<Account> {
    if topologyValid && Eligible(q.client, s, topologyValid, providers) then Keep(s.accounts, SchedulableAt(q.now)) else []
  }

  /** The accounts that the preview counts. */
  function Counted(q: Request, s: Source, topologyValid: bool, c: Context): seq<Account> {
    Candidates(Evaluate(Usable(q, s, topologyValid, c.providers), c, q.required))
  }

  /** The issue with this capability. */
  predicate Reports(issues: seq<Issue>, r: Str) { exists x <- issues :: x.capability == Some(r) }

  predicate ReportsOnce(issues: seq<Issue>) {
    forall i, j :: 0 <= i < j < |issues| && issues[i].capability.Some? ==> issues[i].capability != issues[j].capability
  }

  predicate Says(issues: seq<Issue>, code: Code) { exists x <- issues :: x.code == code }

  /** What the preview says besides the capabilities. */
  ghost predicate SaysExactly(issues: seq<Issue>, q: Request, s: Source, x: Snapshot, c: Context) {
    var usable := Usable(q, s, IsValid(s, x), x.providers);
    var unserved := usable != [] && forall a <- usable :: !SupportsModel(a, c);
    && (Says(issues, RouteDisabled) <==> !q.enabled) && (Says(issues, InvalidProtocol) <==> q.inbound != Native(q.client))
    && (Says(issues, SourceOverridden) <==> q.overridden) && (Says(issues, ModelMapped) <==> q.mapped)
    && (Says(issues, ProtocolConversion) <==> Converted(s, x.providers, q.inbound))
    && (Says(issues, ModelUnavailable) <==> q.routed && unserved)
    && (Says(issues, SourceUnavailable) <==> usable == [] || (!q.routed && unserved))
    && !Says(issues, SourceMissing)
  }

  /** No account that supports the model has proved the capability. */
  predicate Unproved(accounts: seq<Account>, c: Context, r: Str) {
    forall a <- accounts :: SupportsModel(a, c) ==> !Proved(a, c, r)
  }

  /**
   * previewRoute. `c.model` is the routed model, or none for Web WM pools. It is blocked exactly when no account is
   * counted or the inbound protocol is not the client's own; and it reports, once each, exactly the required capabilities
   * that no usable account has proved.
   */
  method PreviewRoute(q: Request, sourceId: Str, x: Snapshot, c: Context) returns (r: Preview)
    requires c.providers == x.providers
    ensures r.outcome.Blocked? <==> r.count == 0 || q.inbound != Native(q.client)
    ensures SourceOf(sourceId, x).None? ==> r.count == 0
    ensures SourceOf(sourceId, x).Some? ==>
              var s := SourceOf(sourceId, x).value;
              && r.count == |Counted(q, s, IsValid(s, x), c)|
              && (forall k :: Reports(r.issues, k) <==>
                    k in q.required && Unproved(Usable(q, s, IsValid(s, x), x.providers), c, k))
              && SaysExactly(r.issues, q, s, x, c)
              && (r.outcome.Warned? <==>
                    !r.outcome.Blocked?
                    && (!q.enabled || exists k <- q.required :: Unproved(Usable(q, s, IsValid(s, x), x.providers), c, k)))
    ensures SourceOf(sourceId, x).None? <==> Says(r.issues, SourceMissing)
    ensures ReportsOnce(r.issues)
  {
    hide Evaluate, Keep, TopologyValid, Schedulable, HasError, HasWarning, Candidates, Resolve, Analyze, Converted, Reports,
         ReportsOnce, Unproved, ReportsUnsupported, Silent, Usable, Native, Says, SupportsModel,
         SaysExactly, OfSource;
    var issues: seq<Issue> := [];
    NoIssues();
    issues := SayIf(issues, !q.enabled, RouteDisabled, Warning);
    issues := SayIf(issues, q.inbound != Native(q.client), InvalidProtocol, Error);
    var source := SourceOf(sourceId, x);
    if source.None? {
      issues := SayIf(issues, true, SourceMissing, Error);
      SilentReports(issues);
      return Conclude(0, issues);
    }
    var s := source.value;
    var topologyValid := IsTopologyValid(s.pool, x.accounts, x.providers);
    var eligible := Usable(q, s, topologyValid, x.providers);
    var e := EvaluateSource(eligible, c, q.required);
    NoModel(eligible, c, q.required);
    var unserved := eligible != [] && e.modelEligible == [];
    issues := SourceIssues(issues, q, Converted(s, x.providers, q.inbound), eligible == [], unserved);
    issues := CheckCapabilities(issues, eligible, e, q, c);
    SaidExactly(issues, q, s, x, c, unserved);
    return Conclude(|Candidates(e)|, issues);
  }

  /** Whether a capability is already reported as unsupported. */
  predicate ReportsUnsupported(issues: seq<Issue>) { exists x <- issues :: x.code.CapabilityUnsupported? }

  method Push(issues: seq<Issue>, x: Issue) returns (r: seq<Issue>)
    ensures r == issues + [x]
    ensures HasError(r) == (HasError(issues) || x.severity.Error?)
    ensures HasWarning(r) == (HasWarning(issues) || x.severity.Warning?)
    ensures forall k :: Says(r, k) <==> Says(issues, k) || x.code == k
    ensures ReportsUnsupported(r) == (ReportsUnsupported(issues) || x.code.CapabilityUnsupported?)
    ensures forall k :: Reports(r, k) <==> Reports(issues, k) || x.capability == Some(k)
    ensures ReportsOnce(issues) && (x.capability.Some? ==> !Reports(issues, x.capability.value)) ==> ReportsOnce(r)
  {
    r := issues + [x];
    assert r[|issues|] == x;
    assert forall y :: y in r <==> y in issues || y == x;
    if x.capability.Some? && !Reports(issues, x.capability.value) {
      assert forall i :: 0 <= i < |issues| ==> issues[i] in issues;
    }
  }

  /** No issue so far is about a capability. */
  predicate Silent(issues: seq<Issue>) {
    forall x <- issues :: x.capability.None? && !x.code.CapabilityUnsupported?
  }

  /** An issue that is not about a capability, if there is cause for it. */
  method SayIf(issues: seq<Issue>, cause: bool, code: Code, severity: Severity) returns (r: seq<Issue>)
    requires !code.CapabilityUnsupported?
    ensures r == if cause then issues + [Issue(code, severity)] else issues
    ensures HasError(r) == (HasError(issues) || (cause && severity.Error?))
    ensures HasWarning(r) == (HasWarning(issues) || (cause && severity.Warning?))
    ensures forall k :: Says(r, k) <==> Says(issues, k) || (cause && code == k)
    ensures Silent(issues) ==> Silent(r)
  {
    if !cause { return issues; }
    r := issues + [Issue(code, severity)];
    assert r[|issues|] == Issue(code, severity);
    assert forall y :: y in r <==> y in issues || y == Issue(code, severity);
  }

  predicate OfSource(k: Code, q: Request, converted: bool, unusable: bool, unserved: bool) {
    match k
    case SourceOverridden => q.overridden
    case SourceUnavailable => unusable || (unserved && !q.routed)
    case ProtocolConversion => converted
    case ModelMapped => q.mapped
    case ModelUnavailable => unserved && q.routed
    case _ => false
  }

  lemma SaidExactly(issues: seq<Issue>, q: Request, s: Source, x: Snapshot, c: Context, unserved: bool)
    requires var usable := Usable(q, s, IsValid(s, x), x.providers);
             && (unserved <==> usable != [] && forall a <- usable :: !SupportsModel(a, c))
             && forall k: Code :: !k.CapabilityUnsupported? && !k.CapabilityUnknown? ==>
                  (Says(issues, k) <==>
                    || (k.RouteDisabled? && !q.enabled) || (k.InvalidProtocol? && q.inbound != Native(q.client))
                    || OfSource(k, q, Converted(s, x.providers, q.inbound), usable == [], unserved))
    ensures SaysExactly(issues, q, s, x, c) && !Says(issues, SourceMissing)
  {
    hide Says, Usable, SupportsModel, Converted, TopologyValid, Native;
  }

  /** The issues with the source of the route. */
  method SourceIssues(issues: seq<Issue>, q: Request, converted: bool, unusable: bool, unserved: bool) returns (r: seq<Issue>)
    requires Silent(issues) && !(unusable && unserved)
    ensures Silent(r) && HasWarning(r) == HasWarning(issues) && HasError(r) == (HasError(issues) || unusable || unserved)
    ensures forall k :: Says(r, k) <==> Says(issues, k) || OfSource(k, q, converted, unusable, unserved)
  {
    hide Says, HasError, HasWarning, Silent;
    r := SayIf(issues, q.overridden, SourceOverridden, Info);
    r := SayIf(r, unusable, SourceUnavailable, Error);
    r := SayIf(r, converted, ProtocolConversion, Info);
    r := SayIf(r, q.mapped, ModelMapped, Info);
    r := SayIf(r, unserved, if q.routed then ModelUnavailable else SourceUnavailable, Error);
  }

  lemma NoIssues()
    ensures !HasError([]) && !HasWarning([]) && Silent([]) && forall k :: !Says([], k)
  {}

  lemma SilentReports(issues: seq<Issue>)
    requires Silent(issues)
    ensures !ReportsUnsupported(issues) && ReportsOnce(issues) && forall k :: !Reports(issues, k)
  {
    assert forall i :: 0 <= i < |issues| ==> issues[i] in issues;
  }

  /** One issue for each required capability that no member has proved, and one more if no member has them all. */
  method CheckCapabilities(issues: seq<Issue>, eligible: seq<Account>, e: Eligibility, q: Request, c: Context)
    returns (r: seq<Issue>)
    requires e == Evaluate(eligible, c, q.required) && Silent(issues)
    requires e.modelEligible == [] ==> HasError(issues)
    ensures HasError(r) <==> HasError(issues) || Candidates(e) == []
    ensures !HasError(r) ==>
              (HasWarning(r) <==> HasWarning(issues) || exists k <- q.required :: Unproved(eligible, c, k))
    ensures forall k: Code :: !k.CapabilityUnsupported? && !k.CapabilityUnknown? ==> (Says(r, k) <==> Says(issues, k))
    ensures forall k :: Reports(r, k) <==> k in q.required && Unproved(eligible, c, k)
    ensures ReportsOnce(r)
  {
    hide Evaluate, HasError, HasWarning, Says, Candidates, ReportsUnsupported, Reports, ReportsOnce, Unproved, Silent;
    SilentReports(issues);
    NoModel(eligible, c, q.required);
    r := issues;
    var required := Unique(q.required);
    var i := 0;
    while i < |required|
      invariant i <= |required|
      invariant HasError(issues) ==> HasError(r)
      invariant HasError(r) && !HasError(issues) ==> Candidates(e) == []
      invariant ReportsUnsupported(r) ==> HasError(r)
      invariant !HasError(r) ==>
                  (HasWarning(r) <==> HasWarning(issues) || exists k <- required[..i] :: Unproved(eligible, c, k))
      invariant forall k: Code :: !k.CapabilityUnsupported? && !k.CapabilityUnknown? ==> (Says(r, k) <==> Says(issues, k))
      invariant forall k :: Reports(r, k) <==> k in required[..i] && Unproved(eligible, c, k)
      invariant ReportsOnce(r)
    {
      var capability := required[i];
      assert required[..i + 1] == required[..i] + [capability];
      assert capability !in required[..i];
      var only := EvaluateSource(e.modelEligible, c, [capability]);
      VerifiedMeans(eligible, c, q.required, capability);
      if only.verified == [] {
        if only.unknown == [] {
          Excluded(eligible, c, q.required, capability);
          r := Push(r, Issue(CapabilityUnsupported, Error, Some(capability)));
        } else {
          r := Push(r, Issue(CapabilityUnknown, Warning, Some(capability)));
        }
      }
      i := i + 1;
    }
    assert required[..i] == required;
    if e.modelEligible != [] && q.required != [] && Candidates(e) == [] && !ReportsUnsupported(r) {
      r := Push(r, Issue(CapabilityUnsupported, Error));
    }
  }

  /** No member that supports the model is verified for a capability exactly when none has proved it. */
  lemma VerifiedMeans(accounts: seq<Account>, c: Context, required: seq<Str>, r: Str)
    ensures Evaluate(Evaluate(accounts, c, required).modelEligible, c, [r]).verified == [] <==> Unproved(accounts, c, r)
  {
    hide SupportsModel, Keep;
    var members := Keep(accounts, ForModel(c));
    var verified := Keep(members, WithVerdict(c, [r], Verified));
    KeepExact(accounts, ForModel(c));
    KeepExact(members, WithVerdict(c, [r], Verified));
    if verified == [] {
      forall a | a in accounts && SupportsModel(a, c) ensures !Proved(a, c, r) {
        assert a in members && a !in verified;
      }
    } else {
      assert verified[0] in verified;
      assert r in [r];
    }
  }

  lemma NoModel(accounts: seq<Account>, c: Context, required: seq<Str>)
    ensures var e := Evaluate(accounts, c, required);
            && (accounts == [] ==> e.modelEligible == [])
            && (e.modelEligible == [] <==> forall a <- accounts :: !SupportsModel(a, c))
            && (e.modelEligible == [] ==> Candidates(e) == [])
            && (e.modelEligible != [] && Candidates(e) == [] ==> required != [])
  {
    hide Denied, Proved, SupportsModel, Judge;
    CandidatesSound(accounts, c, required);
    KeepExact(accounts, ForModel(c));
    var e := Evaluate(accounts, c, required);
    if e.modelEligible != [] {
      assert e.modelEligible[0] in e.modelEligible;
    } else {
      assert forall a <- accounts :: a in e.modelEligible <==> SupportsModel(a, c);
    }
  }

  /** A capability that all members deny leaves no candidate. */
  lemma Excluded(accounts: seq<Account>, c: Context, required: seq<Str>, r: Str)
    requires r in required
    requires var only := Evaluate(Evaluate(accounts, c, required).modelEligible, c, [r]);
             only.verified == [] && only.unknown == []
    ensures Candidates(Evaluate(accounts, c, required)) == []
  {
    hide Denied, Proved, SupportsModel, Judge;
    var members := Keep(accounts, ForModel(c));
    CandidatesSound(members, c, [r]);
    KeepExact(accounts, ForModel(c));
    CandidatesSound(accounts, c, required);
    forall a | a in accounts && SupportsModel(a, c) ensures exists x <- required :: Denied(a, c, x) {
      assert a in members;
    }
  }

  /**
   * Every counted account is a schedulable account of the source, supports the routed model and has no required capability
   * marked false; it is listed once, and so is its provider, which is the one it is judged by; and the client is
   * authorized to use the two.
   */
  lemma CountedSound(q: Request, sourceId: Str, x: Snapshot, c: Context)
    requires SourceOf(sourceId, x).Some? && c.providers == x.providers
    ensures var s := SourceOf(sourceId, x).value;
            forall a <- Counted(q, s, IsValid(s, x), c) ::
              && a in s.accounts && Schedulable(a, q.now) && SupportsModel(a, c)
                  && (forall r <- q.required :: !Denied(a, c, r))
              && OnlyOne(x.accounts, AccountId, a.id, a)
              && exists p :: c.Provider(a.provider) == Some(p) && OnlyOne(x.providers, ProviderId, a.provider, p)
                             && Authorized(q.client, s, a, p)
  {
    hide Schedulable, Denied, SupportsModel, Evaluate, Candidates, Resolve, Analyze, TopologyValid, OnlyOne, Authorized;
    var s := SourceOf(sourceId, x).value;
    var valid := IsValid(s, x);
    KeepExact(s.accounts, SchedulableAt(q.now));
    CandidatesSound(Usable(q, s, valid, x.providers), c, q.required);
    forall a | a in Counted(q, s, valid, c)
      ensures OnlyOne(x.accounts, AccountId, a.id, a)
      ensures exists p :: c.Provider(a.provider) == Some(p) && OnlyOne(x.providers, ProviderId, a.provider, p)
                          && Authorized(q.client, s, a, p)
    {
      EligibleAuthorizes(q.client, sourceId, x.pools, x.providers, x.accounts, valid, a);
      var p :| OnlyOne(x.providers, ProviderId, a.provider, p) && Authorized(q.client, s, a, p);
      ProviderOfOnly(x.providers, a.provider, p);
    }
  }

  /** A usable source counts no account exactly when every schedulable one lacks the model or is denied a capability. */
  lemma NoneCounted(q: Request, s: Source, c: Context)
    requires Eligible(q.client, s, true, c.providers)
    ensures |Counted(q, s, true, c)| == 0 <==>
            forall a <- s.accounts :: Schedulable(a, q.now) && SupportsModel(a, c) ==> exists r <- q.required :: Denied(a, c, r)
  {
    hide Schedulable, Denied, SupportsModel, Evaluate, Candidates, Analyze;
    KeepExact(s.accounts, SchedulableAt(q.now));
    CandidatesSound(Keep(s.accounts, SchedulableAt(q.now)), c, q.required);
  }

  // ---------------------------------------------------------------- which accounts are counted

  predicate Between(x: real, n: int, m: real) { x < n as real && n as real <= m }

  /** Fewer requests than some whole number within the limit are in flight, or fewer than one. */
  ghost predicate HasRoom(a: Account) {
    a.inFlight.Finite? ==>
      a.inFlight.x < 1.0 || (a.maxConcurrency.Finite? && exists n: int :: Between(a.inFlight.x, n, a.maxConcurrency.x))
  }

  /**
   * Disabled, expired and unchecked accounts rest, and cooled ones until a known time; no cooldown counts as the
   * epoch.
   */
  predicate Rests(a: Account, now: int) {
    match a.status
    case Active => now < if a.cooldownUntil.Some? then a.cooldownUntil.value else 0
    case Cooldown => a.cooldownUntil.None? || a.cooldownUntil.value > now
    case _ => true
  }

  lemma SchedulableExactly(a: Account, now: int)
    ensures Schedulable(a, now) <==> !Rests(a, now) && HasRoom(a)
  {
    RoomExactly(a);
  }

  lemma RoomExactly(a: Account)
    ensures InFlight(a.inFlight) < Limit(a.maxConcurrency) <==> HasRoom(a)
  {
    if a.inFlight.Finite? {
      var x := a.inFlight.x;
      FloorBelow(x, 1);
      FloorBelow(x, 0);
      if a.maxConcurrency.Finite? {
        var m := a.maxConcurrency.x;
        FloorBelow(x, m.Floor);
        if x < m.Floor as real { assert Between(x, m.Floor, m); }
        forall n: int | Between(x, n, m) ensures n <= m.Floor { WholeBelow(n, m); }
      }
    }
  }

  lemma FloorBelow(x: real, n: int)
    ensures x.Floor < n <==> x < n as real
  {}

  lemma WholeBelow(n: int, m: real)
    requires n as real <= m
    ensures n <= m.Floor
  {}

  /**
   * What keeps an account from serving the model: no provider, a list of the pool or the account, or its refreshed
   * models.
   */
  predicate Lacks(a: Account, c: Context) {
    match (c.Provider(a.provider), c.model)
    case (None, _) => true
    case (Some(p), None) => false
    case (Some(p), Some(m)) =>
      || (c.poolSelects && m !in c.poolModels) || (a.selectedModels && m !in a.allowlist)
      || (a.refreshed && m !in a.available && !(p.source == Relay && m in p.models))
  }

  lemma SupportsExactly(a: Account, c: Context)
    ensures SupportsModel(a, c) <==> !Lacks(a, c)
  {}

  /** An account that may serve the request. */
  ghost predicate MayServe(q: Request, c: Context, a: Account) {
    !Rests(a, q.now) && HasRoom(a) && !Lacks(a, c) && forall r <- q.required :: !Denied(a, c, r)
  }

  predicate ProvesAll(q: Request, c: Context, a: Account) { forall r <- q.required :: Proved(a, c, r) }

  /**
   * Exactly these accounts of a usable source are counted: the ones that may serve the request, and of those only the ones
   * that have proved all required capabilities when there is such a one.
   */
  lemma CountedExactly(q: Request, s: Source, c: Context, a: Account)
    requires Eligible(q.client, s, true, c.providers)
    ensures a in Counted(q, s, true, c) <==>
            && a in s.accounts && MayServe(q, c, a)
            && (ProvesAll(q, c, a) || forall b <- s.accounts :: MayServe(q, c, b) ==> !ProvesAll(q, c, b))
  {
    hide Schedulable, Denied, SupportsModel, Rests, HasRoom, Lacks, Proved, Keep, Eligible;
    var usable := Keep(s.accounts, SchedulableAt(q.now));
    KeepExact(s.accounts, SchedulableAt(q.now));
    KeepExact(usable, WithVerdict(c, q.required, Verified));
    KeepExact(usable, WithVerdict(c, q.required, Unknown));
    forall b ensures (b in usable && SupportsModel(b, c) && Judge(b, c, q.required).Verified?) <==>
                     b in s.accounts && MayServe(q, c, b) && ProvesAll(q, c, b)
    {
      ServesExactly(q, c, b);
    }
    ServesExactly(q, c, a);
    var e := Evaluate(usable, c, q.required);
    assert Counted(q, s, true, c) == Candidates(e);
    if e.verified != [] { assert e.verified[0] in e.verified; }
    assert forall b :: b in e.verified <==> b in s.accounts && MayServe(q, c, b) && ProvesAll(q, c, b);
  }

  lemma ServesExactly(q: Request, c: Context, a: Account)
    ensures Schedulable(a, q.now) && SupportsModel(a, c) && !Judge(a, c, q.required).Unsupported? <==> MayServe(q, c, a)
    ensures MayServe(q, c, a) ==> (Judge(a, c, q.required).Verified? <==> ProvesAll(q, c, a))
    ensures Judge(a, c, q.required).Verified? ==> !Judge(a, c, q.required).Unsupported?
  {
    hide Schedulable, Denied, SupportsModel, Rests, HasRoom, Lacks, Proved;
    SchedulableExactly(a, q.now);
    SupportsExactly(a, c);
    SupportsProvider(a, c);
  }

  lemma SupportsProvider(a: Account, c: Context)
    ensures SupportsModel(a, c) ==> c.Provider(a.provider).Some?
  {}
}
