/** Resolving a route source, and which clients may use it: what an allowed source guarantees for each of its accounts. */
module RouteCompatibility {
  import opened Units
  import opened RouteSources

  // ---------------------------------------------------------------- sources

  datatype Client = Claude | Codex | Gemini | GrokBuild | DeepSeekHarness

  /** clientNativeProtocols. */
  function Native(c: Client): Wire {
    match c
    case Claude => Messages
    case Gemini => GeminiApi
    case Codex | GrokBuild | DeepSeekHarness => Responses
  }

  /** A resolved source; its summary repeats the pool's protocol. */
  datatype Source = Source(pool: Pool, accounts: seq<Account>, provider: Option<Provider>)

  function FindPool(pools: seq<Pool>, id: Str): Option<Pool> {
    if pools == [] then None else if pools[0].id == id then Some(pools[0]) else FindPool(pools[1..], id)
  }

  function FindProvider(providers: seq<Provider>, id: Str): Option<Provider> {
    if providers == [] then None else if providers[0].id == id then Some(providers[0]) else FindProvider(providers[1..], id)
  }

  /** The provider a map built from the list holds: the last one with the id. */
  function ProviderOf(providers: seq<Provider>, id: Str): Option<Provider> {
    if providers == [] then None
    else
      var last := providers[|providers| - 1];
      if last.id == id then Some(last) else ProviderOf(providers[..|providers| - 1], id)
  }

  function AccountOf(accounts: seq<Account>, id: Str): Option<Account> {
    if accounts == [] then None
    else
      var last := accounts[|accounts| - 1];
      if last.id == id then Some(last) else AccountOf(accounts[..|accounts| - 1], id)
  }

  function Enabled(pool: Pool): set<Str> {
    set m <- pool.members | m.enabled :: m.account
  }

  function Filter(accounts: seq<Account>, f: Account -> bool): seq<Account> {
    if accounts == [] then []
    else
      var n := |accounts| - 1;
      Filter(accounts[..n], f) + if f(accounts[n]) then [accounts[n]] else []
  }

  lemma {:induction false} FilterExact(accounts: seq<Account>, f: Account -> bool)
    ensures forall a :: a in Filter(accounts, f) <==> a in accounts && f(a)
  {
    if accounts != [] { FilterExact(accounts[..|accounts| - 1], f); }
  }

  function InPool(pool: Pool): Account -> bool { (a: Account) => a.id in Enabled(pool) }
  function OfProvider(id: Str): Account -> bool { (a: Account) => a.provider == id }

  /** The pool of a source that is a provider with a single key. */
  function VirtualPool(p: Provider, a: Account): Pool {
    Pool(p.id, false, LogicalProtocol(a, p), [Member(a.id, true)], p.protocol.KiroClaude?)
  }

  /** resolveRouteSource: a pool, or a provider with one key; never either of two with the same id. */
  function Resolve(id: Str, pools: seq<Pool>, providers: seq<Provider>, accounts: seq<Account>): Option<Source> {
    var pool, provider := FindPool(pools, id), FindProvider(providers, id);
    if id == [] || (pool.Some? && provider.Some?) then None
    else if pool.Some? then Some(Source(pool.value, Filter(accounts, InPool(pool.value)), None))
    else if provider.None? || provider.value.source.OauthSystem? then None
    else
      var mine := Filter(accounts, OfProvider(provider.value.id));
      if |mine| != 1 || !mine[0].credential.ApiKey? then None
      else Some(Source(VirtualPool(provider.value, mine[0]), mine, provider))
  }

  // ---------------------------------------------------------------- compatibility

  predicate IsKiro(p: Provider) { p.kind.KiroCompatible? || p.protocol.KiroClaude? }

  /** hasVerifiedKiroToolBridge. */
  predicate KiroVerified(p: Provider) {
    p.source.Relay? && p.kind.KiroCompatible? && p.protocol.KiroClaude? && p.bridged
  }

  predicate IsDeepSeek(p: Provider) { FamilyOf(p.kind).DeepseekFamily? }

  predicate IsNativeGrok(p: Provider) { p.protocol.Responses? && FamilyOf(p.kind).GrokFamily? }

  /** routeSourceUsesKiroClaude. */
  predicate UsesKiro(s: Source, providers: seq<Provider>) {
    || s.pool.protocol == OnWire(KiroClaude)
    || (s.provider.Some? && IsKiro(s.provider.value))
    || exists a <- s.accounts :: ProviderOf(providers, a.provider).Some? && IsKiro(ProviderOf(providers, a.provider).value)
  }

  /** The provider of an enabled member, looked up by way of the source's accounts. */
  function MemberProvider(s: Source, providers: seq<Provider>, id: Str): Option<Provider> {
    var a := AccountOf(s.accounts, id);
    if a.None? then None else ProviderOf(providers, a.value.provider)
  }

  /** isKiroClaudeRouteSource. */
  predicate KiroReady(s: Source, providers: seq<Provider>) {
    && s.pool.protocol == OnWire(KiroClaude)
    && (if s.pool.aggregate then s.pool.sticky else s.provider.Some?)
    && Enabled(s.pool) != {}
    && forall id <- Enabled(s.pool) ::
         MemberProvider(s, providers, id).Some? && KiroVerified(MemberProvider(s, providers, id).value)
  }

  /** routeSourceUsesDeepSeek. */
  predicate UsesDeepSeek(s: Source, providers: seq<Provider>) {
    || (s.provider.Some? && IsDeepSeek(s.provider.value))
    || (s.accounts != []
        && forall a <- s.accounts ::
             ProviderOf(providers, a.provider).Some? && IsDeepSeek(ProviderOf(providers, a.provider).value))
  }

  /** isNativeGrokRouteSource. */
  predicate NativeGrok(s: Source, providers: seq<Provider>) {
    && Enabled(s.pool) != {}
    && forall id <- Enabled(s.pool) ::
         MemberProvider(s, providers, id).Some? && IsNativeGrok(MemberProvider(s, providers, id).value)
  }

  datatype Mode = NativeMode | TranslatedMode | KiroMode | Refused

  /** analyzeRouteSourceCompatibility of a resolved source whose topology has been judged; Refused is not eligible. */
  function Analyze(client: Client, s: Source, topologyValid: bool, providers: seq<Provider>): Mode {
    if !topologyValid then Refused
    else if s.pool.protocol.WebWm? && !client.Codex? then Refused
    else if UsesKiro(s, providers) then
      if !client.Claude? || !KiroReady(s, providers) then Refused else KiroMode
    else if UsesDeepSeek(s, providers) && !client.Codex? && !client.DeepSeekHarness? then Refused
    else if client.GrokBuild? && !NativeGrok(s, providers) then Refused
    else if s.pool.protocol.WebWm? || s.pool.protocol == OnWire(Native(client)) then NativeMode
    else TranslatedMode
  }

  predicate Eligible(client: Client, s: Source, topologyValid: bool, providers: seq<Provider>) {
    !Analyze(client, s, topologyValid, providers).Refused?
  }

  // ---------------------------------------------------------------- lookups agree on unique ids

  lemma {:induction false} ProviderOfOnly(providers: seq<Provider>, id: Str, p: Provider)
    requires OnlyOne(providers, ProviderId, id, p)
    ensures ProviderOf(providers, id) == Some(p)
  {
    var i :| 0 <= i < |providers| && providers[i] == p && p.id == id
             && forall j :: 0 <= j < |providers| && j != i ==> ProviderId(providers[j]) != id;
    var n := |providers| - 1;
    if i < n {
      assert ProviderId(providers[n]) != id;
      assert providers[..n][i] == p;
      assert OnlyOne(providers[..n], ProviderId, id, p);
      ProviderOfOnly(providers[..n], id, p);
    }
  }

  lemma {:induction false} AccountOfIn(accounts: seq<Account>, id: Str)
    ensures var r := AccountOf(accounts, id);
            && (r.None? <==> forall a <- accounts :: a.id != id)
            && (r.Some? ==> r.value in accounts && r.value.id == id)
  {
    if accounts != [] {
      var n := |accounts| - 1;
      AccountOfIn(accounts[..n], id);
      assert accounts == accounts[..n] + [accounts[n]];
    }
  }

  /** Of the accounts listed once under an id there is one. */
  lemma OnlyAccount(accounts: seq<Account>, id: Str, a: Account, b: Account)
    requires OnlyOne(accounts, AccountId, id, a) && b in accounts && b.id == id
    ensures b == a
  {
    var j :| 0 <= j < |accounts| && accounts[j] == b;
    assert AccountId(accounts[j]) == id;
  }

  // ---------------------------------------------------------------- what resolving guarantees

  lemma {:induction false} FoundProvider(providers: seq<Provider>, id: Str)
    ensures var r := FindProvider(providers, id);
            (r.Some? ==> r.value in providers && r.value.id == id) && (r.None? <==> forall p <- providers :: p.id != id)
  {
    if providers != [] {
      FoundProvider(providers[1..], id);
      assert providers == [providers[0]] + providers[1..];
    }
  }

  lemma {:induction false} FoundPool(pools: seq<Pool>, id: Str)
    ensures var r := FindPool(pools, id);
            (r.Some? ==> r.value in pools && r.value.id == id) && (r.None? <==> forall p <- pools :: p.id != id)
  {
    if pools != [] {
      FoundPool(pools[1..], id);
      assert pools == [pools[0]] + pools[1..];
    }
  }

  /**
   * A source is never ambiguous: its id names a pool or a provider, not both. A pool's accounts are exactly the enabled
   * members that exist; a provider has exactly one account, with a key of its own.
   */
  lemma ResolveSound(id: Str, pools: seq<Pool>, providers: seq<Provider>, accounts: seq<Account>)
    requires Resolve(id, pools, providers, accounts).Some?
    ensures var s := Resolve(id, pools, providers, accounts).value;
            && s.pool.id == id
            && (s.provider.None? ==>
                  && s.pool in pools && (forall p <- providers :: p.id != id)
                  && (forall a :: a in s.accounts <==> a in accounts && a.id in Enabled(s.pool)))
            && (s.provider.Some? ==>
                  && s.provider.value in providers && (forall p <- pools :: p.id != id)
                  && !s.provider.value.source.OauthSystem? && |s.accounts| == 1 && s.accounts[0].credential.ApiKey?
                  && (forall a :: a in s.accounts <==> a in accounts && a.provider == id))
  {
    FoundPool(pools, id);
    FoundProvider(providers, id);
    var pool := FindPool(pools, id);
    if pool.Some? { FilterExact(accounts, InPool(pool.value)); }
    FilterExact(accounts, OfProvider(id));
  }

  /** The pool made for a single key is valid if and only if its account and its provider are listed once. */
  lemma VirtualPoolValid(p: Provider, a: Account, providers: seq<Provider>, accounts: seq<Account>)
    requires a in accounts && p in providers && a.provider == p.id && a.credential.ApiKey? && !p.source.OauthSystem?
    ensures TopologyValid(VirtualPool(p, a), accounts, providers)
       <==> OnlyOne(accounts, AccountId, a.id, a) && OnlyOne(providers, ProviderId, p.id, p)
  {
    hide OnlyOne, TopologyValid;
    var pool := VirtualPool(p, a);
    assert MemberFits(pool, a, p);
    if OnlyOne(accounts, AccountId, a.id, a) && OnlyOne(providers, ProviderId, p.id, p) {
      OneMember(pool, accounts, providers, a, p);
    } else if TopologyValid(pool, accounts, providers) {
      var b, q := ValidMember(pool, accounts, providers, 0);
      OnlyAccount(accounts, a.id, b, a);
      OnlyListed(providers, p.id, q, p);
    }
  }

  lemma OnlyListed(providers: seq<Provider>, id: Str, q: Provider, p: Provider)
    requires OnlyOne(providers, ProviderId, id, q) && p in providers && p.id == id
    ensures p == q
  {
    var j :| 0 <= j < |providers| && providers[j] == p;
    assert ProviderId(providers[j]) == id;
  }

  lemma OneMember(pool: Pool, accounts: seq<Account>, providers: seq<Provider>, a: Account, p: Provider)
    requires |pool.members| == 1 && Declared(accounts, providers, pool.members[0].account, a, p) && MemberFits(pool, a, p)
    ensures TopologyValid(pool, accounts, providers)
  {
    hide Declared, MemberFits;
    assert MemberOk(pool, accounts, providers, pool.members[0].account, FamilyOf(p.kind));
    assert FamilyOk(pool, accounts, providers, FamilyOf(p.kind));
  }

  /** The account and provider of a member of a valid pool. */
  lemma ValidMember(pool: Pool, accounts: seq<Account>, providers: seq<Provider>, i: nat) returns (a: Account, p: Provider)
    requires TopologyValid(pool, accounts, providers) && i < |pool.members|
    ensures Declared(accounts, providers, pool.members[i].account, a, p) && MemberFits(pool, a, p)
    ensures forall family :: FamilyOk(pool, accounts, providers, family) ==> FamilyOf(p.kind) == family
  {
    hide MemberFits, OnlyOne;
    var family :| FamilyOk(pool, accounts, providers, family);
    assert MemberOk(pool, accounts, providers, pool.members[i].account, family);
    a, p :| Declared(accounts, providers, pool.members[i].account, a, p) && FamilyOf(p.kind) == family && MemberFits(pool, a, p);
    forall other | FamilyOk(pool, accounts, providers, other) ensures FamilyOf(p.kind) == other {
      assert MemberOk(pool, accounts, providers, pool.members[i].account, other);
      var b, q :| Declared(accounts, providers, pool.members[i].account, b, q) && FamilyOf(q.kind) == other;
      OnlyOneIs(accounts, AccountId, pool.members[i].account, a, b);
      OnlyOneIs(providers, ProviderId, a.provider, p, q);
    }
  }

  // ---------------------------------------------------------------- what an allowed source guarantees

  /** An account of a source belongs to an enabled member of its pool. */
  lemma AccountIsMember(id: Str, pools: seq<Pool>, providers: seq<Provider>, accounts: seq<Account>, a: Account)
    requires Resolve(id, pools, providers, accounts).Some? && a in Resolve(id, pools, providers, accounts).value.accounts
    ensures var s := Resolve(id, pools, providers, accounts).value;
            && a in accounts && a.id in Enabled(s.pool)
            && exists i :: 0 <= i < |s.pool.members| && s.pool.members[i] == Member(a.id, true)
  {
    var s := Resolve(id, pools, providers, accounts).value;
    if s.provider.None? {
      FilterExact(accounts, InPool(s.pool));
      var m :| m in s.pool.members && m.enabled && m.account == a.id;
      assert m == Member(a.id, true);
    } else {
      FilterExact(accounts, OfProvider(s.provider.value.id));
      assert s.pool.members[0] == Member(a.id, true);
      assert Member(a.id, true) in s.pool.members;
    }
  }

  /** What is known of an account with its provider, both listed once, in a pool of one family. */
  ghost predicate Belongs(s: Source, accounts: seq<Account>, providers: seq<Provider>, a: Account, p: Provider) {
    && Declared(accounts, providers, a.id, a, p) && MemberFits(s.pool, a, p)
    && ProviderOf(providers, a.provider) == Some(p) && AccountOf(s.accounts, a.id) == Some(a)
  }

  lemma BelongsTo(id: Str, pools: seq<Pool>, providers: seq<Provider>, accounts: seq<Account>, a: Account) returns (p: Provider)
    requires Resolve(id, pools, providers, accounts).Some? && a in Resolve(id, pools, providers, accounts).value.accounts
    requires TopologyValid(Resolve(id, pools, providers, accounts).value.pool, accounts, providers)
    ensures var s := Resolve(id, pools, providers, accounts).value;
            && Belongs(s, accounts, providers, a, p)
            && (forall family :: FamilyOk(s.pool, accounts, providers, family) ==> FamilyOf(p.kind) == family)
  {
    hide TopologyValid, MemberFits, OnlyOne, FamilyOk, Resolve;
    var s := Resolve(id, pools, providers, accounts).value;
    AccountIsMember(id, pools, providers, accounts, a);
    var i :| 0 <= i < |s.pool.members| && s.pool.members[i] == Member(a.id, true);
    var b, q := ValidMember(s.pool, accounts, providers, i);
    OnlyAccount(accounts, a.id, b, a);
    p := q;
    ProviderOfOnly(providers, a.provider, p);
    AccountOfIn(s.accounts, a.id);
    var c := AccountOf(s.accounts, a.id);
    AccountIsMember(id, pools, providers, accounts, c.value);
    OnlyAccount(accounts, a.id, a, c.value);
  }

  /** What a client may rely on for an account it is routed to. */
  predicate Authorized(client: Client, s: Source, a: Account, p: Provider) {
    && (s.pool.protocol.WebWm? ==> client.Codex? && a.credential.ChatgptOauth? && a.verifiedWm)
    && (IsKiro(p) ==> client.Claude? && KiroVerified(p))
    && (IsDeepSeek(p) ==> client.Codex? || client.DeepSeekHarness?)
    && (client.GrokBuild? ==> IsNativeGrok(p))
  }

  /**
   * An eligible source authorizes every one of its accounts: Web WM accounts are verified and serve Codex only; a Kiro
   * provider serves Claude only, and only with a completed tool test; DeepSeek serves only the clients with its bridge;
   * Grok Build gets nothing but Responses-native Grok providers.
   */
  lemma EligibleAuthorizes(
    client: Client, id: Str, pools: seq<Pool>, providers: seq<Provider>, accounts: seq<Account>, valid: bool, a: Account)
    requires Resolve(id, pools, providers, accounts).Some? && a in Resolve(id, pools, providers, accounts).value.accounts
    requires var s := Resolve(id, pools, providers, accounts).value;
             valid == TopologyValid(s.pool, accounts, providers) && Eligible(client, s, valid, providers)
    ensures var s := Resolve(id, pools, providers, accounts).value;
            && OnlyOne(accounts, AccountId, a.id, a)
            && exists p :: OnlyOne(providers, ProviderId, a.provider, p) && Authorized(client, s, a, p)
  {
    hide TopologyValid, OnlyOne, FamilyOk, Resolve;
    var s := Resolve(id, pools, providers, accounts).value;
    var p := BelongsTo(id, pools, providers, accounts, a);
    AccountIsMember(id, pools, providers, accounts, a);
    assert MemberProvider(s, providers, a.id) == Some(p);
    if IsDeepSeek(p) { AllDeepSeek(id, pools, providers, accounts, a, p); }
    assert Authorized(client, s, a, p);
  }

  /** In a valid pool one DeepSeek account means that all are. */
  lemma AllDeepSeek(id: Str, pools: seq<Pool>, providers: seq<Provider>, accounts: seq<Account>, a: Account, p: Provider)
    requires Resolve(id, pools, providers, accounts).Some? && a in Resolve(id, pools, providers, accounts).value.accounts
    requires TopologyValid(Resolve(id, pools, providers, accounts).value.pool, accounts, providers)
    requires ProviderOf(providers, a.provider) == Some(p) && IsDeepSeek(p)
    ensures UsesDeepSeek(Resolve(id, pools, providers, accounts).value, providers)
  {
    hide OnlyOne, FamilyOk, Resolve, MemberFits;
    var s := Resolve(id, pools, providers, accounts).value;
    var family :| FamilyOk(s.pool, accounts, providers, family);
    var q := BelongsTo(id, pools, providers, accounts, a);
    forall b | b in s.accounts ensures ProviderOf(providers, b.provider).Some? && IsDeepSeek(ProviderOf(providers, b.provider).value) {
      var r := BelongsTo(id, pools, providers, accounts, b);
    }
  }
}
