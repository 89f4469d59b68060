/** The rules of route sources in plain terms: which accounts a pool takes, what an id resolves to, whom a source serves. */
module RouteRules {
  import opened Units
  import opened RouteSources
  import opened RouteCompatibility

  // ---------------------------------------------------------------- members

  const GROK_KINDS: set<Kind> := {Xai, XaiCompatible}
  const DEEPSEEK_KINDS: set<Kind> := {Deepseek, DeepseekCompatible}

  /** Two kinds share a pool when they are the same, or one is the compatible form of the other. */
  lemma FamiliesExactly(k: Kind, l: Kind)
    ensures FamilyOf(k) == FamilyOf(l) <==>
            || k == l
            || {k, l} <= {Openai, OpenaiCompatible}
            || {k, l} <= {Anthropic, AnthropicCompatible}
            || {k, l} <= GROK_KINDS
            || {k, l} <= DEEPSEEK_KINDS
  {
    assert k in {k, l} && l in {k, l};
  }

  /** A key or login of Grok, in which case nothing but a pool of Grok takes the account itself. */
  predicate GrokAccount(a: Account, p: Provider) {
    a.credential.GrokOauth? || (a.credential.ApiKey? && p.kind in GROK_KINDS)
  }

  /**
   * Aggregates take relays with their protocol. A pool of Grok takes keys of Grok, and Grok logins of xAI itself. A pool
   * of ChatGPT Web takes verified ChatGPT logins of OpenAI. A pool with a protocol of the wire takes every other account
   * with that protocol, and of Grok only keys for relays.
   */
  lemma FitsExactly(pool: Pool, a: Account, p: Provider)
    ensures pool.aggregate ==> (MemberFits(pool, a, p) <==> p.source.Relay? && OnWire(p.protocol) == pool.protocol)
    ensures !pool.aggregate && pool.protocol.Grok? ==>
              (MemberFits(pool, a, p) <==>
                 && p.kind in GROK_KINDS
                 && (a.credential.ApiKey? || (a.credential.GrokOauth? && p.kind.Xai? && p.source.OauthSystem?)))
    ensures !pool.aggregate && pool.protocol.WebWm? ==>
              (MemberFits(pool, a, p) <==>
                 && p.kind.Openai? && p.protocol.Responses? && p.source.OauthSystem?
                 && a.credential.ChatgptOauth? && a.verifiedWm)
    ensures !pool.aggregate && pool.protocol.OnWire? ==>
              (MemberFits(pool, a, p) <==>
                 && p.protocol == pool.protocol.wire && !a.credential.GrokOauth?
                 && (p.source.Relay? || !GrokAccount(a, p)))
  {
    FamiliesExactly(p.kind, Xai);
    assert {p.kind, Xai} <= GROK_KINDS <==> p.kind in GROK_KINDS;
    assert p.kind in {p.kind, Xai} && Xai in {p.kind, Xai};
  }

  // ---------------------------------------------------------------- what an id resolves to

  ghost predicate FirstPool(pools: seq<Pool>, id: Str, i: nat) {
    i < |pools| && pools[i].id == id && forall j :: 0 <= j < i ==> pools[j].id != id
  }

  ghost predicate FirstProvider(providers: seq<Provider>, id: Str, i: nat) {
    i < |providers| && providers[i].id == id && forall j :: 0 <= j < i ==> providers[j].id != id
  }

  ghost predicate OnlyKey(accounts: seq<Account>, provider: Str, i: nat) {
    && i < |accounts| && accounts[i].provider == provider && accounts[i].credential.ApiKey?
    && forall j :: 0 <= j < |accounts| && j != i ==> accounts[j].provider != provider
  }

  lemma {:induction false} FirstPoolFound(pools: seq<Pool>, id: Str, i: nat)
    requires FirstPool(pools, id, i)
    ensures FindPool(pools, id) == Some(pools[i])
  {
    if i > 0 {
      assert pools[0].id != id;
      assert forall j :: 0 <= j < i - 1 ==> pools[1..][j] == pools[j + 1];
      FirstPoolFound(pools[1..], id, i - 1);
    }
  }

  lemma {:induction false} FirstProviderFound(providers: seq<Provider>, id: Str, i: nat)
    requires FirstProvider(providers, id, i)
    ensures FindProvider(providers, id) == Some(providers[i])
  {
    if i > 0 {
      assert providers[0].id != id;
      assert forall j :: 0 <= j < i - 1 ==> providers[1..][j] == providers[j + 1];
      FirstProviderFound(providers[1..], id, i - 1);
    }
  }

  lemma {:induction false} NoneOf(accounts: seq<Account>, id: Str)
    requires forall a <- accounts :: a.provider != id
    ensures Filter(accounts, OfProvider(id)) == []
  {
    if accounts != [] { NoneOf(accounts[..|accounts| - 1], id); }
  }

  lemma {:induction false} OneOf(accounts: seq<Account>, id: Str, i: nat)
    requires i < |accounts| && accounts[i].provider == id
    requires forall j :: 0 <= j < |accounts| && j != i ==> accounts[j].provider != id
    ensures Filter(accounts, OfProvider(id)) == [accounts[i]]
  {
    var n := |accounts| - 1;
    if i == n { NoneOf(accounts[..n], id); } else { OneOf(accounts[..n], id, i); }
  }

  /** A list filtered to one account has no other. */
  lemma {:induction false} OneOfBack(accounts: seq<Account>, id: Str) returns (i: nat)
    requires |Filter(accounts, OfProvider(id))| == 1
    ensures i < |accounts| && accounts[i] == Filter(accounts, OfProvider(id))[0] && accounts[i].provider == id
    ensures forall j :: 0 <= j < |accounts| && j != i ==> accounts[j].provider != id
  {
    var n := |accounts| - 1;
    var before := Filter(accounts[..n], OfProvider(id));
    if accounts[n].provider == id {
      assert before == [];
      FilterExact(accounts[..n], OfProvider(id));
      forall j | 0 <= j < n ensures accounts[j].provider != id { assert accounts[j] in accounts[..n]; }
      i := n;
    } else {
      i := OneOfBack(accounts[..n], id);
    }
  }

  /**
   * An id resolves to the first pool with it when no provider has it too; else to the first provider with it, when that is
   * no login of the system and one account, with a key, is all it has; and to nothing in every other case.
   */
  lemma ResolvesExactly(id: Str, pools: seq<Pool>, providers: seq<Provider>, accounts: seq<Account>)
    ensures var r := Resolve(id, pools, providers, accounts);
            && (r.Some? <==>
                  && id != []
                  && ((exists p <- pools :: p.id == id) <==> !exists p <- providers :: p.id == id)
                  && forall i: nat :: FirstProvider(providers, id, i) ==>
                       !providers[i].source.OauthSystem? && exists k: nat :: OnlyKey(accounts, id, k))
            && (r.Some? ==> forall i: nat :: FirstPool(pools, id, i) ==> r.value.pool == pools[i] && r.value.provider.None?)
            && (r.Some? ==> forall i: nat :: FirstProvider(providers, id, i) ==> r.value.provider == Some(providers[i]))
  {
    hide Filter, VirtualPool, FindPool, FindProvider;
    FoundPool(pools, id);
    FoundProvider(providers, id);
    forall i: nat | FirstPool(pools, id, i) ensures FindPool(pools, id) == Some(pools[i]) { FirstPoolFound(pools, id, i); }
    forall i: nat | FirstProvider(providers, id, i) ensures FindProvider(providers, id) == Some(providers[i]) {
      FirstProviderFound(providers, id, i);
    }
    var p := FindProvider(providers, id);
    if p.Some? {
      var i := FirstOf(providers, id);
      forall k: nat | OnlyKey(accounts, id, k) ensures Filter(accounts, OfProvider(id)) == [accounts[k]] { OneOf(accounts, id, k); }
      if |Filter(accounts, OfProvider(id))| == 1 && Filter(accounts, OfProvider(id))[0].credential.ApiKey? {
        var k := OneOfBack(accounts, id);
        assert OnlyKey(accounts, id, k);
      }
    }
  }

  lemma {:induction false} FirstOf(providers: seq<Provider>, id: Str) returns (i: nat)
    requires exists p <- providers :: p.id == id
    ensures FirstProvider(providers, id, i)
  {
    if providers[0].id == id {
      i := 0;
    } else {
      var p :| p in providers && p.id == id;
      assert p in providers[1..];
      var k := FirstOf(providers[1..], id);
      i := k + 1;
      forall j | 0 <= j < i ensures providers[j].id != id {
        if j > 0 { assert providers[1..][j - 1] == providers[j]; }
      }
    }
  }

  // ---------------------------------------------------------------- whom a source serves

  /** The providers that a source's accounts belong to. */
  ghost function Behind(s: Source, providers: seq<Provider>): set<Provider> {
    set p <- providers | exists a <- s.accounts :: a.provider == p.id
  }

  ghost predicate BehindKiro(s: Source, providers: seq<Provider>) {
    s.pool.protocol == OnWire(KiroClaude)
    || exists p <- Behind(s, providers) :: p.kind.KiroCompatible? || p.protocol.KiroClaude?
  }

  /** Whether the two-round tool test is complete everywhere, and requests keep their account. */
  ghost predicate KiroTested(s: Source, providers: seq<Provider>) {
    && s.pool.protocol == OnWire(KiroClaude) && (s.pool.aggregate ==> s.pool.sticky) && (s.provider.None? ==> s.pool.aggregate)
    && Behind(s, providers) != {}
    && forall p <- Behind(s, providers) :: p.source.Relay? && p.kind.KiroCompatible? && p.protocol.KiroClaude? && p.bridged
  }

  ghost predicate BehindDeepSeek(s: Source, providers: seq<Provider>) {
    exists p <- Behind(s, providers) :: p.kind in DEEPSEEK_KINDS
  }

  ghost predicate AllGrok(s: Source, providers: seq<Provider>) {
    Behind(s, providers) != {} && forall p <- Behind(s, providers) :: p.kind in GROK_KINDS && p.protocol.Responses?
  }

  /** The rules that a client and a valid source can break. */
  ghost predicate Serves(client: Client, s: Source, providers: seq<Provider>) {
    && (s.pool.protocol.WebWm? ==> client == Codex)
    && (BehindKiro(s, providers) ==> client == Claude && KiroTested(s, providers))
    && (BehindDeepSeek(s, providers) ==> client in {Codex, DeepSeekHarness})
    && (client == GrokBuild ==> AllGrok(s, providers))
  }

  predicate Speaks(client: Client, protocol: PoolProtocol) {
    match protocol
    case OnWire(Messages) => client == Claude
    case OnWire(Responses) => client in {Codex, GrokBuild, DeepSeekHarness}
    case OnWire(GeminiApi) => client == Gemini
    case WebWm => true
    case _ => false
  }

  /** In a valid pool each account has one provider, which every lookup finds. */
  lemma OneBehind(id: Str, pools: seq<Pool>, providers: seq<Provider>, accounts: seq<Account>, a: Account) returns (p: Provider)
    requires Resolve(id, pools, providers, accounts).Some? && a in Resolve(id, pools, providers, accounts).value.accounts
    requires TopologyValid(Resolve(id, pools, providers, accounts).value.pool, accounts, providers)
    ensures var s := Resolve(id, pools, providers, accounts).value;
            && ProviderOf(providers, a.provider) == Some(p) && p in Behind(s, providers) && p.id == a.provider
            && (forall q <- providers :: q.id == a.provider ==> q == p)
            && a.id in Enabled(s.pool) && MemberProvider(s, providers, a.id) == Some(p)
            && (forall family :: FamilyOk(s.pool, accounts, providers, family) ==> FamilyOf(p.kind) == family)
  {
    hide TopologyValid, MemberFits, FamilyOk, Resolve, Enabled, OnlyOne;
    var s := Resolve(id, pools, providers, accounts).value;
    p := BelongsTo(id, pools, providers, accounts, a);
    AccountIsMember(id, pools, providers, accounts, a);
    OnlyIn(providers, ProviderId, a.provider, p);
    forall q | q in providers && q.id == a.provider ensures q == p { OnlyListed(providers, a.provider, p, q); }
  }

  lemma OnlyIn<T>(items: seq<T>, id: T -> Str, key: Str, x: T)
    requires OnlyOne(items, id, key, x)
    ensures x in items && id(x) == key
  {}

  /** The enabled members of a valid pool are the source's accounts. */
  lemma EnabledAccount(id: Str, pools: seq<Pool>, providers: seq<Provider>, accounts: seq<Account>, m: Str) returns (a: Account)
    requires Resolve(id, pools, providers, accounts).Some?
    requires TopologyValid(Resolve(id, pools, providers, accounts).value.pool, accounts, providers)
    requires m in Enabled(Resolve(id, pools, providers, accounts).value.pool)
    ensures a in Resolve(id, pools, providers, accounts).value.accounts && a.id == m
  {
    hide TopologyValid, MemberFits, FamilyOk, Resolve, OnlyOne;
    ResolveSound(id, pools, providers, accounts);
    var s := Resolve(id, pools, providers, accounts).value;
    if s.provider.None? {
      var x :| x in s.pool.members && x.enabled && x.account == m;
      var i :| 0 <= i < |s.pool.members| && s.pool.members[i] == x;
      var b, p := ValidMember(s.pool, accounts, providers, i);
      OnlyIn(accounts, AccountId, m, b);
      a := b;
    } else {
      a := s.accounts[0];
      VirtualMember(id, pools, providers, accounts);
    }
  }

  lemma VirtualMember(id: Str, pools: seq<Pool>, providers: seq<Provider>, accounts: seq<Account>)
    requires Resolve(id, pools, providers, accounts).Some? && Resolve(id, pools, providers, accounts).value.provider.Some?
    ensures var s := Resolve(id, pools, providers, accounts).value;
            && |s.accounts| == 1 && Enabled(s.pool) == {s.accounts[0].id} && s.accounts[0].provider == s.provider.value.id
            && s.provider.value in providers && !s.pool.aggregate
  {
    hide Filter;
    ResolveSound(id, pools, providers, accounts);
    FoundProvider(providers, id);
    var s := Resolve(id, pools, providers, accounts).value;
    assert s.accounts[0] in s.accounts;
    assert s.pool.members == [Member(s.accounts[0].id, true)];
  }

  /**
   * A source that has resolved serves a client if and only if its topology is valid and none of the rules is broken,
   * stated for the providers that its accounts belong to; and the mode it is used in.
   */
  lemma EligibleExactly(client: Client, id: Str, pools: seq<Pool>, providers: seq<Provider>, accounts: seq<Account>, valid: bool)
    requires Resolve(id, pools, providers, accounts).Some?
    requires valid == TopologyValid(Resolve(id, pools, providers, accounts).value.pool, accounts, providers)
    ensures var s := Resolve(id, pools, providers, accounts).value;
            var mode := Analyze(client, s, valid, providers);
            && (Eligible(client, s, valid, providers) <==> valid && Serves(client, s, providers))
            && (mode.KiroMode? <==> !mode.Refused? && BehindKiro(s, providers))
            && (mode.NativeMode? <==> !mode.Refused? && !BehindKiro(s, providers) && Speaks(client, s.pool.protocol))
  {
    hide TopologyValid, Resolve, UsesKiro, KiroReady, UsesDeepSeek, NativeGrok, BehindKiro, KiroTested, BehindDeepSeek, AllGrok;
    var s := Resolve(id, pools, providers, accounts).value;
    if valid {
      KiroBehind(id, pools, providers, accounts);
      TestedBehind(id, pools, providers, accounts);
      DeepSeekBehind(id, pools, providers, accounts);
      GrokBehind(id, pools, providers, accounts);
      GrokIsNoDeepSeek(s, providers);
      KiroIsNeither(s, providers);
    }
  }

  lemma GrokIsNoDeepSeek(s: Source, providers: seq<Provider>)
    ensures AllGrok(s, providers) ==> !BehindDeepSeek(s, providers)
  {}

  lemma KiroIsNeither(s: Source, providers: seq<Provider>)
    ensures KiroTested(s, providers) ==> !BehindDeepSeek(s, providers)
  {}

  lemma KiroBehind(id: Str, pools: seq<Pool>, providers: seq<Provider>, accounts: seq<Account>)
    requires Resolve(id, pools, providers, accounts).Some?
    requires TopologyValid(Resolve(id, pools, providers, accounts).value.pool, accounts, providers)
    ensures var s := Resolve(id, pools, providers, accounts).value;
            UsesKiro(s, providers) <==> BehindKiro(s, providers)
  {
    hide TopologyValid, Resolve, ProviderOf, MemberProvider, Enabled, FamilyOk;
    var s := Resolve(id, pools, providers, accounts).value;
    forall a | a in s.accounts
      ensures ProviderOf(providers, a.provider).Some? && ProviderOf(providers, a.provider).value in Behind(s, providers)
      ensures forall q <- providers :: q.id == a.provider ==> q == ProviderOf(providers, a.provider).value
    {
      var p := OneBehind(id, pools, providers, accounts, a);
    }
    if s.provider.Some? {
      VirtualMember(id, pools, providers, accounts);
      assert s.accounts[0] in s.accounts;
      assert s.provider.value in Behind(s, providers);
    }
    if p :| p in Behind(s, providers) && (p.kind.KiroCompatible? || p.protocol.KiroClaude?) {
      var a :| a in s.accounts && a.provider == p.id;
      assert ProviderOf(providers, a.provider).value == p;
    }
  }

  lemma MembersBehind(id: Str, pools: seq<Pool>, providers: seq<Provider>, accounts: seq<Account>)
    requires Resolve(id, pools, providers, accounts).Some?
    requires TopologyValid(Resolve(id, pools, providers, accounts).value.pool, accounts, providers)
    ensures var s := Resolve(id, pools, providers, accounts).value;
            && (Enabled(s.pool) == {} <==> Behind(s, providers) == {})
            && (forall m <- Enabled(s.pool) ::
                  MemberProvider(s, providers, m).Some? && MemberProvider(s, providers, m).value in Behind(s, providers))
            && (forall p <- Behind(s, providers) :: exists m <- Enabled(s.pool) :: MemberProvider(s, providers, m) == Some(p))
  {
    hide TopologyValid, Resolve, ProviderOf, MemberProvider, Enabled, FamilyOk;
    var s := Resolve(id, pools, providers, accounts).value;
    forall m | m in Enabled(s.pool)
      ensures MemberProvider(s, providers, m).Some? && MemberProvider(s, providers, m).value in Behind(s, providers)
    {
      var a := EnabledAccount(id, pools, providers, accounts, m);
      var p := OneBehind(id, pools, providers, accounts, a);
    }
    forall p | p in Behind(s, providers)
      ensures exists m <- Enabled(s.pool) :: MemberProvider(s, providers, m) == Some(p)
    {
      var a :| a in s.accounts && a.provider == p.id;
      var q := OneBehind(id, pools, providers, accounts, a);
      assert a.id in Enabled(s.pool);
    }
  }

  lemma TestedBehind(id: Str, pools: seq<Pool>, providers: seq<Provider>, accounts: seq<Account>)
    requires Resolve(id, pools, providers, accounts).Some?
    requires TopologyValid(Resolve(id, pools, providers, accounts).value.pool, accounts, providers)
    ensures var s := Resolve(id, pools, providers, accounts).value;
            KiroReady(s, providers) <==> KiroTested(s, providers)
  {
    hide TopologyValid, Resolve, MemberProvider, Enabled, FamilyOk, Behind;
    var s := Resolve(id, pools, providers, accounts).value;
    MembersBehind(id, pools, providers, accounts);
    if s.provider.Some? { VirtualMember(id, pools, providers, accounts); }
  }

  lemma GrokBehind(id: Str, pools: seq<Pool>, providers: seq<Provider>, accounts: seq<Account>)
    requires Resolve(id, pools, providers, accounts).Some?
    requires TopologyValid(Resolve(id, pools, providers, accounts).value.pool, accounts, providers)
    ensures var s := Resolve(id, pools, providers, accounts).value;
            NativeGrok(s, providers) <==> AllGrok(s, providers)
  {
    hide TopologyValid, Resolve, MemberProvider, Enabled, FamilyOk, Behind;
    MembersBehind(id, pools, providers, accounts);
  }

  /** A valid pool is of one family, so one provider of DeepSeek means that all are. */
  lemma DeepSeekBehind(id: Str, pools: seq<Pool>, providers: seq<Provider>, accounts: seq<Account>)
    requires Resolve(id, pools, providers, accounts).Some?
    requires TopologyValid(Resolve(id, pools, providers, accounts).value.pool, accounts, providers)
    ensures var s := Resolve(id, pools, providers, accounts).value;
            UsesDeepSeek(s, providers) <==> BehindDeepSeek(s, providers)
  {
    hide TopologyValid, Resolve, MemberProvider, Enabled, FamilyOk, ProviderOf;
    var s := Resolve(id, pools, providers, accounts).value;
    forall a | a in s.accounts
      ensures ProviderOf(providers, a.provider).Some? && ProviderOf(providers, a.provider).value in Behind(s, providers)
      ensures forall q <- providers :: q.id == a.provider ==> q == ProviderOf(providers, a.provider).value
    {
      var p := OneBehind(id, pools, providers, accounts, a);
    }
    if s.provider.Some? {
      VirtualMember(id, pools, providers, accounts);
      assert s.accounts[0] in s.accounts;
      assert s.provider.value in Behind(s, providers);
    }
    if p :| p in Behind(s, providers) && p.kind in DEEPSEEK_KINDS {
      var a :| a in s.accounts && a.provider == p.id;
      assert ProviderOf(providers, a.provider) == Some(p);
      AllDeepSeek(id, pools, providers, accounts, a, p);
    }
    if UsesDeepSeek(s, providers) && s.accounts != [] { assert s.accounts[0] in s.accounts; }
  }
}
