/** The topology of a route source: an index with duplicate evidence, and what a valid pool is. */
module RouteSources {
  import opened Units

  // ---------------------------------------------------------------- data

  datatype Number = Finite(x: real) | NotFinite

  datatype Status = Active | Checking | Cooldown | Disabled | Expired

  datatype Credential = ApiKey | GrokOauth | ChatgptOauth | OtherLogin

  /** `verifiedWm` is hasVerifiedChatGptWebWm, the credential aside. */
  datatype Account = Account(
    id: Str, provider: Str, credential: Credential, verifiedWm: bool,
    status: Status, cooldownUntil: Option<int>, inFlight: Number, maxConcurrency: Number,
    selectedModels: bool, allowlist: seq<Str>, available: seq<Str>, refreshed: bool)

  datatype Wire = Messages | Responses | Chat | GeminiApi | KiroClaude

  /** Two pool protocols are logical: their accounts speak some other protocol on the wire. */
  datatype PoolProtocol = OnWire(wire: Wire) | Grok | WebWm

  datatype SourceType = OauthSystem | OfficialApi | Relay

  datatype Kind =
    | Anthropic | Openai | Deepseek | Xai | Google | OpenaiCompatible | DeepseekCompatible | XaiCompatible
    | AnthropicCompatible | KiroCompatible | Custom

  datatype Family = OpenaiFamily | DeepseekFamily | GrokFamily | AnthropicFamily | GoogleFamily | KiroFamily | CustomFamily

  /** providerSourceFamily. */
  function FamilyOf(k: Kind): Family {
    match k
    case Openai | OpenaiCompatible => OpenaiFamily
    case Deepseek | DeepseekCompatible => DeepseekFamily
    case Xai | XaiCompatible => GrokFamily
    case Anthropic | AnthropicCompatible => AnthropicFamily
    case KiroCompatible => KiroFamily
    case Google => GoogleFamily
    case Custom => CustomFamily
  }

  /** `bridged` is the recorded evidence of a completed two-round tool test. */
  datatype Provider = Provider(id: Str, source: SourceType, kind: Kind, protocol: Wire, bridged: bool, models: seq<Str>)

  datatype Member = Member(account: Str, enabled: bool)

  datatype Pool = Pool(id: Str, aggregate: bool, protocol: PoolProtocol, members: seq<Member>, sticky: bool)

  /** accountPoolProtocol. */
  function LogicalProtocol(a: Account, p: Provider): PoolProtocol {
    if a.credential.GrokOauth? || (a.credential.ApiKey? && FamilyOf(p.kind).GrokFamily?) then Grok else OnWire(p.protocol)
  }

  /** accountMatchesPoolProtocol. */
  predicate Matches(protocol: PoolProtocol, a: Account, p: Provider) {
    if p.source.Relay? then false
    else if protocol.WebWm? then
      p.kind.Openai? && p.protocol.Responses? && p.source.OauthSystem? && a.credential.ChatgptOauth? && a.verifiedWm
    else if protocol.Grok? then
      && FamilyOf(p.kind).GrokFamily?
      && (if a.credential.GrokOauth? then p.kind.Xai? && p.source.OauthSystem? else a.credential.ApiKey?)
      && LogicalProtocol(a, p) == protocol
    else LogicalProtocol(a, p) == protocol
  }

  predicate MemberFits(pool: Pool, a: Account, p: Provider) {
    if pool.aggregate then p.source.Relay? && OnWire(p.protocol) == pool.protocol
    else if pool.protocol.Grok? && p.source.Relay? then
      a.credential.ApiKey? && FamilyOf(p.kind).GrokFamily? && LogicalProtocol(a, p).Grok?
    else if p.source.Relay? then !a.credential.GrokOauth? && OnWire(p.protocol) == pool.protocol
    else Matches(pool.protocol, a, p)
  }

  // ---------------------------------------------------------------- the index

  /** The only item with this id. */
  ghost predicate OnlyOne<T>(items: seq<T>, id: T -> Str, key: Str, x: T) {
    exists i :: 0 <= i < |items| && items[i] == x && id(x) == key && forall j :: 0 <= j < |items| && j != i ==> id(items[j]) != key
  }

  ghost predicate Twice<T>(items: seq<T>, id: T -> Str, key: Str) {
    exists i, j :: 0 <= i < j < |items| && id(items[i]) == key && id(items[j]) == key
  }

  /** What a first-wins index with its duplicate evidence holds. */
  ghost predicate IndexFits<T>(items: seq<T>, id: T -> Str, byId: map<Str, T>, duplicates: set<Str>) {
    && (forall k <- byId :: exists i :: 0 <= i < |items| && items[i] == byId[k] && id(items[i]) == k
                                       && forall j :: 0 <= j < i ==> id(items[j]) != k)
    && (forall i :: 0 <= i < |items| ==> id(items[i]) in byId)
    && (forall k :: k in duplicates <==> Twice(items, id, k))
  }

  /** createRouteSourceTopologyIndex, for accounts or for providers. */
  method Index<T>(items: seq<T>, id: T -> Str) returns (byId: map<Str, T>, duplicates: set<Str>)
    ensures IndexFits(items, id, byId, duplicates)
  {
    byId, duplicates := map[], {};
    var n := 0;
    assert items[..0] == [];
    while n < |items|
      invariant n <= |items|
      invariant IndexFits(items[..n], id, byId, duplicates)
    {
      var x := items[n];
      IndexStep(items[..n], id, byId, duplicates, x);
      assert items[..n + 1] == items[..n] + [x];
      if id(x) in byId { duplicates := duplicates + {id(x)}; } else { byId := byId[id(x) := x]; }
      n := n + 1;
    }
    assert items[..n] == items;
  }

  lemma IndexStep<T>(items: seq<T>, id: T -> Str, byId: map<Str, T>, duplicates: set<Str>, x: T)
    requires IndexFits(items, id, byId, duplicates)
    ensures IndexFits(items + [x], id, if id(x) in byId then byId else byId[id(x) := x],
                      if id(x) in byId then duplicates + {id(x)} else duplicates)
  {
    var all := items + [x];
    var key := id(x);
    var byId' := if key in byId then byId else byId[key := x];
    forall k | k in byId'
      ensures exists i :: 0 <= i < |all| && all[i] == byId'[k] && id(all[i]) == k && forall j :: 0 <= j < i ==> id(all[j]) != k
    {
      if k in byId {
        var i :| 0 <= i < |items| && items[i] == byId[k] && id(items[i]) == k && forall j :: 0 <= j < i ==> id(items[j]) != k;
        assert all[i] == items[i];
      } else {
        assert all[|items|] == x;
      }
    }
    forall k ensures Twice(all, id, k) <==> Twice(items, id, k) || (k == key && key in byId) {
      TwiceStep(items, id, x, k);
    }
  }

  lemma TwiceStep<T>(items: seq<T>, id: T -> Str, x: T, k: Str)
    ensures Twice(items + [x], id, k)
       <==> Twice(items, id, k) || (k == id(x) && exists i :: 0 <= i < |items| && id(items[i]) == k)
  {
    var all := items + [x];
    if Twice(items, id, k) {
      var i, j :| 0 <= i < j < |items| && id(items[i]) == k && id(items[j]) == k;
      assert all[i] == items[i] && all[j] == items[j];
    } else if k == id(x) && exists i :: 0 <= i < |items| && id(items[i]) == k {
      var i :| 0 <= i < |items| && id(items[i]) == k;
      assert all[i] == items[i] && all[|items|] == x;
    }
  }

  /** In the index and no duplicate means exactly one. */
  lemma IndexedOnce<T>(items: seq<T>, id: T -> Str, byId: map<Str, T>, duplicates: set<Str>, k: Str)
    requires IndexFits(items, id, byId, duplicates)
    ensures k in byId && k !in duplicates ==> OnlyOne(items, id, k, byId[k])
    ensures k !in byId || k in duplicates ==> forall x :: !OnlyOne(items, id, k, x)
    ensures forall x, y :: OnlyOne(items, id, k, x) && OnlyOne(items, id, k, y) ==> x == y
  {
    if k in byId && k !in duplicates {
      var i :| 0 <= i < |items| && items[i] == byId[k] && id(items[i]) == k && forall j :: 0 <= j < i ==> id(items[j]) != k;
      forall j | 0 <= j < |items| && j != i ensures id(items[j]) != k {
        assert j > i && id(items[j]) == k ==> Twice(items, id, k);
      }
    }
  }

  // ---------------------------------------------------------------- valid pools

  function AccountId(a: Account): Str { a.id }
  function ProviderId(p: Provider): Str { p.id }

  /** A member's account and provider, each listed exactly once. */
  ghost predicate Declared(accounts: seq<Account>, providers: seq<Provider>, member: Str, a: Account, p: Provider) {
    OnlyOne(accounts, AccountId, member, a) && OnlyOne(providers, ProviderId, a.provider, p)
  }

  ghost predicate MemberOk(pool: Pool, accounts: seq<Account>, providers: seq<Provider>, member: Str, family: Family) {
    exists a, p :: Declared(accounts, providers, member, a, p) && FamilyOf(p.kind) == family && MemberFits(pool, a, p)
  }

  ghost predicate FamilyOk(pool: Pool, accounts: seq<Account>, providers: seq<Provider>, family: Family) {
    forall i :: 0 <= i < |pool.members| ==> MemberOk(pool, accounts, providers, pool.members[i].account, family)
  }

  /**
   * A valid pool has members; each declares an account and a provider that are listed exactly once and fit the pool's
   * protocol, and all providers are of one family.
   */
  ghost predicate TopologyValid(pool: Pool, accounts: seq<Account>, providers: seq<Provider>) {
    pool.members != [] && exists family :: FamilyOk(pool, accounts, providers, family)
  }

  /** All declared members are of one family and fit the pool. */
  predicate AllFit(pool: Pool, declared: seq<(Account, Provider)>) {
    forall i :: 0 <= i < |declared| ==>
      FamilyOf(declared[i].1.kind) == FamilyOf(declared[0].1.kind) && MemberFits(pool, declared[i].0, declared[i].1)
  }

  ghost predicate DeclaredUpTo(pool: Pool, accounts: seq<Account>, providers: seq<Provider>, declared: seq<(Account, Provider)>) {
    |declared| <= |pool.members|
    && forall i :: 0 <= i < |declared| ==> Declared(accounts, providers, pool.members[i].account, declared[i].0, declared[i].1)
  }

  lemma DeclareNext(pool: Pool, accounts: seq<Account>, providers: seq<Provider>, declared: seq<(Account, Provider)>, a: Account,
                    p: Provider)
    requires DeclaredUpTo(pool, accounts, providers, declared) && |declared| < |pool.members|
    requires Declared(accounts, providers, pool.members[|declared|].account, a, p)
    ensures DeclaredUpTo(pool, accounts, providers, declared + [(a, p)])
  {
    hide Declared;
  }

  /** isRouteSourcePoolTopologyValid. */
  method IsTopologyValid(pool: Pool, accounts: seq<Account>, providers: seq<Provider>) returns (r: bool)
    ensures r == TopologyValid(pool, accounts, providers)
  {
    hide OnlyOne, MemberFits, IndexFits, TopologyValid, AllFit, DeclaredUpTo;
    if pool.members == [] {
      NoMembers(pool, accounts, providers);
      return false;
    }
    var accountsById, duplicateAccounts := Index(accounts, AccountId);
    var providersById, duplicateProviders := Index(providers, ProviderId);
    var declared: seq<(Account, Provider)> := [];
    NothingDeclared(pool, accounts, providers);
    while |declared| < |pool.members|
      invariant |declared| <= |pool.members| && DeclaredUpTo(pool, accounts, providers, declared)
      decreases |pool.members| - |declared|
    {
      var member := pool.members[|declared|].account;
      IndexedOnce(accounts, AccountId, accountsById, duplicateAccounts, member);
      if member in duplicateAccounts || member !in accountsById {
        NotDeclared(pool, accounts, providers, |declared|);
        return false;
      }
      var account := accountsById[member];
      IndexedOnce(providers, ProviderId, providersById, duplicateProviders, account.provider);
      if account.provider in duplicateProviders || account.provider !in providersById {
        NotDeclared(pool, accounts, providers, |declared|);
        return false;
      }
      DeclareNext(pool, accounts, providers, declared, account, providersById[account.provider]);
      declared := declared + [(account, providersById[account.provider])];
    }
    DeclaredValid(pool, accounts, providers, declared);
    return AllFit(pool, declared);
  }

  lemma NoMembers(pool: Pool, accounts: seq<Account>, providers: seq<Provider>)
    requires pool.members == []
    ensures !TopologyValid(pool, accounts, providers)
  {}

  lemma NothingDeclared(pool: Pool, accounts: seq<Account>, providers: seq<Provider>)
    ensures DeclaredUpTo(pool, accounts, providers, [])
  {}

  lemma NotDeclared(pool: Pool, accounts: seq<Account>, providers: seq<Provider>, n: nat)
    requires n < |pool.members| && forall a, p :: !Declared(accounts, providers, pool.members[n].account, a, p)
    ensures !TopologyValid(pool, accounts, providers)
  {
    hide MemberFits, Declared;
    forall family ensures !FamilyOk(pool, accounts, providers, family) {
      assert !MemberOk(pool, accounts, providers, pool.members[n].account, family);
    }
  }

  lemma OnlyOneIs<T>(items: seq<T>, id: T -> Str, key: Str, x: T, y: T)
    requires OnlyOne(items, id, key, x) && OnlyOne(items, id, key, y)
    ensures x == y
  {}

  lemma MemberIs(pool: Pool, accounts: seq<Account>, providers: seq<Provider>, m: Str, family: Family, a: Account,
                 p: Provider)
    requires Declared(accounts, providers, m, a, p)
    ensures MemberOk(pool, accounts, providers, m, family) <==> FamilyOf(p.kind) == family && MemberFits(pool, a, p)
  {
    hide OnlyOne, MemberFits;
    if MemberOk(pool, accounts, providers, m, family) {
      var b, q :| Declared(accounts, providers, m, b, q) && FamilyOf(q.kind) == family && MemberFits(pool, b, q);
      OnlyOneIs(accounts, AccountId, m, a, b);
      OnlyOneIs(providers, ProviderId, a.provider, p, q);
    }
  }

  lemma DeclaredValid(pool: Pool, accounts: seq<Account>, providers: seq<Provider>, declared: seq<(Account, Provider)>)
    requires DeclaredUpTo(pool, accounts, providers, declared) && |declared| == |pool.members| > 0
    ensures TopologyValid(pool, accounts, providers) <==> AllFit(pool, declared)
  {
    hide MemberFits, Declared, MemberOk;
    forall family
      ensures FamilyOk(pool, accounts, providers, family) <==> FamilyOf(declared[0].1.kind) == family && AllFit(pool, declared)
    {
      forall i | 0 <= i < |declared|
        ensures MemberOk(pool, accounts, providers, pool.members[i].account, family)
           <==> FamilyOf(declared[i].1.kind) == family && MemberFits(pool, declared[i].0, declared[i].1)
      {
        MemberIs(pool, accounts, providers, pool.members[i].account, family, declared[i].0, declared[i].1);
      }
    }
    assert FamilyOk(pool, accounts, providers, FamilyOf(declared[0].1.kind)) <==> AllFit(pool, declared);
  }
}
