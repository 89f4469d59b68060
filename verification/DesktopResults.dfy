/** What a repair and going back to the official configuration leave in the four files, property by property. */
module DesktopResults {
  import opened Units
  import opened JsonText
  import opened JsonGrammar
  import opened Files
  import opened DesktopCommit
  import opened DesktopPlans
  import opened DesktopContents

  // ---------------------------------------------------------------- rendered files

  /** A rendered file has the properties of the changed object; those the change leaves alone keep their exact value. */
  lemma RenderedField(source: Option<Str>, change: Object -> Option<Object>, q: Str)
    requires Settling(change) && RenderWith(source, change).Some?
    ensures ParseObject(source).Some? && change(ParseObject(source).value).Some?
    ensures var o := ParseObject(source).value;
            var before, x, after := FieldOf(o, q), FieldOf(change(o).value, q), Stored(RenderWith(source, change), q);
            && (x == before ==> after == before)
            && (x.Some? <==> after.Some?)
            && (x.Some? ==> after == x || (after == before && DeepEqual(after.value, x.value)))
  {
    hide DeepEqual, ParseObject, RenderWith, FieldOf, WellFormed;
    RenderStable(source, change);
    ParseObjectSound(source);
    var o := ParseObject(source).value;
    if DeepEqual(JObj(o), JObj(change(o).value)) { EqualFields(o, change(o).value, q); }
  }

  lemma RenderedText(source: Option<Str>, change: Object -> Option<Object>, q: Str, t: Str)
    requires Settling(change) && RenderWith(source, change).Some?
    requires FieldOf(change(ParseObject(source).value).value, q) == Some(JStr(t))
    ensures Stored(RenderWith(source, change), q) == Some(JStr(t))
  {
    hide ParseObject, RenderWith, FieldOf, Settling;
    RenderedField(source, change, q);
  }

  /** Selecting a deployment mode sets that property and keeps every other one. */
  lemma ModeRendered(source: Option<Str>, mode: Str)
    requires RenderWith(source, WithMode(mode)).Some?
    ensures var t := RenderWith(source, WithMode(mode));
            && Stored(t, Ascii("deploymentMode")) == Some(JStr(mode))
            && forall q :: q != Ascii("deploymentMode") ==> Stored(t, q) == Stored(source, q)
  {
    hide ParseObject, RenderWith, Settling, SetAll, FieldOf;
    var u := [Entry(DEPLOYMENT_MODE, JStr(mode))];
    assert u[0] in u;
    ModeSettles(mode);
    RenderedField(source, WithMode(mode), DEPLOYMENT_MODE);
    SetAllField(ParseObject(source).value, u, DEPLOYMENT_MODE);
    RenderedText(source, WithMode(mode), DEPLOYMENT_MODE, mode);
    forall q | q != DEPLOYMENT_MODE ensures Stored(RenderWith(source, WithMode(mode)), q) == Stored(source, q) {
      RenderedField(source, WithMode(mode), q);
      SetAllField(ParseObject(source).value, u, q);
    }
  }

  // ---------------------------------------------------------------- the third-party file without the gateway

  const GATEWAY_FIELDS: seq<Str> := [
    Ascii("disableDeploymentModeChooser"), Ascii("inferenceGatewayApiKey"), Ascii("inferenceGatewayAuthScheme"),
    Ascii("inferenceGatewayBaseUrl"), Ascii("inferenceProvider")
  ]

  lemma FieldsAreKeys()
    ensures forall q :: q in GATEWAY_KEYS <==> q in GATEWAY_FIELDS
    ensures DEPLOYMENT_MODE != ENTERPRISE
  {
    ModesDiffer();
  }

  lemma GatewayFields(o: Object, q: Str)
    requires WithoutGateway()(o).Some?
    ensures var x := WithoutGateway()(o).value; var e := FieldOf(o, ENTERPRISE);
            FieldOf(x, q) ==
            if q == DEPLOYMENT_MODE then Some(JStr(FIRST_PARTY))
            else if q == ENTERPRISE && e.Some? && e.value.JObj? then
              var left := Delete(e.value.entries, GATEWAY_KEYS);
              if left == [] then None else Some(JObj(left))
            else FieldOf(o, q)
  {
    hide FieldOf, Put, Delete, GATEWAY_KEYS;
    ModesDiffer();
    PutField(o, DEPLOYMENT_MODE, JStr(FIRST_PARTY), q);
    var r := Put(o, DEPLOYMENT_MODE, JStr(FIRST_PARTY));
    var e := FieldOf(o, ENTERPRISE);
    if e.Some? && e.value.JObj? {
      var left := Delete(e.value.entries, GATEWAY_KEYS);
      DeleteField(r, {ENTERPRISE}, q);
      PutField(r, ENTERPRISE, JObj(left), q);
    }
  }

  /**
   * What is left of the enterprise configuration: `b` is `a` without the gateway's properties, and gone when that is
   * empty.
   */
  ghost predicate Cleared(a: Option<Json>, b: Option<Json>) {
    if a.Some? && a.value.JObj? then
      var es := a.value.entries;
      && (b.Some? <==> exists q :: FieldOf(es, q).Some? && q !in GATEWAY_FIELDS)
      && (b.Some? ==> b.value.JObj?
                      && forall q :: FieldOf(b.value.entries, q) == if q in GATEWAY_FIELDS then None else FieldOf(es, q))
    else b == a
  }

  lemma LeftFields(es: Object)
    ensures var left := Delete(es, GATEWAY_KEYS);
            && (forall q :: FieldOf(left, q) == if q in GATEWAY_FIELDS then None else FieldOf(es, q))
            && (left != [] <==> exists q :: FieldOf(es, q).Some? && q !in GATEWAY_FIELDS)
  {
    hide FieldOf, Delete, GATEWAY_KEYS, GATEWAY_FIELDS;
    FieldsAreKeys();
    var left := Delete(es, GATEWAY_KEYS);
    forall q ensures FieldOf(left, q) == if q in GATEWAY_FIELDS then None else FieldOf(es, q) {
      DeleteField(es, GATEWAY_KEYS, q);
    }
    if left != [] {
      FieldStep(left[0], left[1..], left[0].key);
      assert left == [left[0]] + left[1..];
    } else {
      forall q ensures FieldOf(left, q) == None { FieldStep(Entry([], JNull), [], q); }
    }
  }

  lemma EnterpriseCleared(source: Option<Str>)
    requires RenderWith(source, WithoutGateway()).Some?
    ensures Cleared(Stored(source, ENTERPRISE), Stored(RenderWith(source, WithoutGateway()), ENTERPRISE))
  {
    hide ParseObject, RenderWith, Settling, FieldOf, Delete, GATEWAY_KEYS, GATEWAY_FIELDS, WithoutGateway, DeepEqual, WellFormed,
      DistinctKeys;
    GatewaySettles();
    RenderedField(source, WithoutGateway(), ENTERPRISE);
    var o := ParseObject(source).value;
    GatewayFields(o, ENTERPRISE);
    FieldsAreKeys();
    var a, b := FieldOf(o, ENTERPRISE), Stored(RenderWith(source, WithoutGateway()), ENTERPRISE);
    if a.Some? && a.value.JObj? {
      var es := a.value.entries;
      LeftFields(es);
      if b.Some? && b != Some(JObj(Delete(es, GATEWAY_KEYS))) {
        ParseObjectSound(source);
        FieldSound(o, ENTERPRISE);
        ObjectSound(a.value);
        DeleteSound(es, GATEWAY_KEYS);
        EqualLeft(es, Delete(es, GATEWAY_KEYS));
      }
    }
  }

  lemma EqualLeft(es: Object, left: Object)
    requires DistinctKeys(es) && DistinctKeys(left) && DeepEqual(JObj(es), JObj(left))
    requires forall q :: FieldOf(left, q) == if q in GATEWAY_FIELDS then None else FieldOf(es, q)
    ensures forall q :: FieldOf(left, q) == FieldOf(es, q)
  {
    hide DeepEqual, FieldOf, GATEWAY_FIELDS;
    forall q ensures FieldOf(left, q) == FieldOf(es, q) { EqualFields(es, left, q); }
  }

  lemma ThirdPartyCleared(source: Option<Str>)
    requires RenderWith(source, WithoutGateway()).Some?
    ensures var t := RenderWith(source, WithoutGateway());
            && Stored(t, Ascii("deploymentMode")) == Some(JStr(Ascii("1p")))
            && (forall q :: q != Ascii("deploymentMode") && q != Ascii("enterpriseConfig") ==>
                  Stored(t, q) == Stored(source, q))
            && Cleared(Stored(source, Ascii("enterpriseConfig")), Stored(t, Ascii("enterpriseConfig")))
  {
    hide ParseObject, RenderWith, Settling, FieldOf, WithoutGateway, DeepEqual, Cleared;
    GatewaySettles();
    RenderedField(source, WithoutGateway(), DEPLOYMENT_MODE);
    GatewayFields(ParseObject(source).value, DEPLOYMENT_MODE);
    RenderedText(source, WithoutGateway(), DEPLOYMENT_MODE, FIRST_PARTY);
    EnterpriseCleared(source);
    forall q | q != DEPLOYMENT_MODE && q != ENTERPRISE
      ensures Stored(RenderWith(source, WithoutGateway()), q) == Stored(source, q)
    {
      RenderedField(source, WithoutGateway(), q);
      GatewayFields(ParseObject(source).value, q);
    }
  }

  // ---------------------------------------------------------------- the profile list

  /** An entry of Stone+'s profile. */
  predicate IsOwn(v: Json) {
    v.JObj? && FieldOf(v.entries, Ascii("id")) == Some(JStr(Ascii("00000000-0000-4000-8000-000000157220")))
  }

  lemma StoneIsOwn(v: Json)
    ensures IsStone(v) <==> IsOwn(v)
  {}

  /** `picked` are, from first to last, the positions of the entries that are not Stone+'s. */
  ghost predicate PicksForeign(vs: seq<Json>, picked: seq<nat>) {
    && (forall k :: 0 <= k < |picked| ==> picked[k] < |vs| && !IsOwn(vs[picked[k]]))
    && (forall j, k :: 0 <= j < k < |picked| ==> picked[j] < picked[k])
    && (forall i :: 0 <= i < |vs| && !IsOwn(vs[i]) ==> i in picked)
  }

  lemma PicksSnoc(vs: seq<Json>, v: Json, before: seq<nat>)
    requires PicksForeign(vs, before)
    ensures PicksForeign(vs + [v], before + if IsOwn(v) then [] else [|vs|])
  {
    hide IsOwn;
    var all, picked := vs + [v], before + if IsOwn(v) then [] else [|vs|];
    forall i | 0 <= i < |all| && !IsOwn(all[i]) ensures i in picked {
      if i < |vs| { assert vs[i] == all[i] && i in before; } else { assert picked[|before|] == |vs|; }
    }
  }

  function Picked(vs: seq<Json>, picked: seq<nat>): seq<Json>
    requires forall k :: 0 <= k < |picked| ==> picked[k] < |vs|
  {
    seq(|picked|, k requires 0 <= k < |picked| => vs[picked[k]])
  }

  lemma {:induction false} OthersPicked(vs: seq<Json>) returns (picked: seq<nat>)
    ensures PicksForeign(vs, picked) && Others(vs) == Picked(vs, picked)
  {
    hide IsOwn, IsStone, PicksForeign;
    if vs == [] {
      picked := [];
      NothingPicked();
    } else {
      var n := |vs| - 1;
      assert vs == vs[..n] + [vs[n]];
      var before := OthersPicked(vs[..n]);
      StoneIsOwn(vs[n]);
      PicksSnoc(vs[..n], vs[n], before);
      picked := before + if IsOwn(vs[n]) then [] else [n];
      PickedBound(vs, picked);
      PickedBound(vs[..n], before);
      assert Picked(vs, picked) == Picked(vs[..n], before) + if IsOwn(vs[n]) then [] else [vs[n]];
    }
  }

  lemma NothingPicked()
    ensures PicksForeign([], [])
  {}

  lemma PickedBound(vs: seq<Json>, picked: seq<nat>)
    requires PicksForeign(vs, picked)
    ensures forall k :: 0 <= k < |picked| ==> picked[k] < |vs|
  {}

  /** The first id that is a text and not blank, if there is one. */
  ghost predicate FirstId(vs: seq<Json>, id: Option<Str>) {
    if id.Some? then
      exists i :: 0 <= i < |vs| && Named(vs[i]) && Field(vs[i], Ascii("id")) == Some(JStr(id.value))
                  && forall j :: 0 <= j < i ==> !Named(vs[j])
    else forall i :: 0 <= i < |vs| ==> !Named(vs[i])
  }

  predicate Named(v: Json) {
    var id := Field(v, Ascii("id"));
    id.Some? && id.value.JStr? && exists u <- id.value.s :: !IsSpace(u)
  }

  lemma {:induction false} FirstNamedIsFirst(vs: seq<Json>)
    ensures FirstId(vs, FirstNamed(vs))
  {
    hide IsSpace, Field;
    if vs != [] {
      var rest := vs[1..];
      FirstNamedIsFirst(rest);
      var r := FirstNamed(rest);
      BlankOrNot(vs[0]);
      if !Named(vs[0]) {
        if r.Some? {
          var i :| 0 <= i < |rest| && Named(rest[i]) && Field(rest[i], ID) == Some(JStr(r.value))
              && forall j :: 0 <= j < i ==> !Named(rest[j]);
          assert vs[i + 1] == rest[i];
          forall j | 0 <= j < i + 1 ensures !Named(vs[j]) { if j > 0 { assert vs[j] == rest[j - 1]; } }
        } else {
          forall j | 0 <= j < |vs| ensures !Named(vs[j]) { if j > 0 { assert vs[j] == rest[j - 1]; } }
        }
      }
    }
  }

  lemma BlankOrNot(v: Json)
    ensures var id := Field(v, ID); Named(v) <==> id.Some? && id.value.JStr? && !AllSpace(id.value.s)
  {
    hide IsSpace, Field;
  }

  /** Where nothing is dropped, everything is kept as it was. */
  lemma {:induction false} OthersShort(vs: seq<Json>)
    ensures |Others(vs)| <= |vs| && (|Others(vs)| == |vs| ==> Others(vs) == vs)
  {
    hide IsStone;
    if vs != [] {
      var n := |vs| - 1;
      OthersShort(vs[..n]);
      assert vs == vs[..n] + [vs[n]];
    }
  }

  /** What a list keeps of its entries when it is cleared of Stone+'s. */
  ghost predicate OnlyForeign(before: Option<Json>, after: Option<Json>) {
    if before.Some? && before.value.JArr? then
      && after.Some? && after.value.JArr?
      && exists picked: seq<nat> :: PicksForeign(before.value.items, picked)
          && after.value.items == Picked(before.value.items, picked)
    else after == before
  }

  /** Stone+'s profile is not applied any more: the first other one is, or none. */
  ghost predicate AppliesForeign(before: Option<Json>, vs: seq<Json>, after: Option<Json>) {
    if before == Some(JStr(Ascii("00000000-0000-4000-8000-000000157220"))) then
      exists id: Option<Str> :: FirstId(vs, id) && after == if id.Some? then Some(JStr(id.value)) else None
    else after == before
  }

  lemma StoneFields(o: Object, q: Str)
    requires WithoutStone()(o).Some?
    ensures var x := WithoutStone()(o).value; var e := FieldOf(o, ENTRIES); var next := FirstNamed(Others(Listed(o)));
            FieldOf(x, q) ==
            if q == ENTRIES && e.Some? && e.value.JArr? then Some(JArr(Others(e.value.items)))
            else if q == APPLIED && FieldOf(o, APPLIED) == Some(JStr(STONE_ID)) then
              if next.Some? then Some(JStr(next.value)) else None
            else FieldOf(o, q)
  {
    hide FieldOf, Put, Delete, IsStone, Others, FirstNamed;
    ModesDiffer();
    var e := FieldOf(o, ENTRIES);
    if e.Some? && e.value.JArr? { PutField(o, ENTRIES, JArr(Others(e.value.items)), q); }
    var r := OfficialEntries(o);
    var next := FirstNamed(Others(Listed(o)));
    if next.Some? { PutField(r, APPLIED, JStr(next.value), q); } else { DeleteField(r, {APPLIED}, q); }
  }

  lemma EntriesForeign(source: Option<Str>)
    requires RenderWith(source, WithoutStone()).Some?
    ensures var e, f := Stored(source, ENTRIES), Stored(RenderWith(source, WithoutStone()), ENTRIES);
            && OnlyForeign(e, f)
            && (e.Some? && e.value.JArr? ==> f == Some(JArr(Others(e.value.items))))
  {
    hide ParseObject, RenderWith, Settling, FieldOf, WithoutStone, PicksForeign, Others, FirstNamed;
    StoneSettles();
    RenderedField(source, WithoutStone(), ENTRIES);
    StoneFields(ParseObject(source).value, ENTRIES);
    var e := Stored(source, ENTRIES);
    if e.Some? && e.value.JArr? {
      var vs := e.value.items;
      var picked := OthersPicked(vs);
      OthersShort(vs);
    }
  }

  lemma MetaCleared(source: Option<Str>)
    requires RenderWith(source, WithoutStone()).Some?
    ensures var t := RenderWith(source, WithoutStone());
            && (forall q :: q != Ascii("entries") && q != Ascii("appliedId") ==> Stored(t, q) == Stored(source, q))
            && OnlyForeign(Stored(source, Ascii("entries")), Stored(t, Ascii("entries")))
            && ParseObject(t).Some?
            && AppliesForeign(Stored(source, Ascii("appliedId")), Listed(ParseObject(t).value), Stored(t, Ascii("appliedId")))
  {
    hide ParseObject, RenderWith, Settling, FieldOf, WithoutStone, OnlyForeign, Others, FirstNamed, FirstId;
    StoneSettles();
    RenderStable(source, WithoutStone());
    EntriesForeign(source);
    var o, t := ParseObject(source).value, RenderWith(source, WithoutStone());
    forall q | q != ENTRIES && q != APPLIED ensures Stored(t, q) == Stored(source, q) {
      RenderedField(source, WithoutStone(), q);
      StoneFields(o, q);
    }
    RenderedField(source, WithoutStone(), APPLIED);
    StoneFields(o, APPLIED);
    ListedOthers(source);
    var next := FirstNamed(Others(Listed(o)));
    FirstNamedIsFirst(Others(Listed(o)));
    if Stored(source, APPLIED) == Some(JStr(STONE_ID)) && next.Some? {
      RenderedText(source, WithoutStone(), APPLIED, next.value);
    }
  }

  lemma ListedOthers(source: Option<Str>)
    requires RenderWith(source, WithoutStone()).Some? && ParseObject(source).Some?
        && ParseObject(RenderWith(source, WithoutStone())).Some?
    ensures Listed(ParseObject(RenderWith(source, WithoutStone())).value) == Others(Listed(ParseObject(source).value))
  {
    hide ParseObject, RenderWith, Settling, FieldOf, WithoutStone, OnlyForeign, Others, FirstNamed;
    EntriesForeign(source);
    OthersEmpty();
    StoneSettles();
    RenderedField(source, WithoutStone(), ENTRIES);
    StoneFields(ParseObject(source).value, ENTRIES);
  }

  // ---------------------------------------------------------------- the official configuration

  /** `b` is what going back to the official configuration leaves of `a`. */
  ghost predicate OfficialFor(a: Snapshots, b: Snapshots) {
    var mode, enterprise := Ascii("deploymentMode"), Ascii("enterpriseConfig");
    && Stored(b.normal, mode) == Some(JStr(Ascii("1p"))) == Stored(b.thirdParty, mode)
    && (forall q :: q != mode ==> Stored(b.normal, q) == Stored(a.normal, q))
    && (forall q :: q != mode && q != enterprise ==> Stored(b.thirdParty, q) == Stored(a.thirdParty, q))
    && Cleared(Stored(a.thirdParty, enterprise), Stored(b.thirdParty, enterprise))
    && b.profile == None
    && (a.meta.None? <==> b.meta.None?)
    && (a.meta.Some? ==> MetaOfficial(a.meta, b.meta))
  }

  ghost predicate MetaOfficial(a: Option<Str>, b: Option<Str>) {
    var entries, applied := Ascii("entries"), Ascii("appliedId");
    && (forall q :: q != entries && q != applied ==> Stored(b, q) == Stored(a, q))
    && OnlyForeign(Stored(a, entries), Stored(b, entries))
    && ParseObject(b).Some? && AppliesForeign(Stored(a, applied), Listed(ParseObject(b).value), Stored(b, applied))
  }

  /** The text of a JSON object, or no text. */
  predicate ObjectText(source: Option<Str>) {
    source.None? || (JsonParse(source.value).Some? && JsonParse(source.value).value.JObj?)
  }

  /**
   * Going back fails exactly when a file that is kept is no JSON object. It selects the first-party deployment in both
   * configuration files, removes the gateway from the enterprise configuration and Stone+'s profile from the list, and
   * keeps everything else.
   */
  lemma OfficialContents(s: Snapshots)
    ensures OfficialWanted(s).Some? <==> ObjectText(s.normal) && ObjectText(s.thirdParty) && ObjectText(s.meta)
    ensures OfficialWanted(s).Some? ==> OfficialFor(s, OfficialWanted(s).value)
  {
    hide RenderWith, WithMode, WithoutGateway, WithoutStone, Stored, Cleared, OnlyForeign, AppliesForeign, JsonParse;
    OfficialFails(s);
    if OfficialWanted(s).Some? {
      ModeRendered(s.normal, FIRST_PARTY);
      ThirdPartyCleared(s.thirdParty);
      if s.meta.Some? { MetaCleared(s.meta); }
    }
  }

  lemma OfficialFails(s: Snapshots)
    ensures OfficialWanted(s).Some? <==> ObjectText(s.normal) && ObjectText(s.thirdParty) && ObjectText(s.meta)
  {
    hide JsonParse, SetAll, FieldOf, Put, Delete, RenderJson, Others, FirstNamed;
  }

  /**
   * Going back while nobody else writes: once it is committed the files hold what was there without Stone+'s settings,
   * and going back again has nothing to do; one that fails and was restored leaves exactly the files there were.
   */
  lemma OfficialEstablishes(d: Disk)
    requires Quiet(d) && OfficialWanted(SnapshotsOf(d.files)).Some?
    ensures var s := SnapshotsOf(d.files);
            var (e, r) := Commit(d, PlansFor(s, OfficialWanted(s).value));
            && (r.NoChange? || r.Committed? ==>
                  && OfficialFor(s, SnapshotsOf(e.files))
                  && OfficialWanted(SnapshotsOf(e.files)) == Some(SnapshotsOf(e.files))
                  && Commit(e, PlansFor(SnapshotsOf(e.files), SnapshotsOf(e.files))).1 == NoChange)
            && (r == Failed(true) ==> e.files == d.files)
  {
    hide Quiet, Apply, Restore, OfficialWanted, SameElsewhere, OfficialFor;
    var s := SnapshotsOf(d.files);
    OfficialContents(s);
    OfficialStable(s);
    PlansDone(d, s, OfficialWanted(s).value);
  }

  // ---------------------------------------------------------------- the repaired profile and list

  /** A completed entry: Stone+'s id and name, and the other properties as they were. */
  ghost predicate Completes(es: Object, own: Json) {
    && IsOwn(own) && FieldOf(own.entries, Ascii("name")) == Some(JStr(Ascii("Stone+")))
    && forall q :: q != Ascii("id") && q != Ascii("name") ==> FieldOf(own.entries, q) == FieldOf(es, q)
  }

  /** Entry `k` is the first of Stone+; `k` is the length when there is none. */
  ghost predicate FirstOwn(vs: seq<Json>, k: nat) {
    k <= |vs| && (k < |vs| ==> IsOwn(vs[k])) && forall i :: 0 <= i < k ==> !IsOwn(vs[i])
  }

  function EntryAt(vs: seq<Json>, k: nat): Object {
    if k < |vs| && vs[k].JObj? then vs[k].entries else []
  }

  function AfterAt(vs: seq<Json>, k: nat): seq<Json> {
    if k < |vs| then vs[k + 1..] else []
  }

  /** The list with Stone+'s first entry completed, or a new one at the end, and its further entries left out. */
  ghost predicate Relisted(vs: seq<Json>, r: seq<Json>) {
    exists k: nat, own: Json ::
      && FirstOwn(vs, k) && Completes(EntryAt(vs, k), own)
      && r == vs[..k] + [own] + Others(AfterAt(vs, k))
  }

  lemma CompletedEntry(es: Object)
    ensures Completes(es, JObj(SetAll(es, StoneUpdates())))
  {
    hide SetAll, FieldOf;
    KeysDiffer();
    var u := StoneUpdates();
    assert u[0] in u && u[1] in u;
    SetAllField(es, u, ID);
    SetAllField(es, u, LABEL);
    forall q | q != ID && q != LABEL ensures FieldOf(SetAll(es, u), q) == FieldOf(es, q) { SetAllField(es, u, q); }
  }

  /** The first entry of Stone+ is completed where it stands, and the further ones are left out. */
  lemma {:induction false} FirstKept(vs: seq<Json>, k: nat)
    requires FirstOwn(vs, k)
    ensures KeepFirstStone(vs) ==
            if k == |vs| then (vs, false)
            else (vs[..k] + [JObj(SetAll(EntryAt(vs, k), StoneUpdates()))] + Others(AfterAt(vs, k)), true)
  {
    hide IsOwn, IsStone, SetAll, KeepFirstStone, Others;
    if vs == [] {
      KeepNothing();
    } else {
      var n := |vs| - 1;
      assert vs == vs[..n] + [vs[n]];
      StoneIsOwn(vs[n]);
      KeepStep(vs[..n], vs[n]);
      if k == |vs| {
        FirstKept(vs[..n], n);
      } else if k == n {
        FirstKept(vs[..n], n);
        OwnIsObject(vs[n]);
        OthersEmpty();
        assert AfterAt(vs, k) == [];
        var own := JObj(SetAll(EntryAt(vs, k), StoneUpdates()));
        assert vs[..k] + [own] + [] == vs[..k] + [own];
      } else {
        FirstKept(vs[..n], k);
        var own := JObj(SetAll(EntryAt(vs, k), StoneUpdates()));
        var more := AfterAt(vs[..n], k);
        assert vs[..n][..k] == vs[..k] && AfterAt(vs, k) == more + [vs[n]];
        OthersSnoc(more, vs[n]);
        OwnIsObject(vs[n]);
        assert vs[..k] + [own] + Others(more) + [vs[n]] == vs[..k] + [own] + (Others(more) + [vs[n]]);
        assert Others(more) + [] == Others(more);
      }
    }
  }

  lemma OwnIsObject(v: Json)
    ensures IsOwn(v) ==> v.JObj?
  {}

  lemma {:induction false} FindOwn(vs: seq<Json>) returns (k: nat)
    ensures FirstOwn(vs, k)
  {
    hide IsOwn;
    if vs == [] || IsOwn(vs[0]) {
      k := 0;
    } else {
      k := FindOwn(vs[1..]);
      assert forall i :: 1 <= i < k + 1 ==> vs[i] == vs[1..][i - 1];
      k := k + 1;
    }
  }

  lemma MetaRelisted(vs: seq<Json>) returns (k: nat, own: Json)
    ensures k <= |vs| && FirstOwn(vs, k) && Completes(EntryAt(vs, k), own)
    ensures MetaEntries(vs) == vs[..k] + [own] + Others(AfterAt(vs, k))
    ensures Relisted(vs, MetaEntries(vs))
  {
    hide IsOwn, IsStone, SetAll, KeepFirstStone, Others, Completes, FieldOf;
    k := FindOwn(vs);
    FirstKept(vs, k);
    own := JObj(StoneUpdates());
    NewEntry();
    OthersEmpty();
    if k < |vs| {
      OwnIsObject(vs[k]);
      CompletedEntry(vs[k].entries);
      own := JObj(SetAll(vs[k].entries, StoneUpdates()));
    } else {
      assert MetaEntries(vs) == vs[..k] + [JObj(StoneUpdates())] + Others(AfterAt(vs, k));
    }
  }

  lemma NewEntry()
    ensures Completes([], JObj(StoneUpdates()))
  {
    KeysDiffer();
    CompletedEntry([]);
    var u := StoneUpdates();
    assert u == [u[0], u[1]];
    assert SetAll([], u[..0]) == [];
    assert u[..1][..0] == [] && u[..2][..1] == u[..1] && u[..2] == u;
    assert SetAll([], u[..1]) == [u[0]];
    assert SetAll([], u) == u;
  }

  /** A list that is deeply equal to its relisting needs none. */
  lemma RelistedSame(vs: seq<Json>)
    requires forall v <- vs :: WellFormed(v)
    requires DeepEqual(JArr(vs), JArr(MetaEntries(vs)))
    ensures Relisted(vs, vs)
  {
    hide IsOwn, IsStone, Others, DeepEqual, MetaEntries, WellFormed, Completes, FirstOwn, OneStone;
    var k, own := MetaRelisted(vs);
    var r := MetaEntries(vs);
    EqualItems(vs, r);
    MetaEntriesFacts(vs);
    FirstIn(vs, k);
    OthersShort(AfterAt(vs, k));
    if k == |vs| {
      OthersEmpty();
      assert false;
    }
    ListAt(vs, r, k, own, Others(AfterAt(vs, k)));
    OwnIsObject(vs[k]);
    SameEntry(vs[k], own);
    assert vs == vs[..k] + [vs[k]] + Others(AfterAt(vs, k));
  }

  lemma FirstIn(vs: seq<Json>, k: nat)
    requires FirstOwn(vs, k)
    ensures k <= |vs| && (k < |vs| ==> IsOwn(vs[k]))
  {}

  lemma ListAt(vs: seq<Json>, r: seq<Json>, k: nat, own: Json, more: seq<Json>)
    requires k < |vs| && |vs| == |r| && r == vs[..k] + [own] + more && (forall v <- vs :: WellFormed(v))
        && (forall v <- r :: WellFormed(v))
    requires forall i :: 0 <= i < |vs| ==> DeepEqual(vs[i], r[i])
    ensures WellFormed(vs[k]) && WellFormed(own) && DeepEqual(vs[k], own)
  {
    hide WellFormed, DeepEqual;
    assert r[k] == own;
    assert own in r && vs[k] in vs;
  }

  lemma EqualItems(vs: seq<Json>, r: seq<Json>)
    requires DeepEqual(JArr(vs), JArr(r))
    ensures |vs| == |r| && forall i :: 0 <= i < |vs| ==> DeepEqual(vs[i], r[i])
  {}

  lemma SameEntry(v: Json, own: Json)
    requires v.JObj? && WellFormed(v) && WellFormed(own) && DeepEqual(v, own) && Completes(v.entries, own) && IsOwn(v)
    ensures Completes(v.entries, v)
  {
    hide FieldOf, DeepEqual, WellFormed, IsOwn;
    OwnIsObject(own);
    ObjectSound(v);
    ObjectSound(own);
    EqualFields(v.entries, own.entries, LABEL);
    EqualText(FieldOf(v.entries, LABEL).value, STONE_NAME);
  }

  lemma EqualText(v: Json, t: Str)
    requires DeepEqual(v, JStr(t))
    ensures v == JStr(t)
  {}

  lemma MetaRepaired(source: Option<Str>)
    requires RenderWith(source, WithMeta()).Some?
    ensures var t := RenderWith(source, WithMeta());
            && ParseObject(source).Some? && ParseObject(t).Some?
            && (forall q :: q != Ascii("entries") && q != Ascii("appliedId") ==> Stored(t, q) == Stored(source, q))
            && Stored(t, Ascii("appliedId")) == Some(JStr(Ascii("00000000-0000-4000-8000-000000157220")))
            && Stored(t, Ascii("entries")) == Some(JArr(Listed(ParseObject(t).value)))
            && Relisted(Listed(ParseObject(source).value), Listed(ParseObject(t).value))
  {
    hide ParseObject, RenderWith, Settling, FieldOf, SetAll, MetaEntries, Relisted, DeepEqual, WellFormed;
    MetaSettles();
    RenderStable(source, WithMeta());
    ParseObjectSound(source);
    var o, t := ParseObject(source).value, RenderWith(source, WithMeta());
    MetaTwice(o);
    KeysDiffer();
    RenderedText(source, WithMeta(), APPLIED, STONE_ID);
    RenderedField(source, WithMeta(), ENTRIES);
    ListedSound(o);
    var _, _ := MetaRelisted(Listed(o));
    if Stored(t, ENTRIES) != Some(JArr(MetaEntries(Listed(o)))) { RelistedSame(Listed(o)); }
    forall q | q != ENTRIES && q != APPLIED ensures Stored(t, q) == Stored(source, q) {
      RenderedField(source, WithMeta(), q);
      SetAllField(o, MetaUpdates(Listed(o)), q);
    }
  }

  /** The profile keeps its other properties, and its custom headers the ones that are not the client's. */
  lemma ProfileRepaired(source: Option<Str>, fixed: seq<Entry>)
    requires GoodFixed(fixed) && RenderWith(source, WithProfile(fixed)).Some?
    ensures var t := RenderWith(source, WithProfile(fixed));
            && (forall q :: q != Ascii("inferenceCustomHeaders") && (forall u <- fixed :: u.key != q) ==>
                  Stored(t, q) == Stored(source, q))
            && (forall u <- fixed :: Holds(t, u.key, u.value))
            && HeadersRepaired(Stored(source, Ascii("inferenceCustomHeaders")), Stored(t, Ascii("inferenceCustomHeaders")))
  {
    hide ParseObject, RenderWith, Settling, FieldOf, SetAll, DeepEqual, WellFormed, GatewayUpdates, DistinctUpdates, HeadersRepaired;
    ProfileSettles(fixed);
    RenderStable(source, WithProfile(fixed));
    var o, t := ParseObject(source).value, RenderWith(source, WithProfile(fixed));
    ProfileHeld(t, fixed);
    var h := FieldOf(o, HEADERS);
    var headers := if h.Some? then h.value.entries else [];
    GatewayUpdatesAre(fixed, headers);
    forall q | q != HEADERS && forall u <- fixed :: u.key != q ensures Stored(t, q) == Stored(source, q) {
      RenderedField(source, WithProfile(fixed), q);
      SetAllField(o, GatewayUpdates(fixed, headers), q);
    }
    HeadersKept(source, fixed, o, headers);
  }

  ghost predicate HeadersRepaired(before: Option<Json>, after: Option<Json>) {
    && (before.Some? ==> before.value.JObj?) && after.Some? && after.value.JObj?
    && FieldOf(after.value.entries, Ascii("X-Stone-Client")) == Some(JStr(Ascii("claude-code-desktop")))
    && forall q :: q != Ascii("X-Stone-Client") ==>
         FieldOf(after.value.entries, q) == if before.Some? then FieldOf(before.value.entries, q) else None
  }

  lemma HeadersKept(source: Option<Str>, fixed: seq<Entry>, o: Object, headers: Object)
    requires GoodFixed(fixed) && RenderWith(source, WithProfile(fixed)).Some? && ParseObject(source) == Some(o)
    requires WithProfile(fixed)(o).Some?
    requires var h := FieldOf(o, HEADERS); headers == if h.Some? then h.value.entries else []
    ensures HeadersRepaired(Stored(source, HEADERS), Stored(RenderWith(source, WithProfile(fixed)), HEADERS))
  {
    hide ParseObject, RenderWith, Settling, FieldOf, SetAll, DeepEqual, WellFormed, GatewayUpdates, DistinctUpdates, Put;
    ProfileSettles(fixed);
    RenderStable(source, WithProfile(fixed));
    var t := RenderWith(source, WithProfile(fixed));
    ProfileHeld(t, fixed);
    GatewayUpdatesAre(fixed, headers);
    RenderedField(source, WithProfile(fixed), HEADERS);
    SetAllField(o, GatewayUpdates(fixed, headers), HEADERS);
    NoFields();
    forall q | q != CLIENT_HEADER
      ensures FieldOf(Put(headers, CLIENT_HEADER, JStr(CLIENT_NAME)), q) == FieldOf(headers, q)
    {
      PutField(headers, CLIENT_HEADER, JStr(CLIENT_NAME), q);
    }
  }

  lemma NoFields()
    ensures forall q :: FieldOf([], q) == None
  {}

  /** `b` is what a repair leaves of `a`. */
  ghost predicate RepairedFor(a: Snapshots, b: Snapshots, fixed: seq<Entry>) {
    var mode, headers := Ascii("deploymentMode"), Ascii("inferenceCustomHeaders");
    var entries, applied := Ascii("entries"), Ascii("appliedId");
    && Stored(b.normal, mode) == Some(JStr(Ascii("3p"))) == Stored(b.thirdParty, mode)
    && (forall q :: q != mode ==>
          Stored(b.normal, q) == Stored(a.normal, q) && Stored(b.thirdParty, q) == Stored(a.thirdParty, q))
    && (forall q :: q != headers && (forall u <- fixed :: u.key != q) ==> Stored(b.profile, q) == Stored(a.profile, q))
    && (forall u <- fixed :: Holds(b.profile, u.key, u.value))
    && HeadersRepaired(Stored(a.profile, headers), Stored(b.profile, headers))
    && (forall q :: q != entries && q != applied ==> Stored(b.meta, q) == Stored(a.meta, q))
    && Stored(b.meta, applied) == Some(JStr(Ascii("00000000-0000-4000-8000-000000157220")))
    && ParseObject(a.meta).Some? && ParseObject(b.meta).Some?
    && Stored(b.meta, entries) == Some(JArr(Listed(ParseObject(b.meta).value)))
    && Relisted(Listed(ParseObject(a.meta).value), Listed(ParseObject(b.meta).value))
  }

  /** A property that is there, but not of the kind it has to be. */
  ghost predicate Misshapen(source: Option<Str>) {
    var h := Stored(source, Ascii("inferenceCustomHeaders")); h.Some? && !h.value.JObj?
  }

  ghost predicate Unlisted(source: Option<Str>) {
    var e := Stored(source, Ascii("entries")); e.Some? && !e.value.JArr?
  }

  /**
   * A repair fails exactly when a file is no JSON object, the custom headers are no object or the list is no array. It
   * selects the third-party deployment, writes the profile and lists it once, and keeps everything else.
   */
  lemma RepairContents(s: Snapshots, fixed: seq<Entry>)
    requires GoodFixed(fixed)
    ensures Wanted(s, fixed).Some? <==>
            && ObjectText(s.normal) && ObjectText(s.thirdParty) && ObjectText(s.profile) && ObjectText(s.meta)
            && !Misshapen(s.profile) && !Unlisted(s.meta)
    ensures Wanted(s, fixed).Some? ==> RepairedFor(s, Wanted(s, fixed).value, fixed)
  {
    hide RenderWith, WithMode, WithProfile, WithMeta, Stored, HeadersRepaired, Relisted, JsonParse, ParseObject, ObjectText,
      Misshapen, Unlisted, DistinctUpdates, WellFormed, Holds, Listed;
    RepairFails(s, fixed);
    if Wanted(s, fixed).Some? {
      ModeRendered(s.normal, THIRD_PARTY);
      ModeRendered(s.thirdParty, THIRD_PARTY);
      ProfileRepaired(s.profile, fixed);
      MetaRepaired(s.meta);
    }
  }

  lemma RepairFails(s: Snapshots, fixed: seq<Entry>)
    ensures Wanted(s, fixed).Some? <==>
            && ObjectText(s.normal) && ObjectText(s.thirdParty) && ObjectText(s.profile) && ObjectText(s.meta)
            && !Misshapen(s.profile) && !Unlisted(s.meta)
  {
    hide JsonParse, SetAll, FieldOf, Put, RenderJson, MetaEntries, GatewayUpdates;
  }

  /** The same for a repair that is committed while nobody else writes. */
  lemma RepairLeaves(d: Disk, fixed: seq<Entry>)
    requires Quiet(d) && GoodFixed(fixed) && Wanted(SnapshotsOf(d.files), fixed).Some?
    ensures var s := SnapshotsOf(d.files);
            var (e, r) := Commit(d, PlansFor(s, Wanted(s, fixed).value));
            r.NoChange? || r.Committed? ==> RepairedFor(s, SnapshotsOf(e.files), fixed)
  {
    hide Quiet, Commit, Wanted, RepairedFor, GoodFixed, ObjectText, Misshapen, Unlisted;
    var s := SnapshotsOf(d.files);
    RepairContents(s, fixed);
    PlansDone(d, s, Wanted(s, fixed).value);
  }

  // ---------------------------------------------------------------- deep equality

  /** Objects are deeply equal when they have the same properties, each with deeply equal values. */
  lemma DeepObjects(es: Object, fs: Object)
    requires DistinctKeys(es) && DistinctKeys(fs)
    ensures DeepEqual(JObj(es), JObj(fs)) <==>
            Keys(es) == Keys(fs) && forall q <- Keys(es) :: DeepEqual(Property(es, q), Property(fs, q))
  {
    hide FieldOf;
    if DeepEqual(JObj(es), JObj(fs)) {
      hide DeepEqual;
      forall q ensures q in Keys(es) <==> q in Keys(fs) {
        EqualFields(es, fs, q);
        FieldIn(es, q);
        FieldIn(fs, q);
      }
      forall q | q in Keys(es) ensures DeepEqual(Property(es, q), Property(fs, q)) {
        EqualFields(es, fs, q);
        FieldIn(es, q);
      }
    } else if Keys(es) == Keys(fs) && forall q <- Keys(es) :: DeepEqual(Property(es, q), Property(fs, q)) {
      KeysCount(es);
      KeysCount(fs);
      forall i | 0 <= i < |es| ensures HasEqual(es[i].key, es[i].value, fs) {
        assert es[i].key in Keys(es);
        FieldAt(es, i);
        FieldIn(fs, es[i].key);
        var j :| 0 <= j < |fs| && fs[j] == Entry(es[i].key, FieldOf(fs, es[i].key).value);
        HasEqualAt(es[i].key, es[i].value, fs, j);
      }
      assert false;
    }
  }

  function Property(es: Object, q: Str): Json {
    var v := FieldOf(es, q);
    if v.Some? then v.value else JNull
  }

  lemma {:induction false} FieldAt(es: Object, i: nat)
    requires DistinctKeys(es) && i < |es|
    ensures FieldOf(es, es[i].key) == Some(es[i].value)
  {
    if i > 0 {
      FirstIsNew(es);
      assert es[0].key != es[i].key;
      FieldAt(es[1..], i - 1);
    }
  }
}
