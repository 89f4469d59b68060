/** What a matching configuration says: the properties each of the four files holds, whatever their order. */
module DesktopContents {
  import opened Units
  import opened JsonText
  import opened JsonGrammar
  import opened DesktopPlans

  // ---------------------------------------------------------------- deep equality and properties

  function Keys(es: Object): set<Str> { set e <- es :: e.key }

  lemma {:induction false} KeysCount(es: Object)
    requires DistinctKeys(es)
    ensures |Keys(es)| == |es|
  {
    if es == [] {
      assert Keys(es) == {};
    } else {
      var n := |es| - 1;
      var init, last := es[..n], es[n];
      KeysCount(init);
      assert es == init + [last];
      assert Keys(es) == Keys(init) + {last.key};
      assert last.key !in Keys(init) by { LastIsNew(es); }
    }
  }

  lemma LastIsNew(es: Object)
    requires DistinctKeys(es) && es != []
    ensures var n := |es| - 1; DistinctKeys(es[..n]) && forall e <- es[..n] :: e.key != es[n].key
  {
    var n := |es| - 1;
    forall e | e in es[..n] ensures e.key != es[n].key {
      var i :| 0 <= i < n && es[..n][i] == e;
      assert es[i].key != es[n].key;
    }
  }

  lemma FirstIsNew(es: Object)
    requires DistinctKeys(es) && es != []
    ensures DistinctKeys(es[1..]) && forall e <- es[1..] :: e.key != es[0].key
  {
    var rest := es[1..];
    forall i, j | 0 <= i < j < |rest| ensures rest[i].key != rest[j].key { assert es[i + 1].key != es[j + 1].key; }
    forall e | e in rest ensures e.key != es[0].key {
      var i :| 0 <= i < |rest| && rest[i] == e;
      assert es[i + 1].key != es[0].key;
    }
  }

  lemma {:induction false} HasEqualKey(key: Str, v: Json, fs: Object)
    ensures HasEqual(key, v, fs) ==> exists e <- fs :: e.key == key
  {
    hide DeepEqual;
    if fs != [] {
      HasEqualKey(key, v, fs[1..]);
      assert fs[0] in fs && forall e <- fs[1..] :: e in fs;
    }
  }

  lemma SameSize<T>(a: set<T>, b: set<T>)
    requires a <= b && |a| == |b|
    ensures a == b
  {
    assert |b - a| == |b| - |a|;
    assert b == a + (b - a);
  }

  lemma {:induction false} FieldIn(es: Object, q: Str)
    ensures FieldOf(es, q).Some? ==> Entry(q, FieldOf(es, q).value) in es
    ensures FieldOf(es, q).Some? <==> q in Keys(es)
  {
    if es != [] {
      var rest := es[1..];
      assert es == [es[0]] + rest;
      assert Keys(es) == {es[0].key} + Keys(rest);
      FieldIn(rest, q);
    }
  }

  lemma {:induction false} HasEqualField(key: Str, v: Json, fs: Object)
    requires HasEqual(key, v, fs) && DistinctKeys(fs)
    ensures FieldOf(fs, key).Some? && DeepEqual(v, FieldOf(fs, key).value)
  {
    hide DeepEqual;
    FirstIsNew(fs);
    HasEqualKey(key, v, fs[1..]);
    if key != fs[0].key { HasEqualField(key, v, fs[1..]); }
  }

  lemma EqualIn(es: Object, fs: Object, q: Str)
    requires DistinctKeys(fs) && DeepEqual(JObj(es), JObj(fs)) && FieldOf(es, q).Some?
    ensures FieldOf(fs, q).Some? && DeepEqual(FieldOf(es, q).value, FieldOf(fs, q).value)
  {
    FieldIn(es, q);
    var i :| 0 <= i < |es| && es[i] == Entry(q, FieldOf(es, q).value);
    assert HasEqual(es[i].key, es[i].value, fs);
    hide DeepEqual, HasEqual;
    HasEqualField(q, es[i].value, fs);
  }

  /** Deeply equal objects have the same properties, with deeply equal values. */
  lemma EqualFields(es: Object, fs: Object, q: Str)
    requires DistinctKeys(es) && DistinctKeys(fs) && DeepEqual(JObj(es), JObj(fs))
    ensures FieldOf(es, q).Some? <==> FieldOf(fs, q).Some?
    ensures FieldOf(es, q).Some? ==> DeepEqual(FieldOf(es, q).value, FieldOf(fs, q).value)
  {
    assert |es| == |fs|;
    hide DeepEqual;
    forall k | k in Keys(es) ensures k in Keys(fs) {
      FieldIn(es, k);
      EqualIn(es, fs, k);
      FieldIn(fs, k);
    }
    KeysCount(es);
    KeysCount(fs);
    SameSize(Keys(es), Keys(fs));
    FieldIn(es, q);
    FieldIn(fs, q);
    if FieldOf(es, q).Some? { EqualIn(es, fs, q); }
  }

  // ---------------------------------------------------------------- what matching means

  /** A text that rendering leaves alone holds what the change asks for, up to the order of properties. */
  lemma StableMeans(source: Option<Str>, change: Object -> Option<Object>)
    requires Settling(change) && source.Some? && RenderWith(source, change) == source
    ensures ParseObject(source).Some? && change(ParseObject(source).value).Some?
    ensures var o := ParseObject(source).value; var x := change(o).value;
            DistinctKeys(o) && DistinctKeys(x) && DeepEqual(JObj(o), JObj(x))
  {
    hide JsonParse, DeepEqual, Print, WellFormed;
    ParseObjectSound(source);
    RenderStable(source, change);
    DeepEqualSelf(JObj(ParseObject(source).value));
  }

  /** The value a property of a file has, if the file holds an object. */
  function Stored(source: Option<Str>, key: Str): Option<Json> {
    var o := ParseObject(source);
    if o.None? then None else FieldOf(o.value, key)
  }

  predicate Holds(source: Option<Str>, key: Str, v: Json) {
    Stored(source, key).Some? && DeepEqual(Stored(source, key).value, v)
  }

  lemma StableHolds(source: Option<Str>, change: Object -> Option<Object>, key: Str)
    requires Settling(change) && source.Some? && RenderWith(source, change) == source
    ensures ParseObject(source).Some? && change(ParseObject(source).value).Some?
    ensures var x := change(ParseObject(source).value).value;
            FieldOf(x, key).Some? ==> Holds(source, key, FieldOf(x, key).value)
  {
    hide DeepEqual, ParseObject, RenderWith, Settling;
    StableMeans(source, change);
    var o := ParseObject(source).value;
    EqualFields(o, change(o).value, key);
  }

  lemma ModeHeld(source: Option<Str>, mode: Str)
    requires source.Some? && RenderWith(source, WithMode(mode)) == source
    ensures Stored(source, DEPLOYMENT_MODE) == Some(JStr(mode))
  {
    hide ParseObject, RenderWith, Settling, SetAll, FieldOf;
    ModeSettles(mode);
    StableHolds(source, WithMode(mode), DEPLOYMENT_MODE);
    var u := [Entry(DEPLOYMENT_MODE, JStr(mode))];
    assert u[0] in u;
    SetAllField(ParseObject(source).value, u, DEPLOYMENT_MODE);
  }

  lemma ProfileHeld(source: Option<Str>, fixed: seq<Entry>)
    requires GoodFixed(fixed) && source.Some? && RenderWith(source, WithProfile(fixed)) == source
    ensures forall u <- fixed :: Holds(source, u.key, u.value)
    ensures var h := Stored(source, HEADERS);
            h.Some? && h.value.JObj? && FieldOf(h.value.entries, CLIENT_HEADER) == Some(JStr(CLIENT_NAME))
  {
    hide ParseObject, RenderWith, Settling, SetAll, FieldOf, DeepEqual, Put, WellFormed, GatewayUpdates, DistinctUpdates;
    ProfileSettles(fixed);
    StableHolds(source, WithProfile(fixed), HEADERS);
    var o := ParseObject(source).value;
    var h := FieldOf(o, HEADERS);
    var headers := if h.Some? then h.value.entries else [];
    var u := GatewayUpdates(fixed, headers);
    GatewayUpdatesAre(fixed, headers);
    forall e | e in fixed ensures Holds(source, e.key, e.value) {
      StableHolds(source, WithProfile(fixed), e.key);
      SetAllField(o, u, e.key);
    }
    SetAllField(o, u, HEADERS);
    HeadersHeld(source, fixed);
  }

  /** The custom headers that are there already include the client's. */
  lemma HeadersHeld(source: Option<Str>, fixed: seq<Entry>)
    requires GoodFixed(fixed) && source.Some? && RenderWith(source, WithProfile(fixed)) == source
    ensures var h := Stored(source, HEADERS);
            h.Some? && h.value.JObj? && FieldOf(h.value.entries, CLIENT_HEADER) == Some(JStr(CLIENT_NAME))
  {
    hide ParseObject, RenderWith, Settling, SetAll, FieldOf, Put, WellFormed, DistinctKeys, SoundEntries, GatewayUpdates,
      DistinctUpdates;
    ProfileSettles(fixed);
    StableMeans(source, WithProfile(fixed));
    StableHolds(source, WithProfile(fixed), HEADERS);
    var o := ParseObject(source).value;
    var before := FieldOf(o, HEADERS);
    var headers := if before.Some? then before.value.entries else [];
    var u := GatewayUpdates(fixed, headers);
    GatewayUpdatesAre(fixed, headers);
    SetAllField(o, u, HEADERS);
    var want := Put(headers, CLIENT_HEADER, JStr(CLIENT_NAME));
    assert Holds(source, HEADERS, JObj(want));
    PutField(headers, CLIENT_HEADER, JStr(CLIENT_NAME), CLIENT_HEADER);
    HeadersDistinct(source, o, headers, before);
    EqualFields(headers, want, CLIENT_HEADER);
  }

  lemma HeadersDistinct(source: Option<Str>, o: Object, headers: Object, before: Option<Json>)
    requires ParseObject(source) == Some(o) && before == FieldOf(o, HEADERS)
    requires before.Some? && before.value.JObj? && headers == before.value.entries
    ensures DistinctKeys(headers) && DistinctKeys(Put(headers, CLIENT_HEADER, JStr(CLIENT_NAME)))
  {
    hide ParseObject, WellFormed, FieldOf, Put;
    ParseObjectSound(source);
    FieldSound(o, HEADERS);
    ObjectSound(before.value);
    StringsSound(CLIENT_NAME);
    PutSound(headers, CLIENT_HEADER, JStr(CLIENT_NAME));
  }

  lemma MetaHeld(source: Option<Str>)
    requires source.Some? && RenderWith(source, WithMeta()) == source
    ensures Stored(source, APPLIED) == Some(JStr(STONE_ID))
    ensures ParseObject(source).Some? && Holds(source, ENTRIES, JArr(MetaEntries(Listed(ParseObject(source).value))))
    ensures OneStone(MetaEntries(Listed(ParseObject(source).value)))
  {
    hide ParseObject, RenderWith, Settling, SetAll, FieldOf, MetaEntries, OneStone, Others, WellFormed, Listed;
    MetaSettles();
    StableHolds(source, WithMeta(), APPLIED);
    StableHolds(source, WithMeta(), ENTRIES);
    ParseObjectSound(source);
    MetaTwice(ParseObject(source).value);
    MetaEntriesFacts(Listed(ParseObject(source).value));
  }

  /**
   * What configurationMatches accepts: both configuration files select third-party deployment; the profile holds every
   * gateway property and the client header; and the metadata applies Stone+'s profile and lists exactly one, complete.
   */
  lemma MatchMeans(s: Snapshots, fixed: seq<Entry>)
    requires GoodFixed(fixed) && ConfigurationMatches(s, fixed)
    ensures Stored(s.normal, DEPLOYMENT_MODE) == Some(JStr(THIRD_PARTY)) == Stored(s.thirdParty, DEPLOYMENT_MODE)
    ensures forall u <- fixed :: Holds(s.profile, u.key, u.value)
    ensures var h := Stored(s.profile, HEADERS);
            h.Some? && h.value.JObj? && FieldOf(h.value.entries, CLIENT_HEADER) == Some(JStr(CLIENT_NAME))
    ensures Stored(s.meta, APPLIED) == Some(JStr(STONE_ID))
    ensures ParseObject(s.meta).Some? && OneStone(MetaEntries(Listed(ParseObject(s.meta).value)))
            && Holds(s.meta, ENTRIES, JArr(MetaEntries(Listed(ParseObject(s.meta).value))))
  {
    hide RenderWith, ParseObject, WithMode, WithProfile, WithMeta, MetaEntries, OneStone, FieldOf, Stored, Holds;
    ModeHeld(s.normal, THIRD_PARTY);
    ModeHeld(s.thirdParty, THIRD_PARTY);
    ProfileHeld(s.profile, fixed);
    MetaHeld(s.meta);
  }
}
