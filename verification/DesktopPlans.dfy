/**
 * What ClaudeDesktopConfig wants its four files to hold: repairing twice changes nothing, nor does going back twice, and
 * going back after a repair keeps every entry that is not Stone+'s.
 */
module DesktopPlans {
  import opened Units
  import opened JsonText
  import opened JsonGrammar
  import opened Files
  import opened DesktopCommit

  const DEPLOYMENT_MODE: Str := Ascii("deploymentMode")
  const THIRD_PARTY: Str := Ascii("3p")
  const FIRST_PARTY: Str := Ascii("1p")
  const ENTERPRISE: Str := Ascii("enterpriseConfig")
  const ENTRIES: Str := Ascii("entries")
  const APPLIED: Str := Ascii("appliedId")
  const ID: Str := Ascii("id")
  const LABEL: Str := Ascii("name")
  const STONE_ID: Str := Ascii("00000000-0000-4000-8000-000000157220")
  const STONE_NAME: Str := Ascii("Stone+")
  const HEADERS: Str := Ascii("inferenceCustomHeaders")
  const CLIENT_HEADER: Str := Ascii("X-Stone-Client")
  const CLIENT_NAME: Str := Ascii("claude-code-desktop")

  type Object = seq<Entry>

  // ---------------------------------------------------------------- objects

  /** Spreading an object and overriding properties: existing ones keep their place. */
  function SetAll(es: Object, updates: seq<Entry>): Object {
    if updates == [] then es
    else
      var n := |updates| - 1;
      Put(SetAll(es, updates[..n]), updates[n].key, updates[n].value)
  }

  function Delete(es: Object, keys: set<Str>): Object {
    if es == [] then [] else (if es[0].key in keys then [] else [es[0]]) + Delete(es[1..], keys)
  }

  /** isDeepStrictEqual: the order of properties does not matter. */
  predicate DeepEqual(a: Json, b: Json)
    decreases a, 0
  {
    match a
    case JArr(xs) =>
      b.JArr? && |xs| == |b.items| && forall i :: 0 <= i < |xs| ==> DeepEqual(xs[i], b.items[i])
    case JObj(es) =>
      b.JObj? && |es| == |b.entries| && forall i :: 0 <= i < |es| ==> HasEqual(es[i].key, es[i].value, b.entries)
    case _ => a == b
  }

  predicate HasEqual(key: Str, v: Json, fs: Object)
    decreases v, 1 + |fs|
  {
    fs != [] && ((key == fs[0].key && DeepEqual(v, fs[0].value)) || HasEqual(key, v, fs[1..]))
  }

  lemma {:induction false} HasEqualAt(key: Str, v: Json, fs: Object, j: nat)
    requires j < |fs| && fs[j].key == key && DeepEqual(v, fs[j].value)
    ensures HasEqual(key, v, fs)
    decreases j
  {
    hide DeepEqual;
    if j > 0 { HasEqualAt(key, v, fs[1..], j - 1); }
  }

  lemma {:induction false} DeepEqualSelf(a: Json)
    ensures DeepEqual(a, a)
    decreases a
  {
    hide HasEqual;
    match a {
      case JArr(xs) => forall i | 0 <= i < |xs| ensures DeepEqual(xs[i], xs[i]) { DeepEqualSelf(xs[i]); }
      case JObj(es) =>
        forall i | 0 <= i < |es| ensures HasEqual(es[i].key, es[i].value, es) {
          DeepEqualSelf(es[i].value);
          HasEqualAt(es[i].key, es[i].value, es, i);
        }
      case _ =>
    }
  }

  lemma {:induction false} PutSame(es: Object, k: Str, v: Json)
    requires FieldOf(es, k) == Some(v)
    ensures Put(es, k, v) == es
  {
    if es[0].key != k { PutSame(es[1..], k, v); }
  }

  predicate DistinctUpdates(updates: seq<Entry>) {
    forall i, j :: 0 <= i < j < |updates| ==> updates[i].key != updates[j].key
  }

  lemma SetAllStep(es: Object, updates: seq<Entry>, q: Str)
    requires updates != []
    ensures var n := |updates| - 1;
            FieldOf(SetAll(es, updates), q)
            == if q == updates[n].key then Some(updates[n].value) else FieldOf(SetAll(es, updates[..n]), q)
  {
    hide Put, FieldOf;
    var n := |updates| - 1;
    PutField(SetAll(es, updates[..n]), updates[n].key, updates[n].value, q);
  }

  lemma {:induction false} SetAllField(es: Object, updates: seq<Entry>, q: Str)
    ensures (forall u <- updates :: u.key != q) ==> FieldOf(SetAll(es, updates), q) == FieldOf(es, q)
    ensures DistinctUpdates(updates) ==> forall u <- updates :: u.key == q ==> FieldOf(SetAll(es, updates), q) == Some(u.value)
  {
    hide FieldOf, SetAll;
    if updates == [] {
      SetNothing(es);
    } else {
      var n := |updates| - 1;
      SetAllField(es, updates[..n], q);
      SetAllStep(es, updates, q);
      if DistinctUpdates(updates) {
        forall u | u in updates && u.key == q ensures FieldOf(SetAll(es, updates), q) == Some(u.value) {
          var i :| 0 <= i < |updates| && updates[i] == u;
          if i < n {
            assert updates[..n][i] == u;
            assert updates[i].key != updates[n].key;
          }
        }
      }
    }
  }

  lemma SetNothing(es: Object)
    ensures SetAll(es, []) == es
  {}

  lemma {:induction false} SetAllSame(es: Object, updates: seq<Entry>)
    requires forall u <- updates :: FieldOf(es, u.key) == Some(u.value)
    ensures SetAll(es, updates) == es
  {
    hide Put, FieldOf;
    if updates != [] {
      var n := |updates| - 1;
      SetAllSame(es, updates[..n]);
      assert updates[n] in updates;
      PutSame(es, updates[n].key, updates[n].value);
    }
  }

  lemma SetAllTwice(es: Object, updates: seq<Entry>)
    requires DistinctUpdates(updates)
    ensures SetAll(SetAll(es, updates), updates) == SetAll(es, updates)
  {
    hide SetAll, FieldOf;
    forall u | u in updates ensures FieldOf(SetAll(es, updates), u.key) == Some(u.value) { SetAllField(es, updates, u.key); }
    SetAllSame(SetAll(es, updates), updates);
  }

  lemma {:induction false} SetAllSound(es: Object, updates: seq<Entry>)
    requires SoundEntries(es) && forall u <- updates :: WellFormed(u.value)
    ensures SoundEntries(SetAll(es, updates))
  {
    hide Put, WellFormed, DistinctKeys;
    if updates != [] {
      var n := |updates| - 1;
      SetAllSound(es, updates[..n]);
      assert updates[n] in updates;
      PutSound(SetAll(es, updates[..n]), updates[n].key, updates[n].value);
    }
  }

  lemma DeleteStep(e: Entry, rest: Object, keys: set<Str>)
    ensures Delete([e] + rest, keys) == (if e.key in keys then Delete(rest, keys) else [e] + Delete(rest, keys))
    ensures Delete([], keys) == []
  {
    assert ([e] + rest)[1..] == rest;
  }

  lemma {:induction false} DeleteIn(es: Object, keys: set<Str>)
    ensures forall e :: e in Delete(es, keys) <==> e in es && e.key !in keys
  {
    if es != [] { DeleteIn(es[1..], keys); }
  }

  lemma {:induction false} DeleteNothing(es: Object, keys: set<Str>)
    requires forall e <- es :: e.key !in keys
    ensures Delete(es, keys) == es
  {
    if es != [] {
      assert es[0] in es;
      DeleteNothing(es[1..], keys);
    }
  }

  lemma {:induction false} DeleteSound(es: Object, keys: set<Str>)
    requires SoundEntries(es)
    ensures SoundEntries(Delete(es, keys))
  {
    hide SoundEntries, WellFormed, Delete;
    if es == [] {
      DeleteStep(Entry([], JNull), [], keys);
    } else {
      assert es == [es[0]] + es[1..];
      SoundStep(es[0], es[1..]);
      DeleteSound(es[1..], keys);
      DeleteStep(es[0], es[1..], keys);
      DeleteIn(es[1..], keys);
      SoundStep(es[0], Delete(es[1..], keys));
    }
  }

  lemma DeleteTwice(es: Object, keys: set<Str>)
    ensures Delete(Delete(es, keys), keys) == Delete(es, keys)
  {
    hide Delete;
    DeleteIn(es, keys);
    DeleteNothing(Delete(es, keys), keys);
  }

  lemma FieldStep(e: Entry, rest: Object, q: Str)
    ensures FieldOf([e] + rest, q) == if e.key == q then Some(e.value) else FieldOf(rest, q)
    ensures FieldOf([], q) == None
  {
    assert ([e] + rest)[1..] == rest;
  }

  lemma {:induction false} DeleteField(es: Object, keys: set<Str>, q: Str)
    ensures FieldOf(Delete(es, keys), q) == if q in keys then None else FieldOf(es, q)
  {
    hide FieldOf, Delete;
    if es == [] {
      DeleteStep(Entry([], JNull), [], keys);
      FieldStep(Entry([], JNull), [], q);
    } else {
      assert es == [es[0]] + es[1..];
      DeleteStep(es[0], es[1..], keys);
      DeleteField(es[1..], keys, q);
      FieldStep(es[0], es[1..], q);
      FieldStep(es[0], Delete(es[1..], keys), q);
    }
  }

  // ---------------------------------------------------------------- rendering

  /** parseJsonObject; None when it throws. */
  function ParseObject(source: Option<Str>): Option<Object> {
    if source.None? then Some([])
    else match JsonParse(source.value)
      case Some(JObj(es)) => Some(es)
      case _ => None
  }

  /** renderJsonPreservingEquivalentSource. */
  function RenderJson(source: Option<Str>, original: Object, rendered: Object): Str {
    if source.Some? && DeepEqual(JObj(original), JObj(rendered)) then source.value else Print(JObj(rendered), [LF]) + [LF]
  }

  /** Rendering with a change of the object that may itself throw. */
  function RenderWith(source: Option<Str>, change: Object -> Option<Object>): Option<Str> {
    var o := ParseObject(source);
    if o.None? then None
    else
      var r := change(o.value);
      if r.None? then None else Some(RenderJson(source, o.value, r.value))
  }

  /** A change that a second application leaves alone, and that keeps objects well formed. */
  ghost predicate Settling(change: Object -> Option<Object>) {
    forall o: Object :: SoundEntries(o) && change(o).Some? ==>
      SoundEntries(change(o).value) && change(change(o).value) == Some(change(o).value)
  }

  lemma PrintLineParse(v: Json)
    requires WellFormed(v)
    ensures JsonParse(Print(v, [LF]) + [LF]) == Some(v)
  {
    hide Pieces, Tokens, PieceTokens, Flat, Lex, SoundPieces, ParseValue, WellFormed, IsSpace;
    LfGapHere();
    PiecesSound(v, [LF]);
    PiecesGaps(v, [LF], (h: Str) => AllJsonSpace(h));
    PiecesTokens(v, [LF]);
    LexPieces(Pieces(v, [LF]), [LF]);
    LexGap([LF], []);
    assert [LF] + [] == [LF];
    LexNil();
    assert Tokens(v) + [] == Tokens(v);
    ParseTokens(v, []);
  }

  lemma LfGapHere()
    ensures IsGap([LF]) && AllJsonSpace([LF]) && !IsWordUnit(LF)
    ensures Nests((h: Str) => AllJsonSpace(h))
  {}

  lemma ParseObjectSound(source: Option<Str>)
    ensures ParseObject(source).Some? ==> SoundEntries(ParseObject(source).value)
  {
    hide JsonParse, WellFormed;
    if source.Some? {
      JsonParseSound(source.value);
      var v := JsonParse(source.value);
      if v.Some? && v.value.JObj? { ObjectSound(v.value); }
    }
  }

  lemma ObjectSound(v: Json)
    requires v.JObj?
    ensures WellFormed(v) <==> SoundEntries(v.entries)
  {}

  /** What is rendered once is rendered as it stands. */
  lemma RenderStable(source: Option<Str>, change: Object -> Option<Object>)
    requires Settling(change) && RenderWith(source, change).Some?
    ensures RenderWith(RenderWith(source, change), change) == RenderWith(source, change)
    ensures var o := ParseObject(source).value;
            ParseObject(source).Some? && change(o).Some?
            && ParseObject(RenderWith(source, change))
               == Some(if source.Some? && DeepEqual(JObj(o), JObj(change(o).value)) then o else change(o).value)
  {
    hide JsonParse, DeepEqual, Print, WellFormed;
    ParseObjectSound(source);
    var o := ParseObject(source).value;
    var x := change(o).value;
    ObjectSound(JObj(x));
    DeepEqualSelf(JObj(x));
    PrintLineParse(JObj(x));
  }

  // ---------------------------------------------------------------- the changes

  function WithMode(mode: Str): Object -> Option<Object> {
    (o: Object) => Some(SetAll(o, [Entry(DEPLOYMENT_MODE, JStr(mode))]))
  }

  lemma ModeSettles(mode: Str)
    ensures Settling(WithMode(mode))
  {
    hide SetAll;
    var u := [Entry(DEPLOYMENT_MODE, JStr(mode))];
    forall o: Object | SoundEntries(o) ensures SoundEntries(SetAll(o, u)) && SetAll(SetAll(o, u), u) == SetAll(o, u) {
      SetAllSound(o, u);
      SetAllTwice(o, u);
    }
  }

  /** How many of the profile's other properties are written before the custom headers. */
  const BEFORE_HEADERS: nat := 5

  function ClientHeaders(headers: Object): Entry { Entry(HEADERS, JObj(Put(headers, CLIENT_HEADER, JStr(CLIENT_NAME)))) }

  /** The gateway properties of the profile, in order. */
  function GatewayUpdates(fixed: seq<Entry>, headers: Object): seq<Entry> {
    var n := if |fixed| < BEFORE_HEADERS then |fixed| else BEFORE_HEADERS;
    fixed[..n] + [ClientHeaders(headers)] + fixed[n..]
  }

  lemma Inserted(es: seq<Entry>, n: nat, x: Entry)
    requires n <= |es|
    ensures x in es[..n] + [x] + es[n..] && forall e :: e in es[..n] + [x] + es[n..] <==> e in es || e == x
  {
    assert es == es[..n] + es[n..];
  }

  lemma InsertedDistinct(es: seq<Entry>, n: nat, x: Entry)
    requires n <= |es| && DistinctUpdates(es) && forall i :: 0 <= i < |es| ==> es[i].key != x.key
    ensures DistinctUpdates(es[..n] + [x] + es[n..])
  {
    var all := es[..n] + [x] + es[n..];
    assert forall i :: 0 <= i < n ==> all[i] == es[i];
    assert forall i :: n < i < |all| ==> all[i] == es[i - 1];
    assert all[n] == x;
  }

  lemma GatewayUpdatesAre(fixed: seq<Entry>, headers: Object)
    requires GoodFixed(fixed)
    ensures DistinctUpdates(GatewayUpdates(fixed, headers)) && ClientHeaders(headers) in GatewayUpdates(fixed, headers)
    ensures forall e :: e in GatewayUpdates(fixed, headers) <==> e in fixed || e == ClientHeaders(headers)
  {
    hide WellFormed, Put, DistinctUpdates;
    var n := if |fixed| < BEFORE_HEADERS then |fixed| else BEFORE_HEADERS;
    Inserted(fixed, n, ClientHeaders(headers));
    InsertedDistinct(fixed, n, ClientHeaders(headers));
  }

  lemma SameUpdates(fixed: seq<Entry>, a: Object, b: Object)
    requires ClientHeaders(a) == ClientHeaders(b)
    ensures GatewayUpdates(fixed, a) == GatewayUpdates(fixed, b)
  {
    hide Put;
  }

  /** `fixed` holds the profile's other properties, which depend only on the target and the models. */
  predicate GoodFixed(fixed: seq<Entry>) {
    DistinctUpdates(fixed) && forall u <- fixed :: u.key != HEADERS && WellFormed(u.value)
  }

  /** renderProfile; custom headers that are not an object are an error. */
  function WithProfile(fixed: seq<Entry>): Object -> Option<Object> {
    (o: Object) =>
      var headers := FieldOf(o, HEADERS);
      if headers.Some? && !headers.value.JObj? then None
      else Some(SetAll(o, GatewayUpdates(fixed, if headers.Some? then headers.value.entries else [])))
  }

  lemma ProfileSettles(fixed: seq<Entry>)
    requires GoodFixed(fixed)
    ensures Settling(WithProfile(fixed))
  {
    hide SetAll, FieldOf, Put, WellFormed, GatewayUpdates, DistinctUpdates;
    var change := WithProfile(fixed);
    forall o: Object | SoundEntries(o) && change(o).Some?
      ensures SoundEntries(change(o).value) && change(change(o).value) == Some(change(o).value)
    {
      var h := FieldOf(o, HEADERS);
      var headers := if h.Some? then h.value.entries else [];
      var u := GatewayUpdates(fixed, headers);
      FieldSound(o, HEADERS);
      if h.Some? { ObjectSound(h.value); } else { NothingSound(); }
      PutSound(headers, CLIENT_HEADER, JStr(CLIENT_NAME)) by { StringsSound(CLIENT_NAME); }
      ObjectSound(JObj(Put(headers, CLIENT_HEADER, JStr(CLIENT_NAME))));
      GatewayUpdatesAre(fixed, headers);
      SetAllSound(o, u);
      SetAllField(o, u, HEADERS);
      PutField(headers, CLIENT_HEADER, JStr(CLIENT_NAME), CLIENT_HEADER);
      PutSame(Put(headers, CLIENT_HEADER, JStr(CLIENT_NAME)), CLIENT_HEADER, JStr(CLIENT_NAME));
      SameUpdates(fixed, headers, Put(headers, CLIENT_HEADER, JStr(CLIENT_NAME)));
      SetAllTwice(o, u);
    }
  }

  lemma StringsSound(s: Str)
    ensures WellFormed(JStr(s))
  {}

  lemma NothingSound()
    ensures SoundEntries([])
  {}

  lemma {:induction false} FieldSound(es: Object, k: Str)
    requires SoundEntries(es)
    ensures FieldOf(es, k).Some? ==> WellFormed(FieldOf(es, k).value) && Entry(k, FieldOf(es, k).value) in es
  {
    hide WellFormed;
    if es != [] && es[0].key != k {
      assert SoundEntries(es[1..]) by {
        assert forall e <- es[1..] :: e in es;
        forall i, j | 0 <= i < j < |es[1..]| ensures es[1..][i].key != es[1..][j].key { assert es[i + 1].key != es[j + 1].key; }
      }
      FieldSound(es[1..], k);
    } else if es != [] {
      assert es[0] in es;
    }
  }

  // ---------------------------------------------------------------- the profile list

  predicate IsStone(v: Json) {
    Field(v, ID) == Some(JStr(STONE_ID))
  }

  /** Entries that are not Stone+'s, in order. */
  function Others(vs: seq<Json>): seq<Json> {
    if vs == [] then []
    else Others(vs[..|vs| - 1]) + if IsStone(vs[|vs| - 1]) then [] else [vs[|vs| - 1]]
  }

  function StoneUpdates(): seq<Entry> { [Entry(ID, JStr(STONE_ID)), Entry(LABEL, JStr(STONE_NAME))] }

  /** The first entry of Stone+ is completed, later ones are dropped. */
  function KeepFirstStone(vs: seq<Json>): (r: (seq<Json>, bool)) {
    if vs == [] then ([], false)
    else
      var (rest, found) := KeepFirstStone(vs[..|vs| - 1]);
      var last := vs[|vs| - 1];
      if !last.JObj? || !IsStone(last) then (rest + [last], found)
      else if found then (rest, true)
      else (rest + [JObj(SetAll(last.entries, StoneUpdates()))], true)
  }

  /** The entries renderMeta writes. */
  function MetaEntries(vs: seq<Json>): seq<Json> {
    var (kept, found) := KeepFirstStone(vs);
    if found then kept else kept + [JObj(StoneUpdates())]
  }

  /** renderMeta; entries that are not an array are an error. */
  function WithMeta(): Object -> Option<Object> {
    (o: Object) =>
      var e := FieldOf(o, ENTRIES);
      if e.Some? && !e.value.JArr? then None
      else Some(SetAll(o, [Entry(ENTRIES, JArr(MetaEntries(if e.Some? then e.value.items else []))),
                           Entry(APPLIED, JStr(STONE_ID))]))
  }

  predicate IsComplete(v: Json) {
    v.JObj? && FieldOf(v.entries, ID) == Some(JStr(STONE_ID)) && FieldOf(v.entries, LABEL) == Some(JStr(STONE_NAME))
  }

  lemma KeysDiffer()
    ensures ID != LABEL && ENTRIES != APPLIED && DistinctUpdates(StoneUpdates())
    ensures forall a, b: Json :: DistinctUpdates([Entry(ENTRIES, a), Entry(APPLIED, b)])
  {
    assert |ID| == 2 && |LABEL| == 4 && |ENTRIES| == 7 && |APPLIED| == 9;
  }

  lemma Completed(es: Object)
    ensures IsComplete(JObj(SetAll(es, StoneUpdates()))) && IsComplete(JObj(StoneUpdates()))
    ensures SoundEntries(es) ==> WellFormed(JObj(SetAll(es, StoneUpdates())))
    ensures WellFormed(JObj(StoneUpdates()))
  {
    hide SetAll, WellFormed;
    KeysDiffer();
    var u := StoneUpdates();
    StringsSound(STONE_ID);
    StringsSound(STONE_NAME);
    assert u[0] in u && u[1] in u;
    SetAllField(es, u, ID);
    SetAllField(es, u, LABEL);
    if SoundEntries(es) { SetAllSound(es, u); }
    ObjectSound(JObj(SetAll(es, u)));
    ObjectSound(JObj(u));
    assert u[1..][0] == u[1];
  }

  lemma CompleteSame(v: Json)
    requires IsComplete(v)
    ensures JObj(SetAll(v.entries, StoneUpdates())) == v && IsStone(v)
  {
    hide SetAll;
    SetAllSame(v.entries, StoneUpdates());
  }

  lemma KeepStep(vs: seq<Json>, v: Json)
    ensures var (rest, found) := KeepFirstStone(vs);
            KeepFirstStone(vs + [v])
            == if !v.JObj? || !IsStone(v) then (rest + [v], found)
               else if found then (rest, true)
               else (rest + [JObj(SetAll(v.entries, StoneUpdates()))], true)
  {
    hide IsStone, SetAll;
    assert (vs + [v])[..|vs|] == vs;
  }

  /** The others are kept in order. */
  lemma {:induction false} KeepOthers(vs: seq<Json>)
    ensures Others(KeepFirstStone(vs).0) == Others(vs)
  {
    hide IsStone, SetAll, IsComplete, KeepFirstStone, Others;
    if vs == [] {
      KeepNothing();
    } else {
      var n := |vs| - 1;
      var last := vs[n];
      assert vs == vs[..n] + [last];
      KeepOthers(vs[..n]);
      KeepStep(vs[..n], last);
      OthersSnoc(vs[..n], last);
      var rest := KeepFirstStone(vs[..n]).0;
      OthersSnoc(rest, last);
      if last.JObj? {
        Completed(last.entries);
        CompleteSame(JObj(SetAll(last.entries, StoneUpdates())));
        OthersSnoc(rest, JObj(SetAll(last.entries, StoneUpdates())));
      } else {
        StoneIsObject(last);
      }
    }
  }

  lemma KeepNothing()
    ensures KeepFirstStone([]) == ([], false) && Others([]) == []
  {}

  /** At most one entry of Stone+, complete; there is one exactly when one was found. */
  ghost predicate StoneShape(r: seq<Json>, found: bool) {
    && (forall i :: 0 <= i < |r| && IsStone(r[i]) ==> IsComplete(r[i]))
    && (forall i, j :: 0 <= i < j < |r| ==> !(IsStone(r[i]) && IsStone(r[j])))
    && (found <==> exists i :: 0 <= i < |r| && IsStone(r[i]))
  }

  lemma ShapeOther(r: seq<Json>, found: bool, v: Json)
    requires StoneShape(r, found) && !IsStone(v)
    ensures StoneShape(r + [v], found)
  {
    hide IsStone, IsComplete;
    var all := r + [v];
    assert forall i :: 0 <= i < |r| ==> all[i] == r[i];
    if found {
      var i :| 0 <= i < |r| && IsStone(r[i]);
      assert IsStone(all[i]);
    }
  }

  lemma ShapeStone(r: seq<Json>, v: Json)
    requires StoneShape(r, false) && IsStone(v) && IsComplete(v)
    ensures StoneShape(r + [v], true)
  {
    hide IsStone, IsComplete;
    var all := r + [v];
    assert forall i :: 0 <= i < |r| ==> all[i] == r[i];
    assert IsStone(all[|r|]);
  }

  lemma {:induction false} KeepShape(vs: seq<Json>)
    ensures var (r, found) := KeepFirstStone(vs); StoneShape(r, found)
  {
    hide IsStone, SetAll, IsComplete, KeepFirstStone, StoneShape;
    if vs == [] {
      KeepNothing();
      assert StoneShape([], false) by { NoShape(); }
    } else {
      var n := |vs| - 1;
      var last := vs[n];
      assert vs == vs[..n] + [last];
      KeepShape(vs[..n]);
      KeepStep(vs[..n], last);
      var (rest, found) := KeepFirstStone(vs[..n]);
      if last.JObj? && IsStone(last) {
        var done := JObj(SetAll(last.entries, StoneUpdates()));
        Completed(last.entries);
        CompleteSame(done);
        if !found { ShapeStone(rest, done); }
      } else {
        if !last.JObj? { StoneIsObject(last); }
        ShapeOther(rest, found, last);
      }
    }
  }

  lemma NoShape()
    ensures StoneShape([], false)
  {}

  lemma {:induction false} KeepSound(vs: seq<Json>)
    requires forall v <- vs :: WellFormed(v)
    ensures forall v <- KeepFirstStone(vs).0 :: WellFormed(v)
  {
    hide IsStone, SetAll, WellFormed, KeepFirstStone;
    if vs == [] {
      KeepNothing();
    } else {
      var n := |vs| - 1;
      var last := vs[n];
      assert vs == vs[..n] + [last] && last in vs;
      KeepSound(vs[..n]);
      KeepStep(vs[..n], last);
      if last.JObj? {
        ObjectSound(last);
        Completed(last.entries);
      }
    }
  }

  lemma StoneIsObject(v: Json)
    requires !v.JObj?
    ensures !IsStone(v)
  {}

  lemma OthersSnoc(vs: seq<Json>, v: Json)
    ensures Others(vs + [v]) == Others(vs) + if IsStone(v) then [] else [v]
  {
    assert (vs + [v])[..|vs|] == vs;
  }

  /** Exactly one entry of Stone+, complete, and all others in order. */
  ghost predicate OneStone(vs: seq<Json>) {
    && (exists i :: 0 <= i < |vs| && IsStone(vs[i]))
    && (forall i :: 0 <= i < |vs| && IsStone(vs[i]) ==> IsComplete(vs[i]))
    && (forall i, j :: 0 <= i < j < |vs| ==> !(IsStone(vs[i]) && IsStone(vs[j])))
  }

  lemma ShapeIsOne(vs: seq<Json>)
    requires StoneShape(vs, true)
    ensures OneStone(vs)
  {}

  lemma MetaEntriesFacts(vs: seq<Json>)
    ensures OneStone(MetaEntries(vs)) && Others(MetaEntries(vs)) == Others(vs)
    ensures (forall v <- vs :: WellFormed(v)) ==> forall v <- MetaEntries(vs) :: WellFormed(v)
  {
    hide IsStone, SetAll, WellFormed, IsComplete, Others, KeepFirstStone, StoneShape;
    KeepOthers(vs);
    KeepShape(vs);
    var (kept, found) := KeepFirstStone(vs);
    var stone := JObj(StoneUpdates());
    Completed([]);
    CompleteSame(stone);
    OthersSnoc(kept, stone);
    assert Others(kept) + [] == Others(kept);
    if !found { ShapeStone(kept, stone); }
    ShapeIsOne(MetaEntries(vs));
    if forall v <- vs :: WellFormed(v) { KeepSound(vs); }
  }

  lemma {:induction false} OneStoneKept(vs: seq<Json>)
    requires forall i :: 0 <= i < |vs| && IsStone(vs[i]) ==> IsComplete(vs[i])
    requires forall i, j :: 0 <= i < j < |vs| ==> !(IsStone(vs[i]) && IsStone(vs[j]))
    ensures KeepFirstStone(vs) == (vs, exists i :: 0 <= i < |vs| && IsStone(vs[i]))
  {
    hide IsStone, SetAll, IsComplete;
    if vs != [] {
      var n := |vs| - 1;
      OneStoneKept(vs[..n]);
      assert vs == vs[..n] + [vs[n]];
      if IsStone(vs[n]) {
        if !vs[n].JObj? { StoneIsObject(vs[n]); }
        CompleteSame(vs[n]);
      }
    }
  }

  lemma MetaSettles()
    ensures Settling(WithMeta())
  {
    hide SetAll, FieldOf, WellFormed, IsStone, IsComplete, Others, OneStone;
    var change := WithMeta();
    forall o: Object | SoundEntries(o) && change(o).Some?
      ensures SoundEntries(change(o).value) && change(change(o).value) == Some(change(o).value)
    {
      MetaTwice(o);
    }
  }

  function MetaUpdates(vs: seq<Json>): seq<Entry> {
    [Entry(ENTRIES, JArr(MetaEntries(vs))), Entry(APPLIED, JStr(STONE_ID))]
  }

  /** The entries an object lists. */
  function Listed(o: Object): seq<Json> {
    var e := FieldOf(o, ENTRIES);
    if e.Some? && e.value.JArr? then e.value.items else []
  }

  lemma MetaTwice(o: Object)
    requires SoundEntries(o) && WithMeta()(o).Some?
    ensures var x := WithMeta()(o).value;
            && x == SetAll(o, MetaUpdates(Listed(o)))
            && SoundEntries(x) && FieldOf(x, ENTRIES) == Some(JArr(MetaEntries(Listed(o))))
            && FieldOf(x, APPLIED) == Some(JStr(STONE_ID)) && WithMeta()(x) == Some(x)
  {
    hide SetAll, FieldOf, WellFormed, IsStone, IsComplete, Others, KeepFirstStone;
    var vs := Listed(o);
    var u := MetaUpdates(vs);
    KeysDiffer();
    FieldSound(o, ENTRIES);
    ListedSound(o);
    MetaEntriesFacts(vs);
    var es := MetaEntries(vs);
    OneStoneKept(es);
    StringsSound(STONE_ID);
    ArraySound(es);
    SetAllSound(o, u);
    assert u[0] in u && u[1] in u;
    SetAllField(o, u, ENTRIES);
    SetAllField(o, u, APPLIED);
    SetAllTwice(o, u);
  }

  lemma ArraySound(vs: seq<Json>)
    ensures WellFormed(JArr(vs)) <==> forall v <- vs :: WellFormed(v)
  {}

  lemma ListedSound(o: Object)
    requires SoundEntries(o)
    ensures forall v <- Listed(o) :: WellFormed(v)
  {
    hide WellFormed, FieldOf;
    FieldSound(o, ENTRIES);
    var e := FieldOf(o, ENTRIES);
    if e.Some? && e.value.JArr? { ArraySound(e.value.items); }
  }

  // ---------------------------------------------------------------- the repair of the four files

  /** readSnapshots: normal, third-party, profile and metadata file. */
  datatype Snapshots = Snapshots(normal: Option<Str>, thirdParty: Option<Str>, profile: Option<Str>, meta: Option<Str>)

  /** The contents buildPlans wants; None when it throws. */
  function Wanted(s: Snapshots, fixed: seq<Entry>): Option<Snapshots> {
    var a := RenderWith(s.normal, WithMode(THIRD_PARTY));
    var b := RenderWith(s.thirdParty, WithMode(THIRD_PARTY));
    var c := RenderWith(s.profile, WithProfile(fixed));
    var d := RenderWith(s.meta, WithMeta());
    if a.None? || b.None? || c.None? || d.None? then None else Some(Snapshots(a, b, c, d))
  }

  /** configurationMatches; an error is a mismatch. */
  predicate ConfigurationMatches(s: Snapshots, fixed: seq<Entry>) {
    s.normal.Some? && s.thirdParty.Some? && s.profile.Some? && s.meta.Some? && Wanted(s, fixed) == Some(s)
  }

  function PlansFor(s: Snapshots, w: Snapshots): seq<Plan> {
    [Plan(0, s.normal, w.normal), Plan(1, s.thirdParty, w.thirdParty), Plan(2, s.profile, w.profile), Plan(3, s.meta, w.meta)]
  }

  function SnapshotsOf(files: map<Path, Str>): Snapshots {
    Snapshots(Content(files, 0), Content(files, 1), Content(files, 2), Content(files, 3))
  }

  /** The contents a repair wants are matched, and a second repair would want the same. */
  lemma WantedMatches(s: Snapshots, fixed: seq<Entry>)
    requires GoodFixed(fixed) && Wanted(s, fixed).Some?
    ensures ConfigurationMatches(Wanted(s, fixed).value, fixed)
  {
    hide RenderWith, Settling, WithMode, WithProfile, WithMeta;
    ModeSettles(THIRD_PARTY);
    ProfileSettles(fixed);
    MetaSettles();
    RenderStable(s.normal, WithMode(THIRD_PARTY));
    RenderStable(s.thirdParty, WithMode(THIRD_PARTY));
    RenderStable(s.profile, WithProfile(fixed));
    RenderStable(s.meta, WithMeta());
  }

  /** Plans that are carried out leave what was wanted, and nothing more to do. */
  lemma PlansDone(d: Disk, s: Snapshots, w: Snapshots)
    requires Quiet(d) && s == SnapshotsOf(d.files)
    ensures var (e, r) := Commit(d, PlansFor(s, w));
            && (r.NoChange? || r.Committed? ==> SnapshotsOf(e.files) == w && Commit(e, PlansFor(w, w)).1 == NoChange)
            && (r == Failed(true) ==> e.files == d.files)
  {
    hide Quiet, Apply, Restore, SameElsewhere;
    var plans := PlansFor(s, w);
    AllOrNothing(d, plans);
    var (e, r) := Commit(d, plans);
    if r.NoChange? || r.Committed? {
      assert forall i :: 0 <= i < |plans| ==> Content(e.files, plans[i].path) == plans[i].after;
      assert plans[0].path == 0 && plans[1].path == 1 && plans[2].path == 2 && plans[3].path == 3;
      assert SnapshotsOf(e.files) == w;
      NothingToDo(w);
    }
  }

  /**
   * A repair that is committed while nobody else writes leaves a configuration that matches and that a further repair
   * does not change; one that fails and was restored leaves exactly the files there were.
   */
  lemma RepairEstablishes(d: Disk, fixed: seq<Entry>)
    requires Quiet(d) && GoodFixed(fixed) && Wanted(SnapshotsOf(d.files), fixed).Some?
    ensures var s := SnapshotsOf(d.files);
            var plans := PlansFor(s, Wanted(s, fixed).value);
            var (e, r) := Commit(d, plans);
            && (r.NoChange? || r.Committed? ==>
                  ConfigurationMatches(SnapshotsOf(e.files), fixed)
                  && Commit(e, PlansFor(SnapshotsOf(e.files), Wanted(SnapshotsOf(e.files), fixed).value)).1 == NoChange)
            && (r == Failed(true) ==> e.files == d.files)
  {
    hide Quiet, Commit, Wanted, ConfigurationMatches;
    var s := SnapshotsOf(d.files);
    var w := Wanted(s, fixed).value;
    PlansDone(d, s, w);
    WantedMatches(s, fixed);
    assert Wanted(w, fixed) == Some(w) by { MatchingWants(w, fixed); }
  }

  lemma MatchingWants(s: Snapshots, fixed: seq<Entry>)
    requires ConfigurationMatches(s, fixed)
    ensures Wanted(s, fixed) == Some(s)
  {}

  lemma {:induction false} NoneChanged(plans: seq<Plan>)
    requires forall p <- plans :: p.before == p.after
    ensures Changed(plans) == []
  {
    if plans != [] {
      assert plans[0] in plans;
      NoneChanged(plans[1..]);
    }
  }

  lemma NothingToDo(w: Snapshots)
    ensures Changed(PlansFor(w, w)) == []
  {
    NoneChanged(PlansFor(w, w));
  }

  // ---------------------------------------------------------------- going back to the official configuration

  const GATEWAY_KEYS: set<Str> := {
    Ascii("disableDeploymentModeChooser"), Ascii("inferenceGatewayApiKey"), Ascii("inferenceGatewayAuthScheme"),
    Ascii("inferenceGatewayBaseUrl"), Ascii("inferenceProvider")
  }

  /** renderOfficialThirdPartyConfig. */
  function WithoutGateway(): Object -> Option<Object> {
    (o: Object) =>
      var r := Put(o, DEPLOYMENT_MODE, JStr(FIRST_PARTY));
      var e := FieldOf(o, ENTERPRISE);
      if e.Some? && e.value.JObj? then
        var left := Delete(e.value.entries, GATEWAY_KEYS);
        Some(if left == [] then Delete(r, {ENTERPRISE}) else Put(r, ENTERPRISE, JObj(left)))
      else Some(r)
  }

  /** The first entry with an id that is not blank. */
  function FirstNamed(vs: seq<Json>): Option<Str> {
    if vs == [] then None
    else match Field(vs[0], ID)
      case Some(JStr(id)) => if AllSpace(id) then FirstNamed(vs[1..]) else Some(id)
      case _ => FirstNamed(vs[1..])
  }

  function OfficialEntries(o: Object): Object {
    var e := FieldOf(o, ENTRIES);
    if e.Some? && e.value.JArr? then Put(o, ENTRIES, JArr(Others(e.value.items))) else o
  }

  /** renderOfficialMeta. */
  function WithoutStone(): Object -> Option<Object> {
    (o: Object) =>
      var r := OfficialEntries(o);
      if FieldOf(o, APPLIED) == Some(JStr(STONE_ID)) then
        var next := FirstNamed(Others(Listed(o)));
        Some(if next.Some? then Put(r, APPLIED, JStr(next.value)) else Delete(r, {APPLIED}))
      else Some(r)
  }

  lemma ModesDiffer()
    ensures DEPLOYMENT_MODE != ENTERPRISE && ENTRIES != APPLIED
  {
    assert |DEPLOYMENT_MODE| == 14 && |ENTERPRISE| == 16 && |ENTRIES| == 7 && |APPLIED| == 9;
  }

  lemma {:induction false} OthersFacts(vs: seq<Json>)
    ensures Others(Others(vs)) == Others(vs) && (forall v <- Others(vs) :: v in vs && !IsStone(v))
  {
    hide IsStone, Others;
    if vs == [] {
      OthersEmpty();
    } else {
      var n := |vs| - 1;
      assert vs == vs[..n] + [vs[n]];
      OthersFacts(vs[..n]);
      OthersSnoc(vs[..n], vs[n]);
      OthersSnoc(Others(vs[..n]), vs[n]);
      assert Others(vs[..n]) + [] == Others(vs[..n]);
    }
  }

  lemma {:induction false} FirstNamedIs(vs: seq<Json>)
    requires forall v <- vs :: !IsStone(v)
    ensures FirstNamed(vs) != Some(STONE_ID)
  {
    if vs != [] {
      assert vs[0] in vs;
      FirstNamedIs(vs[1..]);
    }
  }

  lemma GatewaySettles()
    ensures Settling(WithoutGateway())
  {
    hide FieldOf, Put, Delete, WellFormed;
    var change := WithoutGateway();
    forall o: Object | SoundEntries(o) && change(o).Some?
      ensures SoundEntries(change(o).value) && change(change(o).value) == Some(change(o).value)
    {
      GatewayTwice(o);
    }
  }

  lemma GatewayTwice(o: Object)
    requires SoundEntries(o)
    ensures var x := WithoutGateway()(o).value; SoundEntries(x) && WithoutGateway()(x) == Some(x)
  {
    hide FieldOf, Put, Delete, WellFormed, SoundEntries, GATEWAY_KEYS;
    ModesDiffer();
    var mode := JStr(FIRST_PARTY);
    StringsSound(FIRST_PARTY);
    PutSound(o, DEPLOYMENT_MODE, mode);
    var r := Put(o, DEPLOYMENT_MODE, mode);
    PutField(o, DEPLOYMENT_MODE, mode, DEPLOYMENT_MODE);
    PutField(o, DEPLOYMENT_MODE, mode, ENTERPRISE);
    PutSame(r, DEPLOYMENT_MODE, mode);
    var e := FieldOf(o, ENTERPRISE);
    if e.Some? && e.value.JObj? {
      FieldSound(o, ENTERPRISE);
      ObjectSound(e.value);
      var left := Delete(e.value.entries, GATEWAY_KEYS);
      DeleteSound(e.value.entries, GATEWAY_KEYS);
      DeleteTwice(e.value.entries, GATEWAY_KEYS);
      DeleteSound(r, {ENTERPRISE});
      DeleteField(r, {ENTERPRISE}, DEPLOYMENT_MODE);
      DeleteField(r, {ENTERPRISE}, ENTERPRISE);
      ObjectSound(JObj(left));
      PutSound(r, ENTERPRISE, JObj(left));
      PutField(r, ENTERPRISE, JObj(left), DEPLOYMENT_MODE);
      PutField(r, ENTERPRISE, JObj(left), ENTERPRISE);
      var x := WithoutGateway()(o).value;
      PutSame(x, DEPLOYMENT_MODE, mode);
      if left != [] { PutSame(x, ENTERPRISE, JObj(left)); }
    }
  }

  /** The official metadata lists the other entries as they were, and does not apply Stone+'s profile. */
  lemma OfficialMeta(o: Object)
    requires SoundEntries(o)
    ensures var x := WithoutStone()(o).value;
            && SoundEntries(x) && WithoutStone()(x) == Some(x)
            && Listed(x) == Others(Listed(o)) && (forall v <- Listed(x) :: !IsStone(v))
            && FieldOf(x, APPLIED) != Some(JStr(STONE_ID))
  {
    hide FieldOf, Put, Delete, WellFormed, SoundEntries, IsStone, Others, FirstNamed;
    ModesDiffer();
    var vs := Listed(o);
    OthersFacts(vs);
    FirstNamedIs(Others(vs));
    OthersEmpty();
    FieldSound(o, ENTRIES);
    ListedSound(o);
    ArraySound(Others(vs));
    var r := OfficialEntries(o);
    PutSound(o, ENTRIES, JArr(Others(vs)));
    PutField(o, ENTRIES, JArr(Others(vs)), ENTRIES);
    PutField(o, ENTRIES, JArr(Others(vs)), APPLIED);
    var next := FirstNamed(Others(vs));
    var x := WithoutStone()(o).value;
    if FieldOf(o, APPLIED) == Some(JStr(STONE_ID)) {
      if next.Some? {
        StringsSound(next.value);
        PutSound(r, APPLIED, JStr(next.value));
        PutField(r, APPLIED, JStr(next.value), APPLIED);
        PutField(r, APPLIED, JStr(next.value), ENTRIES);
      } else {
        DeleteSound(r, {APPLIED});
        DeleteField(r, {APPLIED}, APPLIED);
        DeleteField(r, {APPLIED}, ENTRIES);
      }
    }
    if FieldOf(x, ENTRIES).Some? && FieldOf(x, ENTRIES).value.JArr? { PutSame(x, ENTRIES, JArr(Others(vs))); }
  }

  lemma OthersEmpty()
    ensures Others([]) == []
  {}

  /**
   * Repairing and going back: the metadata again lists exactly the entries that were not Stone+'s, in their order,
   * and Stone+'s profile is not applied.
   */
  lemma OfficialUndoesRepair(o: Object)
    requires SoundEntries(o) && WithMeta()(o).Some?
    ensures var x := WithoutStone()(WithMeta()(o).value).value;
            && Listed(x) == Others(Listed(o)) && (forall v <- Listed(x) :: !IsStone(v))
            && FieldOf(x, APPLIED) != Some(JStr(STONE_ID))
  {
    hide FieldOf, SoundEntries, IsStone, Others, MetaEntries, WithMeta, WithoutStone, SetAll;
    MetaTwice(o);
    MetaEntriesFacts(Listed(o));
    OfficialMeta(WithMeta()(o).value);
  }

  lemma StoneSettles()
    ensures Settling(WithoutStone())
  {
    hide SoundEntries, WithoutStone, Listed;
    var change := WithoutStone();
    forall o: Object | SoundEntries(o) && change(o).Some?
      ensures SoundEntries(change(o).value) && change(change(o).value) == Some(change(o).value)
    {
      OfficialMeta(o);
    }
  }

  /** The contents buildOfficialRestorePlans wants; None when it throws. */
  function OfficialWanted(s: Snapshots): Option<Snapshots> {
    var a := RenderWith(s.normal, WithMode(FIRST_PARTY));
    var b := RenderWith(s.thirdParty, WithoutGateway());
    var d := RenderWith(s.meta, WithoutStone());
    if a.None? || b.None? || (s.meta.Some? && d.None?) then None
    else Some(Snapshots(a, b, None, if s.meta.Some? then d else None))
  }

  /** Going back a second time changes nothing. */
  lemma OfficialStable(s: Snapshots)
    requires OfficialWanted(s).Some?
    ensures OfficialWanted(OfficialWanted(s).value) == OfficialWanted(s)
  {
    hide RenderWith, Settling, WithMode, WithoutGateway, WithoutStone;
    ModeSettles(FIRST_PARTY);
    GatewaySettles();
    StoneSettles();
    RenderStable(s.normal, WithMode(FIRST_PARTY));
    RenderStable(s.thirdParty, WithoutGateway());
    if s.meta.Some? { RenderStable(s.meta, WithoutStone()); }
  }
}
