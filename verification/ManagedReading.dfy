/** What readManagedSettings reads, told by the members of the document; and that trailing commas make no difference. */
module ManagedReading {
  import opened Units
  import opened JsonText
  import opened JsonGrammar
  import opened JsoncGrammar
  import opened JsoncSoundness
  import opened JsoncEdit
  import opened JsoncPrint
  import opened JsoncReading
  import opened ManagedSettings

  /** The texts of the values a document gives a key. */
  function ValuesOf(ms: seq<Member>, key: Str): seq<Str> {
    if ms == [] then []
    else
      var n := |ms| - 1;
      ValuesOf(ms[..n], key) + if KeyOf(ms[n]) == key then [ms[n].value] else []
  }

  /** A key that is given twice or whose value cannot be read is broken. */
  function Meaning(values: seq<Str>): Setting {
    if values == [] then Absent
    else if |values| > 1 || ParseJsonc(values[0]).None? then Broken
    else Found(ParseJsonc(values[0]).value)
  }

  lemma {:induction false} PositionsAre(ps: seq<Property>, ms: seq<Member>, key: Str)
    requires |ps| == |ms| && forall i :: 0 <= i < |ps| ==> ps[i].key == KeyOf(ms[i])
    ensures var r := PositionsOf(ps, key);
            |r| == |ValuesOf(ms, key)| && forall i :: 0 <= i < |r| ==> ValuesOf(ms, key)[i] == ms[r[i]].value
  {
    hide KeyOf;
    if ps != [] {
      var n := |ps| - 1;
      PositionsAre(ps[..n], ms[..n], key);
      forall i | 0 <= i < |PositionsOf(ps[..n], key)| ensures ms[..n][PositionsOf(ps[..n], key)[i]] == ms[PositionsOf(ps[..n], key)[i]] {}
    }
  }

  lemma SettingIs(d: Doc, key: Str)
    requires GoodDoc(d)
    ensures SettingOf(DocText(d), DocRoot(d), key) == Meaning(ValuesOf(d.members, key))
  {
    hide ParseJsonc, DocText, PositionsOf, KeyOf, GoodDoc;
    var ps := DocRoot(d).properties;
    RootMembers(d);
    forall i | 0 <= i < |ps| ensures ps[i].key == KeyOf(d.members[i]) {
      BodyAroundValue(d.members, d.tail, i, |d.lead| + 1);
    }
    PositionsAre(ps, d.members, key);
    var r := PositionsOf(ps, key);
    if |r| == 1 { DocSetting(d, key, r[0]); }
  }

  /** readManagedSettings fails exactly when either key is broken or the environment is no array. */
  lemma ReadsDocument(d: Doc)
    requires GoodDoc(d)
    ensures var e, l := Meaning(ValuesOf(d.members, ENVIRONMENT)), Meaning(ValuesOf(d.members, DISABLE_LOGIN));
            ReadManaged(DocText(d))
            == if e.Broken? || l.Broken? || (e.Found? && !e.v.JArr?) then None
               else Some(Settings(if e.Found? then e.v.items else [], l == Found(JBool(true))))
  {
    hide ParseJsonc, DocText, DocRoot, GoodDoc, ReadDoc, SettingOf, Meaning, ValuesOf;
    WriteThenRead(d);
    SettingIs(d, ENVIRONMENT);
    SettingIs(d, DISABLE_LOGIN);
  }

  /** An environment array with a comma before its closing bracket is read as the array without it. */
  lemma TrailingCommaIgnored(d: Doc, d': Doc, v: Json, g: Str, ws: Str)
    requires GoodDoc(d) && GoodDoc(d') && ValuesOf(d.members, DISABLE_LOGIN) == ValuesOf(d'.members, DISABLE_LOGIN)
    requires WellFormed(v) && v.JArr? && HasParts(v) && IsGap(g) && AllJsonSpace(g) && AllJsonSpace(ws)
    requires ValuesOf(d.members, ENVIRONMENT) == [TrailingText(v, g, ws)]
        && ValuesOf(d'.members, ENVIRONMENT) == [Print(v, g)]
    ensures ReadManaged(DocText(d)) == ReadManaged(DocText(d'))
    ensures ReadManaged(DocText(d)).Some? ==> ReadManaged(DocText(d)).value.environment == v.items
  {
    hide ParseJsonc, DocText, GoodDoc, ReadManaged, ValuesOf, TrailingText, Print, WellFormed;
    ReadsDocument(d);
    ReadsDocument(d');
    TrailingCommaReads(v, g, ws);
  }

  // ---------------------------------------------------------------- matching

  predicate Names(v: Json, name: string) { Field(v, Ascii("name")) == Some(JStr(Ascii(name))) }

  predicate Sets(v: Json, name: string, value: Str) { Names(v, name) && Field(v, Ascii("value")) == Some(JStr(value)) }

  predicate IsStonePlus(v: Json) { Names(v, "ANTHROPIC_BASE_URL") || Names(v, "ANTHROPIC_AUTH_TOKEN") }

  ghost predicate OnlyAt(vs: seq<Json>, i: nat, j: nat) {
    && i < |vs| && j < |vs| && i != j && IsStonePlus(vs[i]) && IsStonePlus(vs[j])
    && forall k :: 0 <= k < |vs| && k != i && k != j ==> !IsStonePlus(vs[k])
  }

  lemma ManagedNames(v: Json)
    ensures IsManaged(v) <==> IsStonePlus(v)
  {}

  lemma {:induction false} NoneManaged(vs: seq<Json>)
    ensures Managed(vs) == [] <==> forall v <- vs :: !IsStonePlus(v)
  {
    hide IsManaged, IsStonePlus;
    if vs != [] {
      ManagedNames(vs[0]);
      NoneManaged(vs[1..]);
    }
  }

  ghost predicate OneAt(vs: seq<Json>, i: nat) {
    i < |vs| && IsStonePlus(vs[i]) && forall k :: 0 <= k < |vs| && k != i ==> !IsStonePlus(vs[k])
  }

  lemma {:induction false} OneManaged(vs: seq<Json>)
    ensures forall i: nat :: OneAt(vs, i) ==> Managed(vs) == [vs[i]]
    ensures |Managed(vs)| == 1 ==> exists i: nat :: OneAt(vs, i)
  {
    hide IsManaged, IsStonePlus, OneAt;
    if vs == [] {
      NoneAt();
    } else {
      ManagedNames(vs[0]);
      var rest := vs[1..];
      NoneManaged(rest);
      OneManaged(rest);
      forall i: nat | OneAt(vs, i) ensures i < |vs| && Managed(vs) == [vs[i]] { OneShift(vs, i); }
      if |Managed(vs)| == 1 {
        if IsStonePlus(vs[0]) {
          OneFirst(vs);
        } else {
          var i: nat :| OneAt(rest, i);
          OneLater(vs, i);
        }
      }
    }
  }

  lemma NoneAt()
    ensures forall i: nat :: !OneAt([], i)
  {}

  lemma OneShift(vs: seq<Json>, i: nat)
    requires OneAt(vs, i)
    ensures i < |vs|
    ensures if i == 0 then IsStonePlus(vs[0]) && forall v <- vs[1..] :: !IsStonePlus(v)
            else !IsStonePlus(vs[0]) && OneAt(vs[1..], i - 1) && vs[1..][i - 1] == vs[i]
  {
    hide IsStonePlus;
  }

  lemma OneFirst(vs: seq<Json>)
    requires vs != [] && IsStonePlus(vs[0]) && forall v <- vs[1..] :: !IsStonePlus(v)
    ensures OneAt(vs, 0)
  {
    hide IsStonePlus;
    forall k | 0 < k < |vs| ensures !IsStonePlus(vs[k]) { assert vs[k] == vs[1..][k - 1]; }
  }

  lemma OneLater(vs: seq<Json>, i: nat)
    requires vs != [] && !IsStonePlus(vs[0]) && OneAt(vs[1..], i)
    ensures OneAt(vs, i + 1)
  {
    hide IsStonePlus;
    forall k | 0 < k < |vs| && k != i + 1 ensures !IsStonePlus(vs[k]) { assert vs[k] == vs[1..][k - 1]; }
  }

  /** Filtering leaves two exactly when there are two, in their order. */
  lemma {:induction false} TwoManaged(vs: seq<Json>)
    ensures forall i: nat, j: nat :: i < j && OnlyAt(vs, i, j) ==> Managed(vs) == [vs[i], vs[j]]
    ensures |Managed(vs)| == 2 ==> exists i: nat, j: nat :: i < j && OnlyAt(vs, i, j)
  {
    hide IsManaged, IsStonePlus;
    if vs != [] {
      ManagedNames(vs[0]);
      var rest := vs[1..];
      assert forall k :: 0 <= k < |rest| ==> rest[k] == vs[k + 1];
      OneManaged(rest);
      TwoManaged(rest);
      forall i: nat, j: nat | i < j && OnlyAt(vs, i, j) ensures Managed(vs) == [vs[i], vs[j]] {
        if i == 0 { assert OneAt(rest, j - 1); } else { assert OnlyAt(rest, i - 1, j - 1); }
      }
      if |Managed(vs)| == 2 {
        if IsStonePlus(vs[0]) {
          var j: nat :| OneAt(rest, j);
          assert OnlyAt(vs, 0, j + 1);
        } else {
          var i: nat, j: nat :| i < j && OnlyAt(rest, i, j);
          assert OnlyAt(vs, i + 1, j + 1);
        }
      }
    }
  }

  /** One variable with the address, one with the token, and no third with either name. */
  ghost predicate HoldsTarget(vs: seq<Json>, t: Target) {
    exists i: nat, j: nat ::
      OnlyAt(vs, i, j) && Sets(vs[i], "ANTHROPIC_BASE_URL", t.url) && Sets(vs[j], "ANTHROPIC_AUTH_TOKEN", t.token)
  }

  lemma HoldsExactly(vs: seq<Json>, t: Target)
    ensures HoldsTarget(vs, t) <==>
            && |Managed(vs)| == 2
            && (exists v <- Managed(vs) :: Sets(v, "ANTHROPIC_BASE_URL", t.url))
            && (exists v <- Managed(vs) :: Sets(v, "ANTHROPIC_AUTH_TOKEN", t.token))
  {
    hide Managed, Field, Ascii;
    TwoManaged(vs);
    Lengths();
    if HoldsTarget(vs, t) {
      var i: nat, j: nat :| OnlyAt(vs, i, j) && Sets(vs[i], "ANTHROPIC_BASE_URL", t.url)
                            && Sets(vs[j], "ANTHROPIC_AUTH_TOKEN", t.token);
      if i < j {
        assert Managed(vs) == [vs[i], vs[j]] && vs[i] in [vs[i], vs[j]] && vs[j] in [vs[i], vs[j]];
      } else {
        assert OnlyAt(vs, j, i);
        assert Managed(vs) == [vs[j], vs[i]] && vs[i] in [vs[j], vs[i]] && vs[j] in [vs[j], vs[i]];
      }
    } else if |Managed(vs)| == 2 {
      var i: nat, j: nat :| i < j && OnlyAt(vs, i, j);
      assert OnlyAt(vs, j, i);
      assert Managed(vs) == [vs[i], vs[j]];
    }
  }

  lemma Lengths()
    ensures Ascii("ANTHROPIC_BASE_URL") != Ascii("ANTHROPIC_AUTH_TOKEN")
  {
    assert |Ascii("ANTHROPIC_BASE_URL")| == 18 && |Ascii("ANTHROPIC_AUTH_TOKEN")| == 20;
  }

  /**
   * A document matches a target if and only if its login setting is true and its environment is an array with the two
   * variables of the target and no other one of these names.
   */
  lemma MatchExactly(d: Doc, t: Target)
    requires GoodDoc(d)
    ensures var e := Meaning(ValuesOf(d.members, Ascii("claudeCode.environmentVariables")));
            var l := Meaning(ValuesOf(d.members, Ascii("claudeCode.disableLoginPrompt")));
            Match(DocText(d), t) <==> l == Found(JBool(true)) && e.Found? && e.v.JArr? && HoldsTarget(e.v.items, t)
  {
    hide DocText, GoodDoc, ReadManaged, Meaning, ValuesOf, Managed, HoldsTarget, Field, Ascii;
    ReadsDocument(d);
    HoldsExactly([], t);
    NoneManaged([]);
    var e := Meaning(ValuesOf(d.members, ENVIRONMENT));
    if e.Found? && e.v.JArr? { HoldsExactly(e.v.items, t); }
  }
}
