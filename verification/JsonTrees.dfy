/**
 * The values of RFC 8259 as trees of tokens: JSON.parse reads exactly the texts of a tree, and gives the tree's
 * value.
 */
module JsonTrees {
  import opened Units
  import opened JsonText
  import opened JsonGrammar
  import opened JsonSyntax

  // ---------------------------------------------------------------- trees

  datatype Tree = Leaf(token: Token) | Items(items: seq<Tree>) | Members(members: seq<Member>)
  datatype Member = Member(name: Str, tree: Tree)

  predicate SoundTree(x: Tree) {
    match x
    case Leaf(token) => !token.Punct?
    case Items(items) => forall y <- items :: SoundTree(y)
    case Members(members) => forall m <- members :: SoundTree(m.tree)
  }

  function Flatten(x: Tree): seq<Token>
    decreases x
  {
    match x
    case Leaf(token) => [token]
    case Items(items) => [Punct(0x5B)] + FlattenItems(items) + [Punct(0x5D)]
    case Members(members) => [Punct(0x7B)] + FlattenMembers(members) + [Punct(0x7D)]
  }

  function FlattenItems(items: seq<Tree>): seq<Token>
    decreases items
  {
    if items == [] then []
    else Flatten(items[0]) + if |items| == 1 then [] else [Punct(0x2C)] + FlattenItems(items[1..])
  }

  function FlattenMembers(members: seq<Member>): seq<Token>
    decreases members
  {
    if members == [] then []
    else
      [Text(members[0].name), Punct(0x3A)] + Flatten(members[0].tree)
      + if |members| == 1 then [] else [Punct(0x2C)] + FlattenMembers(members[1..])
  }

  function ValueOf(x: Tree): Json
    decreases x
  {
    match x
    case Leaf(Word(v)) => v
    case Leaf(Text(s)) => JStr(s)
    case Leaf(Punct(_)) => JNull
    case Items(items) => JArr(ValuesOf(items))
    case Members(members) => JObj(Assigned([], members))
  }

  function ValuesOf(items: seq<Tree>): seq<Json>
    decreases items
  {
    if items == [] then [] else [ValueOf(items[0])] + ValuesOf(items[1..])
  }

  /** Assigning the members one after another. */
  function Assigned(es: seq<Entry>, members: seq<Member>): seq<Entry>
    decreases members
  {
    if members == [] then es else Assigned(Put(es, members[0].name, ValueOf(members[0].tree)), members[1..])
  }

  // ---------------------------------------------------------------- every tree is read

  lemma FlattenHead(x: Tree)
    requires SoundTree(x)
    ensures Flatten(x) != [] && Flatten(x)[0] != Punct(CLOSE_BRACKET)
  {}

  lemma {:induction false} TreeReads(x: Tree, rest: seq<Token>)
    requires SoundTree(x)
    ensures ParseValue(Flatten(x) + rest) == Got(ValueOf(x), rest)
    decreases x, 0
  {
    hide FlattenItems, FlattenMembers, ParseItems, ParseEntries, Assigned, ValuesOf;
    var ts := Flatten(x) + rest;
    match x {
      case Leaf(token) => assert ts[1..] == rest;
      case Items(items) =>
        if items == [] {
          NoTrees();
          assert ts[2..] == rest;
        } else {
          ItemsRead(items, rest);
          ItemsHead(items);
          assert ts[1..] == FlattenItems(items) + [Punct(CLOSE_BRACKET)] + rest;
        }
      case Members(members) =>
        if members == [] {
          NoTrees();
          assert ts[2..] == rest;
        } else {
          MembersRead([], members, rest);
          MembersHead(members);
          assert ts[1..] == FlattenMembers(members) + [Punct(CLOSE_BRACE)] + rest;
        }
    }
  }

  lemma NoTrees()
    ensures FlattenItems([]) == [] && FlattenMembers([]) == [] && ValuesOf([]) == [] && Assigned([], []) == []
  {}

  lemma ItemsHead(items: seq<Tree>)
    requires items != [] && forall y <- items :: SoundTree(y)
    ensures FlattenItems(items) != [] && FlattenItems(items)[0] != Punct(CLOSE_BRACKET)
  {
    hide Flatten, SoundTree;
    assert items[0] in items;
    FlattenHead(items[0]);
  }

  lemma MembersHead(members: seq<Member>)
    requires members != []
    ensures FlattenMembers(members) != [] && FlattenMembers(members)[0].Text?
  {
    hide Flatten;
  }

  lemma {:induction false} ItemsRead(items: seq<Tree>, rest: seq<Token>)
    requires items != [] && forall y <- items :: SoundTree(y)
    ensures ParseItems(FlattenItems(items) + [Punct(CLOSE_BRACKET)] + rest) == GotItems(ValuesOf(items), rest)
    decreases items
  {
    hide Flatten, FlattenItems, ParseValue, SoundTree, ValueOf, ValuesOf;
    assert items[0] in items;
    ItemTokens(items, rest);
    ValuesUnfold(items);
    var more := FlattenItems(items[1..]) + [Punct(CLOSE_BRACKET)] + rest;
    var after := if |items| == 1 then [Punct(CLOSE_BRACKET)] + rest else [Punct(COMMA)] + more;
    TreeReads(items[0], after);
    if |items| == 1 {
      assert after[1..] == rest;
    } else {
      assert forall y <- items[1..] :: y in items;
      ItemsRead(items[1..], rest);
      assert after[1..] == more;
    }
  }

  lemma ValuesUnfold(items: seq<Tree>)
    requires items != []
    ensures ValuesOf(items) == [ValueOf(items[0])] + ValuesOf(items[1..])
    ensures |items| == 1 ==> ValuesOf(items) == [ValueOf(items[0])]
  {
    hide ValueOf;
  }

  lemma ItemsUnfold(items: seq<Tree>)
    requires items != []
    ensures FlattenItems(items) ==
            Flatten(items[0]) + if |items| == 1 then [] else [Punct(COMMA)] + FlattenItems(items[1..])
  {
    hide Flatten;
  }

  lemma ItemTokens(items: seq<Tree>, rest: seq<Token>)
    requires items != []
    ensures var more := FlattenItems(items[1..]) + [Punct(CLOSE_BRACKET)] + rest;
            var after := if |items| == 1 then [Punct(CLOSE_BRACKET)] + rest else [Punct(COMMA)] + more;
            FlattenItems(items) + [Punct(CLOSE_BRACKET)] + rest == Flatten(items[0]) + after
  {
    hide Flatten, FlattenItems;
    ItemsUnfold(items);
    var close := [Punct(CLOSE_BRACKET)];
    if |items| == 1 {
      assert Flatten(items[0]) + [] == Flatten(items[0]);
      Regroup(Flatten(items[0]), close, rest, []);
    } else {
      var more := FlattenItems(items[1..]);
      Regroup(Flatten(items[0]), [Punct(COMMA)] + more, close, rest);
      Regroup([Punct(COMMA)], more, close, rest);
      assert [Punct(COMMA)] + more + (close + rest) == [Punct(COMMA)] + (more + (close + rest)) by {
        Regroup([Punct(COMMA)], more, [], close + rest);
      }
    }
  }

  lemma {:induction false} MembersRead(seen: seq<Entry>, members: seq<Member>, rest: seq<Token>)
    requires members != [] && forall m <- members :: SoundTree(m.tree)
    ensures ParseEntries(FlattenMembers(members) + [Punct(CLOSE_BRACE)] + rest, seen) == GotEntries(Assigned(seen, members), rest)
    decreases members
  {
    hide Flatten, FlattenMembers, ParseValue, SoundTree, ValueOf, Put, Assigned;
    var m := members[0];
    assert m in members;
    AssignedStep(seen, members);
    MemberTokens(members, rest);
    var more := FlattenMembers(members[1..]) + [Punct(CLOSE_BRACE)] + rest;
    var after := if |members| == 1 then [Punct(CLOSE_BRACE)] + rest else [Punct(COMMA)] + more;
    BehindTwo(Text(m.name), Punct(COLON), Flatten(m.tree) + after);
    TreeReads(m.tree, after);
    if |members| == 1 {
      assert after[1..] == rest;
    } else {
      assert forall x <- members[1..] :: x in members;
      MembersRead(Put(seen, m.name, ValueOf(m.tree)), members[1..], rest);
      assert after[1..] == more;
    }
  }

  lemma MemberTokens(members: seq<Member>, rest: seq<Token>)
    requires members != []
    ensures var m, ts := members[0], FlattenMembers(members) + [Punct(CLOSE_BRACE)] + rest;
            var more := FlattenMembers(members[1..]) + [Punct(CLOSE_BRACE)] + rest;
            var after := if |members| == 1 then [Punct(CLOSE_BRACE)] + rest else [Punct(COMMA)] + more;
            ts == [Text(m.name), Punct(COLON)] + (Flatten(m.tree) + after)
  {
    hide Flatten, FlattenMembers;
    MembersUnfold(members);
    var more := if |members| == 1 then [] else [Punct(COMMA)] + FlattenMembers(members[1..]);
    var close := [Punct(CLOSE_BRACE)];
    Regroup([Text(members[0].name), Punct(COLON)], Flatten(members[0].tree), more, close + rest);
    Regroup(FlattenMembers(members), close, rest, []);
    if |members| == 1 {
      assert [] + (close + rest) == close + rest;
    } else {
      Regroup([Punct(COMMA)], FlattenMembers(members[1..]), close, rest);
      assert more + (close + rest) == [Punct(COMMA)] + (FlattenMembers(members[1..]) + (close + rest)) by {
        Regroup([Punct(COMMA)], FlattenMembers(members[1..]), [], close + rest);
      }
    }
  }

  lemma Regroup(a: seq<Token>, b: seq<Token>, c: seq<Token>, d: seq<Token>)
    ensures a + b + c + d == a + (b + (c + d)) && a + b + d == a + (b + d) && a + b + c == a + (b + c)
        && b + c + d == b + (c + d)
  {}

  lemma BehindTwo(a: Token, b: Token, rest: seq<Token>)
    ensures var ts := [a, b] + rest; ts[0] == a && ts[1] == b && ts[2..] == rest
  {}

  lemma MembersUnfold(members: seq<Member>)
    requires members != []
    ensures FlattenMembers(members) ==
            [Text(members[0].name), Punct(COLON)] + Flatten(members[0].tree)
            + if |members| == 1 then [] else [Punct(COMMA)] + FlattenMembers(members[1..])
  {
    hide Flatten;
  }

  lemma AssignedStep(seen: seq<Entry>, members: seq<Member>)
    requires members != []
    ensures var seen' := Put(seen, members[0].name, ValueOf(members[0].tree));
            Assigned(seen, members) == Assigned(seen', members[1..])
                && (|members| == 1 ==> Assigned(seen, members) == seen')
  {}

  // ---------------------------------------------------------------- what is read is a tree

  lemma {:induction false} ReadIsTree(ts: seq<Token>) returns (x: Tree)
    requires ParseValue(ts).Got?
    ensures SoundTree(x) && ts == Flatten(x) + ParseValue(ts).rest && ValueOf(x) == ParseValue(ts).value
    decreases |ts|, 0
  {
    hide ParseItems, ParseEntries, FlattenItems, FlattenMembers, Assigned, ValuesOf;
    assert ts == [ts[0]] + ts[1..];
    match ts[0] {
      case Word(v) => x := Leaf(ts[0]);
      case Text(s) => x := Leaf(ts[0]);
      case Punct(u) =>
        NoTrees();
        if u == OPEN_BRACKET {
          if |ts| > 1 && ts[1] == Punct(CLOSE_BRACKET) {
            x := Items([]);
            assert ts == [ts[0], ts[1]] + ts[2..];
          } else {
            var items := ReadAreItems(ts[1..]);
            x := Items(items);
          }
        } else {
          if |ts| > 1 && ts[1] == Punct(CLOSE_BRACE) {
            x := Members([]);
            assert ts == [ts[0], ts[1]] + ts[2..];
          } else {
            var members := ReadAreMembers(ts[1..], []);
            x := Members(members);
          }
        }
    }
  }

  lemma {:induction false} ReadAreItems(ts: seq<Token>) returns (items: seq<Tree>)
    requires ParseItems(ts).GotItems?
    ensures items != [] && (forall y <- items :: SoundTree(y))
    ensures ts == FlattenItems(items) + [Punct(CLOSE_BRACKET)] + ParseItems(ts).rest
    ensures ValuesOf(items) == ParseItems(ts).items
    decreases |ts|, 1
  {
    hide ParseValue, Flatten, SoundTree, ValueOf;
    var x := ReadIsTree(ts);
    var rest := ParseValue(ts).rest;
    assert rest == [rest[0]] + rest[1..];
    if rest[0] == Punct(CLOSE_BRACKET) {
      items := [x];
      assert ValuesOf([x]) == [ValueOf(x)];
    } else {
      var more := ReadAreItems(rest[1..]);
      items := [x] + more;
      assert items[1..] == more;
    }
  }

  lemma {:induction false} ReadAreMembers(ts: seq<Token>, seen: seq<Entry>) returns (members: seq<Member>)
    requires ParseEntries(ts, seen).GotEntries?
    ensures members != [] && (forall m <- members :: SoundTree(m.tree))
    ensures ts == FlattenMembers(members) + [Punct(CLOSE_BRACE)] + ParseEntries(ts, seen).rest
    ensures Assigned(seen, members) == ParseEntries(ts, seen).entries
    decreases |ts|, 1
  {
    hide ParseValue, Flatten, SoundTree, ValueOf, Put;
    assert ts == [ts[0], ts[1]] + ts[2..];
    var x := ReadIsTree(ts[2..]);
    var m := Member(ts[0].s, x);
    var rest := ParseValue(ts[2..]).rest;
    var seen' := Put(seen, m.name, ValueOf(x));
    assert rest == [rest[0]] + rest[1..];
    if rest[0] == Punct(CLOSE_BRACE) {
      members := [m];
      assert Assigned(seen, [m]) == Assigned(seen', []);
    } else {
      var more := ReadAreMembers(rest[1..], seen');
      members := [m] + more;
      assert members[1..] == more;
    }
  }

  // ---------------------------------------------------------------- repeated names

  predicate Has(members: seq<Member>, name: Str) { exists m <- members :: m.name == name }

  /** Member `i` is the last one of its name. */
  predicate IsLast(members: seq<Member>, i: nat) {
    i < |members| && forall j :: i < j < |members| ==> members[j].name != members[i].name
  }

  /** A repeated name has the value of its last member. */
  lemma {:induction false} LastCounts(es: seq<Entry>, members: seq<Member>, q: Str)
    ensures forall i :: 0 <= i < |members| && IsLast(members, i) && members[i].name == q ==>
              FieldOf(Assigned(es, members), q) == Some(ValueOf(members[i].tree))
    ensures !Has(members, q) ==> FieldOf(Assigned(es, members), q) == FieldOf(es, q)
    decreases |members|
  {
    hide FieldOf, Put, ValueOf;
    if members != [] {
      var m, rest := members[0], members[1..];
      LastCounts(Put(es, m.name, ValueOf(m.tree)), rest, q);
      PutField(es, m.name, ValueOf(m.tree), q);
      assert members == [m] + rest && m in members;
      forall i | 0 <= i < |members| && IsLast(members, i) && members[i].name == q
        ensures FieldOf(Assigned(es, members), q) == Some(ValueOf(members[i].tree))
      {
        if i > 0 { assert IsLast(rest, i - 1); } else { assert !Has(rest, q) by { NotAgain(members); } }
      }
    }
  }

  lemma NotAgain(members: seq<Member>)
    requires IsLast(members, 0)
    ensures !Has(members[1..], members[0].name)
  {
    forall m | m in members[1..] ensures m.name != members[0].name {
      var j :| 0 <= j < |members| - 1 && members[1..][j] == m;
      assert members[j + 1] == m;
    }
  }

  /** The names in the order of their first members. */
  function Names(seen: seq<Str>, members: seq<Member>): seq<Str>
    decreases |members|
  {
    if members == [] then seen
    else Names(if members[0].name in seen then seen else seen + [members[0].name], members[1..])
  }

  function KeysOf(es: seq<Entry>): seq<Str> { seq(|es|, i requires 0 <= i < |es| => es[i].key) }

  lemma {:induction false} PutKeys(es: seq<Entry>, k: Str, v: Json)
    ensures KeysOf(Put(es, k, v)) == if k in KeysOf(es) then KeysOf(es) else KeysOf(es) + [k]
  {
    hide KeysOf;
    if es == [] {
      KeysStep(Entry(k, v), []);
    } else {
      assert es == [es[0]] + es[1..];
      KeysStep(es[0], es[1..]);
      KeysStep(Entry(k, v), es[1..]);
      if es[0].key != k {
        PutKeys(es[1..], k, v);
        KeysStep(es[0], Put(es[1..], k, v));
        if k !in KeysOf(es[1..]) { assert [es[0].key] + (KeysOf(es[1..]) + [k]) == [es[0].key] + KeysOf(es[1..]) + [k]; }
      }
    }
  }

  lemma KeysStep(e: Entry, es: seq<Entry>)
    ensures KeysOf([e] + es) == [e.key] + KeysOf(es) && KeysOf([]) == [] && KeysOf([e]) == [e.key]
  {}

  /** A repeated name keeps the place of its first member. */
  lemma {:induction false} FirstPlaces(es: seq<Entry>, members: seq<Member>)
    ensures KeysOf(Assigned(es, members)) == Names(KeysOf(es), members)
    decreases |members|
  {
    hide Put, ValueOf, KeysOf;
    if members != [] {
      PutKeys(es, members[0].name, ValueOf(members[0].tree));
      FirstPlaces(Put(es, members[0].name, ValueOf(members[0].tree)), members[1..]);
    }
  }

  // ---------------------------------------------------------------- JSON.parse

  /** A text of sound lexemes whose tokens are those of a tree is read as the tree's value. */
  lemma Accepts(xs: seq<Spaced>, end: Str, x: Tree)
    requires SoundText(xs, end) && SoundTree(x)
    requires (forall y <- xs :: SoundLexeme(y.lexeme)) && TokensOf(xs) == Flatten(x)
    ensures JsonParse(TextOf(xs, end)) == Some(ValueOf(x))
  {
    hide Lex, ParseValue, Flatten, SoundText, SoundTree, TextOf, TokensOf;
    LexemesRead(xs, end);
    TreeReads(x, []);
    assert Flatten(x) + [] == Flatten(x);
  }

  /** Every text that is read is such a text. */
  lemma Reads(t: Str) returns (xs: seq<Spaced>, end: Str, x: Tree)
    requires JsonParse(t).Some?
    ensures SoundText(xs, end) && SoundTree(x) && t == TextOf(xs, end)
    ensures (forall y <- xs :: SoundLexeme(y.lexeme)) && TokensOf(xs) == Flatten(x)
    ensures JsonParse(t).value == ValueOf(x)
  {
    hide Lex, ParseValue, Flatten, SoundText, SoundTree, TextOf, TokensOf;
    xs, end := TextIsLexemes(t);
    LexemesSound(xs, end);
    x := ReadIsTree(Lex(t).value);
    assert Flatten(x) + [] == Flatten(x);
  }
}
