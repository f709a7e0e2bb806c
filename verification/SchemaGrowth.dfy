/** Schemas that grow: what an addition anywhere in a schema does to its contract. */
module SchemaGrowth {
  import opened ProtoParser
  import opened ProtoGrammar
  import opened ProtoAccepts
  import opened ProtoTables
  import opened SchemaContract
  import C = Contract

  // ---------- additions ----------

  /** The second list is the first with further elements put in anywhere. */
  predicate ListGrows<T(==)>(a: seq<T>, b: seq<T>)
    decreases |b|
  {
    if b == [] then a == []
    else (a != [] && a[0] == b[0] && ListGrows(a[1..], b[1..])) || ListGrows(a, b[1..])
  }

  /** The second declaration is the first with further declarations put in anywhere inside it. */
  predicate DeclGrows(x: Decl, y: Decl)
    decreases y, 0
  {
    match x
    case MessageDecl(name, body) => y.MessageDecl? && y.name == name && BodyGrows(body, y.body)
    case EnumDecl(name, values) => y.EnumDecl? && y.name == name && ListGrows(values, y.values)
    case OneofDecl(name, elems) => y.OneofDecl? && y.name == name && ListGrows(elems, y.elems)
    case _ => x == y
  }

  predicate BodyGrows(a: seq<Decl>, b: seq<Decl>)
    decreases b, 0
  {
    if b == [] then a == []
    else (a != [] && DeclGrows(a[0], b[0]) && BodyGrows(a[1..], b[1..])) || BodyGrows(a, b[1..])
  }

  predicate TopGrows(x: TopDecl, y: TopDecl) {
    if x.Inner? then y.Inner? && DeclGrows(x.decl, y.decl) else x == y
  }

  /** The second schema is the first with further declarations put in anywhere: at the top, or inside messages, oneofs and enums at any depth. */
  predicate SchemaGrows(a: seq<TopDecl>, b: seq<TopDecl>)
    decreases |b|
  {
    if b == [] then a == []
    else (a != [] && TopGrows(a[0], b[0]) && SchemaGrows(a[1..], b[1..])) || SchemaGrows(a, b[1..])
  }

  /** No enum inside gives one name to two different numbers. */
  ghost predicate EnumsClear(d: Decl)
    decreases d, 0
  {
    match d
    case MessageDecl(_, body) => AllEnumsClear(body)
    case EnumDecl(_, values) => Clear(EnumValues(values))
    case _ => true
  }

  ghost predicate AllEnumsClear(ds: seq<Decl>)
    decreases ds, 0
  {
    ds == [] || (EnumsClear(ds[0]) && AllEnumsClear(ds[1..]))
  }

  ghost predicate SchemaEnumsClear(ds: seq<TopDecl>) {
    forall k :: 0 <= k < |ds| && ds[k].Inner? ==> EnumsClear(ds[k].decl)
  }

  // ---------- what they add to a message or an enum ----------

  lemma {:induction false} OneofGrowth(a: seq<OneofElem>, b: seq<OneofElem>, oneof: string)
    requires ListGrows(a, b)
    ensures forall x :: x in OneofFields(a, oneof) ==> x in OneofFields(b, oneof)
    decreases |b|
  {
    hide FieldValue;
    if b != [] {
      if ListGrows(a, b[1..]) {
        OneofGrowth(a, b[1..], oneof);
      } else {
        OneofGrowth(a[1..], b[1..], oneof);
      }
    }
  }

  lemma {:induction false} EnumGrowth(a: seq<EnumElem>, b: seq<EnumElem>)
    requires ListGrows(a, b)
    ensures forall x :: x in EnumValues(a) ==> x in EnumValues(b)
    ensures EnumReservations(a) <= EnumReservations(b)
    decreases |b|
  {
    hide NumberValue, Joined;
    if b != [] {
      if ListGrows(a, b[1..]) {
        EnumGrowth(a, b[1..]);
      } else {
        EnumGrowth(a[1..], b[1..]);
      }
    }
  }

  lemma {:induction false} BodyGrowth(a: seq<Decl>, b: seq<Decl>)
    requires BodyGrows(a, b)
    ensures forall x :: x in OwnFields(a) ==> x in OwnFields(b)
    ensures Reservations(a) <= Reservations(b)
    decreases |b|
  {
    hide FieldsOfDecl, Joined, DeclGrows;
    if b != [] {
      if BodyGrows(a, b[1..]) {
        BodyGrowth(a, b[1..]);
      } else {
        BodyGrowth(a[1..], b[1..]);
        FieldGrowth(a[0], b[0]);
      }
    }
  }

  lemma FieldGrowth(x: Decl, y: Decl)
    requires DeclGrows(x, y)
    ensures forall f :: f in FieldsOfDecl(x) ==> f in FieldsOfDecl(y)
    ensures x.ReservedDecl? ==> y == x
  {
    hide FieldValue, OneofFields, BodyGrows, ListGrows;
    if x.OneofDecl? {
      OneofGrowth(x.elems, y.elems, x.name);
    }
  }

  /** A dictionary holds only what was entered. */
  lemma {:induction false} EnteredOnly<T>(m: map<string, T>, entries: seq<Named<T>>, name: string)
    requires name in Entered(m, entries)
    ensures (name in m && Entered(m, entries)[name] == m[name]) || Named(name, Entered(m, entries)[name]) in entries
    decreases |entries|
  {
    if entries != [] {
      EnteredOnly(m[entries[0].name := entries[0].value], entries[1..], name);
      assert forall x :: x in entries[1..] ==> x in entries;
      assert Named(entries[0].name, entries[0].value) == entries[0];
    }
  }

  lemma EnteredGrow<T(!new)>(a: seq<Named<T>>, b: seq<Named<T>>)
    requires (forall x :: x in a ==> x in b) && Clear(b)
    ensures C.SubMap(Entered(map[], a), Entered(map[], b))
  {
    hide Entered;
    forall name | name in Entered(map[], a)
      ensures name in Entered(map[], b) && Entered(map[], b)[name] == Entered(map[], a)[name]
    {
      EnteredOnly(map[], a, name);
      EnteredKeeps(map[], b, Named(name, Entered(map[], a)[name]));
    }
  }

  lemma FreshIsClear<T(!new)>(entries: seq<Named<T>>)
    requires Fresh({}, entries)
    ensures Clear(entries)
  {
    hide Fresh;
    FreshIsDistinct({}, entries);
    forall x, y | x in entries && y in entries && x.name == y.name
      ensures x.value == y.value
    {
      var j :| 0 <= j < |entries| && entries[j] == x;
      var k :| 0 <= k < |entries| && entries[k] == y;
    }
  }

  lemma MessageGrowth(name: string, a: seq<Decl>, b: seq<Decl>)
    requires BodyGrows(a, b) && BodyFits(b)
    ensures Extends(AMessage(name, MessageOf(a)), AMessage(name, MessageOf(b)))
  {
    hide Entered, OwnFields, Reservations, BodyGrows, Fresh, DeclFits, Clear, C.SubMap;
    BodyGrowth(a, b);
    FreshIsClear(OwnFields(b));
    EnteredGrow(OwnFields(a), OwnFields(b));
  }

  lemma EnumItemGrowth(name: string, a: seq<EnumElem>, b: seq<EnumElem>)
    requires ListGrows(a, b) && Clear(EnumValues(b))
    ensures Extends(AnEnum(name, EnumOf(a)), AnEnum(name, EnumOf(b)))
  {
    hide Entered, EnumValues, EnumReservations, ListGrows, Clear, C.SubMap;
    EnumGrowth(a, b);
    EnteredGrow(EnumValues(a), EnumValues(b));
  }

  // ---------- what they add to the definitions ----------

  /** Every definition of the first list is extended by one of the second. */
  ghost predicate Covers(a: seq<Definition>, b: seq<Definition>) {
    forall d :: d in a ==> exists e :: e in b && Extends(d, e)
  }

  lemma CoversParts(a: seq<Definition>, b: seq<Definition>, c: seq<Definition>, d: seq<Definition>)
    requires Covers(a, b) && Covers(c, d)
    ensures Covers(a + c, b + d)
  {
    hide Extends;
    forall x | x in a + c
      ensures exists e :: e in b + d && Extends(x, e)
    {
      if x in a {
        var e :| e in b && Extends(x, e);
        assert e in b + d;
      } else {
        var e :| e in d && Extends(x, e);
        assert e in b + d;
      }
    }
  }

  lemma CoversOne(d: Definition, e: Definition)
    requires Extends(d, e)
    ensures Covers([d], [e])
  {
    hide Extends;
    assert e in [e];
  }

  lemma CoversNothing(b: seq<Definition>)
    ensures Covers([], b)
  {
  }

  lemma {:induction false} FlattenedGrowth(a: seq<Decl>, b: seq<Decl>, prefix: string)
    requires BodyGrows(a, b) && AllEnumsClear(b) && forall k :: 0 <= k < |b| ==> DeclFits(b[k])
    ensures Covers(Flattened(a, prefix), Flattened(b, prefix))
    decreases b, 0
  {
    hide Covers, DefinitionsOf, DeclGrows, DeclFits, EnumsClear;
    if b == [] {
      CoversNothing([]);
    } else {
      assert forall k :: 0 <= k < |b[1..]| ==> b[1..][k] == b[k + 1];
      if BodyGrows(a, b[1..]) {
        FlattenedGrowth(a, b[1..], prefix);
        CoversNothing(DefinitionsOf(b[0], prefix));
        CoversParts([], DefinitionsOf(b[0], prefix), Flattened(a, prefix), Flattened(b[1..], prefix));
        assert [] + Flattened(a, prefix) == Flattened(a, prefix);
      } else {
        DeclGrowth(a[0], b[0], prefix);
        FlattenedGrowth(a[1..], b[1..], prefix);
        CoversParts(DefinitionsOf(a[0], prefix), DefinitionsOf(b[0], prefix), Flattened(a[1..], prefix), Flattened(b[1..], prefix));
      }
    }
  }

  lemma {:induction false} DeclGrowth(x: Decl, y: Decl, prefix: string)
    requires DeclGrows(x, y) && EnumsClear(y) && DeclFits(y)
    ensures Covers(DefinitionsOf(x, prefix), DefinitionsOf(y, prefix))
    decreases y, 1
  {
    hide Covers, Flattened, BodyGrows, ListGrows, AllEnumsClear, Clear, MessageOf, EnumOf, Qualified, Extends, EnumFits, OneofFits, FieldFits, Words;
    match x
    case MessageDecl(name, body) =>
      var whole := Qualified(prefix, name);
      assert BodyFits(y.body);
      FlattenedGrowth(body, y.body, whole);
      MessageGrowth(whole, body, y.body);
      CoversOne(AMessage(whole, MessageOf(body)), AMessage(whole, MessageOf(y.body)));
      CoversParts(Flattened(body, whole), Flattened(y.body, whole), [AMessage(whole, MessageOf(body))], [AMessage(whole, MessageOf(y.body))]);
    case EnumDecl(name, values) =>
      EnumItemGrowth(Qualified(prefix, name), values, y.values);
      CoversOne(AnEnum(Qualified(prefix, name), EnumOf(values)), AnEnum(Qualified(prefix, name), EnumOf(y.values)));
    case _ =>
      CoversNothing([]);
  }

  lemma {:induction false} TopGrowth(a: seq<TopDecl>, b: seq<TopDecl>)
    requires SchemaGrows(a, b) && SchemaEnumsClear(b) && forall k :: 0 <= k < |b| ==> TopFits(b[k])
    ensures Covers(TopDefinitions(a), TopDefinitions(b))
    decreases |b|
  {
    hide Covers, DefinitionsOf, DeclGrows, DeclFits, EnumsClear, LoadLiteral;
    if b == [] {
      CoversNothing([]);
    } else {
      var own := if b[0].Inner? then DefinitionsOf(b[0].decl, "") else [];
      assert forall k :: 0 <= k < |b[1..]| ==> b[1..][k] == b[k + 1];
      if SchemaGrows(a, b[1..]) {
        TopGrowth(a, b[1..]);
        CoversNothing(own);
        CoversParts([], own, TopDefinitions(a), TopDefinitions(b[1..]));
        assert [] + TopDefinitions(a) == TopDefinitions(a);
      } else {
        var was := if a[0].Inner? then DefinitionsOf(a[0].decl, "") else [];
        if a[0].Inner? {
          DeclGrowth(a[0].decl, b[0].decl, "");
        } else {
          CoversNothing(own);
        }
        TopGrowth(a[1..], b[1..]);
        CoversParts(was, own, TopDefinitions(a[1..]), TopDefinitions(b[1..]));
      }
    }
  }

  /**
   Adding messages, enums, fields, oneof fields, enum values and reservations anywhere in a
   schema is additive: the contract of the grown schema promises all that the contract of
   the first one does, as long as no two different definitions of the grown schema share a
   qualified name and no enum of it gives one name to two numbers.
   */
  lemma GrownSchemaIsAdditive(a: seq<TopDecl>, b: seq<TopDecl>, operations: map<string, C.Policy>)
    requires SchemaFits(a) && SchemaFits(b) && SchemaGrows(a, b)
    requires Clashless(TopDefinitions(b)) && SchemaEnumsClear(b)
    ensures var was, now := Parse(PrintSchema(a)), Parse(PrintSchema(b));
            was.Ok? && now.Ok? && C.Additive(ContractOf(was.value, operations), ContractOf(now.value, operations))
  {
    hide Parse, PrintSchema, TopDefinitions, Defined, Clashless, C.Additive, ContractOf, SchemaGrows, SchemaEnumsClear, TopFits, Extends, Holds;
    ParseReadsWritten(a);
    ParseReadsWritten(b);
    TopGrowth(a, b);
    TablesHoldAllIff(TopDefinitions(b));
    forall d | Holds(Meaning(a).tables, d)
      ensures exists e :: Holds(Meaning(b).tables, e) && Extends(d, e)
    {
      TablesHoldOnly(EMPTY.tables, TopDefinitions(a), d);
      assert !Holds(EMPTY.tables, d) by { EmptyHoldsNothing(d); }
      var e :| e in TopDefinitions(b) && Extends(d, e);
      assert Holds(Meaning(b).tables, e);
    }
    ExtendedContractIff(Meaning(a), Meaning(b), operations);
  }

  lemma EmptyHoldsNothing(d: Definition)
    ensures !Holds(EMPTY.tables, d)
  {
  }

  // ---------- an addition that is not ----------

  lemma {:induction false} DeclGrowsSelf(d: Decl)
    ensures DeclGrows(d, d)
    decreases d, 0
  {
    match d
    case MessageDecl(_, body) => BodyGrowsSelf(body);
    case EnumDecl(_, values) => ListGrowsSelf(values);
    case OneofDecl(_, elems) => ListGrowsSelf(elems);
    case _ =>
  }

  lemma {:induction false} BodyGrowsSelf(ds: seq<Decl>)
    ensures BodyGrows(ds, ds)
    decreases ds, 0
  {
    if ds != [] {
      DeclGrowsSelf(ds[0]);
      BodyGrowsSelf(ds[1..]);
    }
  }

  lemma {:induction false} ListGrowsSelf<T>(xs: seq<T>)
    ensures ListGrows(xs, xs)
    decreases |xs|
  {
    if xs != [] {
      ListGrowsSelf(xs[1..]);
    }
  }

  /** A schema grows by what is put after it. */
  lemma {:induction false} SchemaGrowsByMore(a: seq<TopDecl>, more: seq<TopDecl>)
    ensures SchemaGrows(a, a + more)
    decreases |a| + |more|
  {
    hide TopGrows;
    if a != [] {
      assert (a + more)[1..] == a[1..] + more;
      assert TopGrows(a[0], a[0]) by { TopGrowsSelf(a[0]); }
      SchemaGrowsByMore(a[1..], more);
    } else if more != [] {
      assert (a + more)[1..] == a + more[1..];
      SchemaGrowsByMore(a, more[1..]);
    }
  }

  lemma TopGrowsSelf(d: TopDecl)
    ensures TopGrows(d, d)
  {
    hide DeclGrows;
    if d.Inner? {
      DeclGrowsSelf(d.decl);
    }
  }

  const UNCLASHING: seq<TopDecl> := CLASHING[..3]

  lemma UnclashingDefines()
    ensures CLASHING == UNCLASHING + [CLASHING[3]] && TopDefinitions(UNCLASHING) == [NESTED, AMessage("A", NO_FIELDS)]
  {
    hide TopDefinitions, SyntaxOf, PackageOf, LoadLiteral, TopFits, DefinitionsOf, PrintSchema;
    ClashingDefines();
    var a, last := UNCLASHING, CLASHING[3];
    assert CLASHING == a + [last];
    TopDefinitionsParts(a, [last]);
    OnlyTop(last);
    OneInside("A.B", INNER, "");
    assert TopDefinitions([last]) == [DOTTED];
    assert TopDefinitions(a) == (TopDefinitions(a) + [DOTTED])[..|TopDefinitions(a)|];
  }

  lemma UnclashingFits()
    ensures SchemaFits(UNCLASHING)
  {
    hide TopDefinitions, SyntaxOf, PackageOf, LoadLiteral, TopFits, DefinitionsOf, PrintSchema;
    ClashingFits();
    LiteralLoads();
    var a := UNCLASHING;
    assert forall k :: 0 <= k < |a| ==> a[k] == CLASHING[k];
    assert a[1..] == [a[1], a[2]] && a[1..][1..] == [a[2]] && a[1..][1..][1..] == [];
    NoParts();
    PartsTurn([a[2]]);
    PartsTurn(a[1..]);
    PartsTurn(a);
  }

  /** Adding a message whose dotted name is that of a nested one takes the nested one's fields out of the contract, though nothing was removed. */
  lemma ClashBreaksContract(operations: map<string, C.Policy>)
    ensures SchemaFits(UNCLASHING) && SchemaFits(CLASHING) && SchemaGrows(UNCLASHING, CLASHING)
    ensures var was, now := Parse(PrintSchema(UNCLASHING)), Parse(PrintSchema(CLASHING));
            was.Ok? && now.Ok? && !C.Additive(ContractOf(was.value, operations), ContractOf(now.value, operations))
  {
    hide Parse, PrintSchema, SchemaFits, TopDefinitions, Defined, SchemaGrows;
    UnclashingFits();
    UnclashingDefines();
    ClashingFits();
    ClashingDefines();
    SchemaGrowsByMore(UNCLASHING, [CLASHING[3]]);
    ParseReadsWritten(UNCLASHING);
    ParseReadsWritten(CLASHING);
    TablesHoldLast(EMPTY.tables, TopDefinitions(UNCLASHING), 0);
    TablesHoldLast(EMPTY.tables, TopDefinitions(CLASHING), 2);
    FieldLost(Meaning(UNCLASHING), Meaning(CLASHING), operations);
  }

  lemma FieldLost(was: Wire, now: Wire, operations: map<string, C.Policy>)
    requires Holds(was.tables, NESTED) && Holds(now.tables, DOTTED)
    ensures !C.Additive(ContractOf(was, operations), ContractOf(now, operations))
  {
    var a, b := ContractOf(was, operations), ContractOf(now, operations);
    assert "x" in a.messages["A.B"].members && "x" !in b.messages["A.B"].members;
  }
}
