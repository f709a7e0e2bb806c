/** What the parser's tables hold of a schema: exactly when no definition is lost to another, and a schema that loses one. */
module ProtoTables {
  import opened Options
  import opened Json
  import opened JsonPrint
  import opened Decimal
  import opened ProtoParser
  import opened ProtoGrammar
  import opened ProtoRoundTrip
  import opened ProtoAccepts

  /** Two messages or two enums of one qualified name. */
  predicate SameName(a: Definition, b: Definition) {
    a.AMessage? == b.AMessage? && a.name == b.name
  }

  predicate Holds(t: Tables, d: Definition) {
    match d
    case AMessage(name, m) => name in t.messages && t.messages[name] == m
    case AnEnum(name, e) => name in t.enums && t.enums[name] == e
  }

  /** Definitions of one name after the first are the same definition. */
  lemma {:induction false} DefinedKeeps(t: Tables, ds: seq<Definition>, d: Definition)
    requires Holds(t, d) && forall j :: 0 <= j < |ds| && SameName(ds[j], d) ==> ds[j] == d
    ensures Holds(Defined(t, ds), d)
    decreases |ds|
  {
    if ds != [] {
      assert SameName(ds[0], d) ==> ds[0] == d;
      assert forall j :: 0 <= j < |ds[1..]| ==> ds[1..][j] == ds[j + 1];
      DefinedKeeps(Define(t, ds[0]), ds[1..], d);
    }
  }

  /** Of several definitions of one name, the table holds the last. */
  lemma {:induction false} TablesHoldLast(t: Tables, ds: seq<Definition>, k: nat)
    requires k < |ds| && forall j :: k < j < |ds| && SameName(ds[j], ds[k]) ==> ds[j] == ds[k]
    ensures Holds(Defined(t, ds), ds[k])
    decreases |ds|
  {
    var rest := ds[1..];
    assert forall j :: 0 <= j < |rest| ==> rest[j] == ds[j + 1];
    if k > 0 {
      TablesHoldLast(Define(t, ds[0]), rest, k - 1);
    } else {
      DefinedKeeps(Define(t, ds[0]), rest, ds[0]);
    }
  }

  /** The tables hold nothing else. */
  lemma {:induction false} TablesHoldOnly(t: Tables, ds: seq<Definition>, d: Definition)
    requires Holds(Defined(t, ds), d)
    ensures Holds(t, d) || d in ds
    decreases |ds|
  {
    if ds != [] {
      TablesHoldOnly(Define(t, ds[0]), ds[1..], d);
      assert d in ds[1..] ==> d in ds;
    }
  }

  /** No definition replaces a different one. */
  ghost predicate Clashless(ds: seq<Definition>) {
    forall j, k :: 0 <= j < |ds| && 0 <= k < |ds| && SameName(ds[j], ds[k]) ==> ds[j] == ds[k]
  }

  /** Every message and every enum of a schema is in its table exactly if no two different ones share a qualified name. */
  lemma TablesHoldAllIff(ds: seq<Definition>)
    ensures (forall d :: d in ds ==> Holds(Defined(EMPTY.tables, ds), d)) <==> Clashless(ds)
  {
    hide Defined;
    var all := Defined(EMPTY.tables, ds);
    if forall d :: d in ds ==> Holds(all, d) {
      forall j, k | 0 <= j < |ds| && 0 <= k < |ds| && SameName(ds[j], ds[k])
        ensures ds[j] == ds[k]
      {
        assert Holds(all, ds[j]) && Holds(all, ds[k]);
      }
    }
    if Clashless(ds) {
      forall d | d in ds
        ensures Holds(Defined(EMPTY.tables, ds), d)
      {
        var k :| 0 <= k < |ds| && ds[k] == d;
        TablesHoldLast(EMPTY.tables, ds, k);
      }
    }
  }

  /** Whole schemas: the parser, which accepts each of them, keeps all its definitions exactly if no two different ones share a qualified name, and adds none. */
  lemma ParserKeepsAllIff(ds: seq<TopDecl>)
    requires SchemaFits(ds)
    ensures var w := Parse(PrintSchema(ds));
            && w.Ok?
            && ((forall d :: d in TopDefinitions(ds) ==> Holds(w.value.tables, d)) <==> Clashless(TopDefinitions(ds)))
            && forall d :: Holds(w.value.tables, d) ==> d in TopDefinitions(ds)
  {
    hide Parse, PrintSchema, SchemaFits, TopDefinitions, Defined, Clashless;
    ParseReadsWritten(ds);
    TablesHoldAllIff(TopDefinitions(ds));
    forall d | Holds(Meaning(ds).tables, d)
      ensures d in TopDefinitions(ds)
    {
      TablesHoldOnly(EMPTY.tables, TopDefinitions(ds), d);
    }
  }

  /** No name is entered with two different values. */
  ghost predicate Clear<T(!new)>(entries: seq<Named<T>>) {
    forall x, y :: x in entries && y in entries && x.name == y.name ==> x.value == y.value
  }

  /** The same for the values of one enum, which nothing keeps from sharing a name: all of them are in its entry exactly if no two different numbers do. */
  lemma EnumHoldsAllIff(entries: seq<Named<int>>)
    ensures var r := Entered(map[], entries);
            (forall x :: x in entries ==> x.name in r && r[x.name] == x.value) <==>
            Clear(entries)
  {
    hide Entered;
    if Clear(entries) {
      forall x | x in entries
        ensures x.name in Entered(map[], entries) && Entered(map[], entries)[x.name] == x.value
      {
        EnteredKeeps(map[], entries, x);
      }
    }
  }

  lemma {:induction false} EnteredKeeps<T>(m: map<string, T>, entries: seq<Named<T>>, x: Named<T>)
    requires x in entries || (x.name in m && m[x.name] == x.value)
    requires forall y :: y in entries && y.name == x.name ==> y.value == x.value
    ensures x.name in Entered(m, entries) && Entered(m, entries)[x.name] == x.value
    decreases |entries|
  {
    if entries != [] {
      assert forall y :: y in entries[1..] ==> y in entries;
      assert x in entries ==> x == entries[0] || x in entries[1..];
      assert entries[0] in entries;
      EnteredKeeps(m[entries[0].name := entries[0].value], entries[1..], x);
    }
  }

  // ---------- a schema that loses a message ----------

  const X_FIELD := FieldDecl(Singular, Plain("string"), "x", NumberPart("1", None))
  const INNER := MessageDecl("B", [PlainField(X_FIELD)])
  const CLASHING: seq<TopDecl> :=
    [SyntaxDecl("\"proto3\""), PackageDecl("denpie"), Inner(MessageDecl("A", [INNER])), Inner(MessageDecl("A.B", []))]

  const CLASHING_TOKENS: Tokens :=
    ["syntax", "=", "\"proto3\"", ";", "package", "denpie", ";",
     "message", "A", "{", "message", "B", "{", "string", "x", "=", "1", ";", "}", "}",
     "message", "A.B", "{", "}"]

  const NESTED := AMessage("A.B", Message(map["x" := Field(1, "string", Singular, None)], multiset{}))
  const DOTTED := AMessage("A.B", NO_FIELDS)

  lemma LiteralLoads()
    ensures LoadLiteral("\"proto3\"") == Ok(Text("proto3"))
  {
    hide ReadDocument, Escaped;
    EscapedPlain("proto3");
    PrintedDocumentReadsBack(Str("proto3"));
    assert Print(Str("proto3")) == "\"proto3\"";
  }

  lemma OneParses()
    ensures ParseInt("1") == Some(1)
  {
    assert "1"[..0] == "";
  }

  /** A schema of two header statements and two declarations. */
  lemma FourParts(literal: string, package: string, c: Decl, d: Decl)
    ensures var ds := [SyntaxDecl(literal), PackageDecl(package), Inner(c), Inner(d)];
            && PrintSchema(ds) == ["syntax", "=", literal, ";"] + (["package", package, ";"] + (PrintDecl(c) + PrintDecl(d)))
            && TopDefinitions(ds) == DefinitionsOf(c, "") + DefinitionsOf(d, "")
            && (LoadLiteral(literal).Ok? ==> SyntaxOf(ds) == Some(LoadLiteral(literal).value))
            && PackageOf(ds) == Some(package)
  {
    hide LoadLiteral, DefinitionsOf, PrintDecl, PrintSchema, TopDefinitions, SyntaxOf, PackageOf;
    var s, p, x, y := SyntaxDecl(literal), PackageDecl(package), Inner(c), Inner(d);
    assert [s, p, x, y][1..] == [p, x, y] && [p, x, y][1..] == [x, y] && [x, y][1..] == [y] && [y][1..] == [];
    NoParts();
    PartsTurn([y]);
    PartsTurn([x, y]);
    PartsTurn([p, x, y]);
    PartsTurn([s, p, x, y]);
  }

  lemma NoParts()
    ensures PrintSchema([]) == [] && TopDefinitions([]) == [] && SyntaxOf([]) == None && PackageOf([]) == None
  {
  }

  lemma PartsTurn(ds: seq<TopDecl>)
    requires ds != []
    ensures PrintSchema(ds) == PrintTop(ds[0]) + PrintSchema(ds[1..])
    ensures TopDefinitions(ds) == (if ds[0].Inner? then DefinitionsOf(ds[0].decl, "") else []) + TopDefinitions(ds[1..])
    ensures SyntaxOf(ds) == if SyntaxOf(ds[1..]).Some? then SyntaxOf(ds[1..])
                            else if ds[0].SyntaxDecl? && LoadLiteral(ds[0].literal).Ok? then Some(LoadLiteral(ds[0].literal).value) else None
    ensures PackageOf(ds) == if PackageOf(ds[1..]).Some? then PackageOf(ds[1..]) else if ds[0].PackageDecl? then Some(ds[0].name) else None
  {
    hide LoadLiteral, DefinitionsOf, PrintTop;
  }

  /** Messages with one declaration, and with none. */
  lemma OneInside(name: string, d: Decl, prefix: string)
    ensures PrintDecl(MessageDecl(name, [d])) == ["message", name, "{"] + (PrintDecl(d) + ["}"])
    ensures PrintDecl(MessageDecl(name, [])) == ["message", name, "{", "}"]
    ensures DefinitionsOf(MessageDecl(name, [d]), prefix) ==
            DefinitionsOf(d, Qualified(prefix, name)) + [AMessage(Qualified(prefix, name), MessageOf([d]))]
    ensures DefinitionsOf(MessageDecl(name, []), prefix) == [AMessage(Qualified(prefix, name), NO_FIELDS)]
    ensures MessageOf([d]) == Message(Entered(map[], FieldsOfDecl(d)), Reservations([d]))
  {
    hide PrintDecl, DefinitionsOf, FieldsOfDecl, Qualified, Entered, Reservations;
    assert [d][1..] == [];
    OnlyDecl(d, Qualified(prefix, name));
    BodyParts(d);
    MessageTurn(name, [d], prefix);
    MessageTurn(name, [], prefix);
    NoBody(Qualified(prefix, name));
  }

  lemma MessageTurn(name: string, body: seq<Decl>, prefix: string)
    ensures PrintDecl(MessageDecl(name, body)) == ["message"] + ([name, "{"] + PrintBody(body))
    ensures DefinitionsOf(MessageDecl(name, body), prefix) ==
            Flattened(body, Qualified(prefix, name)) + [AMessage(Qualified(prefix, name), MessageOf(body))]
  {
  }

  lemma BodyParts(d: Decl)
    ensures PrintBody([d]) == PrintDecl(d) + ["}"]
  {
    hide PrintDecl;
    assert [d][1..] == [];
    assert PrintBody([]) == ["}"];
  }

  lemma NoBody(prefix: string)
    ensures PrintBody([]) == ["}"] && Flattened([], prefix) == [] && MessageOf([]) == NO_FIELDS
  {
  }

  lemma XDeclared()
    ensures DeclFits(PlainField(X_FIELD)) && DefinitionsOf(PlainField(X_FIELD), "A.B") == []
    ensures PrintDecl(PlainField(X_FIELD)) == ["string", "x", "=", "1", ";"]
    ensures MessageOf([PlainField(X_FIELD)]) == NESTED.message && BodyFits([PlainField(X_FIELD)])
  {
    hide ParseInt;
    OneParses();
    OnlyDecl(PlainField(X_FIELD), "A.B");
    EnteredOne(map[], FieldValue(X_FIELD, None));
  }

  lemma ClashingDefines()
    ensures TopDefinitions(CLASHING) == [NESTED, AMessage("A", NO_FIELDS), DOTTED]
  {
    hide PrintSchema, TopDefinitions, SyntaxOf, PackageOf, PrintDecl, DefinitionsOf, LoadLiteral, MessageOf, BodyFits, OwnFields;
    XDeclared();
    FourParts("\"proto3\"", "denpie", MessageDecl("A", [INNER]), MessageDecl("A.B", []));
    assert Qualified("", "A") == "A" && Qualified("A", "B") == "A.B" && Qualified("", "A.B") == "A.B";
    OneInside("A", INNER, "");
    OneInside("B", PlainField(X_FIELD), "A");
    OneInside("A.B", INNER, "");
    NothingOwned();
    assert DefinitionsOf(INNER, "A") == [NESTED];
  }

  lemma ClashingPrints()
    ensures PrintSchema(CLASHING) == CLASHING_TOKENS
  {
    hide PrintSchema, TopDefinitions, SyntaxOf, PackageOf, PrintDecl, DefinitionsOf, LoadLiteral, MessageOf, BodyFits, OwnFields, DeclFits;
    XDeclared();
    FourParts("\"proto3\"", "denpie", MessageDecl("A", [INNER]), MessageDecl("A.B", []));
    OneInside("A", INNER, "");
    OneInside("B", PlainField(X_FIELD), "A");
    OneInside("A.B", INNER, "");
  }

  lemma ClashingFits()
    ensures SchemaFits(CLASHING)
  {
    hide PrintSchema, TopDefinitions, SyntaxOf, PackageOf, PrintDecl, DefinitionsOf, LoadLiteral, MessageOf, BodyFits, OwnFields;
    LiteralLoads();
    XDeclared();
    FourParts("\"proto3\"", "denpie", MessageDecl("A", [INNER]), MessageDecl("A.B", []));
    NothingOwned();
  }

  lemma NothingOwned()
    ensures BodyFits([]) && OwnFields([INNER]) == [] && MessageOf([INNER]) == NO_FIELDS
    ensures BodyFits([PlainField(X_FIELD)]) ==> BodyFits([INNER])
  {
    OnlyDecl(INNER, "A");
  }

  /** A nested message and a later top-level one with a dot in its name: the parser accepts both and keeps the second. */
  lemma ClashLosesMessage()
    ensures SchemaFits(CLASHING) && PrintSchema(CLASHING) == CLASHING_TOKENS && NESTED in TopDefinitions(CLASHING)
    ensures Parse(CLASHING_TOKENS).Ok? && Holds(Parse(CLASHING_TOKENS).value.tables, DOTTED)
    ensures !Holds(Parse(CLASHING_TOKENS).value.tables, NESTED)
  {
    hide Parse, PrintSchema, SchemaFits, TopDefinitions, Defined;
    ClashingFits();
    ClashingPrints();
    ClashingDefines();
    ParseReadsWritten(CLASHING);
    TablesHoldLast(EMPTY.tables, TopDefinitions(CLASHING), 2);
    assert "x" in NESTED.message.fields;
  }
}
