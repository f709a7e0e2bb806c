/** The whole schema, in both directions. */
module ProtoAccepts {
  import opened Options
  import opened Json
  import opened Decimal
  import opened Sequences
  import opened ProtoParser
  import opened ProtoGrammar
  import opened ProtoRoundTrip

  // ---------- reading what was written: whole schemas ----------

  function TopAfter(t: Top, ds: seq<TopDecl>): Top {
    Top(if SyntaxOf(ds).Some? then SyntaxOf(ds) else t.syntax,
        if PackageOf(ds).Some? then PackageOf(ds) else t.package,
        Defined(t.tables, TopDefinitions(ds)))
  }

  lemma TopAfterNone(t: Top)
    ensures TopAfter(t, []) == t
  {
  }

  lemma OnlyTop(d: TopDecl)
    ensures SyntaxOf([d]) == (if d.SyntaxDecl? && LoadLiteral(d.literal).Ok? then Some(LoadLiteral(d.literal).value) else None)
    ensures PackageOf([d]) == (if d.PackageDecl? then Some(d.name) else None)
    ensures TopDefinitions([d]) == if d.Inner? then DefinitionsOf(d.decl, "") else []
  {
    hide LoadLiteral, DefinitionsOf;
    assert [d][1..] == [];
    assert SyntaxOf([]) == None && PackageOf([]) == None && TopDefinitions([]) == [];
  }

  lemma TopAfterOne(t: Top, d: TopDecl)
    requires TopFits(d)
    ensures TopAfter(t, [d]) ==
            match d
            case SyntaxDecl(literal) => t.(syntax := Some(LoadLiteral(literal).value))
            case PackageDecl(name) => t.(package := Some(name))
            case Inner(decl) => t.(tables := Defined(t.tables, DefinitionsOf(decl, "")))
  {
    hide LoadLiteral, DefinitionsOf, DeclFits, SyntaxOf, PackageOf, TopDefinitions;
    OnlyTop(d);
  }

  lemma TopAfterTurn(t: Top, ds: seq<TopDecl>)
    requires ds != []
    ensures TopAfter(t, ds) == TopAfter(TopAfter(t, [ds[0]]), ds[1..])
  {
    hide LoadLiteral, DefinitionsOf, Defined;
    var d, rest := ds[0], ds[1..];
    OnlyTop(d);
    assert SyntaxOf(ds) == if SyntaxOf(rest).Some? then SyntaxOf(rest) else SyntaxOf([d]);
    assert PackageOf(ds) == if PackageOf(rest).Some? then PackageOf(rest) else PackageOf([d]);
    assert TopDefinitions(ds) == TopDefinitions([d]) + TopDefinitions(rest);
    DefinedParts(t.tables, TopDefinitions([d]), TopDefinitions(rest));
  }

  lemma ReadsTop(d: TopDecl, t: Top, ts: Tokens, i: nat)
    requires TopFits(d) && Stands(PrintTop(d), ts, i)
    ensures i < |ts| && TopItem(ts, i, t) == Ok(At(TopAfter(t, [d]), i + |PrintTop(d)|))
  {
    hide Stands, LoadLiteral, TopAfter, DeclFits, BodyFits, EnumFits, Words, ParseMessage, ParseEnum, SkipStatement, DefinitionsOf, Defined,
      PrintBody, PrintEnumElems;
    TopAfterOne(t, d);
    match d
    case SyntaxDecl(literal) =>
      StandsAt(PrintTop(d), ts, i, 0);
      StandsAt(PrintTop(d), ts, i, 1);
      StandsAt(PrintTop(d), ts, i, 2);
      StandsAt(PrintTop(d), ts, i, 3);
    case PackageDecl(name) =>
      StandsAt(PrintTop(d), ts, i, 0);
      StandsAt(PrintTop(d), ts, i, 1);
      StandsAt(PrintTop(d), ts, i, 2);
    case Inner(decl) =>
      ReadsInner(decl, t, ts, i);
  }

  lemma ReadsInner(d: Decl, t: Top, ts: Tokens, i: nat)
    requires (d.MessageDecl? || d.EnumDecl? || d.OptionDecl?) && DeclFits(d) && Stands(PrintDecl(d), ts, i)
    ensures i < |ts| && TopItem(ts, i, t) == Ok(At(t.(tables := Defined(t.tables, DefinitionsOf(d, ""))), i + |PrintDecl(d)|))
  {
    hide Stands, BodyFits, EnumFits, Words, ParseMessage, ParseEnum, SkipStatement, Defined, PrintBody, PrintEnumElems, Flattened;
    match d
    case MessageDecl(name, body) =>
      ReadsKeyword("message", [name, "{"] + PrintBody(body), ts, i);
      ReadsMessage(name, body, "", t.tables, ts, i + 1);
    case EnumDecl(name, values) =>
      ReadsKeyword("enum", [name, "{"] + PrintEnumElems(values), ts, i);
      ReadsEnum(name, values, "", t.tables, ts, i + 1);
    case OptionDecl(words) =>
      ReadsWords("option", words, ts, i);
      assert Defined(t.tables, []) == t.tables by { TopAfterNone(t); }
  }

  lemma {:induction false} ReadsSchema(ds: seq<TopDecl>, t: Top, ts: Tokens, i: nat)
    requires (forall k :: 0 <= k < |ds| ==> TopFits(ds[k])) && Stands(PrintSchema(ds), ts, i)
    requires i + |PrintSchema(ds)| == |ts|
    ensures TopItems(ts, i, t) == Ok(TopAfter(t, ds))
    decreases |ds|
  {
    hide Stands, TopItem, PrintTop, TopFits, TopAfter;
    if ds == [] {
      TopAfterNone(t);
    } else {
      StandsParts(PrintTop(ds[0]), PrintSchema(ds[1..]), ts, i);
      TopAfterTurn(t, ds);
      ReadsTop(ds[0], t, ts, i);
      ReadsSchema(ds[1..], TopAfter(t, [ds[0]]), ts, i + |PrintTop(ds[0])|);
    }
  }

  /** Parsing a written schema gives exactly its flattened, qualified tables. */
  lemma ParseReadsWritten(ds: seq<TopDecl>)
    requires SchemaFits(ds)
    ensures Parse(PrintSchema(ds)) == Ok(Meaning(ds))
  {
    hide Stands, TopItems, TopFits, PrintSchema, TopDefinitions, Defined;
    StandsWhole(PrintSchema(ds));
    ReadsSchema(ds, EMPTY, PrintSchema(ds), 0);
  }

  // ---------- what is read was written: the leaves ----------

  lemma {:induction false} WrittenStatement(ts: Tokens, i: nat) returns (words: Tokens)
    requires SkipStatement(ts, i).Ok? || ParseReservedTokens(ts, i).Ok?
    ensures Words(words) && Stands(words + [";"], ts, i)
    decreases |ts| - i
  {
    if ts[i] == ";" {
      words := [];
      assert words + [";"] == [";"];
    } else {
      var rest := WrittenStatement(ts, i + 1);
      words := [ts[i]] + rest;
      StandsTogether([ts[i]], rest + [";"], ts, i);
      assert words + [";"] == [ts[i]] + (rest + [";"]);
    }
  }

  lemma {:induction false} WrittenInside(ts: Tokens, i: nat, depth: int) returns (words: Tokens)
    requires depth > 0 && SkipBrackets(ts, i, depth).Ok?
    ensures Inside(words, depth) && Stands(words + ["]"], ts, i)
    decreases |ts| - i
  {
    if Deeper(depth, ts[i]) == 0 {
      words := [];
      assert words + ["]"] == ["]"];
    } else {
      var rest := WrittenInside(ts, i + 1, Deeper(depth, ts[i]));
      words := [ts[i]] + rest;
      assert words[1..] == rest;
      StandsTogether([ts[i]], rest + ["]"], ts, i);
      assert words + ["]"] == [ts[i]] + (rest + ["]"]);
    }
  }

  lemma WrittenOptions(ts: Tokens, i: nat) returns (options: Option<Tokens>)
    requires i <= |ts| && SkipOptions(ts, i).Ok? && TakeExpected(ts, SkipOptions(ts, i).value, ";").Ok?
    ensures options.Some? ==> Inside(options.value, 1)
    ensures Stands(PrintOptions(options) + [";"], ts, i)
  {
    hide Inside;
    var n := SkipOptions(ts, i).value;
    if Peek(ts, i) == Some("[") {
      var words := WrittenInside(ts, i + 1, 1);
      options := Some(words);
      StandsTogether(["["], words + ["]"], ts, i);
      assert ["["] + (words + ["]"]) == PrintOptions(options);
      ReadsInside(words, 1, ts, i + 1);
      StandsTogether(PrintOptions(options), [";"], ts, i);
    } else {
      options := None;
      assert [] + [";"] == [";"];
    }
  }

  lemma WrittenNumber(ts: Tokens, i: nat) returns (n: NumberPart)
    requires ParseNumber(ts, i).Ok?
    ensures NumberFits(n) && Stands(PrintNumber(n), ts, i)
  {
    hide SkipOptions, ParseInt, Inside;
    var options := WrittenOptions(ts, i + 2);
    n := NumberPart(ts[i + 1], options);
    assert ts[i..i + 2] == ["=", n.digits];
    StandsTogether(["=", n.digits], PrintOptions(options) + [";"], ts, i);
  }

  lemma WrittenType(ts: Tokens, i: nat) returns (t: TypeExpr)
    requires ParseType(ts, i).Ok?
    ensures (t.Plain? ==> t.name != "map") && Stands(PrintType(t), ts, i)
  {
    if ts[i] == "map" {
      t := MapOf(ts[i + 2], ts[i + 4]);
      assert ts[i..i + 6] == PrintType(t);
    } else {
      t := Plain(ts[i]);
    }
  }

  lemma WrittenField(ts: Tokens, i: nat, oneof: Option<string>) returns (f: FieldDecl)
    requires ParseField(ts, i, oneof).Ok?
    ensures FieldFits(f) && (oneof.Some? ==> f.cardinality.Singular?) && Stands(PrintField(f), ts, i)
  {
    hide Stands, ParseType, ParseNumber, NumberFits, PrintType, PrintNumber;
    var c := CardinalityAt(ts, i);
    var j := if c.Singular? then i else i + 1;
    var t := WrittenType(ts, j);
    ReadsType(t, ts, j);
    var k := j + |PrintType(t)|;
    var n := WrittenNumber(ts, k + 1);
    f := FieldDecl(c, t, ts[k], n);
    StandsOne(ts, k);
    StandsTogether([f.name], PrintNumber(n), ts, k);
    StandsTogether(PrintType(t), [f.name] + PrintNumber(n), ts, j);
    if c.Singular? {
      assert PrintField(f) == PrintType(t) + ([f.name] + PrintNumber(n));
    } else {
      StandsOne(ts, i);
      StandsTogether(PrintCardinality(c), PrintType(t) + ([f.name] + PrintNumber(n)), ts, i);
    }
  }

  lemma StandsOne(ts: Tokens, i: nat)
    requires i < |ts|
    ensures Stands([ts[i]], ts, i)
  {
  }

  lemma WrittenWords(head: string, ts: Tokens, i: nat) returns (words: Tokens)
    requires Peek(ts, i) == Some(head)
    requires SkipStatement(ts, i + 1).Ok? || ParseReserved(ts, i + 1).Ok?
    ensures Words(words) && Stands([head] + (words + [";"]), ts, i)
  {
    hide Stands, Words, SkipStatement, ParseReservedTokens;
    words := WrittenStatement(ts, i + 1);
    StandsOne(ts, i);
    StandsTogether([head], words + [";"], ts, i);
  }

  // ---------- what is read was written: the blocks ----------

  lemma WrittenHead(body: Tokens, ts: Tokens, i: nat)
    requires i + 1 < |ts| && ts[i + 1] == "{" && Stands(body, ts, i + 2)
    ensures Stands([ts[i], "{"] + body, ts, i)
  {
    assert ts[i..i + 2] == [ts[i], "{"];
    StandsTogether([ts[i], "{"], body, ts, i);
  }

  lemma WrittenKeyword(word: string, rest: Tokens, ts: Tokens, i: nat)
    requires Peek(ts, i) == Some(word) && Stands(rest, ts, i + 1)
    ensures Stands([word] + rest, ts, i)
  {
    hide Stands;
    StandsOne(ts, i);
    StandsTogether([word], rest, ts, i);
  }

  lemma WrittenOneofElem(ts: Tokens, i: nat, oneof: string, fields: Fields) returns (e: OneofElem)
    requires Peek(ts, i) != Some("}") && OneofItem(ts, i, oneof, fields).Ok?
    ensures OneofFits(e) && Stands(PrintOneofElem(e), ts, i) && Fresh(fields.Keys, OneofFields([e], oneof))
  {
    hide Stands, ParseField, PrintField, FieldFits, SkipStatement, FieldValue, Fresh;
    if Peek(ts, i) == Some("option") {
      var words := WrittenWords("option", ts, i);
      e := OneofOption(words);
      assert OneofFields([e], oneof) == [];
      NothingFresh(fields);
    } else {
      var f := WrittenField(ts, i, Some(oneof));
      ReadsField(f, Some(oneof), ts, i);
      e := OneofField(f);
      assert OneofFields([e], oneof) == [FieldValue(f, Some(oneof))];
      EnteredOne(fields, FieldValue(f, Some(oneof)));
    }
  }

  lemma NothingFresh<T>(m: map<string, T>)
    ensures Fresh<T>(m.Keys, [])
  {
  }

  lemma {:induction false} WrittenOneofElems(ts: Tokens, i: nat, oneof: string, fields: Fields) returns (es: seq<OneofElem>)
    requires OneofBody(ts, i, oneof, fields).Ok?
    ensures forall k :: 0 <= k < |es| ==> OneofFits(es[k])
    ensures Stands(PrintOneofElems(es), ts, i) && Fresh(fields.Keys, OneofFields(es, oneof))
    decreases |ts| - i
  {
    hide Stands, OneofItem, PrintOneofElem, OneofFits, FieldValue, Fresh, Entered;
    if Peek(ts, i) == Some("}") {
      es := [];
      StandsOne(ts, i);
      NothingFresh(fields);
    } else {
      var e := WrittenOneofElem(ts, i, oneof, fields);
      ReadsOneofElem(e, oneof, fields, ts, i);
      var item := OneofItem(ts, i, oneof, fields).value;
      var rest := WrittenOneofElems(ts, item.next, oneof, item.value);
      es := [e] + rest;
      assert es[1..] == rest;
      StandsTogether(PrintOneofElem(e), PrintOneofElems(rest), ts, i);
      OneofFieldsTurn(es, oneof);
      FreshParts(fields, OneofFields([e], oneof), OneofFields(rest, oneof));
    }
  }

  lemma WrittenEnumElem(ts: Tokens, i: nat, e: Enum) returns (x: EnumElem)
    requires Peek(ts, i) != Some("}") && EnumItem(ts, i, e).Ok?
    ensures EnumFits(x) && Stands(PrintEnumElem(x), ts, i)
  {
    hide Stands, ParseNumber, PrintNumber, NumberFits, SkipStatement, ParseReserved;
    if Peek(ts, i) == Some("reserved") {
      var words := WrittenWords("reserved", ts, i);
      x := EnumReserved(words);
    } else if Peek(ts, i) == Some("option") {
      var words := WrittenWords("option", ts, i);
      x := EnumOption(words);
    } else {
      var n := WrittenNumber(ts, i + 1);
      x := EnumValue(ts[i], n);
      WrittenKeyword(ts[i], PrintNumber(n), ts, i);
    }
  }

  lemma {:induction false} WrittenEnumElems(ts: Tokens, i: nat, e: Enum) returns (es: seq<EnumElem>)
    requires EnumBody(ts, i, e).Ok?
    ensures forall k :: 0 <= k < |es| ==> EnumFits(es[k])
    ensures Stands(PrintEnumElems(es), ts, i)
    decreases |ts| - i
  {
    hide Stands, EnumItem, PrintEnumElem, EnumFits;
    if Peek(ts, i) == Some("}") {
      es := [];
      StandsOne(ts, i);
    } else {
      var x := WrittenEnumElem(ts, i, e);
      ReadsEnumElem(x, e, ts, i);
      var item := EnumItem(ts, i, e).value;
      var rest := WrittenEnumElems(ts, item.next, item.value);
      es := [x] + rest;
      assert es[1..] == rest;
      StandsTogether(PrintEnumElem(x), PrintEnumElems(rest), ts, i);
    }
  }

  lemma {:induction false} WrittenDecl(ts: Tokens, i: nat, name: string, p: Partial) returns (d: Decl)
    requires Peek(ts, i) != Some("}") && MessageItem(ts, i, name, p).Ok?
    ensures DeclFits(d) && Stands(PrintDecl(d), ts, i) && Fresh(p.message.fields.Keys, OwnFields([d]))
    decreases |ts| - i, 1
  {
    hide Stands, ParseField, ParseMessage, ParseReserved, SkipStatement, OneofBody, EnumBody,
      PrintField, PrintBody, PrintEnumElems, PrintOneofElems, FieldFits, EnumFits, OneofFits, BodyFits,
      FieldValue, OneofFields, OwnFields, Fresh, Words;
    var token := Peek(ts, i);
    if token == Some("message") {
      var name', body := WrittenMessage(ts, i + 1, name, p.tables);
      d := MessageDecl(name', body);
      WrittenKeyword("message", [name', "{"] + PrintBody(body), ts, i);
    } else if token == Some("enum") {
      var values := WrittenEnumElems(ts, i + 3, NO_VALUES);
      d := EnumDecl(ts[i + 1], values);
      WrittenHead(PrintEnumElems(values), ts, i + 1);
      WrittenKeyword("enum", [ts[i + 1], "{"] + PrintEnumElems(values), ts, i);
    } else if token == Some("oneof") {
      var elems := WrittenOneofElems(ts, i + 3, ts[i + 1], p.message.fields);
      d := OneofDecl(ts[i + 1], elems);
      WrittenHead(PrintOneofElems(elems), ts, i + 1);
      WrittenKeyword("oneof", [ts[i + 1], "{"] + PrintOneofElems(elems), ts, i);
    } else if token == Some("reserved") {
      var words := WrittenWords("reserved", ts, i);
      d := ReservedDecl(words);
    } else if token == Some("option") {
      var words := WrittenWords("option", ts, i);
      d := OptionDecl(words);
    } else {
      var f := WrittenField(ts, i, None);
      ReadsField(f, None, ts, i);
      d := PlainField(f);
      EnteredOne(p.message.fields, FieldValue(f, None));
    }
    OnlyDecl(d, name);
    NothingFresh(p.message.fields);
  }

  lemma {:induction false} WrittenBody(ts: Tokens, i: nat, name: string, p: Partial) returns (ds: seq<Decl>)
    requires MessageBody(ts, i, name, p).Ok?
    ensures forall k :: 0 <= k < |ds| ==> DeclFits(ds[k])
    ensures Stands(PrintBody(ds), ts, i) && Fresh(p.message.fields.Keys, OwnFields(ds))
    decreases |ts| - i, 2
  {
    hide Stands, MessageItem, PrintDecl, DeclFits, PartialAfter, Fresh, FieldsOfDecl;
    if Peek(ts, i) == Some("}") {
      ds := [];
      StandsOne(ts, i);
      NothingFresh(p.message.fields);
    } else {
      var d := WrittenDecl(ts, i, name, p);
      ReadsDecl(d, name, p, ts, i);
      var item := MessageItem(ts, i, name, p).value;
      var rest := WrittenBody(ts, item.next, name, item.value);
      ds := [d] + rest;
      assert ds[1..] == rest;
      StandsTogether(PrintDecl(d), PrintBody(rest), ts, i);
      PartialAfterTurn(p, ds, name);
    }
  }

  lemma {:induction false} WrittenMessage(ts: Tokens, i: nat, parent: string, tables: Tables) returns (name: string, body: seq<Decl>)
    requires ParseMessage(ts, i, parent, tables).Ok?
    ensures BodyFits(body) && Stands([name, "{"] + PrintBody(body), ts, i)
    decreases |ts| - i, 0
  {
    hide Stands, MessageBody, PrintBody, DeclFits, Fresh, OwnFields;
    name := ts[i];
    body := WrittenBody(ts, i + 2, Qualified(parent, name), Partial(NO_FIELDS, tables));
    assert NO_FIELDS.fields.Keys == {};
    WrittenHead(PrintBody(body), ts, i);
  }

  lemma WrittenTop(ts: Tokens, i: nat, t: Top) returns (d: TopDecl)
    requires i < |ts| && TopItem(ts, i, t).Ok?
    ensures TopFits(d) && Stands(PrintTop(d), ts, i)
  {
    hide LoadLiteral, ParseMessage, EnumBody, SkipStatement, PrintBody, PrintEnumElems, BodyFits, EnumFits, Words;
    if ts[i] == "syntax" {
      d := SyntaxDecl(ts[i + 2]);
      assert ts[i..i + 4] == PrintTop(d);
    } else if ts[i] == "package" {
      d := PackageDecl(ts[i + 1]);
      assert ts[i..i + 3] == PrintTop(d);
    } else if ts[i] == "message" {
      var name, body := WrittenMessage(ts, i + 1, "", t.tables);
      d := Inner(MessageDecl(name, body));
      WrittenKeyword("message", [name, "{"] + PrintBody(body), ts, i);
    } else if ts[i] == "enum" {
      var values := WrittenEnumElems(ts, i + 3, NO_VALUES);
      d := Inner(EnumDecl(ts[i + 1], values));
      WrittenHead(PrintEnumElems(values), ts, i + 1);
      WrittenKeyword("enum", [ts[i + 1], "{"] + PrintEnumElems(values), ts, i);
    } else {
      var words := WrittenWords("option", ts, i);
      d := Inner(OptionDecl(words));
    }
  }

  lemma {:induction false} WrittenSchema(ts: Tokens, i: nat, t: Top) returns (ds: seq<TopDecl>)
    requires i <= |ts| && TopItems(ts, i, t).Ok?
    ensures (forall k :: 0 <= k < |ds| ==> TopFits(ds[k])) && PrintSchema(ds) == ts[i..]
    decreases |ts| - i
  {
    hide TopItem, PrintTop, TopFits, TopAfter;
    if i == |ts| {
      ds := [];
    } else {
      var d := WrittenTop(ts, i, t);
      ReadsTop(d, t, ts, i);
      var item := TopItem(ts, i, t).value;
      var rest := WrittenSchema(ts, item.next, item.value);
      ds := [d] + rest;
      assert ds[1..] == rest;
    }
  }

  /** The parser accepts nothing but well-formed schemas, and its answer is their meaning. */
  lemma ParseAcceptsOnlyWritten(ts: Tokens) returns (ds: seq<TopDecl>)
    requires Parse(ts).Ok?
    ensures SchemaFits(ds) && PrintSchema(ds) == ts && Parse(ts) == Ok(Meaning(ds))
  {
    hide TopItems, TopFits, PrintSchema, TopDefinitions, Defined, Stands;
    ds := WrittenSchema(ts, 0, EMPTY);
    StandsWhole(ts);
    ReadsSchema(ds, EMPTY, ts, 0);
  }
}
