/**
 The parser reads every written schema back with its meaning, and reads nothing else:
 whatever token stream it accepts is the writing of a well-formed schema.
 */
module ProtoRoundTrip {
  import opened Options
  import opened Json
  import opened Decimal
  import opened Sequences
  import opened ProtoParser
  import opened ProtoGrammar

  // ---------- reading what was written: the leaves ----------

  lemma {:induction false} ReadsStatement(words: Tokens, ts: Tokens, i: nat)
    requires Words(words) && Stands(words + [";"], ts, i)
    ensures SkipStatement(ts, i) == Ok(i + |words| + 1)
    ensures ParseReservedTokens(ts, i) == Ok(At(words, i + |words| + 1))
    decreases |words|
  {
    hide Stands;
    StandsAt(words + [";"], ts, i, 0);
    if words != [] {
      assert words + [";"] == [words[0]] + (words[1..] + [";"]);
      StandsParts([words[0]], words[1..] + [";"], ts, i);
      ReadsStatement(words[1..], ts, i + 1);
      assert [words[0]] + words[1..] == words;
    }
  }

  lemma {:induction false} ReadsInside(words: Tokens, depth: int, ts: Tokens, i: nat)
    requires Inside(words, depth) && Stands(words + ["]"], ts, i)
    ensures SkipBrackets(ts, i, depth) == Ok(i + |words| + 1)
    decreases |words|
  {
    hide Stands;
    StandsAt(words + ["]"], ts, i, 0);
    if words != [] {
      assert words + ["]"] == [words[0]] + (words[1..] + ["]"]);
      StandsParts([words[0]], words[1..] + ["]"], ts, i);
      ReadsInside(words[1..], Deeper(depth, words[0]), ts, i + 1);
    }
  }

  lemma ReadsOptions(options: Option<Tokens>, ts: Tokens, i: nat)
    requires options.Some? ==> Inside(options.value, 1)
    requires Stands(PrintOptions(options) + [";"], ts, i)
    ensures i <= |ts| && SkipOptions(ts, i) == Ok(i + |PrintOptions(options)|)
    ensures TakeExpected(ts, i + |PrintOptions(options)|, ";") == Ok(i + |PrintOptions(options)| + 1)
  {
    hide Stands, Inside;
    var p := PrintOptions(options);
    StandsParts(p, [";"], ts, i);
    StandsAt([";"], ts, i + |p|, 0);
    StandsAt(p + [";"], ts, i, 0);
    if options.Some? {
      var inner := options.value + ["]"];
      assert p == ["["] + inner;
      StandsParts(["["], inner, ts, i);
      ReadsInside(options.value, 1, ts, i + 1);
    }
  }

  lemma ReadsNumber(n: NumberPart, ts: Tokens, i: nat)
    requires NumberFits(n) && Stands(PrintNumber(n), ts, i)
    ensures ParseNumber(ts, i) == Ok(At(NumberValue(n), i + |PrintNumber(n)|))
  {
    hide Stands, Inside, ParseInt, SkipOptions;
    var rest := PrintOptions(n.options) + [";"];
    StandsParts(["=", n.digits], rest, ts, i);
    StandsAt(["=", n.digits], ts, i, 0);
    StandsAt(["=", n.digits], ts, i, 1);
    ReadsOptions(n.options, ts, i + 2);
  }

  lemma ReadsType(t: TypeExpr, ts: Tokens, i: nat)
    requires (t.Plain? ==> t.name != "map") && Stands(PrintType(t), ts, i)
    ensures ParseType(ts, i) == Ok(At(TypeText(t), i + |PrintType(t)|)) && ts[i] == FirstOf(t)
  {
    hide Stands;
    var p := PrintType(t);
    StandsAt(p, ts, i, 0);
    if t.MapOf? {
      StandsAt(p, ts, i, 1);
      StandsAt(p, ts, i, 2);
      StandsAt(p, ts, i, 3);
      StandsAt(p, ts, i, 4);
      StandsAt(p, ts, i, 5);
    }
  }

  lemma ReadsField(f: FieldDecl, oneof: Option<string>, ts: Tokens, i: nat)
    requires FieldFits(f) && (oneof.Some? ==> f.cardinality.Singular?) && Stands(PrintField(f), ts, i)
    ensures i < |ts| && ParseField(ts, i, oneof) == Ok(At(FieldValue(f, oneof), i + |PrintField(f)|))
    ensures ts[i] == if f.cardinality.Singular? then FirstOf(f.typ) else PrintCardinality(f.cardinality)[0]
  {
    hide Stands, PrintType, ParseType, ParseNumber, NumberFits, PrintNumber;
    var c, t, n := PrintCardinality(f.cardinality), PrintType(f.typ), PrintNumber(f.number);
    var afterCardinality, afterType := t + ([f.name] + n), [f.name] + n;
    StandsParts(c, afterCardinality, ts, i);
    StandsParts(t, afterType, ts, i + |c|);
    StandsParts([f.name], n, ts, i + |c| + |t|);
    StandsAt([f.name], ts, i + |c| + |t|, 0);
    if c != [] {
      StandsAt(c, ts, i, 0);
    }
    ReadsType(f.typ, ts, i + |c|);
    ReadsNumber(f.number, ts, i + |c| + |t| + 1);
  }

  lemma ReadsWords(head: string, words: Tokens, ts: Tokens, i: nat)
    requires Words(words) && Stands([head] + (words + [";"]), ts, i)
    ensures Peek(ts, i) == Some(head)
    ensures SkipStatement(ts, i + 1) == Ok(i + |words| + 2)
    ensures ParseReserved(ts, i + 1) == Ok(At(Joined(words), i + |words| + 2))
  {
    hide Stands, Words, SkipStatement, ParseReservedTokens;
    StandsParts([head], words + [";"], ts, i);
    StandsAt([head], ts, i, 0);
    ReadsStatement(words, ts, i + 1);
  }

  lemma ReadsOneofElem(e: OneofElem, oneof: string, fields: Fields, ts: Tokens, i: nat)
    requires OneofFits(e) && Stands(PrintOneofElem(e), ts, i) && Fresh(fields.Keys, OneofFields([e], oneof))
    ensures Peek(ts, i) != Some("}")
    ensures OneofItem(ts, i, oneof, fields) == Ok(At(Entered(fields, OneofFields([e], oneof)), i + |PrintOneofElem(e)|))
  {
    hide Stands, ParseField, PrintField, FieldFits, SkipStatement, FieldValue, OneofFields, Entered, Fresh, Words;
    OneofFieldsOfOne(e, oneof);
    match e
    case OneofField(f) =>
      ReadsField(f, Some(oneof), ts, i);
      EnteredOne(fields, FieldValue(f, Some(oneof)));
    case OneofOption(words) =>
      ReadsWords("option", words, ts, i);
      EnteredNone(fields);
  }

  lemma EnteredNone<T>(m: map<string, T>)
    ensures Entered(m, []) == m
  {
  }

  // ---------- entries one after the other ----------

  lemma {:induction false} EnteredParts<T>(m: map<string, T>, a: seq<Named<T>>, b: seq<Named<T>>)
    ensures Entered(m, a + b) == Entered(Entered(m, a), b)
    decreases |a|
  {
    if a == [] {
      assert a + b == b;
    } else {
      assert (a + b)[1..] == a[1..] + b;
      EnteredParts(m[a[0].name := a[0].value], a[1..], b);
    }
  }

  lemma {:induction false} FreshParts<T>(m: map<string, T>, a: seq<Named<T>>, b: seq<Named<T>>)
    ensures Fresh(m.Keys, a + b) <==> Fresh(m.Keys, a) && Fresh(Entered(m, a).Keys, b)
    decreases |a|
  {
    if a == [] {
      assert a + b == b;
    } else {
      assert (a + b)[1..] == a[1..] + b;
      var m' := m[a[0].name := a[0].value];
      assert m'.Keys == m.Keys + {a[0].name};
      FreshParts(m', a[1..], b);
    }
  }

  lemma {:induction false} DefinedParts(t: Tables, a: seq<Definition>, b: seq<Definition>)
    ensures Defined(t, a + b) == Defined(Defined(t, a), b)
    decreases |a|
  {
    if a == [] {
      assert a + b == b;
    } else {
      assert (a + b)[1..] == a[1..] + b;
      DefinedParts(Define(t, a[0]), a[1..], b);
    }
  }

  // ---------- reading what was written: the blocks ----------

  lemma {:induction false} ReadsOneofElems(es: seq<OneofElem>, oneof: string, fields: Fields, ts: Tokens, i: nat)
    requires (forall k :: 0 <= k < |es| ==> OneofFits(es[k])) && Stands(PrintOneofElems(es), ts, i)
    requires Fresh(fields.Keys, OneofFields(es, oneof))
    ensures OneofBody(ts, i, oneof, fields) == Ok(At(Entered(fields, OneofFields(es, oneof)), i + |PrintOneofElems(es)|))
    decreases |es|
  {
    hide Stands, OneofItem, PrintOneofElem, OneofFits, FieldValue, Entered, Fresh;
    if es == [] {
      StandsAt(["}"], ts, i, 0);
      assert Entered(fields, []) == fields by { EnteredNone(fields); }
    } else {
      var e, rest := es[0], es[1..];
      var own := OneofFields([e], oneof);
      StandsParts(PrintOneofElem(e), PrintOneofElems(rest), ts, i);
      OneofFieldsTurn(es, oneof);
      FreshParts(fields, own, OneofFields(rest, oneof));
      EnteredParts(fields, own, OneofFields(rest, oneof));
      ReadsOneofElem(e, oneof, fields, ts, i);
      ReadsOneofElems(rest, oneof, Entered(fields, own), ts, i + |PrintOneofElem(e)|);
    }
  }

  lemma EnteredOne<T>(m: map<string, T>, x: Named<T>)
    ensures Entered(m, [x]) == m[x.name := x.value]
    ensures Fresh(m.Keys, [x]) <==> x.name !in m
  {
    assert [x][1..] == [];
  }

  lemma OneofFieldsTurn(es: seq<OneofElem>, oneof: string)
    requires es != []
    ensures OneofFields(es, oneof) == OneofFields([es[0]], oneof) + OneofFields(es[1..], oneof)
  {
    hide OneofFields, FieldValue;
    OneofFieldsOfOne(es[0], oneof);
    OneofFieldsStep(es, oneof);
  }

  lemma OneofFieldsStep(es: seq<OneofElem>, oneof: string)
    requires es != []
    ensures OneofFields(es, oneof) ==
            (if es[0].OneofField? then [FieldValue(es[0].field, Some(oneof))] else []) + OneofFields(es[1..], oneof)
  {
    hide FieldValue;
  }

  lemma OneofFieldsOfOne(e: OneofElem, oneof: string)
    ensures OneofFields([e], oneof) == if e.OneofField? then [FieldValue(e.field, Some(oneof))] else []
  {
    hide FieldValue;
    assert [e][1..] == [];
    assert OneofFields([], oneof) == [];
  }

  lemma ReadsOneof(name: string, elems: seq<OneofElem>, fields: Fields, ts: Tokens, i: nat)
    requires (forall k :: 0 <= k < |elems| ==> OneofFits(elems[k])) && Fresh(fields.Keys, OneofFields(elems, name))
    requires Stands([name, "{"] + PrintOneofElems(elems), ts, i)
    ensures ParseOneof(ts, i, fields) == Ok(At(Entered(fields, OneofFields(elems, name)), i + 2 + |PrintOneofElems(elems)|))
  {
    hide Stands, OneofFits, OneofFields, Entered, Fresh, OneofBody, PrintOneofElems;
    ReadsHead(name, PrintOneofElems(elems), ts, i);
    ReadsOneofElems(elems, name, fields, ts, i + 2);
  }

  lemma ReadsHead(name: string, body: Tokens, ts: Tokens, i: nat)
    requires Stands([name, "{"] + body, ts, i)
    ensures Take(ts, i) == Ok(At(name, i + 1)) && TakeExpected(ts, i + 1, "{") == Ok(i + 2) && Stands(body, ts, i + 2)
  {
    hide Stands;
    StandsParts([name, "{"], body, ts, i);
    StandsAt([name, "{"], ts, i, 0);
    StandsAt([name, "{"], ts, i, 1);
  }

  function EnumAfter(e: Enum, es: seq<EnumElem>): Enum {
    Enum(Entered(e.values, EnumValues(es)), e.reserved + EnumReservations(es))
  }

  lemma EnumAfterOne(e: Enum, x: EnumElem)
    ensures EnumAfter(e, [x]) ==
            match x
            case EnumValue(name, number) => e.(values := e.values[name := NumberValue(number)])
            case EnumReserved(words) => e.(reserved := e.reserved + multiset{Joined(words)})
            case EnumOption(_) => e
  {
    hide NumberValue, Joined;
    assert [x][1..] == [];
    assert EnumValues([]) == [] && EnumReservations([]) == multiset{};
    if x.EnumValue? {
      EnteredOne(e.values, Named(x.name, NumberValue(x.number)));
    }
  }

  lemma ReadsEnumElem(x: EnumElem, e: Enum, ts: Tokens, i: nat)
    requires EnumFits(x) && Stands(PrintEnumElem(x), ts, i)
    ensures Peek(ts, i) != Some("}")
    ensures EnumItem(ts, i, e) == Ok(At(EnumAfter(e, [x]), i + |PrintEnumElem(x)|))
  {
    hide Stands, ParseNumber, PrintNumber, NumberFits, SkipStatement, ParseReserved, NumberValue, EnumAfter, Joined;
    EnumAfterOne(e, x);
    match x
    case EnumValue(name, number) =>
      ReadsKeyword(name, PrintNumber(number), ts, i);
      ReadsNumber(number, ts, i + 1);
    case EnumReserved(words) =>
      ReadsWords("reserved", words, ts, i);
    case EnumOption(words) =>
      ReadsWords("option", words, ts, i);
  }

  lemma EnumAfterTurn(e: Enum, es: seq<EnumElem>)
    requires es != []
    ensures EnumAfter(e, es) == EnumAfter(EnumAfter(e, [es[0]]), es[1..])
  {
    hide NumberValue;
    var own, rest := EnumValues([es[0]]), EnumValues(es[1..]);
    assert [es[0]][1..] == [] && EnumValues([]) == [] && EnumReservations([]) == multiset{};
    assert EnumValues(es) == own + rest;
    EnteredParts(e.values, own, rest);
  }

  lemma EnumAfterNone(e: Enum)
    ensures EnumAfter(e, []) == e
  {
  }

  lemma {:induction false} ReadsEnumElems(es: seq<EnumElem>, e: Enum, ts: Tokens, i: nat)
    requires (forall k :: 0 <= k < |es| ==> EnumFits(es[k])) && Stands(PrintEnumElems(es), ts, i)
    ensures EnumBody(ts, i, e) == Ok(At(EnumAfter(e, es), i + |PrintEnumElems(es)|))
    decreases |es|
  {
    hide Stands, EnumItem, PrintEnumElem, EnumFits, EnumAfter;
    if es == [] {
      StandsAt(["}"], ts, i, 0);
      EnumAfterNone(e);
    } else {
      StandsParts(PrintEnumElem(es[0]), PrintEnumElems(es[1..]), ts, i);
      EnumAfterTurn(e, es);
      ReadsEnumElem(es[0], e, ts, i);
      ReadsEnumElems(es[1..], EnumAfter(e, [es[0]]), ts, i + |PrintEnumElem(es[0])|);
    }
  }

  lemma ReadsEnum(name: string, values: seq<EnumElem>, parent: string, tables: Tables, ts: Tokens, i: nat)
    requires (forall k :: 0 <= k < |values| ==> EnumFits(values[k])) && Stands([name, "{"] + PrintEnumElems(values), ts, i)
    ensures ParseEnum(ts, i, parent, tables) ==
            Ok(At(Defined(tables, DefinitionsOf(EnumDecl(name, values), parent)), i + 2 + |PrintEnumElems(values)|))
  {
    hide Stands, EnumFits, EnumBody, PrintEnumElems, EnumValues, EnumReservations, Entered;
    ReadsHead(name, PrintEnumElems(values), ts, i);
    ReadsEnumElems(values, NO_VALUES, ts, i + 2);
    assert EnumAfter(NO_VALUES, values) == EnumOf(values);
    DefinedOne(tables, AnEnum(Qualified(parent, name), EnumOf(values)));
  }

  lemma DefinedOne(t: Tables, d: Definition)
    ensures Defined(t, [d]) == Define(t, d)
  {
    hide Define;
    assert [d][1..] == [];
  }

  /** What a message being read becomes by reading further declarations. */
  function PartialAfter(p: Partial, ds: seq<Decl>, name: string): Partial {
    Partial(Message(Entered(p.message.fields, OwnFields(ds)), p.message.reserved + Reservations(ds)),
            Defined(p.tables, Flattened(ds, name)))
  }

  lemma PartialAfterNone(p: Partial, name: string)
    ensures PartialAfter(p, [], name) == p
  {
  }

  lemma OnlyDecl(d: Decl, name: string)
    ensures OwnFields([d]) == FieldsOfDecl(d) && Flattened([d], name) == DefinitionsOf(d, name)
    ensures Reservations([d]) == if d.ReservedDecl? then multiset{Joined(d.words)} else multiset{}
  {
    hide FieldsOfDecl, DefinitionsOf;
    assert [d][1..] == [];
    assert OwnFields([]) == [] && Flattened([], name) == [] && Reservations([]) == multiset{};
  }

  lemma PartialAfterOne(p: Partial, d: Decl, name: string)
    ensures PartialAfter(p, [d], name) ==
            match d
            case OneofDecl(oneof, elems) =>
              p.(message := p.message.(fields := Entered(p.message.fields, OneofFields(elems, oneof))))
            case ReservedDecl(words) =>
              p.(message := p.message.(reserved := p.message.reserved + multiset{Joined(words)}))
            case OptionDecl(_) => p
            case PlainField(f) => p.(message := p.message.(fields := p.message.fields[f.name := FieldValue(f, None).value]))
            case _ => p.(tables := Defined(p.tables, DefinitionsOf(d, name)))
  {
    hide OneofFields, DefinitionsOf, FieldValue, Joined;
    OnlyDecl(d, name);
    NoDefinitions(d, name);
    assert p.message.reserved + multiset{} == p.message.reserved;
    EnteredNone(p.message.fields);
    if d.PlainField? {
      EnteredOne(p.message.fields, FieldValue(d.field, None));
      assert FieldValue(d.field, None).name == d.field.name by { FieldName(d.field, None); }
    }
  }

  lemma FieldName(f: FieldDecl, oneof: Option<string>)
    ensures FieldValue(f, oneof).name == f.name
  {
  }

  lemma NoDefinitions(d: Decl, name: string)
    ensures !d.MessageDecl? && !d.EnumDecl? ==> DefinitionsOf(d, name) == []
  {
    hide Flattened, EnumOf;
  }

  lemma PartialAfterTurn(p: Partial, ds: seq<Decl>, name: string)
    requires ds != []
    ensures PartialAfter(p, ds, name) == PartialAfter(PartialAfter(p, [ds[0]], name), ds[1..], name)
    ensures Fresh(p.message.fields.Keys, OwnFields(ds)) <==>
            && Fresh(p.message.fields.Keys, OwnFields([ds[0]]))
            && Fresh(PartialAfter(p, [ds[0]], name).message.fields.Keys, OwnFields(ds[1..]))
  {
    hide FieldsOfDecl, DefinitionsOf, Entered, Fresh, Defined;
    OnlyDecl(ds[0], name);
    EnteredParts(p.message.fields, OwnFields([ds[0]]), OwnFields(ds[1..]));
    FreshParts(p.message.fields, OwnFields([ds[0]]), OwnFields(ds[1..]));
    DefinedParts(p.tables, Flattened([ds[0]], name), Flattened(ds[1..], name));
  }

  function Closed(p: Partial, name: string): Tables {
    p.tables.(messages := p.tables.messages[name := p.message])
  }

  lemma {:induction false} ReadsBody(ds: seq<Decl>, name: string, p: Partial, ts: Tokens, i: nat)
    requires (forall k :: 0 <= k < |ds| ==> DeclFits(ds[k])) && Fresh(p.message.fields.Keys, OwnFields(ds))
    requires Stands(PrintBody(ds), ts, i)
    ensures MessageBody(ts, i, name, p) == Ok(At(Closed(PartialAfter(p, ds, name), name), i + |PrintBody(ds)|))
    decreases ds, 0
  {
    hide Stands, MessageItem, PrintDecl, DeclFits, PartialAfter, OwnFields, Fresh;
    if ds == [] {
      StandsAt(["}"], ts, i, 0);
      PartialAfterNone(p, name);
    } else {
      var d := ds[0];
      StandsParts(PrintDecl(d), PrintBody(ds[1..]), ts, i);
      PartialAfterTurn(p, ds, name);
      ReadsDecl(d, name, p, ts, i);
      ReadsBody(ds[1..], name, PartialAfter(p, [d], name), ts, i + |PrintDecl(d)|);
    }
  }

  lemma {:induction false} ReadsDecl(d: Decl, name: string, p: Partial, ts: Tokens, i: nat)
    requires DeclFits(d) && Fresh(p.message.fields.Keys, OwnFields([d])) && Stands(PrintDecl(d), ts, i)
    ensures Peek(ts, i) != Some("}")
    ensures MessageItem(ts, i, name, p) == Ok(At(PartialAfter(p, [d], name), i + |PrintDecl(d)|))
    decreases d, 1
  {
    hide Stands, ParseField, ParseOneof, ParseEnum, ParseMessage, ParseReserved, SkipStatement,
      PrintField, PrintBody, PrintEnumElems, PrintOneofElems, FieldFits, EnumFits, OneofFits, BodyFits,
      FieldValue, DefinitionsOf, OneofFields, OwnFields, PartialAfter, Entered, Fresh, Defined, Joined;
    OnlyDecl(d, name);
    PartialAfterOne(p, d, name);
    match d
    case MessageDecl(inner, body) =>
      ReadsKeyword("message", [inner, "{"] + PrintBody(body), ts, i);
      ReadsMessage(inner, body, name, p.tables, ts, i + 1);
    case EnumDecl(inner, values) =>
      ReadsKeyword("enum", [inner, "{"] + PrintEnumElems(values), ts, i);
      ReadsEnum(inner, values, name, p.tables, ts, i + 1);
    case OneofDecl(inner, elems) =>
      ReadsKeyword("oneof", [inner, "{"] + PrintOneofElems(elems), ts, i);
      ReadsOneof(inner, elems, p.message.fields, ts, i + 1);
    case ReservedDecl(words) =>
      ReadsWords("reserved", words, ts, i);
    case OptionDecl(words) =>
      ReadsWords("option", words, ts, i);
    case PlainField(f) =>
      ReadsField(f, None, ts, i);
      EnteredOne(p.message.fields, FieldValue(f, None));
      FieldName(f, None);
  }

  lemma ReadsKeyword(word: string, rest: Tokens, ts: Tokens, i: nat)
    requires Stands([word] + rest, ts, i)
    ensures Peek(ts, i) == Some(word) && Stands(rest, ts, i + 1)
  {
    hide Stands;
    StandsParts([word], rest, ts, i);
    StandsAt([word], ts, i, 0);
  }

  lemma {:induction false} ReadsMessage(name: string, body: seq<Decl>, parent: string, tables: Tables, ts: Tokens, i: nat)
    requires BodyFits(body) && Stands([name, "{"] + PrintBody(body), ts, i)
    ensures ParseMessage(ts, i, parent, tables) ==
            Ok(At(Defined(tables, DefinitionsOf(MessageDecl(name, body), parent)), i + 2 + |PrintBody(body)|))
    decreases body, 2
  {
    hide Stands, PrintBody, MessageBody, DeclFits, Fresh, OwnFields, Flattened, Defined, Define, Entered, Reservations;
    ReadsHead(name, PrintBody(body), ts, i);
    var whole := Qualified(parent, name);
    assert NO_FIELDS.fields.Keys == {};
    ReadsBody(body, whole, Partial(NO_FIELDS, tables), ts, i + 2);
    DefinedParts(tables, Flattened(body, whole), [AMessage(whole, MessageOf(body))]);
    DefinedOne(Defined(tables, Flattened(body, whole)), AMessage(whole, MessageOf(body)));
    assert Define(Defined(tables, Flattened(body, whole)), AMessage(whole, MessageOf(body)))
        == Closed(PartialAfter(Partial(NO_FIELDS, tables), body, whole), whole) by { ClosedIsDefined(body, whole, tables); }
  }

  lemma ClosedIsDefined(body: seq<Decl>, whole: string, tables: Tables)
    ensures Define(Defined(tables, Flattened(body, whole)), AMessage(whole, MessageOf(body)))
         == Closed(PartialAfter(Partial(NO_FIELDS, tables), body, whole), whole)
  {
    hide Flattened, Defined, OwnFields, Entered, Reservations;
    assert multiset{} + Reservations(body) == Reservations(body);
  }
}
