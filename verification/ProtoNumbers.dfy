/** The numbers of fields and enum values: they come through the parser as written, and changing one breaks the contract. */
module ProtoNumbers {
  import opened Options
  import opened Decimal
  import opened ProtoParser
  import opened ProtoGrammar
  import opened ProtoRoundTrip
  import opened ProtoAccepts
  import opened ProtoTables
  import opened SchemaContract
  import C = Contract
  import J = Json

  // ---------- written numbers ----------

  /** The digits of the number, with a minus sign if it is negative. */
  function Numeral(n: int): string {
    if n < 0 then "-" + PrintNat(0 - n) else PrintNat(n)
  }

  lemma NumeralReads(n: int)
    ensures ParseInt(Numeral(n)) == Some(n)
  {
    hide ParseInt, PrintNat;
    PrintedIntReadsBack(if n < 0 then 0 - n else n);
  }

  lemma OwnEntered(body: seq<Decl>)
    requires Fresh({}, OwnFields(body))
    ensures forall x :: x in OwnFields(body) ==> x.name in MessageOf(body).fields && MessageOf(body).fields[x.name] == x.value
  {
    hide OwnFields, Entered, Fresh;
    var none: map<string, Field> := map[];
    assert none.Keys == {};
    EnteredIsEntries(none, OwnFields(body));
  }

  /** A field, plain or in a oneof, is in the message under its number, type and cardinality. */
  lemma FieldInMessage(body: seq<Decl>, f: FieldDecl, oneof: Option<string>, n: int)
    requires Fresh({}, OwnFields(body)) && FieldValue(f, oneof) in OwnFields(body) && f.number.digits == Numeral(n)
    ensures var fields := MessageOf(body).fields;
            f.name in fields && fields[f.name] == Field(n, TypeText(f.typ), f.cardinality, oneof)
  {
    hide OwnFields, Entered, ParseInt, Numeral, Fresh;
    NumeralReads(n);
    OwnEntered(body);
  }

  lemma {:induction false} OwnHasPlain(body: seq<Decl>, f: FieldDecl)
    requires PlainField(f) in body
    ensures FieldValue(f, None) in OwnFields(body)
    decreases |body|
  {
    hide FieldValue, OneofFields;
    if body[0] != PlainField(f) {
      OwnHasPlain(body[1..], f);
    }
  }

  lemma {:induction false} OneofHas(elems: seq<OneofElem>, oneof: string, f: FieldDecl)
    requires OneofField(f) in elems
    ensures FieldValue(f, Some(oneof)) in OneofFields(elems, oneof)
    decreases |elems|
  {
    hide FieldValue;
    if elems[0] != OneofField(f) {
      OneofHas(elems[1..], oneof, f);
    }
  }

  lemma {:induction false} OwnHasOneof(body: seq<Decl>, name: string, elems: seq<OneofElem>, f: FieldDecl)
    requires OneofDecl(name, elems) in body && OneofField(f) in elems
    ensures FieldValue(f, Some(name)) in OwnFields(body)
    decreases |body|
  {
    hide FieldValue, OneofFields;
    if body[0] != OneofDecl(name, elems) {
      OwnHasOneof(body[1..], name, elems, f);
    } else {
      OneofHas(elems, name, f);
    }
  }

  /** Whatever number a plain field of a message is written with, it has in the tables of every schema whose last message of that name this is. */
  lemma ParsedPlainNumber(ds: seq<TopDecl>, name: string, body: seq<Decl>, f: FieldDecl, n: int)
    requires SchemaFits(ds) && BodyFits(body) && IsLast(TopDefinitions(ds), AMessage(name, MessageOf(body)))
    requires PlainField(f) in body && f.number.digits == Numeral(n)
    ensures var w := Parse(PrintSchema(ds));
            && w.Ok? && name in w.value.tables.messages && f.name in w.value.tables.messages[name].fields
            && w.value.tables.messages[name].fields[f.name] == Field(n, TypeText(f.typ), f.cardinality, None)
  {
    hide Parse, PrintSchema, SchemaFits, TopDefinitions, Defined, OwnFields, MessageOf, IsLast, FieldValue, Numeral;
    ParseReadsWritten(ds);
    HeldIffLast(TopDefinitions(ds), AMessage(name, MessageOf(body)));
    OwnHasPlain(body, f);
    FieldInMessage(body, f, None, n);
  }

  /** The same for a field of a oneof. */
  lemma ParsedOneofNumber(ds: seq<TopDecl>, name: string, body: seq<Decl>, oneof: string, elems: seq<OneofElem>, f: FieldDecl, n: int)
    requires SchemaFits(ds) && BodyFits(body) && IsLast(TopDefinitions(ds), AMessage(name, MessageOf(body)))
    requires OneofDecl(oneof, elems) in body && OneofField(f) in elems && f.number.digits == Numeral(n)
    ensures var w := Parse(PrintSchema(ds));
            && w.Ok? && name in w.value.tables.messages && f.name in w.value.tables.messages[name].fields
            && w.value.tables.messages[name].fields[f.name] == Field(n, TypeText(f.typ), f.cardinality, Some(oneof))
  {
    hide Parse, PrintSchema, SchemaFits, TopDefinitions, Defined, OwnFields, MessageOf, IsLast, FieldValue, Numeral;
    ParseReadsWritten(ds);
    HeldIffLast(TopDefinitions(ds), AMessage(name, MessageOf(body)));
    OwnHasOneof(body, oneof, elems, f);
    FieldInMessage(body, f, Some(oneof), n);
  }

  lemma {:induction false} ValuesHave(values: seq<EnumElem>, value: string, number: NumberPart)
    requires EnumValue(value, number) in values
    ensures Named(value, NumberValue(number)) in EnumValues(values)
    decreases |values|
  {
    hide NumberValue;
    if values[0] != EnumValue(value, number) {
      ValuesHave(values[1..], value, number);
    }
  }

  /** And for a value of an enum that gives no name to two numbers. */
  lemma ParsedEnumNumber(ds: seq<TopDecl>, name: string, values: seq<EnumElem>, value: string, number: NumberPart, n: int)
    requires SchemaFits(ds) && Clear(EnumValues(values)) && IsLast(TopDefinitions(ds), AnEnum(name, EnumOf(values)))
    requires EnumValue(value, number) in values && number.digits == Numeral(n)
    ensures var w := Parse(PrintSchema(ds));
            && w.Ok? && name in w.value.tables.enums && value in w.value.tables.enums[name].values
            && w.value.tables.enums[name].values[value] == n
  {
    hide Parse, PrintSchema, SchemaFits, TopDefinitions, Defined, EnumValues, Entered, IsLast, Numeral, ParseInt, Clear;
    ParseReadsWritten(ds);
    HeldIffLast(TopDefinitions(ds), AnEnum(name, EnumOf(values)));
    NumeralReads(n);
    ValuesHave(values, value, number);
    EnumHoldsAllIff(EnumValues(values));
    assert NumberValue(number) == n;
    var x := Named(value, n);
    assert x in EnumValues(values);
  }

  // ---------- a changed number ----------

  /** The same field under another number. */
  ghost predicate FieldRenumbered(f: FieldDecl, g: FieldDecl) {
    && f.name == g.name && f.typ == g.typ && f.cardinality == g.cardinality
    && exists m, n :: m != n && f.number.digits == Numeral(m) && g.number.digits == Numeral(n)
  }

  /** The same elements but for the number of one field. */
  ghost predicate ElemsRenumbered(a: seq<OneofElem>, b: seq<OneofElem>)
    decreases |a|
  {
    && a != [] && b != []
    && ((a[0].OneofField? && b[0].OneofField? && FieldRenumbered(a[0].field, b[0].field) && a[1..] == b[1..])
        || (a[0] == b[0] && ElemsRenumbered(a[1..], b[1..])))
  }

  /** The same declaration but for the number of one field inside. */
  ghost predicate DeclRenumbered(x: Decl, y: Decl)
    decreases x, 0
  {
    match x
    case MessageDecl(name, body) => y.MessageDecl? && y.name == name && BodyRenumbered(body, y.body)
    case OneofDecl(name, elems) => y.OneofDecl? && y.name == name && ElemsRenumbered(elems, y.elems)
    case PlainField(f) => y.PlainField? && FieldRenumbered(f, y.field)
    case _ => false
  }

  ghost predicate BodyRenumbered(a: seq<Decl>, b: seq<Decl>)
    decreases a, 0
  {
    && a != [] && b != []
    && ((DeclRenumbered(a[0], b[0]) && a[1..] == b[1..]) || (a[0] == b[0] && BodyRenumbered(a[1..], b[1..])))
  }

  /** The same schema but for the number of one field, at any depth. */
  ghost predicate SchemaRenumbered(a: seq<TopDecl>, b: seq<TopDecl>)
    decreases |a|
  {
    && a != [] && b != []
    && ((a[0].Inner? && b[0].Inner? && DeclRenumbered(a[0].decl, b[0].decl) && a[1..] == b[1..])
        || (a[0] == b[0] && SchemaRenumbered(a[1..], b[1..])))
  }

  // ---------- what it changes in the fields ----------

  /** A name under which the two lists have fields of different numbers. */
  ghost predicate NumbersDiffer(a: seq<Named<Field>>, b: seq<Named<Field>>, name: string) {
    exists x, y :: x in a && y in b && x.name == name && y.name == name && x.value.number != y.value.number
  }

  lemma RenumberedValue(f: FieldDecl, g: FieldDecl, oneof: Option<string>)
    requires FieldRenumbered(f, g)
    ensures FieldValue(f, oneof).name == FieldValue(g, oneof).name == f.name
    ensures FieldValue(f, oneof).value.number != FieldValue(g, oneof).value.number
  {
    hide ParseInt, Numeral;
    var m, n :| m != n && f.number.digits == Numeral(m) && g.number.digits == Numeral(n);
    NumeralReads(m);
    NumeralReads(n);
  }

  lemma {:induction false} ElemsDiffer(a: seq<OneofElem>, b: seq<OneofElem>, oneof: string)
    requires ElemsRenumbered(a, b)
    ensures SomeDiffer(OneofFields(a, oneof), OneofFields(b, oneof))
    decreases |a|
  {
    hide FieldRenumbered, FieldValue;
    if a[0].OneofField? && b[0].OneofField? && FieldRenumbered(a[0].field, b[0].field) {
      RenumberedValue(a[0].field, b[0].field, Some(oneof));
      assert FieldValue(a[0].field, Some(oneof)) in OneofFields(a, oneof);
      assert FieldValue(b[0].field, Some(oneof)) in OneofFields(b, oneof);
      assert NumbersDiffer(OneofFields(a, oneof), OneofFields(b, oneof), a[0].field.name);
    } else {
      ElemsDiffer(a[1..], b[1..], oneof);
      DifferWithin(OneofFields(a[1..], oneof), OneofFields(b[1..], oneof), OneofFields(a, oneof), OneofFields(b, oneof));
    }
  }

  ghost predicate SomeDiffer(a: seq<Named<Field>>, b: seq<Named<Field>>) {
    exists name :: NumbersDiffer(a, b, name)
  }

  lemma DifferWithin(a: seq<Named<Field>>, b: seq<Named<Field>>, c: seq<Named<Field>>, d: seq<Named<Field>>)
    requires SomeDiffer(a, b) && (forall x :: x in a ==> x in c) && forall x :: x in b ==> x in d
    ensures SomeDiffer(c, d)
  {
    var name :| NumbersDiffer(a, b, name);
    assert NumbersDiffer(c, d, name);
  }

  /** A message in which a field of that name has another number. */
  ghost predicate MessagesDiffer(a: Message, b: Message) {
    exists name :: name in a.fields && name in b.fields && a.fields[name].number != b.fields[name].number
  }

  lemma FieldsDiffer(a: seq<Decl>, b: seq<Decl>)
    requires SomeDiffer(OwnFields(a), OwnFields(b)) && Fresh({}, OwnFields(a)) && Fresh({}, OwnFields(b))
    ensures MessagesDiffer(MessageOf(a), MessageOf(b))
  {
    hide OwnFields, Entered, Fresh;
    OwnEntered(a);
    OwnEntered(b);
    var name :| NumbersDiffer(OwnFields(a), OwnFields(b), name);
    var x, y :| x in OwnFields(a) && y in OwnFields(b) && x.name == name && y.name == name && x.value.number != y.value.number;
  }

  // ---------- what it changes in the definitions ----------

  /** The two lists define the same names of the same kinds in the same order. */
  ghost predicate SameNames(a: seq<Definition>, b: seq<Definition>) {
    |a| == |b| && forall k :: 0 <= k < |a| ==> SameName(a[k], b[k])
  }

  ghost predicate DefinitionsDiffer(a: seq<Definition>, b: seq<Definition>) {
    exists k :: 0 <= k < |a| && k < |b| && a[k].AMessage? && b[k].AMessage? && MessagesDiffer(a[k].message, b[k].message)
  }

  lemma SameNamesParts(a: seq<Definition>, b: seq<Definition>, c: seq<Definition>, d: seq<Definition>)
    requires SameNames(a, b) && SameNames(c, d)
    ensures SameNames(a + c, b + d)
    ensures DefinitionsDiffer(a, b) || DefinitionsDiffer(c, d) ==> DefinitionsDiffer(a + c, b + d)
  {
    hide MessagesDiffer;
    if DefinitionsDiffer(a, b) {
      var k :| 0 <= k < |a| && k < |b| && a[k].AMessage? && b[k].AMessage? && MessagesDiffer(a[k].message, b[k].message);
      assert (a + c)[k] == a[k] && (b + d)[k] == b[k];
    } else if DefinitionsDiffer(c, d) {
      var k :| 0 <= k < |c| && k < |d| && c[k].AMessage? && d[k].AMessage? && MessagesDiffer(c[k].message, d[k].message);
      assert (a + c)[|a| + k] == c[k] && (b + d)[|b| + k] == d[k];
    }
  }

  lemma FirstFields(a: seq<Decl>)
    requires a != []
    ensures forall x :: x in FieldsOfDecl(a[0]) ==> x in OwnFields(a)
  {
    hide FieldsOfDecl;
  }

  /** The fields of the message itself differ, or a definition inside it does. */
  lemma {:induction false} BodyDiffers(a: seq<Decl>, b: seq<Decl>, prefix: string)
    requires BodyRenumbered(a, b) && (forall k :: 0 <= k < |a| ==> DeclFits(a[k])) && forall k :: 0 <= k < |b| ==> DeclFits(b[k])
    ensures SameNames(Flattened(a, prefix), Flattened(b, prefix))
    ensures SomeDiffer(OwnFields(a), OwnFields(b)) || DefinitionsDiffer(Flattened(a, prefix), Flattened(b, prefix))
    decreases a, 0
  {
    hide DeclRenumbered, DefinitionsOf, FieldsOfDecl, SomeDiffer, DefinitionsDiffer, DeclFits, SameNames, SameName;
    var x, y, s, t := a[0], b[0], a[1..], b[1..];
    if DeclRenumbered(x, y) && s == t {
      DeclDiffers(x, y, prefix);
      AllSameNames(Flattened(s, prefix));
      SameNamesParts(DefinitionsOf(x, prefix), DefinitionsOf(y, prefix), Flattened(s, prefix), Flattened(t, prefix));
      if SomeDiffer(FieldsOfDecl(x), FieldsOfDecl(y)) {
        FirstFields(a);
        FirstFields(b);
        DifferWithin(FieldsOfDecl(x), FieldsOfDecl(y), OwnFields(a), OwnFields(b));
      }
    } else {
      assert forall k :: 0 <= k < |s| ==> s[k] == a[k + 1];
      assert forall k :: 0 <= k < |t| ==> t[k] == b[k + 1];
      BodyDiffers(s, t, prefix);
      AllSameNames(DefinitionsOf(x, prefix));
      SameNamesParts(DefinitionsOf(x, prefix), DefinitionsOf(y, prefix), Flattened(s, prefix), Flattened(t, prefix));
      if SomeDiffer(OwnFields(s), OwnFields(t)) {
        DifferWithin(OwnFields(s), OwnFields(t), OwnFields(a), OwnFields(b));
      }
    }
  }

  lemma AllSameNames(a: seq<Definition>)
    ensures SameNames(a, a)
  {
  }

  lemma {:induction false} DeclDiffers(x: Decl, y: Decl, prefix: string)
    requires DeclRenumbered(x, y) && DeclFits(x) && DeclFits(y)
    ensures SameNames(DefinitionsOf(x, prefix), DefinitionsOf(y, prefix))
    ensures SomeDiffer(FieldsOfDecl(x), FieldsOfDecl(y)) || DefinitionsDiffer(DefinitionsOf(x, prefix), DefinitionsOf(y, prefix))
    decreases x, 1
  {
    hide BodyRenumbered, ElemsRenumbered, FieldRenumbered, OneofFields, FieldValue, Flattened, MessageOf, SomeDiffer, DefinitionsDiffer, SameNames,
      EnumFits, OneofFits, FieldFits, Words, OwnFields, Qualified;
    match x
    case MessageDecl(name, body) =>
      var whole := Qualified(prefix, name);
      assert BodyFits(body) && BodyFits(y.body);
      BodyDiffers(body, y.body, whole);
      var a, b := AMessage(whole, MessageOf(body)), AMessage(whole, MessageOf(y.body));
      OneDiffers(a, b);
      if SomeDiffer(OwnFields(body), OwnFields(y.body)) {
        FieldsDiffer(body, y.body);
      }
      SameNamesParts(Flattened(body, whole), Flattened(y.body, whole), [a], [b]);
    case OneofDecl(name, elems) =>
      ElemsDiffer(elems, y.elems, name);
      AllSameNames([]);
    case PlainField(f) =>
      AllSameNames([]);
      PlainDiffers(f, y.field);
  }

  lemma PlainDiffers(f: FieldDecl, g: FieldDecl)
    requires FieldRenumbered(f, g)
    ensures SomeDiffer(FieldsOfDecl(PlainField(f)), FieldsOfDecl(PlainField(g)))
  {
    hide FieldValue, FieldRenumbered;
    RenumberedValue(f, g, None);
    assert FieldValue(f, None) in FieldsOfDecl(PlainField(f)) && FieldValue(g, None) in FieldsOfDecl(PlainField(g));
    assert NumbersDiffer(FieldsOfDecl(PlainField(f)), FieldsOfDecl(PlainField(g)), f.name);
  }

  lemma OneDiffers(a: Definition, b: Definition)
    requires a.AMessage? && b.AMessage? && a.name == b.name
    ensures SameNames([a], [b]) && (MessagesDiffer(a.message, b.message) ==> DefinitionsDiffer([a], [b]))
  {
    hide MessagesDiffer;
    assert [a][0] == a && [b][0] == b;
  }

  lemma {:induction false} TopDiffers(a: seq<TopDecl>, b: seq<TopDecl>)
    requires SchemaRenumbered(a, b) && (forall k :: 0 <= k < |a| ==> TopFits(a[k])) && forall k :: 0 <= k < |b| ==> TopFits(b[k])
    ensures SameNames(TopDefinitions(a), TopDefinitions(b)) && DefinitionsDiffer(TopDefinitions(a), TopDefinitions(b))
    decreases |a|
  {
    hide DeclRenumbered, DefinitionsOf, SomeDiffer, DefinitionsDiffer, DeclFits, SameNames, LoadLiteral, FieldsOfDecl;
    var x, y, s, t := a[0], b[0], a[1..], b[1..];
    if x.Inner? && y.Inner? && DeclRenumbered(x.decl, y.decl) && s == t {
      DeclDiffers(x.decl, y.decl, "");
      NoFieldsOutside(x.decl, y.decl);
      AllSameNames(TopDefinitions(s));
      SameNamesParts(DefinitionsOf(x.decl, ""), DefinitionsOf(y.decl, ""), TopDefinitions(s), TopDefinitions(t));
    } else {
      assert forall k :: 0 <= k < |s| ==> s[k] == a[k + 1];
      assert forall k :: 0 <= k < |t| ==> t[k] == b[k + 1];
      TopDiffers(s, t);
      var own := if x.Inner? then DefinitionsOf(x.decl, "") else [];
      AllSameNames(own);
      SameNamesParts(own, own, TopDefinitions(s), TopDefinitions(t));
    }
  }

  lemma NoFieldsOutside(x: Decl, y: Decl)
    requires x.MessageDecl? || x.EnumDecl? || x.OptionDecl?
    ensures !SomeDiffer(FieldsOfDecl(x), FieldsOfDecl(y))
  {
  }

  // ---------- what it changes in the contract ----------

  ghost predicate NamesDistinct(ds: seq<Definition>) {
    forall j, k :: 0 <= j < k < |ds| ==> !SameName(ds[j], ds[k])
  }

  lemma OnlyOneOfName(ds: seq<Definition>, k: nat)
    requires NamesDistinct(ds) && k < |ds|
    ensures IsLast(ds, ds[k]) && forall e :: IsLast(ds, e) && SameName(e, ds[k]) ==> e == ds[k]
  {
  }

  lemma NoExtension(a: seq<Definition>, b: seq<Definition>, k: nat)
    requires SameNames(a, b) && NamesDistinct(b) && NamesDistinct(a) && k < |a| && a[k].AMessage? && b[k].AMessage?
    requires MessagesDiffer(a[k].message, b[k].message)
    ensures !LastsExtend(a, b)
  {
    hide IsLast, NamesDistinct;
    OnlyOneOfName(a, k);
    OnlyOneOfName(b, k);
    forall e | IsLast(b, e)
      ensures !Extends(a[k], e)
    {
      if SameName(a[k], e) {
        assert SameName(e, b[k]);
      }
    }
  }

  /**
   Two accepted schemas that differ in the number of one field, at any depth, and give no
   name to two definitions: neither contract promises what the other one does.
   */
  lemma RenumberedBreaksContract(a: seq<TopDecl>, b: seq<TopDecl>, operations: map<string, C.Policy>)
    requires SchemaFits(a) && SchemaFits(b) && SchemaRenumbered(a, b) && NamesDistinct(TopDefinitions(a))
    ensures var v, w := Parse(PrintSchema(a)), Parse(PrintSchema(b));
            && v.Ok? && w.Ok?
            && !C.Additive(ContractOf(v.value, operations), ContractOf(w.value, operations))
            && !C.Additive(ContractOf(w.value, operations), ContractOf(v.value, operations))
  {
    hide Parse, PrintSchema, TopDefinitions, TopFits, SchemaRenumbered, C.Additive, ContractOf, LastsExtend, MessagesDiffer;
    AdditiveIffLastExtend(a, b, operations);
    AdditiveIffLastExtend(b, a, operations);
    TopDiffers(a, b);
    var p, q := TopDefinitions(a), TopDefinitions(b);
    var k :| 0 <= k < |p| && k < |q| && p[k].AMessage? && q[k].AMessage? && MessagesDiffer(p[k].message, q[k].message);
    NoExtension(p, q, k);
    assert MessagesDiffer(q[k].message, p[k].message) by { DifferBothWays(p[k].message, q[k].message); }
    NoExtension(q, p, k);
  }

  lemma DifferBothWays(a: Message, b: Message)
    requires MessagesDiffer(a, b)
    ensures MessagesDiffer(b, a)
  {
  }

  // ---------- the other texts of the tables ----------

  predicate Spaceless(words: seq<string>) {
    forall k :: 0 <= k < |words| ==> words[k] != "" && ' ' !in words[k]
  }

  lemma NotShorter(a: string, x: string, b: string, y: string, c: char)
    requires c !in b && a + x == b + y && (x == "" || x[0] == c)
    ensures |b| <= |a|
  {
    var t := b + y;
    assert forall k :: 0 <= k < |b| ==> t[k] == b[k] && b[k] in b;
    assert |a| < |t| ==> t[|a|] == c;
  }

  /** A text splits in one way only before the first separator. */
  lemma FirstSeparator(a: string, x: string, b: string, y: string, c: char)
    requires c !in a && c !in b && a + x == b + y && (x == "" || x[0] == c) && (y == "" || y[0] == c)
    ensures a == b && x == y
  {
    NotShorter(a, x, b, y, c);
    NotShorter(b, y, a, x, c);
    assert (a + x)[..|a|] == a && (b + y)[..|b|] == b;
    assert (a + x)[|a|..] == x && (b + y)[|b|..] == y;
  }

  /** Two reservations of tokens without spaces, which all but quoted ones are, become the same text only if they are the same tokens in the same order. */
  lemma {:induction false} ReservationsDiffer(a: seq<string>, b: seq<string>)
    requires Spaceless(a) && Spaceless(b) && Joined(a) == Joined(b)
    ensures a == b
    decreases |a|
  {
    if a != [] && b != [] {
      var x := if |a| == 1 then "" else " " + Joined(a[1..]);
      var y := if |b| == 1 then "" else " " + Joined(b[1..]);
      assert Joined(a) == a[0] + x && Joined(b) == b[0] + y;
      FirstSeparator(a[0], x, b[0], y, ' ');
      if |a| > 1 {
        assert x[1..] == Joined(a[1..]) && y[1..] == Joined(b[1..]);
        ReservationsDiffer(a[1..], b[1..]);
      }
      assert a == [a[0]] + a[1..] && b == [b[0]] + b[1..];
    }
  }

  /** Two map types are the same text only if their keys and values are, and no map type is the text of a plain one without brackets. */
  lemma MapTypesDiffer(key: string, value: string, k: string, v: string)
    requires ',' !in key && ',' !in k
    ensures MapType(key, value) == MapType(k, v) <==> key == k && value == v
    ensures '<' in MapType(key, value)
    ensures MapType("string", "int32") == "map<string,int32>"
  {
    assert MapType(key, value)[3] == '<';
    assert "map<" + "string" + "," + "int32" + ">" == "map<string,int32>";
    if MapType(key, value) == MapType(k, v) {
      var x, y := "," + (value + ">"), "," + (v + ">");
      assert MapType(key, value)[4..] == key + x && MapType(k, v)[4..] == k + y;
      FirstSeparator(key, x, k, y, ',');
      assert value == x[1..|x| - 1] && v == y[1..|y| - 1];
    }
  }

  lemma LastDot(parent: string, name: string, p: string, n: string)
    requires '.' !in name && parent + "." + name == p + "." + n
    ensures |p| <= |parent|
  {
    var t := parent + "." + name;
    assert forall k :: |parent| < k < |t| ==> t[k] == name[k - |parent| - 1] && t[k] in name;
    assert (p + "." + n)[|p|] == '.';
  }

  lemma HasDot(parent: string, name: string)
    ensures '.' in parent + "." + name
  {
    assert (parent + "." + name)[|parent|] == '.';
  }

  /** Names without dots are the same after qualification only under the same parent; a name at the top stays as it is. */
  lemma QualifiedDiffer(parent: string, name: string, p: string, n: string)
    requires '.' !in name && '.' !in n
    ensures Qualified(parent, name) == Qualified(p, n) <==> parent == p && name == n
    ensures Qualified("", name) == name
    ensures parent != "" ==> Qualified(parent, name) == parent + ['.'] + name
  {
    HasDot(parent, name);
    HasDot(p, n);
    var t, u := parent + "." + name, p + "." + n;
    if t == u {
      LastDot(parent, name, p, n);
      LastDot(p, n, parent, name);
      assert t[..|parent|] == parent && u[..|p|] == p;
      assert t[|parent| + 1..] == name && u[|p| + 1..] == n;
    }
  }

  /** A literal is a text exactly if it reads as a JSON string, which it then is, and what is no JSON value is refused, the two names of numbers aside. */
  lemma LiteralsAre(token: string, s: string)
    ensures LoadLiteral(token) == Ok(Text(s)) <==> token != "NaN" && token != "Infinity" && J.ReadDocument(token) == Some(J.Str(s))
    ensures LoadLiteral(token).Err? <==> token != "NaN" && token != "Infinity" && J.ReadDocument(token) == None
  {
    hide J.ReadDocument;
  }

  // ---------- brackets ----------

  /** How many brackets open more than close. */
  function Opened(words: Tokens): int {
    multiset(words)["["] as int - multiset(words)["]"]
  }

  lemma OpenedFirst(words: Tokens, depth: int)
    requires words != []
    ensures depth + Opened(words) == Deeper(depth, words[0]) + Opened(words[1..])
  {
    assert words == [words[0]] + words[1..];
    assert multiset(words) == multiset{words[0]} + multiset(words[1..]);
  }

  /** The tokens between two brackets: in each beginning of them no fewer brackets open than close, and in all of them as many. */
  lemma {:induction false} InsideIs(words: Tokens, depth: int)
    ensures Inside(words, depth) <==> depth + Opened(words) == 1 && forall k :: 1 <= k <= |words| ==> depth + Opened(words[..k]) != 0
    decreases |words|
  {
    hide Deeper, Opened;
    if words == [] {
      NothingOpen();
    } else {
      var d := Deeper(depth, words[0]);
      InsideIs(words[1..], d);
      OpenedFirst(words, depth);
      forall k | 1 <= k <= |words|
        ensures depth + Opened(words[..k]) == d + Opened(words[1..][..k - 1])
      {
        OpenedFirst(words[..k], depth);
        assert words[..k][1..] == words[1..][..k - 1];
      }
      NothingOpen();
      assert words[1..][..0] == [];
      if Inside(words, depth) {
        forall k | 1 <= k <= |words|
          ensures depth + Opened(words[..k]) != 0
        {
          assert k > 1 ==> d + Opened(words[1..][..k - 1]) != 0;
        }
      }
      if forall k :: 1 <= k <= |words| ==> depth + Opened(words[..k]) != 0 {
        assert depth + Opened(words[..1]) != 0;
        forall k | 1 <= k <= |words[1..]|
          ensures d + Opened(words[1..][..k]) != 0
        {
          assert depth + Opened(words[..k + 1]) != 0;
        }
      }
    }
  }

  lemma NothingOpen()
    ensures Opened([]) == 0
  {
  }
}
