/**
 The schema language as trees: how a schema is written as tokens, what it declares,
 and that the parser accepts exactly the written schemas with exactly that meaning.
 */
module ProtoGrammar {
  import opened Options
  import opened Decimal
  import opened ProtoParser

  // ---------- schemas ----------

  datatype TypeExpr = Plain(name: string) | MapOf(key: string, value: string)

  /** Digits, and the tokens between the brackets if there are any. */
  datatype NumberPart = NumberPart(digits: string, options: Option<Tokens>)

  datatype FieldDecl = FieldDecl(cardinality: Cardinality, typ: TypeExpr, name: string, number: NumberPart)

  datatype OneofElem = OneofField(field: FieldDecl) | OneofOption(words: Tokens)

  datatype EnumElem = EnumValue(name: string, number: NumberPart) | EnumReserved(words: Tokens) | EnumOption(words: Tokens)

  datatype Decl =
    | MessageDecl(name: string, body: seq<Decl>)
    | EnumDecl(name: string, values: seq<EnumElem>)
    | OneofDecl(name: string, elems: seq<OneofElem>)
    | ReservedDecl(words: Tokens)
    | OptionDecl(words: Tokens)
    | PlainField(field: FieldDecl)

  /** A top-level declaration: the two header statements, or a message, an enum or an option. */
  datatype TopDecl = SyntaxDecl(literal: string) | PackageDecl(name: string) | Inner(decl: Decl)

  // ---------- how they are written ----------

  function PrintType(t: TypeExpr): Tokens {
    match t
    case Plain(name) => [name]
    case MapOf(key, value) => ["map", "<", key, ",", value, ">"]
  }

  function PrintCardinality(c: Cardinality): Tokens {
    match c
    case Singular => []
    case Optional => ["optional"]
    case Repeated => ["repeated"]
  }

  function PrintOptions(options: Option<Tokens>): Tokens {
    if options.Some? then ["["] + options.value + ["]"] else []
  }

  function PrintNumber(n: NumberPart): Tokens {
    ["=", n.digits] + (PrintOptions(n.options) + [";"])
  }

  function PrintField(f: FieldDecl): Tokens {
    PrintCardinality(f.cardinality) + (PrintType(f.typ) + ([f.name] + PrintNumber(f.number)))
  }

  function PrintOneofElem(e: OneofElem): Tokens {
    match e
    case OneofField(f) => PrintField(f)
    case OneofOption(words) => ["option"] + (words + [";"])
  }

  function PrintOneofElems(es: seq<OneofElem>): Tokens {
    if es == [] then ["}"] else PrintOneofElem(es[0]) + PrintOneofElems(es[1..])
  }

  function PrintEnumElem(e: EnumElem): Tokens {
    match e
    case EnumValue(name, number) => [name] + PrintNumber(number)
    case EnumReserved(words) => ["reserved"] + (words + [";"])
    case EnumOption(words) => ["option"] + (words + [";"])
  }

  function PrintEnumElems(es: seq<EnumElem>): Tokens {
    if es == [] then ["}"] else PrintEnumElem(es[0]) + PrintEnumElems(es[1..])
  }

  function PrintDecl(d: Decl): Tokens
    decreases d, 0
  {
    match d
    case MessageDecl(name, body) => ["message"] + ([name, "{"] + PrintBody(body))
    case EnumDecl(name, values) => ["enum"] + ([name, "{"] + PrintEnumElems(values))
    case OneofDecl(name, elems) => ["oneof"] + ([name, "{"] + PrintOneofElems(elems))
    case ReservedDecl(words) => ["reserved"] + (words + [";"])
    case OptionDecl(words) => ["option"] + (words + [";"])
    case PlainField(f) => PrintField(f)
  }

  /** The declarations of a message and its closing brace. */
  function PrintBody(ds: seq<Decl>): Tokens
    decreases ds, 0
  {
    if ds == [] then ["}"] else PrintDecl(ds[0]) + PrintBody(ds[1..])
  }

  function PrintTop(d: TopDecl): Tokens {
    match d
    case SyntaxDecl(literal) => ["syntax", "=", literal, ";"]
    case PackageDecl(name) => ["package", name, ";"]
    case Inner(decl) => PrintDecl(decl)
  }

  function PrintSchema(ds: seq<TopDecl>): Tokens {
    if ds == [] then [] else PrintTop(ds[0]) + PrintSchema(ds[1..])
  }

  // ---------- which are well formed ----------

  predicate Words(words: Tokens) {
    forall k :: 0 <= k < |words| ==> words[k] != ";"
  }

  /** Bracket tokens that stay inside the outer pair. */
  predicate Inside(words: Tokens, depth: int) {
    if words == [] then depth == 1 else Deeper(depth, words[0]) != 0 && Inside(words[1..], Deeper(depth, words[0]))
  }

  predicate NumberFits(n: NumberPart) {
    ParseInt(n.digits).Some? && (n.options.Some? ==> Inside(n.options.value, 1))
  }

  function FirstOf(t: TypeExpr): string {
    if t.Plain? then t.name else "map"
  }

  predicate FieldFits(f: FieldDecl) {
    && (f.typ.Plain? ==> f.typ.name != "map")
    && (f.cardinality.Singular? ==> FirstOf(f.typ) != "optional" && FirstOf(f.typ) != "repeated")
    && NumberFits(f.number)
  }

  predicate OneofFits(e: OneofElem) {
    match e
    case OneofField(f) => FieldFits(f) && f.cardinality.Singular? && FirstOf(f.typ) != "option" && FirstOf(f.typ) != "}"
    case OneofOption(words) => Words(words)
  }

  predicate EnumFits(e: EnumElem) {
    match e
    case EnumValue(name, number) => NumberFits(number) && name != "reserved" && name != "option" && name != "}"
    case EnumReserved(words) => Words(words)
    case EnumOption(words) => Words(words)
  }

  const KEYWORDS: set<string> := {"message", "enum", "oneof", "reserved", "option", "}"}

  predicate DeclFits(d: Decl)
    decreases d, 0
  {
    match d
    case MessageDecl(_, body) => BodyFits(body)
    case EnumDecl(_, values) => forall k :: 0 <= k < |values| ==> EnumFits(values[k])
    case OneofDecl(_, elems) => forall k :: 0 <= k < |elems| ==> OneofFits(elems[k])
    case ReservedDecl(words) => Words(words)
    case OptionDecl(words) => Words(words)
    case PlainField(f) => FieldFits(f) && (f.cardinality.Singular? ==> FirstOf(f.typ) !in KEYWORDS)
  }

  /** Every declaration is well formed and no two fields of the message, in or out of a oneof, share a name. */
  predicate BodyFits(ds: seq<Decl>)
    decreases ds, 1
  {
    && Fresh({}, OwnFields(ds))
    && forall k :: 0 <= k < |ds| ==> DeclFits(ds[k])
  }

  predicate TopFits(d: TopDecl) {
    match d
    case SyntaxDecl(literal) => LoadLiteral(literal).Ok?
    case PackageDecl(_) => true
    case Inner(decl) => (decl.MessageDecl? || decl.EnumDecl? || decl.OptionDecl?) && DeclFits(decl)
  }

  // ---------- what they declare ----------

  function TypeText(t: TypeExpr): string {
    match t
    case Plain(name) => name
    case MapOf(key, value) => MapType(key, value)
  }

  function NumberValue(n: NumberPart): int {
    if ParseInt(n.digits).Some? then ParseInt(n.digits).value else 0
  }

  function FieldValue(f: FieldDecl, oneof: Option<string>): Named<Field> {
    Named(f.name, Field(NumberValue(f.number), TypeText(f.typ), f.cardinality, oneof))
  }

  function OneofFields(es: seq<OneofElem>, oneof: string): seq<Named<Field>> {
    if es == [] then []
    else (match es[0]
          case OneofField(f) => [FieldValue(f, Some(oneof))]
          case OneofOption(_) => []) + OneofFields(es[1..], oneof)
  }

  function FieldsOfDecl(d: Decl): seq<Named<Field>> {
    match d
    case PlainField(f) => [FieldValue(f, None)]
    case OneofDecl(name, elems) => OneofFields(elems, name)
    case _ => []
  }

  /** A message's own fields in order, those of its oneofs included. */
  function OwnFields(ds: seq<Decl>): seq<Named<Field>> {
    if ds == [] then [] else FieldsOfDecl(ds[0]) + OwnFields(ds[1..])
  }

  function Reservations(ds: seq<Decl>): multiset<string> {
    if ds == [] then multiset{}
    else (if ds[0].ReservedDecl? then multiset{Joined(ds[0].words)} else multiset{}) + Reservations(ds[1..])
  }

  function EnumValues(es: seq<EnumElem>): seq<Named<int>> {
    if es == [] then []
    else (match es[0]
          case EnumValue(name, number) => [Named(name, NumberValue(number))]
          case _ => []) + EnumValues(es[1..])
  }

  function EnumReservations(es: seq<EnumElem>): multiset<string> {
    if es == [] then multiset{}
    else (if es[0].EnumReserved? then multiset{Joined(es[0].words)} else multiset{}) + EnumReservations(es[1..])
  }

  /** Entries put into a dictionary one after the other: the last one of a name stays. */
  function Entered<T>(m: map<string, T>, entries: seq<Named<T>>): map<string, T>
    decreases |entries|
  {
    if entries == [] then m else Entered(m[entries[0].name := entries[0].value], entries[1..])
  }

  /** No entry has a name that was taken before it. */
  predicate Fresh<T>(taken: set<string>, entries: seq<Named<T>>)
    decreases |entries|
  {
    entries == [] || (entries[0].name !in taken && Fresh(taken + {entries[0].name}, entries[1..]))
  }

  datatype Definition = AMessage(name: string, message: Message) | AnEnum(name: string, e: Enum)

  /** The nested definitions of a body under a prefix, inner ones first. */
  function Flattened(ds: seq<Decl>, prefix: string): seq<Definition>
    decreases ds, 0
  {
    if ds == [] then [] else DefinitionsOf(ds[0], prefix) + Flattened(ds[1..], prefix)
  }

  function MessageOf(body: seq<Decl>): Message {
    Message(Entered(map[], OwnFields(body)), Reservations(body))
  }

  function EnumOf(values: seq<EnumElem>): Enum {
    Enum(Entered(map[], EnumValues(values)), EnumReservations(values))
  }

  function DefinitionsOf(d: Decl, prefix: string): seq<Definition>
    decreases d, 1
  {
    match d
    case MessageDecl(name, body) =>
      Flattened(body, Qualified(prefix, name)) + [AMessage(Qualified(prefix, name), MessageOf(body))]
    case EnumDecl(name, values) => [AnEnum(Qualified(prefix, name), EnumOf(values))]
    case _ => []
  }

  function Define(t: Tables, d: Definition): Tables {
    match d
    case AMessage(name, m) => t.(messages := t.messages[name := m])
    case AnEnum(name, e) => t.(enums := t.enums[name := e])
  }

  function Defined(t: Tables, ds: seq<Definition>): Tables
    decreases |ds|
  {
    if ds == [] then t else Defined(Define(t, ds[0]), ds[1..])
  }

  function TopDefinitions(ds: seq<TopDecl>): seq<Definition> {
    if ds == [] then []
    else (if ds[0].Inner? then DefinitionsOf(ds[0].decl, "") else []) + TopDefinitions(ds[1..])
  }

  /** The value of the last syntax statement. */
  function SyntaxOf(ds: seq<TopDecl>): Option<Literal> {
    if ds == [] then None
    else if SyntaxOf(ds[1..]).Some? then SyntaxOf(ds[1..])
    else if ds[0].SyntaxDecl? && LoadLiteral(ds[0].literal).Ok? then Some(LoadLiteral(ds[0].literal).value)
    else None
  }

  function PackageOf(ds: seq<TopDecl>): Option<string> {
    if ds == [] then None
    else if PackageOf(ds[1..]).Some? then PackageOf(ds[1..])
    else if ds[0].PackageDecl? then Some(ds[0].name)
    else None
  }

  predicate SchemaFits(ds: seq<TopDecl>) {
    && (forall k :: 0 <= k < |ds| ==> TopFits(ds[k]))
    && SyntaxOf(ds) == Some(Text("proto3")) && PackageOf(ds) == Some("denpie")
  }

  function Meaning(ds: seq<TopDecl>): Wire {
    Wire("proto3", "denpie", Defined(Tables(map[], map[]), TopDefinitions(ds)))
  }

  // ---------- what the tables hold ----------

  predicate Distinct<T>(entries: seq<Named<T>>) {
    forall a, b :: 0 <= a < b < |entries| ==> entries[a].name != entries[b].name
  }

  lemma {:induction false} FreshIsDistinct<T>(taken: set<string>, entries: seq<Named<T>>)
    ensures Fresh(taken, entries) <==> Distinct(entries) && forall k :: 0 <= k < |entries| ==> entries[k].name !in taken
    decreases |entries|
  {
    if entries != [] {
      var rest := entries[1..];
      FreshIsDistinct(taken + {entries[0].name}, rest);
      assert forall k :: 0 <= k < |rest| ==> rest[k] == entries[k + 1];
      if Fresh(taken, entries) {
        forall k | 1 <= k < |entries|
          ensures entries[k].name !in taken && entries[k].name != entries[0].name
        {
          assert entries[k] == rest[k - 1];
        }
      }
    }
  }

  /** Distinctly named entries are all there, and nothing else is. */
  lemma {:induction false} EnteredIsEntries<T>(m: map<string, T>, entries: seq<Named<T>>)
    requires Fresh(m.Keys, entries)
    ensures var r := Entered(m, entries);
            && (forall k :: 0 <= k < |entries| ==> entries[k].name in r && r[entries[k].name] == entries[k].value)
            && (forall name :: name in r <==> name in m || exists k :: 0 <= k < |entries| && entries[k].name == name)
            && (forall name :: name in m ==> r[name] == m[name])
    decreases |entries|
  {
    if entries != [] {
      var rest := entries[1..];
      var m' := m[entries[0].name := entries[0].value];
      assert m'.Keys == m.Keys + {entries[0].name};
      EnteredIsEntries(m', rest);
      assert forall k :: 1 <= k < |entries| ==> entries[k] == rest[k - 1];
      FreshIsDistinct(m.Keys, entries);
    }
  }
}
