/**
 The recursive-descent parser of the public schema: a cursor over tokens that fills
 flat tables of qualified messages and enums.
 */
module ProtoParser {
  import opened Options
  import opened Json
  import opened Decimal

  // ---------- what the parser produces ----------

  datatype Cardinality = Singular | Optional | Repeated

  datatype Field = Field(number: int, typ: string, cardinality: Cardinality, oneof: Option<string>)

  /** Sorted lists of reservations are multisets: only their order is dropped. */
  datatype Message = Message(fields: map<string, Field>, reserved: multiset<string>)

  datatype Enum = Enum(values: map<string, int>, reserved: multiset<string>)

  datatype Tables = Tables(messages: map<string, Message>, enums: map<string, Enum>)

  datatype Wire = Wire(syntax: string, package: string, tables: Tables)

  datatype Error =
    | UnexpectedEnd
    | Expected(token: string, found: string)
    | Unsupported(token: string)
    | ImportForbidden
    | DuplicateField(message: string, field: string)
    | DuplicateOneofField(field: string)
    | OneofCardinality
    | BadNumber(token: string)
    | BadLiteral(token: string)
    | WrongSyntaxOrPackage

  datatype Result<+T> = Ok(value: T) | Err(error: Error) {
    predicate IsFailure() {
      Err?
    }

    function PropagateFailure<U>(): Result<U>
      requires Err?
    {
      Err(error)
    }

    function Extract(): T
      requires Ok?
    {
      value
    }
  }

  type Tokens = seq<string>

  // ---------- the grammar the parser follows, position by position ----------

  function Peek(ts: Tokens, i: nat): Option<string> {
    if i < |ts| then Some(ts[i]) else None
  }

  function Take(ts: Tokens, i: nat): (r: Result<At<string>>)
    ensures r.Ok? <==> i < |ts|
    ensures r.Ok? ==> r.value == At(ts[i], i + 1)
  {
    if i < |ts| then Ok(At(ts[i], i + 1)) else Err(UnexpectedEnd)
  }

  function TakeExpected(ts: Tokens, i: nat, expected: string): (r: Result<nat>)
    ensures r.Ok? <==> i < |ts| && ts[i] == expected
    ensures r.Ok? ==> r.value == i + 1
  {
    if i >= |ts| then Err(UnexpectedEnd)
    else if ts[i] != expected then Err(Expected(expected, ts[i]))
    else Ok(i + 1)
  }

  function SkipStatement(ts: Tokens, i: nat): (r: Result<nat>)
    ensures r.Ok? ==> i < r.value <= |ts|
    decreases |ts| - i
  {
    if i >= |ts| then Err(UnexpectedEnd)
    else if ts[i] == ";" then Ok(i + 1)
    else SkipStatement(ts, i + 1)
  }

  function Deeper(depth: int, token: string): int {
    if token == "[" then depth + 1 else if token == "]" then depth - 1 else depth
  }

  /** The position after the bracket that brings the depth back to zero. */
  function SkipBrackets(ts: Tokens, i: nat, depth: int): (r: Result<nat>)
    ensures r.Ok? ==> i < r.value <= |ts|
    decreases |ts| - i
  {
    if i >= |ts| then Err(UnexpectedEnd)
    else if Deeper(depth, ts[i]) == 0 then Ok(i + 1)
    else SkipBrackets(ts, i + 1, Deeper(depth, ts[i]))
  }

  function SkipOptions(ts: Tokens, i: nat): (r: Result<nat>)
    requires i <= |ts|
    ensures r.Ok? ==> i <= r.value <= |ts|
  {
    if Peek(ts, i) == Some("[") then SkipBrackets(ts, i, 0) else Ok(i)
  }

  function MapType(key: string, value: string): string {
    "map<" + key + "," + value + ">"
  }

  function ParseType(ts: Tokens, i: nat): (r: Result<At<string>>)
    ensures r.Ok? ==> i < r.value.next <= |ts|
  {
    var first :- Take(ts, i);
    if first.value != "map" then Ok(first)
    else
      var a :- TakeExpected(ts, first.next, "<");
      var key :- Take(ts, a);
      var b :- TakeExpected(ts, key.next, ",");
      var value :- Take(ts, b);
      var c :- TakeExpected(ts, value.next, ">");
      Ok(At(MapType(key.value, value.value), c))
  }

  function CardinalityAt(ts: Tokens, i: nat): Cardinality {
    if Peek(ts, i) == Some("optional") then Optional
    else if Peek(ts, i) == Some("repeated") then Repeated
    else Singular
  }

  /** "= number [options] ;" */
  function ParseNumber(ts: Tokens, i: nat): (r: Result<At<int>>)
    ensures r.Ok? ==> i < r.value.next <= |ts|
  {
    var a :- TakeExpected(ts, i, "=");
    var digits :- Take(ts, a);
    if ParseInt(digits.value).None? then Err(BadNumber(digits.value))
    else
      var b :- SkipOptions(ts, digits.next);
      var c :- TakeExpected(ts, b, ";");
      Ok(At(ParseInt(digits.value).value, c))
  }

  datatype Named<T> = Named(name: string, value: T)

  function ParseField(ts: Tokens, i: nat, oneof: Option<string>): (r: Result<At<Named<Field>>>)
    ensures r.Ok? ==> i < r.value.next <= |ts|
  {
    var cardinality := CardinalityAt(ts, i);
    if oneof.Some? && cardinality != Singular then Err(OneofCardinality)
    else
      var typ :- ParseType(ts, if cardinality.Singular? then i else i + 1);
      var name :- Take(ts, typ.next);
      var number :- ParseNumber(ts, name.next);
      Ok(At(Named(name.value, Field(number.value, typ.value, cardinality, oneof)), number.next))
  }

  /** The tokens up to the semicolon, and the position after it. */
  function ParseReservedTokens(ts: Tokens, i: nat): (r: Result<At<seq<string>>>)
    ensures r.Ok? ==> i < r.value.next <= |ts|
    decreases |ts| - i
  {
    if i >= |ts| then Err(UnexpectedEnd)
    else if ts[i] == ";" then Ok(At([], i + 1))
    else
      var rest :- ParseReservedTokens(ts, i + 1);
      Ok(At([ts[i]] + rest.value, rest.next))
  }

  function Joined(words: seq<string>): string {
    if words == [] then "" else if |words| == 1 then words[0] else words[0] + " " + Joined(words[1..])
  }

  function ParseReserved(ts: Tokens, i: nat): (r: Result<At<string>>)
    ensures r.Ok? ==> i < r.value.next <= |ts|
  {
    var words :- ParseReservedTokens(ts, i);
    Ok(At(Joined(words.value), words.next))
  }

  type Fields = map<string, Field>

  function OneofItem(ts: Tokens, i: nat, oneof: string, fields: Fields): (r: Result<At<Fields>>)
    ensures r.Ok? ==> i < r.value.next <= |ts|
  {
    if Peek(ts, i) == Some("option") then
      var n :- SkipStatement(ts, i + 1);
      Ok(At(fields, n))
    else
      var f :- ParseField(ts, i, Some(oneof));
      if f.value.name in fields then Err(DuplicateOneofField(f.value.name))
      else Ok(At(fields[f.value.name := f.value.value], f.next))
  }

  function OneofBody(ts: Tokens, i: nat, oneof: string, fields: Fields): (r: Result<At<Fields>>)
    ensures r.Ok? ==> i < r.value.next <= |ts|
    decreases |ts| - i
  {
    if Peek(ts, i) == Some("}") then Ok(At(fields, i + 1))
    else
      var item :- OneofItem(ts, i, oneof, fields);
      OneofBody(ts, item.next, oneof, item.value)
  }

  function ParseOneof(ts: Tokens, i: nat, fields: Fields): (r: Result<At<Fields>>)
    ensures r.Ok? ==> i < r.value.next <= |ts|
  {
    var oneof :- Take(ts, i);
    var a :- TakeExpected(ts, oneof.next, "{");
    OneofBody(ts, a, oneof.value, fields)
  }

  function EnumItem(ts: Tokens, i: nat, e: Enum): (r: Result<At<Enum>>)
    ensures r.Ok? ==> i < r.value.next <= |ts|
  {
    if Peek(ts, i) == Some("reserved") then
      var words :- ParseReserved(ts, i + 1);
      Ok(At(e.(reserved := e.reserved + multiset{words.value}), words.next))
    else if Peek(ts, i) == Some("option") then
      var n :- SkipStatement(ts, i + 1);
      Ok(At(e, n))
    else
      var name :- Take(ts, i);
      var number :- ParseNumber(ts, name.next);
      Ok(At(e.(values := e.values[name.value := number.value]), number.next))
  }

  function EnumBody(ts: Tokens, i: nat, e: Enum): (r: Result<At<Enum>>)
    ensures r.Ok? ==> i < r.value.next <= |ts|
    decreases |ts| - i
  {
    if Peek(ts, i) == Some("}") then Ok(At(e, i + 1))
    else
      var item :- EnumItem(ts, i, e);
      EnumBody(ts, item.next, item.value)
  }

  /** One turn of the enum's loop, spelled out. */
  lemma EnumBodyTurn(ts: Tokens, i: nat, e: Enum)
    ensures EnumBody(ts, i, e) ==
            if Peek(ts, i) == Some("}") then Ok(At(e, i + 1))
            else match EnumItem(ts, i, e)
              case Ok(item) => EnumBody(ts, item.next, item.value)
              case Err(error) => Err(error)
  {
    hide EnumItem;
  }

  function Qualified(parent: string, name: string): string {
    if parent != "" then parent + "." + name else name
  }

  const NO_VALUES := Enum(map[], multiset{})

  function ParseEnum(ts: Tokens, i: nat, parent: string, tables: Tables): (r: Result<At<Tables>>)
    ensures r.Ok? ==> i < r.value.next <= |ts|
  {
    var name :- Take(ts, i);
    var a :- TakeExpected(ts, name.next, "{");
    var e :- EnumBody(ts, a, NO_VALUES);
    Ok(At(tables.(enums := tables.enums[Qualified(parent, name.value) := e.value]), e.next))
  }

  /** A message being read, and the tables filled so far. */
  datatype Partial = Partial(message: Message, tables: Tables)

  const NO_FIELDS := Message(map[], multiset{})

  function MessageItem(ts: Tokens, i: nat, name: string, p: Partial): (r: Result<At<Partial>>)
    ensures r.Ok? ==> i < r.value.next <= |ts|
    decreases |ts| - i, 1
  {
    var token := Peek(ts, i);
    if token == Some("message") then
      var t :- ParseMessage(ts, i + 1, name, p.tables);
      Ok(At(p.(tables := t.value), t.next))
    else if token == Some("enum") then
      var t :- ParseEnum(ts, i + 1, name, p.tables);
      Ok(At(p.(tables := t.value), t.next))
    else if token == Some("oneof") then
      var f :- ParseOneof(ts, i + 1, p.message.fields);
      Ok(At(p.(message := p.message.(fields := f.value)), f.next))
    else if token == Some("reserved") then
      var words :- ParseReserved(ts, i + 1);
      Ok(At(p.(message := p.message.(reserved := p.message.reserved + multiset{words.value})), words.next))
    else if token == Some("option") then
      var n :- SkipStatement(ts, i + 1);
      Ok(At(p, n))
    else
      var f :- ParseField(ts, i, None);
      if f.value.name in p.message.fields then Err(DuplicateField(name, f.value.name))
      else Ok(At(p.(message := p.message.(fields := p.message.fields[f.value.name := f.value.value])), f.next))
  }

  function MessageBody(ts: Tokens, i: nat, name: string, p: Partial): (r: Result<At<Tables>>)
    ensures r.Ok? ==> i < r.value.next <= |ts|
    decreases |ts| - i, 2
  {
    if Peek(ts, i) == Some("}") then
      Ok(At(p.tables.(messages := p.tables.messages[name := p.message]), i + 1))
    else
      var item :- MessageItem(ts, i, name, p);
      MessageBody(ts, item.next, name, item.value)
  }

  function ParseMessage(ts: Tokens, i: nat, parent: string, tables: Tables): (r: Result<At<Tables>>)
    ensures r.Ok? ==> i < r.value.next <= |ts|
    decreases |ts| - i, 0
  {
    var name :- Take(ts, i);
    var a :- TakeExpected(ts, name.next, "{");
    MessageBody(ts, a, Qualified(parent, name.value), Partial(NO_FIELDS, tables))
  }

  /** What a JSON literal token stands for: a string, or something that is none. */
  datatype Literal = Text(text: string) | Other

  function LoadLiteral(token: string): Result<Literal> {
    if token == "NaN" || token == "Infinity" then Ok(Other)
    else match ReadDocument(token)
      case None => Err(BadLiteral(token))
      case Some(Str(s)) => Ok(Text(s))
      case Some(_) => Ok(Other)
  }

  datatype Top = Top(syntax: Option<Literal>, package: Option<string>, tables: Tables)

  const EMPTY := Top(None, None, Tables(map[], map[]))

  function TopItem(ts: Tokens, i: nat, t: Top): (r: Result<At<Top>>)
    requires i < |ts|
    ensures r.Ok? ==> i < r.value.next <= |ts|
  {
    match ts[i]
    case "syntax" =>
      var a :- TakeExpected(ts, i + 1, "=");
      var token :- Take(ts, a);
      var literal :- LoadLiteral(token.value);
      var b :- TakeExpected(ts, token.next, ";");
      Ok(At(t.(syntax := Some(literal)), b))
    case "package" =>
      var name :- Take(ts, i + 1);
      var a :- TakeExpected(ts, name.next, ";");
      Ok(At(t.(package := Some(name.value)), a))
    case "message" =>
      var m :- ParseMessage(ts, i + 1, "", t.tables);
      Ok(At(t.(tables := m.value), m.next))
    case "enum" =>
      var e :- ParseEnum(ts, i + 1, "", t.tables);
      Ok(At(t.(tables := e.value), e.next))
    case "option" =>
      var n :- SkipStatement(ts, i + 1);
      Ok(At(t, n))
    case "import" => Err(ImportForbidden)
    case _ => Err(Unsupported(ts[i]))
  }

  function TopItems(ts: Tokens, i: nat, t: Top): Result<Top>
    requires i <= |ts|
    decreases |ts| - i
  {
    if i == |ts| then Ok(t)
    else
      var item :- TopItem(ts, i, t);
      TopItems(ts, item.next, item.value)
  }

  function Finish(t: Top): Result<Wire> {
    if t.syntax == Some(Text("proto3")) && t.package == Some("denpie")
    then Ok(Wire("proto3", "denpie", t.tables))
    else Err(WrongSyntaxOrPackage)
  }

  function Parse(ts: Tokens): Result<Wire> {
    var t :- TopItems(ts, 0, EMPTY);
    Finish(t)
  }

  // ---------- the parser ----------

  /** A cursor over tokens that fills the two tables; every method advances it exactly as the grammar above says. */
  class Parser {
    const tokens: Tokens
    var index: nat
    var messages: map<string, Message>
    var enums: map<string, Enum>

    constructor (source: Tokens)
      ensures tokens == source && Valid() && index == 0 && TablesNow() == EMPTY.tables
    {
      tokens := source;
      index := 0;
      messages := map[];
      enums := map[];
    }

    ghost predicate Valid()
      reads this`index
    {
      index <= |tokens|
    }

    ghost function TablesNow(): Tables
      reads this
    {
      Tables(messages, enums)
    }

    /** The method returned what the grammar says and left the cursor where the grammar says. */
    ghost predicate Reached<T(!new)>(r: Result<T>, grammar: Result<At<T>>)
      reads this`index
    {
      match grammar
      case Ok(v) => r == Ok(v.value) && index == v.next
      case Err(e) => r == Err(e)
    }

    ghost predicate Moved(r: Result<()>, grammar: Result<nat>)
      reads this`index
    {
      match grammar
      case Ok(next) => r == Ok(()) && index == next
      case Err(e) => r == Err(e)
    }

    /** The same for the methods that fill the tables. */
    ghost predicate Filled(r: Result<()>, grammar: Result<At<Tables>>)
      reads this
    {
      match grammar
      case Ok(v) => r == Ok(()) && index == v.next && TablesNow() == v.value
      case Err(e) => r == Err(e)
    }

    function PeekToken(): (r: Option<string>)
      reads this`index
      ensures r == Peek(tokens, index)
    {
      if index < |tokens| then Some(tokens[index]) else None
    }

    method TakeToken() returns (r: Result<string>)
      requires Valid()
      modifies this`index
      ensures Valid() && Reached(r, Take(tokens, old(index)))
    {
      if index >= |tokens| {
        return Err(UnexpectedEnd);
      }
      r := Ok(tokens[index]);
      index := index + 1;
    }

    /** Taking a token that has been peeked at cannot fail. */
    method TakePeeked() returns (token: string)
      requires index < |tokens|
      modifies this`index
      ensures Valid() && index == old(index) + 1 && token == tokens[old(index)]
    {
      token := tokens[index];
      index := index + 1;
    }

    method TakeThis(expected: string) returns (r: Result<()>)
      requires Valid()
      modifies this`index
      ensures Valid() && Moved(r, TakeExpected(tokens, old(index), expected))
    {
      if index >= |tokens| {
        return Err(UnexpectedEnd);
      }
      if tokens[index] != expected {
        return Err(Expected(expected, tokens[index]));
      }
      index := index + 1;
      r := Ok(());
    }

    method SkipToSemicolon() returns (r: Result<()>)
      requires Valid()
      modifies this`index
      ensures Valid() && Moved(r, SkipStatement(tokens, old(index)))
    {
      var token :- TakeToken();
      while token != ";"
        invariant 0 < index <= |tokens| && token == tokens[index - 1]
        invariant SkipStatement(tokens, old(index)) == if token == ";" then Ok(index) else SkipStatement(tokens, index)
        decreases |tokens| - index
      {
        token :- TakeToken();
      }
      r := Ok(());
    }

    method SkipBracketed() returns (r: Result<()>)
      requires Valid()
      modifies this`index
      ensures Valid() && Moved(r, SkipOptions(tokens, old(index)))
    {
      if PeekToken() == Some("[") {
        var depth := 0;
        while true
          invariant Valid() && SkipOptions(tokens, old(index)) == SkipBrackets(tokens, index, depth)
          decreases |tokens| - index
        {
          var token :- TakeToken();
          depth := Deeper(depth, token);
          if depth == 0 {
            break;
          }
        }
      }
      r := Ok(());
    }

    method TypeName() returns (r: Result<string>)
      requires Valid()
      modifies this`index
      ensures Valid() && Reached(r, ParseType(tokens, old(index)))
    {
      var fieldType :- TakeToken();
      if fieldType != "map" {
        return Ok(fieldType);
      }
      var _ :- TakeThis("<");
      var keyType :- TakeToken();
      var _ :- TakeThis(",");
      var valueType :- TakeToken();
      var _ :- TakeThis(">");
      r := Ok(MapType(keyType, valueType));
    }

    method Number() returns (r: Result<int>)
      requires Valid()
      modifies this`index
      ensures Valid() && Reached(r, ParseNumber(tokens, old(index)))
    {
      var _ :- TakeThis("=");
      var digits :- TakeToken();
      if ParseInt(digits).None? {
        return Err(BadNumber(digits));
      }
      var _ :- SkipBracketed();
      var _ :- TakeThis(";");
      r := Ok(ParseInt(digits).value);
    }

    method FieldLine(oneof: Option<string>) returns (r: Result<Named<Field>>)
      requires Valid()
      modifies this`index
      ensures Valid() && Reached(r, ParseField(tokens, old(index), oneof))
    {
      var cardinality := Singular;
      if PeekToken() == Some("optional") || PeekToken() == Some("repeated") {
        var word := TakePeeked();
        cardinality := if word == "optional" then Optional else Repeated;
      }
      if oneof.Some? && cardinality != Singular {
        return Err(OneofCardinality);
      }
      var fieldType :- TypeName();
      var fieldName :- TakeToken();
      var number :- Number();
      r := Ok(Named(fieldName, Field(number, fieldType, cardinality, oneof)));
    }

    method ReservedLine() returns (r: Result<string>)
      requires Valid()
      modifies this`index
      ensures Valid() && Reached(r, ParseReserved(tokens, old(index)))
    {
      var words: seq<string> := [];
      PrefixNone(ParseReservedTokens(tokens, index));
      while PeekToken() != Some(";")
        invariant Valid()
        invariant ParseReservedTokens(tokens, old(index)) == Prefixed(words, ParseReservedTokens(tokens, index))
        decreases |tokens| - index
      {
        PrefixMore(words, tokens, index);
        var word :- TakeToken();
        words := words + [word];
      }
      var _ := TakePeeked();
      assert words + [] == words;
      r := Ok(Joined(words));
    }

    method OneofBlock(fields: Fields) returns (r: Result<Fields>)
      requires Valid()
      modifies this`index
      ensures Valid() && Reached(r, ParseOneof(tokens, old(index), fields))
    {
      hide ParseField, SkipStatement;
      var oneof :- TakeToken();
      var _ :- TakeThis("{");
      var filled := fields;
      ghost var start := index;
      while PeekToken() != Some("}")
        invariant Valid()
        invariant OneofBody(tokens, start, oneof, fields) == OneofBody(tokens, index, oneof, filled)
        decreases |tokens| - index
      {
        if PeekToken() == Some("option") {
          var _ := TakePeeked();
          var _ :- SkipToSemicolon();
          continue;
        }
        var field :- FieldLine(Some(oneof));
        if field.name in filled {
          return Err(DuplicateOneofField(field.name));
        }
        filled := filled[field.name := field.value];
      }
      var _ := TakePeeked();
      r := Ok(filled);
    }

    method EnumBlock(parent: string) returns (r: Result<()>)
      requires Valid()
      modifies this`index, this`enums
      ensures Valid() && Filled(r, ParseEnum(tokens, old(index), parent, old(TablesNow())))
    {
      hide ParseReserved, SkipStatement, ParseNumber, EnumBody;
      var name :- TakeToken();
      var _ :- TakeThis("{");
      var e := NO_VALUES;
      ghost var start := index;
      while PeekToken() != Some("}")
        invariant Valid() && enums == old(enums)
        invariant EnumBody(tokens, start, NO_VALUES) == EnumBody(tokens, index, e)
        decreases |tokens| - index
      {
        EnumBodyTurn(tokens, index, e);
        if PeekToken() == Some("reserved") {
          var _ := TakePeeked();
          var words :- ReservedLine();
          e := e.(reserved := e.reserved + multiset{words});
          continue;
        }
        if PeekToken() == Some("option") {
          var _ := TakePeeked();
          var _ :- SkipToSemicolon();
          continue;
        }
        var valueName :- TakeToken();
        var number :- Number();
        e := e.(values := e.values[valueName := number]);
      }
      EnumBodyTurn(tokens, index, e);
      var _ := TakePeeked();
      enums := enums[Qualified(parent, name) := e];
      r := Ok(());
    }

    /** One turn of the message loop: a nested declaration, a statement or a field. */
    method MessageLine(name: string, m: Message) returns (r: Result<Message>)
      requires Valid()
      modifies this`index, this`messages, this`enums
      ensures Valid()
      ensures match MessageItem(tokens, old(index), name, Partial(m, old(TablesNow())))
              case Ok(v) => r == Ok(v.value.message) && index == v.next && TablesNow() == v.value.tables
              case Err(e) => r == Err(e)
      decreases |tokens| - index, 1
    {
      hide ParseEnum, ParseOneof, ParseField, ParseReserved, SkipStatement, MessageBody, ParseMessage;
      var token := PeekToken();
      r := Ok(m);
      if token == Some("message") {
        var _ := TakePeeked();
        var _ :- MessageBlock(name);
      } else if token == Some("enum") {
        var _ := TakePeeked();
        var _ :- EnumBlock(name);
      } else if token == Some("oneof") {
        var _ := TakePeeked();
        var fields :- OneofBlock(m.fields);
        r := Ok(m.(fields := fields));
      } else if token == Some("reserved") {
        var _ := TakePeeked();
        var words :- ReservedLine();
        r := Ok(m.(reserved := m.reserved + multiset{words}));
      } else if token == Some("option") {
        var _ := TakePeeked();
        var _ :- SkipToSemicolon();
      } else {
        var field :- FieldLine(None);
        if field.name in m.fields {
          return Err(DuplicateField(name, field.name));
        }
        r := Ok(m.(fields := m.fields[field.name := field.value]));
      }
    }

    method MessageBlock(parent: string) returns (r: Result<()>)
      requires Valid()
      modifies this`index, this`messages, this`enums
      ensures Valid() && Filled(r, ParseMessage(tokens, old(index), parent, old(TablesNow())))
      decreases |tokens| - index, 0
    {
      hide MessageItem;
      var base :- TakeToken();
      var name := Qualified(parent, base);
      var _ :- TakeThis("{");
      var m := NO_FIELDS;
      ghost var start := index;
      while PeekToken() != Some("}")
        invariant old(index) < index <= |tokens|
        invariant MessageBody(tokens, start, name, Partial(NO_FIELDS, old(TablesNow())))
               == MessageBody(tokens, index, name, Partial(m, TablesNow()))
        decreases |tokens| - index
      {
        m :- MessageLine(name, m);
      }
      var _ := TakePeeked();
      messages := messages[name := m];
      r := Ok(());
    }

    method ParseSchema() returns (r: Result<Wire>)
      requires Valid() && index == 0 && TablesNow() == EMPTY.tables
      modifies this
      ensures r == Parse(tokens)
    {
      hide ParseEnum, ParseMessage, SkipStatement, LoadLiteral;
      var syntax: Option<Literal> := None;
      var package: Option<string> := None;
      while PeekToken() != None
        invariant Valid()
        invariant TopItems(tokens, 0, EMPTY) == TopItems(tokens, index, Top(syntax, package, TablesNow()))
        decreases |tokens| - index
      {
        var token := TakePeeked();
        if token == "syntax" {
          var _ :- TakeThis("=");
          var literal :- TakeToken();
          var loaded :- LoadLiteral(literal);
          syntax := Some(loaded);
          var _ :- TakeThis(";");
        } else if token == "package" {
          var name :- TakeToken();
          package := Some(name);
          var _ :- TakeThis(";");
        } else if token == "message" {
          var _ :- MessageBlock("");
        } else if token == "enum" {
          var _ :- EnumBlock("");
        } else if token == "option" {
          var _ :- SkipToSemicolon();
        } else if token == "import" {
          return Err(ImportForbidden);
        } else {
          return Err(Unsupported(token));
        }
      }
      r := Finish(Top(syntax, package, Tables(messages, enums)));
    }
  }

  lemma PrefixNone(r: Result<At<seq<string>>>)
    ensures Prefixed([], r) == r
  {
    assert r.Ok? ==> [] + r.value.value == r.value.value;
  }

  lemma PrefixMore(words: seq<string>, ts: Tokens, i: nat)
    requires Peek(ts, i) != Some(";")
    ensures Prefixed(words, ParseReservedTokens(ts, i)) ==
            if i < |ts| then Prefixed(words + [ts[i]], ParseReservedTokens(ts, i + 1)) else Err(UnexpectedEnd)
  {
    if i < |ts| && ParseReservedTokens(ts, i + 1).Ok? {
      var rest := ParseReservedTokens(ts, i + 1).value.value;
      assert words + ([ts[i]] + rest) == words + [ts[i]] + rest;
    }
  }

  function Prefixed(words: seq<string>, r: Result<At<seq<string>>>): Result<At<seq<string>>> {
    match r
    case Ok(v) => Ok(At(words + v.value, v.next))
    case Err(e) => Err(e)
  }
}
