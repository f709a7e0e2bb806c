/** From a schema to its contract: which edits of a schema the contract allows. */
module SchemaContract {
  import opened Options
  import opened ProtoParser
  import opened ProtoGrammar
  import opened ProtoRoundTrip
  import opened ProtoAccepts
  import opened ProtoTables
  import C = Contract

  function ContractOf(w: Wire, operations: map<string, C.Policy>): C.Contract {
    C.Contract(Some("v1"), Some(w.syntax), Some(w.package),
      map n | n in w.tables.messages :: C.Item(w.tables.messages[n].fields, w.tables.messages[n].reserved),
      map n | n in w.tables.enums :: C.Item(w.tables.enums[n].values, w.tables.enums[n].reserved),
      operations)
  }

  // ---------- further declarations at the top ----------

  /** No definition of the second list has the qualified name of one of the first. */
  ghost predicate Apart(a: seq<Definition>, b: seq<Definition>) {
    forall i, j :: 0 <= i < |a| && 0 <= j < |b| ==> !SameName(a[i], b[j])
  }

  lemma {:induction false} TopDefinitionsParts(a: seq<TopDecl>, b: seq<TopDecl>)
    ensures TopDefinitions(a + b) == TopDefinitions(a) + TopDefinitions(b)
  {
    hide DefinitionsOf;
    if a == [] {
      assert a + b == b;
    } else {
      assert (a + b)[1..] == a[1..] + b;
      TopDefinitionsParts(a[1..], b);
    }
  }

  lemma AddedDefinitions(a: seq<Definition>, b: seq<Definition>, d: Definition)
    requires Apart(a, b) && Holds(Defined(EMPTY.tables, a), d)
    ensures Holds(Defined(EMPTY.tables, a + b), d)
  {
    hide Defined;
    DefinedParts(EMPTY.tables, a, b);
    TablesHoldOnly(EMPTY.tables, a, d);
    var i :| 0 <= i < |a| && a[i] == d;
    forall j | 0 <= j < |b|
      ensures !SameName(b[j], d)
    {
      assert !SameName(a[i], b[j]);
    }
    DefinedKeeps(Defined(EMPTY.tables, a), b, d);
  }

  /** What one table holds, the other one extends. */
  ghost predicate TablesExtend(was: Tables, now: Tables) {
    forall d :: Holds(was, d) ==> exists e :: Holds(now, e) && Extends(d, e)
  }

  /** The second definition has everything the first one has. */
  ghost predicate Extends(d: Definition, e: Definition) {
    && SameName(d, e)
    && match d
       case AMessage(_, m) => C.SubMap(m.fields, e.message.fields) && KeepsTexts(m.reserved, e.message.reserved)
       case AnEnum(_, v) => C.SubMap(v.values, e.e.values) && KeepsTexts(v.reserved, e.e.reserved)
  }

  ghost predicate KeepsTexts(was: multiset<string>, now: multiset<string>) {
    forall text :: text in was ==> text in now
  }

  /** One contract extends another exactly if its tables do. */
  lemma ExtendedContractIff(was: Wire, now: Wire, operations: map<string, C.Policy>)
    requires was.syntax == now.syntax && was.package == now.package
    ensures C.Additive(ContractOf(was, operations), ContractOf(now, operations)) <==> TablesExtend(was.tables, now.tables)
  {
    if TablesExtend(was.tables, now.tables) {
      ExtendedTables(was, now, operations);
    }
    if C.Additive(ContractOf(was, operations), ContractOf(now, operations)) {
      forall d | Holds(was.tables, d)
        ensures exists e :: Holds(now.tables, e) && Extends(d, e)
      {
        ExtendedHere(was, now, operations, d);
      }
    }
  }

  lemma ExtendedTables(was: Wire, now: Wire, operations: map<string, C.Policy>)
    requires was.syntax == now.syntax && was.package == now.package && TablesExtend(was.tables, now.tables)
    ensures C.Additive(ContractOf(was, operations), ContractOf(now, operations))
  {
    forall n | n in was.tables.messages
      ensures n in now.tables.messages
      ensures C.SubMap(was.tables.messages[n].fields, now.tables.messages[n].fields)
      ensures KeepsTexts(was.tables.messages[n].reserved, now.tables.messages[n].reserved)
    {
      var d := AMessage(n, was.tables.messages[n]);
      assert Holds(was.tables, d);
      var e :| Holds(now.tables, e) && Extends(d, e);
    }
    forall n | n in was.tables.enums
      ensures n in now.tables.enums
      ensures C.SubMap(was.tables.enums[n].values, now.tables.enums[n].values)
      ensures KeepsTexts(was.tables.enums[n].reserved, now.tables.enums[n].reserved)
    {
      var d := AnEnum(n, was.tables.enums[n]);
      assert Holds(was.tables, d);
      var e :| Holds(now.tables, e) && Extends(d, e);
    }
  }

  lemma ExtendedHere(was: Wire, now: Wire, operations: map<string, C.Policy>, d: Definition)
    requires C.Additive(ContractOf(was, operations), ContractOf(now, operations)) && Holds(was.tables, d)
    ensures exists e :: Holds(now.tables, e) && Extends(d, e)
  {
    var a, b := ContractOf(was, operations), ContractOf(now, operations);
    match d
    case AMessage(name, _) =>
      assert name in a.messages && name in b.messages;
      var e := AMessage(name, now.tables.messages[name]);
      assert Holds(now.tables, e) && Extends(d, e);
    case AnEnum(name, _) =>
      assert name in a.enums && name in b.enums;
      var e := AnEnum(name, now.tables.enums[name]);
      assert Holds(now.tables, e) && Extends(d, e);
  }

  /** The last definition of its kind and name. */
  ghost predicate IsLast(ds: seq<Definition>, d: Definition) {
    exists k :: 0 <= k < |ds| && ds[k] == d && forall j :: k < j < |ds| ==> !SameName(ds[j], d)
  }

  lemma {:induction false} LastExists(ds: seq<Definition>, k: nat) returns (last: nat)
    requires k < |ds|
    ensures k <= last < |ds| && SameName(ds[last], ds[k]) && IsLast(ds, ds[last])
    decreases |ds| - k
  {
    if j :| k < j < |ds| && SameName(ds[j], ds[k]) {
      last := LastExists(ds, j);
    } else {
      last := k;
    }
  }

  /** The tables hold the last definitions, and nothing else. */
  lemma HeldIffLast(ds: seq<Definition>, d: Definition)
    ensures Holds(Defined(EMPTY.tables, ds), d) <==> IsLast(ds, d)
  {
    hide Defined;
    if IsLast(ds, d) {
      var k :| 0 <= k < |ds| && ds[k] == d && forall j :: k < j < |ds| ==> !SameName(ds[j], d);
      TablesHoldLast(EMPTY.tables, ds, k);
    }
    if Holds(Defined(EMPTY.tables, ds), d) {
      TablesHoldOnly(EMPTY.tables, ds, d);
      var k :| 0 <= k < |ds| && ds[k] == d;
      var last := LastExists(ds, k);
      var j :| 0 <= j < |ds| && ds[j] == ds[last] && forall x :: j < x < |ds| ==> !SameName(ds[x], ds[last]);
      TablesHoldLast(EMPTY.tables, ds, j);
      HeldOnce(Defined(EMPTY.tables, ds), d, ds[last]);
    }
  }

  lemma HeldOnce(t: Tables, d: Definition, e: Definition)
    requires Holds(t, d) && Holds(t, e) && SameName(d, e)
    ensures d == e
  {
  }

  /** Each last definition of the first list is extended by one of the second. */
  ghost predicate LastsExtend(a: seq<Definition>, b: seq<Definition>) {
    forall d :: IsLast(a, d) ==> exists e :: IsLast(b, e) && Extends(d, e)
  }

  lemma TablesExtendIf(a: seq<Definition>, b: seq<Definition>)
    requires LastsExtend(a, b)
    ensures TablesExtend(Defined(EMPTY.tables, a), Defined(EMPTY.tables, b))
  {
    hide Defined, Holds, IsLast, Extends;
    forall d | Holds(Defined(EMPTY.tables, a), d)
      ensures exists e :: Holds(Defined(EMPTY.tables, b), e) && Extends(d, e)
    {
      HeldIffLast(a, d);
      var e :| IsLast(b, e) && Extends(d, e);
      HeldIffLast(b, e);
    }
  }

  lemma TablesExtendOnlyIf(a: seq<Definition>, b: seq<Definition>)
    requires TablesExtend(Defined(EMPTY.tables, a), Defined(EMPTY.tables, b))
    ensures LastsExtend(a, b)
  {
    hide Defined, Holds, IsLast, Extends;
    forall d | IsLast(a, d)
      ensures exists e :: IsLast(b, e) && Extends(d, e)
    {
      HeldIffLast(a, d);
      var e :| Holds(Defined(EMPTY.tables, b), e) && Extends(d, e);
      HeldIffLast(b, e);
    }
  }

  /**
   Any two schemas: the contract of the second promises all that the contract of the first
   one does exactly if the last definition of each name in the first is extended by the last
   one of that name in the second.
   */
  lemma AdditiveIffLastExtend(a: seq<TopDecl>, b: seq<TopDecl>, operations: map<string, C.Policy>)
    requires SchemaFits(a) && SchemaFits(b)
    ensures var was, now := Parse(PrintSchema(a)), Parse(PrintSchema(b));
            && was.Ok? && now.Ok?
            && (C.Additive(ContractOf(was.value, operations), ContractOf(now.value, operations)) <==>
                LastsExtend(TopDefinitions(a), TopDefinitions(b)))
  {
    hide Parse, PrintSchema, SchemaFits, TopDefinitions, Defined, C.Additive, ContractOf, TablesExtend, LastsExtend;
    ParseReadsWritten(a);
    ParseReadsWritten(b);
    if LastsExtend(TopDefinitions(a), TopDefinitions(b)) {
      TablesExtendIf(TopDefinitions(a), TopDefinitions(b));
    }
    if TablesExtend(Meaning(a).tables, Meaning(b).tables) {
      TablesExtendOnlyIf(TopDefinitions(a), TopDefinitions(b));
    }
    ExtendedContractIff(Meaning(a), Meaning(b), operations);
  }

  /** Parsing a schema and parsing it with further declarations of new names gives contracts of which the second extends the first. */
  lemma AddedDeclarationsAreAdditive(ds: seq<TopDecl>, more: seq<TopDecl>, operations: map<string, C.Policy>)
    requires SchemaFits(ds) && SchemaFits(ds + more) && Apart(TopDefinitions(ds), TopDefinitions(more))
    ensures var was, now := Parse(PrintSchema(ds)), Parse(PrintSchema(ds + more));
            was.Ok? && now.Ok? && C.Additive(ContractOf(was.value, operations), ContractOf(now.value, operations))
  {
    hide Parse, PrintSchema, SchemaFits, TopDefinitions, Defined, Apart, C.Additive, ContractOf;
    ParseReadsWritten(ds);
    ParseReadsWritten(ds + more);
    TopDefinitionsParts(ds, more);
    forall d | Holds(Meaning(ds).tables, d)
      ensures Holds(Meaning(ds + more).tables, d) && Extends(d, d)
    {
      AddedDefinitions(TopDefinitions(ds), TopDefinitions(more), d);
    }
    ExtendedContractIff(Meaning(ds), Meaning(ds + more), operations);
  }
}
