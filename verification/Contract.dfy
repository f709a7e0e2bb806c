/**
 The additive-only contract: what counts as a breaking change between two contracts,
 and what a chain of accepted ledgers guarantees.
 */
module Contract {
  import opened Options
  import opened ProtoParser
  import opened Sequences

  /** A message or an enum: its members and its reservations. */
  datatype Item<V> = Item(members: map<string, V>, reserved: multiset<string>)

  /** What is immutable about an operation; a missing entry is none. */
  datatype Policy = Policy(
    request: Option<string>, result: Option<string>, auth: Option<string>,
    scope: Option<string>, kind: Option<string>, resultField: Option<string>)

  datatype Contract = Contract(
    apiVersion: Option<string>,
    syntax: Option<string>,
    package: Option<string>,
    messages: map<string, Item<Field>>,
    enums: map<string, Item<int>>,
    operations: map<string, Policy>)

  // ---------- problems ----------

  datatype ItemProblem<V> =
    | Removed(name: string)
    | RemovedMember(name: string, member: string)
    | ChangedMember(name: string, member: string, was: V, now: V)
    | RemovedReservation(name: string, text: string)

  datatype Problem =
    | ApiVersionChanged
    | SyntaxChanged
    | PackageChanged
    | InMessages(m: ItemProblem<Field>)
    | InEnums(e: ItemProblem<int>)
    | RemovedOperation(operation: string)
    | ChangedOperation(operation: string, was: Policy, now: Policy)

  ghost predicate IsItemProblem<V>(was: map<string, Item<V>>, now: map<string, Item<V>>, p: ItemProblem<V>) {
    && p.name in was
    && match p
       case Removed(name) => name !in now
       case RemovedMember(name, member) => name in now && member in was[name].members && member !in now[name].members
       case ChangedMember(name, member, a, b) =>
         && name in now && member in was[name].members && member in now[name].members
         && a == was[name].members[member] && b == now[name].members[member] && a != b
       case RemovedReservation(name, text) => name in now && text in was[name].reserved && text !in now[name].reserved
  }

  ghost predicate IsOperationProblem(was: map<string, Policy>, now: map<string, Policy>, p: Problem) {
    match p
    case RemovedOperation(name) => name in was && name !in now
    case ChangedOperation(name, a, b) => name in was && name in now && a == was[name] && b == now[name] && a != b
    case _ => false
  }

  ghost predicate IsProblem(was: Contract, now: Contract, p: Problem) {
    match p
    case ApiVersionChanged => was.apiVersion != now.apiVersion
    case SyntaxChanged => was.syntax != now.syntax
    case PackageChanged => was.package != now.package
    case InMessages(m) => IsItemProblem(was.messages, now.messages, m)
    case InEnums(e) => IsItemProblem(was.enums, now.enums, e)
    case _ => IsOperationProblem(was.operations, now.operations, p)
  }

  // ---------- the checker ----------

  /** The problems of one item that is in both contracts. */
  method ItemErrors<V(==)>(name: string, was: map<string, Item<V>>, now: map<string, Item<V>>) returns (errors: seq<ItemProblem<V>>)
    requires name in was && name in now
    ensures forall p :: p in errors <==> IsItemProblem(was, now, p) && p.name == name
    ensures Distinct(errors)
  {
    errors := [];
    var old_members, new_members := was[name].members, now[name].members;
    var left := old_members.Keys;
    while left != {}
      invariant left <= old_members.Keys && Distinct(errors)
      invariant forall p :: p in errors <==>
        IsItemProblem(was, now, p) && p.name == name && !p.RemovedReservation? && p.member !in left
      decreases |left|
    {
      var member :| member in left;
      left := left - {member};
      if member !in new_members {
        errors := errors + [RemovedMember(name, member)];
      } else if new_members[member] != old_members[member] {
        errors := errors + [ChangedMember(name, member, old_members[member], new_members[member])];
      }
    }
    var gone := set text | text in was[name].reserved && text !in now[name].reserved;
    ghost var all := gone;
    while gone != {}
      invariant gone <= all && Distinct(errors)
      invariant forall p :: p in errors <==>
        IsItemProblem(was, now, p) && p.name == name && (p.RemovedReservation? ==> p.text !in gone)
      decreases |gone|
    {
      var text :| text in gone;
      gone := gone - {text};
      errors := errors + [RemovedReservation(name, text)];
    }
  }

  method CategoryErrors<V(==)>(was: map<string, Item<V>>, now: map<string, Item<V>>) returns (errors: seq<ItemProblem<V>>)
    ensures forall p :: p in errors <==> IsItemProblem(was, now, p)
    ensures Distinct(errors)
  {
    errors := [];
    var left := was.Keys;
    while left != {}
      invariant left <= was.Keys && Distinct(errors)
      invariant forall p :: p in errors <==> IsItemProblem(was, now, p) && p.name !in left
      decreases |left|
    {
      var name :| name in left;
      left := left - {name};
      var found: seq<ItemProblem<V>> := [Removed(name)];
      if name in now {
        found := ItemErrors(name, was, now);
      }
      DistinctTogether(errors, found);
      errors := errors + found;
    }
  }

  method OperationErrors(was: map<string, Policy>, now: map<string, Policy>) returns (errors: seq<Problem>)
    ensures forall p :: p in errors <==> IsOperationProblem(was, now, p)
    ensures Distinct(errors)
  {
    errors := [];
    var left := was.Keys;
    while left != {}
      invariant left <= was.Keys && Distinct(errors)
      invariant forall p :: p in errors <==> IsOperationProblem(was, now, p) && p.operation !in left
      decreases |left|
    {
      var name :| name in left;
      left := left - {name};
      if name !in now {
        errors := errors + [RemovedOperation(name)];
      } else if now[name] != was[name] {
        errors := errors + [ChangedOperation(name, was[name], now[name])];
      }
    }
  }

  function Messages(ms: seq<ItemProblem<Field>>): (r: seq<Problem>)
    ensures |r| == |ms| && forall k :: 0 <= k < |ms| ==> r[k] == InMessages(ms[k])
  {
    seq(|ms|, k requires 0 <= k < |ms| => InMessages(ms[k]))
  }

  function Enums(es: seq<ItemProblem<int>>): (r: seq<Problem>)
    ensures |r| == |es| && forall k :: 0 <= k < |es| ==> r[k] == InEnums(es[k])
  {
    seq(|es|, k requires 0 <= k < |es| => InEnums(es[k]))
  }

  function If(c: bool, p: Problem): seq<Problem> {
    if c then [p] else []
  }

  /** Lists every problem between two contracts exactly once, and nothing else. */
  method CompatibilityErrors(baseline: Contract, current: Contract) returns (errors: seq<Problem>)
    ensures forall p :: p in errors <==> IsProblem(baseline, current, p)
    ensures Distinct(errors)
  {
    errors := If(baseline.apiVersion != current.apiVersion, ApiVersionChanged);
    errors := errors + If(baseline.syntax != current.syntax, SyntaxChanged);
    errors := errors + If(baseline.package != current.package, PackageChanged);
    var messages := CategoryErrors(baseline.messages, current.messages);
    var enums := CategoryErrors(baseline.enums, current.enums);
    var operations := OperationErrors(baseline.operations, current.operations);
    MembersOfLists(messages, enums);
    DistinctTogether(errors, Messages(messages));
    DistinctTogether(errors + Messages(messages), Enums(enums));
    DistinctTogether(errors + Messages(messages) + Enums(enums), operations);
    errors := errors + Messages(messages) + Enums(enums) + operations;
  }

  lemma MembersOfLists(messages: seq<ItemProblem<Field>>, enums: seq<ItemProblem<int>>)
    ensures forall p :: p in Messages(messages) <==> p.InMessages? && p.m in messages
    ensures forall p :: p in Enums(enums) <==> p.InEnums? && p.e in enums
    ensures Distinct(messages) ==> Distinct(Messages(messages))
    ensures Distinct(enums) ==> Distinct(Enums(enums))
  {
    forall p: Problem | p.InMessages? && p.m in messages
      ensures p in Messages(messages)
    {
      var k :| 0 <= k < |messages| && messages[k] == p.m;
      assert Messages(messages)[k] == p;
    }
    forall p: Problem | p.InEnums? && p.e in enums
      ensures p in Enums(enums)
    {
      var k :| 0 <= k < |enums| && enums[k] == p.e;
      assert Enums(enums)[k] == p;
    }
  }

  // ---------- the relation ----------

  predicate SubMap<V(==)>(a: map<string, V>, b: map<string, V>) {
    forall k :: k in a ==> k in b && a[k] == b[k]
  }

  predicate SubItems<V(==)>(a: map<string, Item<V>>, b: map<string, Item<V>>) {
    forall n :: n in a ==>
      && n in b && SubMap(a[n].members, b[n].members)
      && forall text :: text in a[n].reserved ==> text in b[n].reserved
  }

  /** Everything the first contract promises, the second one promises too. */
  predicate Additive(a: Contract, b: Contract) {
    && a.apiVersion == b.apiVersion && a.syntax == b.syntax && a.package == b.package
    && SubItems(a.messages, b.messages) && SubItems(a.enums, b.enums) && SubMap(a.operations, b.operations)
  }

  lemma NoItemProblems<V>(was: map<string, Item<V>>, now: map<string, Item<V>>)
    ensures SubItems(was, now) <==> forall p :: !IsItemProblem(was, now, p)
  {
    if forall p :: !IsItemProblem(was, now, p) {
      forall n | n in was
        ensures n in now && SubMap(was[n].members, now[n].members)
        ensures forall text :: text in was[n].reserved ==> text in now[n].reserved
      {
        assert !IsItemProblem(was, now, Removed(n));
        forall m | m in was[n].members
          ensures m in now[n].members && was[n].members[m] == now[n].members[m]
        {
          assert !IsItemProblem(was, now, RemovedMember(n, m));
          if m in now[n].members {
            assert !IsItemProblem(was, now, ChangedMember(n, m, was[n].members[m], now[n].members[m]));
          }
        }
        forall text | text in was[n].reserved
          ensures text in now[n].reserved
        {
          assert !IsItemProblem(was, now, RemovedReservation(n, text));
        }
      }
    }
  }

  /** There is no problem exactly when the old contract is part of the new one. */
  lemma NoProblemsIffAdditive(was: Contract, now: Contract)
    ensures Additive(was, now) <==> forall p :: !IsProblem(was, now, p)
  {
    NoItemProblems(was.messages, now.messages);
    NoItemProblems(was.enums, now.enums);
    if forall p :: !IsProblem(was, now, p) {
      assert !IsProblem(was, now, ApiVersionChanged);
      assert !IsProblem(was, now, SyntaxChanged);
      assert !IsProblem(was, now, PackageChanged);
      forall m ensures !IsItemProblem(was.messages, now.messages, m) {
        assert !IsProblem(was, now, InMessages(m));
      }
      forall e ensures !IsItemProblem(was.enums, now.enums, e) {
        assert !IsProblem(was, now, InEnums(e));
      }
      forall n | n in was.operations
        ensures n in now.operations && was.operations[n] == now.operations[n]
      {
        assert !IsProblem(was, now, RemovedOperation(n));
        if n in now.operations {
          assert !IsProblem(was, now, ChangedOperation(n, was.operations[n], now.operations[n]));
        }
      }
    }
  }

  lemma AdditiveReflexive(a: Contract)
    ensures Additive(a, a)
  {
  }

  lemma SubItemsTransitive<V>(a: map<string, Item<V>>, b: map<string, Item<V>>, c: map<string, Item<V>>)
    requires SubItems(a, b) && SubItems(b, c)
    ensures SubItems(a, c)
  {
    forall n | n in a
      ensures n in c && SubMap(a[n].members, c[n].members)
      ensures forall text :: text in a[n].reserved ==> text in c[n].reserved
    {
      assert n in b && n in c;
    }
  }

  lemma AdditiveTransitive(a: Contract, b: Contract, c: Contract)
    requires Additive(a, b) && Additive(b, c)
    ensures Additive(a, c)
  {
    SubItemsTransitive(a.messages, b.messages, c.messages);
    SubItemsTransitive(a.enums, b.enums, c.enums);
  }

  // ---------- the ledger ----------

  /** The ledger file: the contract it records, and whether it is spelled canonically. */
  datatype Ledger = Ledger(contract: Contract, canonical: bool)

  datatype Verdict = MissingLedger | CreatedLedger | RewritesHistory | BreakingChanges | Recorded | Unrecorded | UpToDate

  /** One run of the tool: its verdict and the ledger file it leaves. */
  function Decide(current: Contract, ledger: Option<Ledger>, historical: Option<Contract>, update: bool): (Verdict, Option<Ledger>) {
    match ledger
    case None => if update then (CreatedLedger, Some(Ledger(current, true))) else (MissingLedger, None)
    case Some(l) =>
      if historical.Some? && !Additive(historical.value, l.contract) then (RewritesHistory, ledger)
      else if !Additive(l.contract, current) then (BreakingChanges, ledger)
      else if update then (Recorded, Some(Ledger(current, true)))
      else if !l.canonical || l.contract != current then (Unrecorded, ledger)
      else (UpToDate, ledger)
  }

  method RunTool(current: Contract, ledger: Option<Ledger>, historical: Option<Contract>, update: bool)
    returns (verdict: Verdict, left: Option<Ledger>)
    ensures (verdict, left) == Decide(current, ledger, historical, update)
  {
    if ledger.None? {
      if !update {
        return MissingLedger, ledger;
      }
      return CreatedLedger, Some(Ledger(current, true));
    }
    var baseline := ledger.value;
    if historical.Some? {
      var historyErrors := CompatibilityErrors(historical.value, baseline.contract);
      NoProblemsIffAdditive(historical.value, baseline.contract);
      if historyErrors != [] {
        assert historyErrors[0] in historyErrors;
        return RewritesHistory, ledger;
      }
    }
    var errors := CompatibilityErrors(baseline.contract, current);
    NoProblemsIffAdditive(baseline.contract, current);
    if errors != [] {
      assert errors[0] in errors;
      return BreakingChanges, ledger;
    }
    if update {
      return Recorded, Some(Ledger(current, true));
    }
    if !baseline.canonical || baseline.contract != current {
      return Unrecorded, ledger;
    }
    return UpToDate, ledger;
  }

  /** Every revision after the first passed the check against the revision before it. */
  ghost predicate Checked(ledgers: seq<Ledger>, currents: seq<Contract>) {
    && |ledgers| == |currents|
    && forall k :: 1 <= k < |ledgers| ==>
         Decide(currents[k], Some(ledgers[k]), Some(ledgers[k - 1].contract), false).0 == UpToDate
  }

  /** Over a checked history, every revision keeps everything any earlier revision promised. */
  lemma {:induction false} HistoryIsAdditive(ledgers: seq<Ledger>, currents: seq<Contract>, i: nat, j: nat)
    requires Checked(ledgers, currents) && i <= j < |ledgers|
    ensures Additive(ledgers[i].contract, ledgers[j].contract)
    ensures 1 <= j ==> currents[j] == ledgers[j].contract
    decreases j
  {
    if i < j {
      HistoryIsAdditive(ledgers, currents, i, j - 1);
      assert Decide(currents[j], Some(ledgers[j]), Some(ledgers[j - 1].contract), false).0 == UpToDate;
      AdditiveTransitive(ledgers[i].contract, ledgers[j - 1].contract, ledgers[j].contract);
    } else if 1 <= j {
      assert Decide(currents[j], Some(ledgers[j]), Some(ledgers[j - 1].contract), false).0 == UpToDate;
    }
  }

  /** A recorded update keeps the history and leaves a ledger that passes the next check. */
  lemma UpdateThenCheckPasses(current: Contract, ledger: Ledger, historical: Option<Contract>)
    requires Decide(current, Some(ledger), historical, true).0 == Recorded
    ensures var left := Decide(current, Some(ledger), historical, true).1;
            && left.Some? && Decide(current, left, historical, false) == (UpToDate, left)
            && Additive(ledger.contract, left.value.contract)
            && (historical.Some? ==> Additive(historical.value, left.value.contract))
  {
    if historical.Some? {
      AdditiveTransitive(historical.value, ledger.contract, current);
    }
  }

  /** A run changes the ledger only when it was asked to, and then to the current contract. */
  lemma LedgerWrites(current: Contract, ledger: Option<Ledger>, historical: Option<Contract>, update: bool)
    ensures var (verdict, left) := Decide(current, ledger, historical, update);
            && (left != ledger ==> update && left == Some(Ledger(current, true)))
            && (verdict == CreatedLedger || verdict == Recorded <==>
                  update && (ledger.None? || ((historical.Some? ==> Additive(historical.value, ledger.value.contract))
                                              && Additive(ledger.value.contract, current))))
  {
  }

  const OLD := Contract(Some("v1"), Some("proto3"), Some("denpie"), map["Tip" := Item(map[], multiset{})], map[], map[])
  const CUT := Contract(Some("v1"), Some("proto3"), Some("denpie"), map[], map[], map[])

  /** Recreating a deleted ledger compares nothing: a removed message goes through, and only the next check against history reports it. */
  lemma RecreatedLedgerForgetsHistory()
    ensures Decide(CUT, None, Some(OLD), true) == (CreatedLedger, Some(Ledger(CUT, true)))
    ensures Decide(CUT, Some(Ledger(CUT, true)), Some(OLD), false).0 == RewritesHistory
  {
    assert "Tip" in OLD.messages && "Tip" !in CUT.messages;
  }

  /** The recreated ledger keeps the history exactly when the current contract does. */
  lemma RecreatedLedgerChecks(current: Contract, historical: Contract)
    ensures var left := Decide(current, None, Some(historical), true).1;
            left.Some? && (Decide(current, left, Some(historical), false).0 == UpToDate <==> Additive(historical, current))
  {
    AdditiveReflexive(current);
  }

  // ---------- the operation list ----------

  datatype Operation = Operation(
    name: Option<string>, request: Option<string>, result: Option<string>,
    auth: Option<string>, scope: Option<string>, kind: Option<string>)

  datatype OperationError = InvalidName(name: Option<string>) | NotCovered

  datatype Operations = Listed(policies: map<string, Policy>) | Refused(error: OperationError)

  function PolicyOf(o: Operation, field: Option<string>): Policy {
    Policy(o.request, o.result, o.auth, o.scope, o.kind, field)
  }

  function FieldOf(fields: map<string, string>, name: string): Option<string> {
    if name in fields then Some(fields[name]) else None
  }

  /** Every operation has a name and no two share one. */
  predicate Named(ops: seq<Operation>) {
    && (forall k :: 0 <= k < |ops| ==> ops[k].name.Some?)
    && forall a, b :: 0 <= a < b < |ops| ==> ops[a].name != ops[b].name
  }

  /** Accepted exactly when the names are unique and the result fields cover them exactly; then one policy per operation. */
  method OperationContract(ops: seq<Operation>, resultFields: map<string, string>) returns (r: Operations)
    ensures r.Listed? <==> Named(ops) && resultFields.Keys == set k | 0 <= k < |ops| :: ops[k].name.value
    ensures r.Listed? ==> r.policies.Keys == resultFields.Keys
    ensures r.Listed? ==> forall k :: 0 <= k < |ops| ==>
      ops[k].name.value in r.policies && r.policies[ops[k].name.value] == PolicyOf(ops[k], Some(resultFields[ops[k].name.value]))
  {
    var result: map<string, Policy> := map[];
    var i := 0;
    while i < |ops|
      invariant i <= |ops| && Named(ops[..i])
      invariant forall k :: 0 <= k < i ==> ops[k].name.Some?
      invariant result.Keys == set k | 0 <= k < i :: ops[k].name.value
      invariant forall k :: 0 <= k < i ==>
        result[ops[k].name.value] == PolicyOf(ops[k], FieldOf(resultFields, ops[k].name.value))
    {
      var o := ops[i];
      if o.name.None? || o.name.value in result {
        return Refused(InvalidName(o.name));
      }
      result := result[o.name.value := PolicyOf(o, FieldOf(resultFields, o.name.value))];
      i := i + 1;
    }
    assert ops[..i] == ops;
    if resultFields.Keys != result.Keys {
      return Refused(NotCovered);
    }
    r := Listed(result);
  }
}
