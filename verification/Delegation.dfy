/** API keys that create API keys: what a key may do never exceeds what its creators may do. */
module Delegation {
  import opened Options
  import opened Text
  import opened Ink
  import opened SortedTexts

  const API_KEY_SCOPES: seq<string> := [
    "cards:read", "cards:write", "reviews:write", "topics:read", "topics:write", "settings:read",
    "settings:write", "secrets:read", "keys:manage", "documents:read", "documents:write",
    "images:read", "images:write", "diagnostics:run"]

  datatype Result<T> = Ok(value: T) | Err(error: Error)

  datatype Error = NoScope | UnsupportedScope(scope: string) | ScopeNotHeld(scope: string) | Outlives | NotUnrestricted | InThePast

  // ---------- scopes ----------

  /** One scope as it is compared and stored. */
  function Scope(text: string): string {
    Lower(Trim(text))
  }

  /** What normalising makes of a list, given what it collected so far. */
  function NormalizeFrom(collected: seq<string>, scopes: seq<string>): Result<seq<string>>
    decreases |scopes|
  {
    if scopes == [] then Ok(collected)
    else if Scope(scopes[0]) == "*" then Ok(["*"])
    else if Scope(scopes[0]) !in API_KEY_SCOPES then Err(UnsupportedScope(Scope(scopes[0])))
    else NormalizeFrom(Insert(collected, Scope(scopes[0])), scopes[1..])
  }

  function Normalize(scopes: seq<string>): Result<seq<string>> {
    if scopes == [] then Err(NoScope) else NormalizeFrom([], scopes)
  }

  method NormalizeScopes(scopes: seq<string>) returns (r: Result<seq<string>>)
    ensures r == Normalize(scopes)
  {
    hide Scope, Insert;
    if scopes == [] {
      return Err(NoScope);
    }
    var normalized: seq<string> := [];
    assert scopes[0..] == scopes;
    for i := 0 to |scopes|
      invariant NormalizeFrom(normalized, scopes[i..]) == NormalizeFrom([], scopes)
    {
      var scope := Scope(scopes[i]);
      assert scopes[i..][0] == scopes[i] && scopes[i..][1..] == scopes[i + 1..];
      if scope == "*" {
        return Ok(["*"]);
      }
      if scope !in API_KEY_SCOPES {
        return Err(UnsupportedScope(scope));
      }
      normalized := Insert(normalized, scope);
    }
    assert scopes[|scopes|..] == [];
    r := Ok(normalized);
  }

  /** Normalised scopes: everything, or a non-empty sorted list of known scopes without repetitions. */
  predicate Normal(scopes: seq<string>) {
    scopes == ["*"] || (scopes != [] && Sorted(scopes) && forall x :: x in scopes ==> x in API_KEY_SCOPES)
  }

  lemma {:induction false} NormalizeFromIs(collected: seq<string>, scopes: seq<string>)
    requires Sorted(collected) && (forall x :: x in collected ==> x in API_KEY_SCOPES)
    ensures match NormalizeFrom(collected, scopes)
            case Ok(r) =>
              || r == ["*"]
              || (Sorted(r) && (forall x :: x in r ==> x in API_KEY_SCOPES)
                  && (forall x :: x in r <==> x in collected || exists k :: 0 <= k < |scopes| && Scope(scopes[k]) == x))
            case Err(_) => exists k :: 0 <= k < |scopes| && Scope(scopes[k]) !in API_KEY_SCOPES && Scope(scopes[k]) != "*"
    decreases |scopes|
  {
    hide Scope, Insert, Sorted;
    if scopes != [] && Scope(scopes[0]) != "*" && Scope(scopes[0]) in API_KEY_SCOPES {
      var x := Scope(scopes[0]);
      InsertKeepsSorted(collected, x);
      NormalizeFromIs(Insert(collected, x), scopes[1..]);
      assert forall k :: 0 <= k < |scopes[1..]| ==> scopes[1..][k] == scopes[k + 1];
      assert forall k :: 1 <= k < |scopes| ==> scopes[k] == scopes[1..][k - 1];
    }
  }

  lemma NormalizedIsNormal(scopes: seq<string>)
    ensures Normalize(scopes).Ok? ==> Normal(Normalize(scopes).value)
  {
    hide Scope, Sorted;
    NothingIsSorted();
    if scopes != [] {
      NormalizeFromIs([], scopes);
      var r := NormalizeFrom([], scopes);
      if r.Ok? && r.value != ["*"] && r.value == [] {
        FirstIsCollected([], scopes);
      }
    }
  }

  lemma NothingIsSorted()
    ensures Sorted([])
  {
  }

  lemma FirstIsCollected(collected: seq<string>, scopes: seq<string>)
    requires scopes != [] && NormalizeFrom(collected, scopes).Ok? && Sorted(collected) && (forall x :: x in collected ==> x in API_KEY_SCOPES)
    ensures NormalizeFrom(collected, scopes).value != []
  {
    hide Scope, Sorted;
    NormalizeFromIs(collected, scopes);
    var r := NormalizeFrom(collected, scopes).value;
    if r != ["*"] {
      assert Scope(scopes[0]) in r;
    }
  }

  lemma {:induction false} NormalizeOfNormal(collected: seq<string>, scopes: seq<string>)
    requires forall x :: x in scopes ==> Scope(x) == x && x in API_KEY_SCOPES && x != "*"
    ensures NormalizeFrom(collected, scopes) == Ok(InsertAll(collected, scopes))
    decreases |scopes|
  {
    hide Scope, Insert;
    if scopes != [] {
      assert scopes[0] in scopes;
      NormalizeOfNormal(Insert(collected, scopes[0]), scopes[1..]);
    }
  }

  predicate Plain(t: string) {
    t != "" && forall k :: 0 <= k < |t| ==> !IsSpace(t[k]) && LowerChar(t[k]) == t[k]
  }

  lemma PlainScope(t: string)
    requires Plain(t)
    ensures Scope(t) == t
  {
    hide Trim, Lower;
    TrimmedStays(t);
    assert forall k :: 0 <= k < |t| ==> Lower(t)[k] == t[k];
  }

  lemma KnownScopesArePlain(k: nat)
    requires k < |API_KEY_SCOPES|
    ensures Plain(API_KEY_SCOPES[k]) && API_KEY_SCOPES[k] != "*"
  {
    hide Plain;
    if k < 5 { FirstScopesArePlain(k); } else if k < 10 { MiddleScopesArePlain(k); } else { LastScopesArePlain(k); }
  }

  lemma FirstScopesArePlain(k: nat)
    requires k < 5
    ensures Plain(API_KEY_SCOPES[k]) && API_KEY_SCOPES[k] != "*"
  {
  }

  lemma MiddleScopesArePlain(k: nat)
    requires 5 <= k < 10
    ensures Plain(API_KEY_SCOPES[k]) && API_KEY_SCOPES[k] != "*"
  {
  }

  lemma LastScopesArePlain(k: nat)
    requires 10 <= k < 14
    ensures Plain(API_KEY_SCOPES[k]) && API_KEY_SCOPES[k] != "*"
  {
  }

  /** Normalising a second time changes nothing. */
  lemma NormalizeTwice(scopes: seq<string>)
    requires Normal(scopes)
    ensures Normalize(scopes) == Ok(scopes)
  {
    hide Scope, Sorted, Plain, InsertAll;
    PlainStar();
    if scopes != ["*"] {
      forall x | x in scopes
        ensures Scope(x) == x && x != "*"
      {
        var k :| 0 <= k < |API_KEY_SCOPES| && API_KEY_SCOPES[k] == x;
        KnownScopesArePlain(k);
        PlainScope(x);
      }
      NormalizeOfNormal([], scopes);
      InsertAllOfSorted(scopes);
    }
  }

  lemma PlainStar()
    ensures Scope("*") == "*"
  {
    hide Scope;
    PlainScope("*");
  }

  // ---------- keys ----------

  /** A principal's rights: the scopes of its key or session, and when they end. */
  datatype Rights = Rights(scopes: seq<string>, expiresAt: Option<int>)

  const SESSION := Rights(["*"], None)

  predicate HasScope(r: Rights, scope: string) {
    "*" in r.scopes || scope in r.scopes
  }

  predicate MayCreateUnrestricted(r: Rights) {
    "*" in r.scopes && r.expiresAt.None?
  }

  /** Whether a principal may create a key with these scopes and this end. */
  function Delegated(parent: Rights, scopes: seq<string>, expiresAt: Option<int>): Result<seq<string>> {
    match Normalize(scopes)
    case Err(e) => Err(e)
    case Ok(normalized) =>
      if exists x :: x in normalized && !HasScope(parent, x) then Err(ScopeNotHeld(FirstNotHeld(parent, normalized)))
      else if parent.expiresAt.Some? && (expiresAt.None? || expiresAt.value > parent.expiresAt.value) then Err(Outlives)
      else Ok(normalized)
  }

  function FirstNotHeld(parent: Rights, scopes: seq<string>): string {
    if scopes == [] then "" else if !HasScope(parent, scopes[0]) then scopes[0] else FirstNotHeld(parent, scopes[1..])
  }

  method ValidateDelegation(parent: Rights, scopes: seq<string>, expiresAt: Option<int>) returns (r: Result<seq<string>>)
    ensures r == Delegated(parent, scopes, expiresAt)
  {
    hide Normalize;
    var normalized := NormalizeScopes(scopes);
    if normalized.Err? {
      return normalized;
    }
    var ns := normalized.value;
    assert ns[0..] == ns;
    for i := 0 to |ns|
      invariant forall k :: 0 <= k < i ==> HasScope(parent, ns[k])
      invariant FirstNotHeld(parent, ns) == FirstNotHeld(parent, ns[i..])
    {
      assert ns[i..][0] == ns[i] && ns[i..][1..] == ns[i + 1..];
      if !HasScope(parent, ns[i]) {
        return Err(ScopeNotHeld(ns[i]));
      }
    }
    if parent.expiresAt.Some? {
      if expiresAt.None? || expiresAt.value > parent.expiresAt.value {
        return Err(Outlives);
      }
    }
    r := Ok(ns);
  }

  /** A key: its rights and the key that created it; none stands for a browser session. */
  datatype Key = Key(rights: Rights, creator: Option<nat>)

  datatype Request = Scoped(scopes: seq<string>, expiresAt: Option<int>) | Unrestricted

  function RightsOf(keys: seq<Key>, creator: Option<nat>): Rights
    requires creator.Some? ==> creator.value < |keys|
  {
    if creator.Some? then keys[creator.value].rights else SESSION
  }

  /** Creating a key: both services normalise the scopes. */
  function Created(keys: seq<Key>, creator: Option<nat>, request: Request, now: int): Result<seq<Key>>
    requires creator.Some? ==> creator.value < |keys|
  {
    var rights := RightsOf(keys, creator);
    match request
    case Unrestricted =>
      if MayCreateUnrestricted(rights) then Ok(keys + [Key(SESSION, creator)]) else Err(NotUnrestricted)
    case Scoped(scopes, expiresAt) =>
      if expiresAt.Some? && expiresAt.value <= now then Err(InThePast)
      else match Delegated(rights, scopes, expiresAt)
        case Err(e) => Err(e)
        case Ok(normalized) =>
          match Normalize(normalized)
          case Err(e) => Err(e)
          case Ok(stored) => Ok(keys + [Key(Rights(stored, expiresAt), creator)])
  }

  /** All that the second may do, the first may do, and at least as long. */
  predicate Bounds(a: Rights, b: Rights) {
    && (forall x :: x in b.scopes ==> HasScope(a, x))
    && (a.expiresAt.Some? ==> b.expiresAt.Some? && b.expiresAt.value <= a.expiresAt.value)
  }

  /** Every creator is an earlier key, and bounds its keys. */
  ghost predicate Grown(keys: seq<Key>) {
    forall k :: 0 <= k < |keys| ==>
      && (keys[k].creator.Some? ==> keys[k].creator.value < k)
      && Normal(keys[k].rights.scopes)
      && (keys[k].creator.Some? ==> Bounds(keys[keys[k].creator.value].rights, keys[k].rights))
  }

  lemma CreatedIsBounded(keys: seq<Key>, creator: Option<nat>, request: Request, now: int)
    requires Grown(keys) && (creator.Some? ==> creator.value < |keys|)
    requires Created(keys, creator, request, now).Ok?
    ensures Grown(Created(keys, creator, request, now).value)
  {
    hide Normalize, Normal;
    var rights := RightsOf(keys, creator);
    var created := Created(keys, creator, request, now).value;
    var key := created[|keys|];
    assert Normal(["*"]) by { StarIsNormal(); }
    if request.Scoped? {
      NormalizedIsNormal(request.scopes);
      var normalized := Normalize(request.scopes).value;
      NormalizeTwice(normalized);
      assert key.rights.scopes == normalized;
    }
    assert Bounds(rights, key.rights);
    assert forall k :: 0 <= k < |keys| ==> created[k] == keys[k];
  }

  lemma StarIsNormal()
    ensures Normal(["*"])
  {
  }

  /** One request to create a key, by a key or a session, at some time. */
  datatype Creation = Creation(creator: Option<nat>, request: Request, now: int)

  /** The keys after a series of requests; a refused one, or one by no key, creates nothing. */
  function Built(creations: seq<Creation>): seq<Key> {
    if creations == [] then []
    else
      var keys := Built(creations[..|creations| - 1]);
      var c := creations[|creations| - 1];
      if c.creator.Some? && c.creator.value >= |keys| then keys
      else match Created(keys, c.creator, c.request, c.now)
        case Ok(more) => more
        case Err(_) => keys
  }

  lemma {:induction false} BuiltIsGrown(creations: seq<Creation>)
    ensures Grown(Built(creations))
  {
    hide Created, Grown;
    if creations == [] {
      NoKeys();
    } else {
      var init, c := creations[..|creations| - 1], creations[|creations| - 1];
      BuiltIsGrown(init);
      var keys := Built(init);
      if (c.creator.Some? ==> c.creator.value < |keys|) && Created(keys, c.creator, c.request, c.now).Ok? {
        CreatedIsBounded(keys, c.creator, c.request, c.now);
      }
    }
  }

  lemma NoKeys()
    ensures Grown([])
  {
  }

  /** The second normalisation in the service that stores a key never changes or refuses anything. */
  lemma SecondNormalizeIsIdle(parent: Rights, scopes: seq<string>, expiresAt: Option<int>)
    requires Delegated(parent, scopes, expiresAt).Ok?
    ensures Normalize(Delegated(parent, scopes, expiresAt).value) == Delegated(parent, scopes, expiresAt)
  {
    hide Normalize, Normal;
    NormalizedIsNormal(scopes);
    NormalizeTwice(Delegated(parent, scopes, expiresAt).value);
  }

  predicate Ancestor(keys: seq<Key>, a: nat, k: nat)
    requires Grown(keys) && k < |keys|
    decreases k
  {
    match keys[k].creator
    case None => false
    case Some(c) => c == a || Ancestor(keys, a, c)
  }

  lemma BoundsTransitive(a: Rights, b: Rights, c: Rights)
    requires Bounds(a, b) && Bounds(b, c) && Normal(b.scopes)
    ensures Bounds(a, c)
  {
    hide Sorted;
    forall x | x in c.scopes
      ensures HasScope(a, x)
    {
      if "*" in b.scopes {
        assert HasScope(a, "*");
      }
    }
  }

  /** Over any chain of creations a key's scopes and end stay within those of every ancestor. */
  lemma {:induction false} AncestorsBound(keys: seq<Key>, a: nat, k: nat)
    requires Grown(keys) && k < |keys| && Ancestor(keys, a, k)
    ensures a < k && Within(keys[a].rights, keys[k].rights)
    ensures Bounds(keys[a].rights, keys[k].rights)
    decreases k
  {
    hide Bounds, Normal;
    var c := keys[k].creator.value;
    if c != a {
      AncestorsBound(keys, a, c);
      BoundsTransitive(keys[a].rights, keys[c].rights, keys[k].rights);
    }
    BoundsAre(keys[a].rights, keys[k].rights);
  }

  /** A key with everything and no end can only come from sessions and keys of that kind. */
  lemma UnrestrictedAncestry(keys: seq<Key>, a: nat, k: nat)
    requires Grown(keys) && k < |keys| && Ancestor(keys, a, k) && MayCreateUnrestricted(keys[k].rights)
    ensures a < k && MayCreateUnrestricted(keys[a].rights)
  {
    AncestorsBound(keys, a, k);
    assert HasScope(keys[a].rights, "*");
  }

  // ---------- what the checks let through ----------

  /** Each scope of the second is one of the first, which has them all under a star, and the second ends no later. */
  predicate Within(a: Rights, b: Rights) {
    && ("*" in a.scopes || forall x :: x in b.scopes ==> x in a.scopes)
    && (a.expiresAt.Some? ==> b.expiresAt.Some? && b.expiresAt.value <= a.expiresAt.value)
  }

  lemma BoundsAre(a: Rights, b: Rights)
    ensures Bounds(a, b) <==> Within(a, b)
  {
  }

  /** Where normalising a list stops: at a star or at a scope that is not supported. */
  predicate Stops(text: string) {
    Scope(text) == "*" || Scope(text) !in API_KEY_SCOPES
  }

  /** Normalising gives a star exactly if a star stands in the list before any unsupported scope, refuses the first unsupported scope before any star, and otherwise gives the scopes of the list and no others. */
  lemma {:induction false} NormalizeStops(collected: seq<string>, scopes: seq<string>)
    requires collected != ["*"]
    requires "*" !in collected
    ensures match NormalizeFrom(collected, scopes)
            case Ok(r) =>
              if r == ["*"] then exists k :: 0 <= k < |scopes| && Scope(scopes[k]) == "*" && forall j :: 0 <= j < k ==> !Stops(scopes[j])
              else && (forall k :: 0 <= k < |scopes| ==> !Stops(scopes[k]))
                   && forall x :: x in r <==> x in collected || exists k :: 0 <= k < |scopes| && Scope(scopes[k]) == x
            case Err(e) =>
              exists k :: 0 <= k < |scopes| && e == UnsupportedScope(Scope(scopes[k])) && Scope(scopes[k]) != "*" && Scope(scopes[k]) !in API_KEY_SCOPES
                && forall j :: 0 <= j < k ==> !Stops(scopes[j])
    decreases |scopes|
  {
    hide Scope, Insert, Stops;
    if scopes != [] {
      var x, rest := Scope(scopes[0]), scopes[1..];
      StopsIs(scopes[0]);
      if !Stops(scopes[0]) {
        NormalizeStops(Insert(collected, x), rest);
        assert forall k :: 0 <= k < |rest| ==> rest[k] == scopes[k + 1];
        match NormalizeFrom(collected, scopes) {
          case Ok(r) =>
            if r == ["*"] {
              var k :| 0 <= k < |rest| && Scope(rest[k]) == "*" && forall j :: 0 <= j < k ==> !Stops(rest[j]);
              assert Scope(scopes[k + 1]) == "*" && forall j :: 0 <= j < k + 1 ==> !Stops(scopes[j]);
            } else {
              OneMoreScope(scopes, r, collected);
            }
          case Err(e) =>
            var k :| 0 <= k < |rest| && e == UnsupportedScope(Scope(rest[k])) && Scope(rest[k]) != "*" && Scope(rest[k]) !in API_KEY_SCOPES
              && forall j :: 0 <= j < k ==> !Stops(rest[j]);
            assert Scope(scopes[k + 1]) == Scope(rest[k]) && forall j :: 0 <= j < k + 1 ==> !Stops(scopes[j]);
        }
      }
    }
  }

  lemma StopsIs(text: string)
    ensures Stops(text) <==> Scope(text) == "*" || Scope(text) !in API_KEY_SCOPES
  {
  }

  lemma OneMoreScope(scopes: seq<string>, r: seq<string>, collected: seq<string>)
    requires scopes != [] && forall x :: x in r <==> x in Insert(collected, Scope(scopes[0])) || exists k :: 0 <= k < |scopes[1..]| && Scope(scopes[1..][k]) == x
    ensures forall x :: x in r <==> x in collected || exists k :: 0 <= k < |scopes| && Scope(scopes[k]) == x
  {
    hide Scope, Insert;
    var rest := scopes[1..];
    assert forall k :: 0 <= k < |rest| ==> rest[k] == scopes[k + 1];
    forall x
      ensures x in r <==> x in collected || exists k :: 0 <= k < |scopes| && Scope(scopes[k]) == x
    {
      if k :| 0 <= k < |rest| && Scope(rest[k]) == x {
        assert Scope(scopes[k + 1]) == x;
      }
      if k :| 0 <= k < |scopes| && Scope(scopes[k]) == x {
        assert k > 0 ==> Scope(rest[k - 1]) == x;
      }
    }
  }

  /** A delegated key is accepted exactly if its scopes normalise, the parent has each of them or a star, and it ends no later than the parent. */
  lemma DelegatedIff(parent: Rights, scopes: seq<string>, expiresAt: Option<int>)
    ensures Delegated(parent, scopes, expiresAt).Ok? <==>
            && Normalize(scopes).Ok? && Within(parent, Rights(Normalize(scopes).value, expiresAt))
    ensures Delegated(parent, scopes, expiresAt).Ok? ==> Delegated(parent, scopes, expiresAt) == Normalize(scopes)
  {
    hide Normalize;
    if Normalize(scopes).Ok? {
      BoundsAre(parent, Rights(Normalize(scopes).value, expiresAt));
    }
  }

  /** An unrestricted key comes only from a creator with a star and no end, and is one itself; a key that has already ended is refused. */
  lemma CreationsAre(keys: seq<Key>, creator: Option<nat>, scopes: seq<string>, expiresAt: Option<int>, now: int)
    requires creator.Some? ==> creator.value < |keys|
    ensures var rights := RightsOf(keys, creator);
            Created(keys, creator, Unrestricted, now) ==
            if "*" in rights.scopes && rights.expiresAt == None then Ok(keys + [Key(Rights(["*"], None), creator)]) else Err(NotUnrestricted)
    ensures expiresAt.Some? && expiresAt.value <= now ==> Created(keys, creator, Scoped(scopes, expiresAt), now) == Err(InThePast)
    ensures !(expiresAt.Some? && expiresAt.value <= now) ==>
              Created(keys, creator, Scoped(scopes, expiresAt), now) ==
              match Delegated(RightsOf(keys, creator), scopes, expiresAt)
              case Ok(stored) => Ok(keys + [Key(Rights(stored, expiresAt), creator)])
              case Err(e) => Err(e)
    ensures creator.None? ==> RightsOf(keys, creator) == Rights(["*"], None)
    ensures creator.Some? ==> RightsOf(keys, creator) == keys[creator.value].rights
  {
    hide Normalize;
    var rights := RightsOf(keys, creator);
    if Delegated(rights, scopes, expiresAt).Ok? {
      SecondNormalizeIsIdle(rights, scopes, expiresAt);
    }
  }

  /** A scope is compared without the blanks around it and in small letters. */
  lemma ScopesRead(a: string, word: string, z: string)
    requires Blank(a) && Blank(z) && (word != "" ==> !IsSpace(word[0]) && !IsSpace(word[|word| - 1]))
    ensures var r := Scope(a + word + z);
            |r| == |word| && forall k :: 0 <= k < |r| ==> if word[k] in CAPITALS then exists j :: 0 <= j < 26 && CAPITALS[j] == word[k] && SMALL[j] == r[k] else r[k] == word[k]
  {
    hide Trim, Blank, IsSpace, Lower, LowerChar;
    TrimUnique(a, word, z);
    var r := Scope(a + word + z);
    forall k | 0 <= k < |r|
      ensures if word[k] in CAPITALS then exists j :: 0 <= j < 26 && CAPITALS[j] == word[k] && SMALL[j] == r[k] else r[k] == word[k]
    {
      LowersAre(word[k]);
    }
  }

  /** The keys there are: none at first; a request that is accepted adds the one key that is created, with the rights normalised from it, and any other leaves them. */
  lemma BuiltAre(creations: seq<Creation>, c: Creation)
    ensures Built([]) == []
    ensures var keys, more := Built(creations), Built(creations + [c]);
            if c.creator.Some? && c.creator.value >= |keys| then more == keys
            else match Created(keys, c.creator, c.request, c.now)
              case Err(_) => more == keys
              case Ok(created) => more == created && |created| == |keys| + 1 && created[..|keys|] == keys && created[|keys|].creator == c.creator
  {
    hide Normalize;
    assert (creations + [c])[..|creations|] == creations;
  }

  /** The ancestors of a key are its creator and the ancestors of its creator. */
  lemma AncestorsAre(keys: seq<Key>, a: nat, k: nat)
    requires Grown(keys) && k < |keys|
    ensures Ancestor(keys, a, k) <==> keys[k].creator.Some? && (keys[k].creator.value == a || Ancestor(keys, a, keys[k].creator.value))
  {
  }
}
