/**
 Grounding settings: a typed policy next to the legacy strategy and verification fields it
 replaces, both changed by the same patches.
 */
module Grounding {
  import opened Options
  import opened Text
  import opened Ink
  import opened SortedTexts

  datatype Source = Model | Web | Documents | WebAndDocuments

  datatype Verification = StandardCheck | Thorough

  datatype Behavior = Standard | FactCheck | Agentic

  datatype Strategy = Factual | CreateAndGround | AgenticStrategy | Rag

  // ---------- texts and conversions ----------

  function SourceFrom(text: string): Source {
    match Trim(text)
    case "web" => Web
    case "documents" => Documents
    case "web_and_documents" => WebAndDocuments
    case _ => Model
  }

  function VerificationFrom(text: string): Verification {
    if Trim(text) == "thorough" then Thorough else StandardCheck
  }

  function BehaviorFrom(text: string): Behavior {
    match Trim(text)
    case "fact_check" => FactCheck
    case "agentic" => Agentic
    case _ => Standard
  }

  function StrategyFrom(text: string): Strategy {
    match Trim(text)
    case "create_and_ground" => CreateAndGround
    case "agentic" => AgenticStrategy
    case "rag" => Rag
    case _ => Factual
  }

  function BehaviorOf(v: Verification): Behavior {
    if v.Thorough? then FactCheck else Standard
  }

  function VerificationOf(b: Behavior): Verification {
    if b.FactCheck? then Thorough else StandardCheck
  }

  datatype Policy = Policy(source: Source, behavior: Behavior)

  function FromLegacy(s: Strategy): Policy {
    match s
    case Factual => Policy(Model, Standard)
    case AgenticStrategy => Policy(Web, Agentic)
    case CreateAndGround => Policy(Web, FactCheck)
    case Rag => Policy(Documents, Standard)
  }

  function Normalized(p: Policy): Policy {
    if p.source.Model? then p.(behavior := Standard) else p
  }

  function LegacyStrategy(p: Policy): Strategy {
    match p
    case Policy(Model, _) => Factual
    case Policy(_, FactCheck) => CreateAndGround
    case Policy(Documents, _) => Rag
    case Policy(_, _) => AgenticStrategy
  }

  /** A legacy strategy survives the way through the typed policy. */
  lemma LegacyRoundTrip(s: Strategy)
    ensures LegacyStrategy(FromLegacy(s)) == s && Normalized(FromLegacy(s)) == FromLegacy(s)
  {
  }

  // ---------- settings and patches ----------

  datatype Settings = Settings(strategy: Strategy, source: Source, behavior: Behavior, verification: Verification)

  /** The texts a patch may set; unknown texts stand for the default. */
  datatype Patch = Patch(strategy: Option<string>, source: Option<string>, verification: Option<string>, behavior: Option<string>)

  function PolicyOf(s: Settings): Policy {
    Normalized(Policy(s.source, s.behavior))
  }

  predicate Typed(p: Patch) {
    p.source.Some? || p.verification.Some? || p.behavior.Some?
  }

  function LegacyOf(p: Patch): Policy
    requires p.strategy.Some?
  {
    FromLegacy(StrategyFrom(p.strategy.value))
  }

  function PatchedSource(s: Settings, p: Patch): Source {
    if p.source.Some? then SourceFrom(p.source.value)
    else if p.strategy.Some? then LegacyOf(p).source
    else s.source
  }

  /** What sets the behavior: its own field, then the legacy strategy, then the verification mode. */
  function PatchedBehavior(s: Settings, p: Patch): Behavior {
    if p.behavior.Some? then BehaviorFrom(p.behavior.value)
    else if p.strategy.Some? then LegacyOf(p).behavior
    else if p.verification.Some? then BehaviorOf(VerificationFrom(p.verification.value))
    else s.behavior
  }

  /** What sets the verification mode: the behavior field, then its own, then the legacy strategy. */
  function PatchedVerification(s: Settings, p: Patch): Verification {
    if p.behavior.Some? then VerificationOf(BehaviorFrom(p.behavior.value))
    else if p.verification.Some? then VerificationFrom(p.verification.value)
    else if p.strategy.Some? then VerificationOf(LegacyOf(p).behavior)
    else s.verification
  }

  function Patched(s: Settings, p: Patch): Settings {
    var source := PatchedSource(s, p);
    var behavior := if source.Model? then Standard else PatchedBehavior(s, p);
    Settings(
      if Typed(p) then LegacyStrategy(Policy(source, behavior))
      else if p.strategy.Some? then StrategyFrom(p.strategy.value)
      else s.strategy,
      source,
      behavior,
      if source.Model? then StandardCheck else PatchedVerification(s, p))
  }

  /** The service's assignments, one after the other. */
  method ApplyPatch(s: Settings, p: Patch) returns (r: Settings)
    ensures r == Patched(s, p)
  {
    var typed := p.source.Some? || p.verification.Some? || p.behavior.Some?;
    var legacy: Option<Policy> := if p.strategy.Some? then Some(FromLegacy(StrategyFrom(p.strategy.value))) else None;
    r := s;
    if p.strategy.Some? {
      r := r.(strategy := StrategyFrom(p.strategy.value));
    }
    if p.source.Some? {
      r := r.(source := SourceFrom(p.source.value));
    } else if legacy.Some? {
      r := r.(source := legacy.value.source);
    }
    if p.verification.Some? {
      r := r.(verification := VerificationFrom(p.verification.value));
      if p.behavior.None? {
        r := r.(behavior := BehaviorOf(VerificationFrom(p.verification.value)));
      }
    } else if legacy.Some? {
      r := r.(verification := VerificationOf(legacy.value.behavior));
    }
    if p.behavior.Some? {
      r := r.(behavior := BehaviorFrom(p.behavior.value));
      r := r.(verification := VerificationOf(r.behavior));
    } else if legacy.Some? {
      r := r.(behavior := legacy.value.behavior);
    }
    if r.source.Model? {
      r := r.(behavior := Standard, verification := StandardCheck);
    }
    if typed {
      r := r.(strategy := LegacyStrategy(PolicyOf(r)));
    }
  }

  const DEFAULTS := Settings(Factual, Model, Standard, StandardCheck)

  function AfterPatches(s: Settings, patches: seq<Patch>): Settings
    decreases |patches|
  {
    if patches == [] then s else AfterPatches(Patched(s, patches[0]), patches[1..])
  }

  // ---------- what all patches keep ----------

  /** The legacy strategy is that of the typed policy, and the model as source forces the standard modes. */
  predicate Consistent(s: Settings) {
    && s.strategy == LegacyStrategy(PolicyOf(s))
    && (s.source.Model? ==> s.behavior.Standard? && s.verification.StandardCheck?)
  }

  predicate Matched(s: Settings) {
    s.verification == VerificationOf(s.behavior)
  }

  lemma PatchKeepsConsistent(s: Settings, p: Patch)
    requires Consistent(s)
    ensures Consistent(Patched(s, p))
  {
    hide SourceFrom, BehaviorFrom, VerificationFrom, StrategyFrom;
    if p.strategy.Some? {
      LegacyRoundTrip(StrategyFrom(p.strategy.value));
    }
  }

  /** A patch that touches the grounding at all makes inconsistent settings consistent. */
  lemma PatchRepairs(s: Settings, p: Patch)
    requires Typed(p) || p.strategy.Some?
    ensures Consistent(Patched(s, p))
  {
    hide SourceFrom, BehaviorFrom, VerificationFrom, StrategyFrom;
    if p.strategy.Some? {
      LegacyRoundTrip(StrategyFrom(p.strategy.value));
    }
  }

  /** A legacy strategy next to a verification mode, without a behavior, that ask for different things. */
  predicate Torn(s: Settings, p: Patch) {
    && p.strategy.Some? && p.verification.Some? && p.behavior.None?
    && !PatchedSource(s, p).Model?
    && VerificationFrom(p.verification.value) != VerificationOf(LegacyOf(p).behavior)
  }

  /** Verification and behavior stay matched under every patch but exactly the torn ones. */
  lemma MatchedUnlessTorn(s: Settings, p: Patch)
    requires Matched(s)
    ensures Matched(Patched(s, p)) <==> !Torn(s, p)
  {
    hide SourceFrom, BehaviorFrom, VerificationFrom, StrategyFrom;
  }

  /** A torn patch: fact checking by the legacy strategy, a standard verification mode beside it. */
  lemma TornPatchExists()
    ensures var p := Patch(Some("create_and_ground"), None, Some("standard"), None);
            var r := Patched(DEFAULTS, p);
            Torn(DEFAULTS, p) && r.behavior.FactCheck? && r.verification.StandardCheck?
  {
    hide Trim;
    TrimmedStays("create_and_ground");
    TrimmedStays("standard");
  }

  /** After any patches from the defaults the strategy is that of the policy, and the model forces the standard modes. */
  lemma {:induction false} PatchesKeepConsistent(s: Settings, patches: seq<Patch>)
    requires Consistent(s)
    ensures Consistent(AfterPatches(s, patches))
    decreases |patches|
  {
    hide Consistent, Patched;
    if patches != [] {
      PatchKeepsConsistent(s, patches[0]);
      PatchesKeepConsistent(Patched(s, patches[0]), patches[1..]);
    }
  }

  lemma DefaultsAreConsistent()
    ensures Consistent(DEFAULTS) && Matched(DEFAULTS)
  {
  }

  /** So it is after any patches from the defaults. */
  lemma PatchesFromDefaults(patches: seq<Patch>)
    ensures var s := AfterPatches(DEFAULTS, patches);
            && s.strategy == LegacyStrategy(PolicyOf(s))
            && (s.source.Model? ==> s.behavior.Standard? && s.verification.StandardCheck?)
            && (NoneTorn(DEFAULTS, patches) ==> s.verification == VerificationOf(s.behavior))
  {
    hide AfterPatches, NoneTorn;
    DefaultsAreConsistent();
    PatchesKeepConsistent(DEFAULTS, patches);
    if NoneTorn(DEFAULTS, patches) {
      PatchesKeepMatched(DEFAULTS, patches);
    }
  }

  predicate NoneTorn(s: Settings, patches: seq<Patch>)
    decreases |patches|
  {
    patches == [] || (!Torn(s, patches[0]) && NoneTorn(Patched(s, patches[0]), patches[1..]))
  }

  lemma {:induction false} PatchesKeepMatched(s: Settings, patches: seq<Patch>)
    requires Matched(s) && NoneTorn(s, patches)
    ensures Matched(AfterPatches(s, patches))
    decreases |patches|
  {
    hide Matched, Patched, Torn;
    if patches != [] {
      MatchedUnlessTorn(s, patches[0]);
      PatchesKeepMatched(Patched(s, patches[0]), patches[1..]);
    }
  }

  /** A patch applied twice does what it does once. */
  lemma PatchIdempotent(s: Settings, p: Patch)
    ensures Patched(Patched(s, p), p) == Patched(s, p)
  {
    hide SourceFrom, BehaviorFrom, VerificationFrom, StrategyFrom;
    if p.strategy.Some? && !Typed(p) {
      LegacyRoundTrip(StrategyFrom(p.strategy.value));
    }
  }

  // ---------- stored settings ----------

  /** The fields of a file; none for a missing one. */
  datatype Fields = Fields(strategy: Option<Strategy>, source: Option<Source>, behavior: Option<Behavior>, verification: Option<Verification>)

  /** What is missing follows from the legacy strategy, and that is the factual one unless the file says otherwise. */
  function FromFields(f: Fields): Settings {
    var legacy := if f.strategy.Some? then f.strategy.value else Factual;
    var behavior :=
      if f.behavior.Some? then f.behavior.value
      else BehaviorOf(if f.verification.Some? then f.verification.value else VerificationOf(FromLegacy(legacy).behavior));
    var policy := Normalized(Policy(if f.source.Some? then f.source.value else FromLegacy(legacy).source, behavior));
    Settings(legacy, policy.source, policy.behavior, VerificationOf(policy.behavior))
  }

  /** Settings read from a file that may hold any of the four texts. */
  function Loaded(strategy: Option<string>, source: Option<string>, verification: Option<string>, behavior: Option<string>): Settings {
    FromFields(Fields(
      (match strategy case Some(t) => Some(StrategyFrom(t)) case None => None),
      (match source case Some(t) => Some(SourceFrom(t)) case None => None),
      (match behavior case Some(t) => Some(BehaviorFrom(t)) case None => None),
      (match verification case Some(t) => Some(VerificationFrom(t)) case None => None)))
  }

  function SourceText(x: Source): string {
    match x
    case Model => "model"
    case Web => "web"
    case Documents => "documents"
    case WebAndDocuments => "web_and_documents"
  }

  function VerificationText(x: Verification): string {
    match x
    case StandardCheck => "standard"
    case Thorough => "thorough"
  }

  function BehaviorText(x: Behavior): string {
    match x
    case Standard => "standard"
    case FactCheck => "fact_check"
    case Agentic => "agentic"
  }

  function StrategyText(x: Strategy): string {
    match x
    case Factual => "factual"
    case CreateAndGround => "create_and_ground"
    case AgenticStrategy => "agentic"
    case Rag => "rag"
  }

  lemma TextsReadBack(s: Settings)
    ensures SourceFrom(SourceText(s.source)) == s.source
    ensures VerificationFrom(VerificationText(s.verification)) == s.verification
    ensures BehaviorFrom(BehaviorText(s.behavior)) == s.behavior
    ensures StrategyFrom(StrategyText(s.strategy)) == s.strategy
  {
    hide Trim;
    TrimmedStays(SourceText(s.source));
    TrimmedStays(VerificationText(s.verification));
    TrimmedStays(BehaviorText(s.behavior));
    TrimmedStays(StrategyText(s.strategy));
  }

  /** Saved settings load as they were exactly when they match and the model has the standard behavior. */
  lemma SavedSettingsLoad(s: Settings)
    ensures Loaded(Some(StrategyText(s.strategy)), Some(SourceText(s.source)), Some(VerificationText(s.verification)), Some(BehaviorText(s.behavior))) == s
            <==> Matched(s) && (s.source.Model? ==> s.behavior.Standard?)
  {
    hide SourceFrom, VerificationFrom, BehaviorFrom, StrategyFrom, SourceText, VerificationText, BehaviorText, StrategyText;
    TextsReadBack(s);
  }

  /** A file with only the legacy strategy loads with its policy, except that the agentic behavior is lost: it has no verification mode. */
  lemma LegacyFileLoads(text: string)
    ensures var s := Loaded(Some(text), None, None, None);
            Consistent(s) && Matched(s)
            && (s.behavior == FromLegacy(s.strategy).behavior <==> s.strategy != AgenticStrategy)
  {
    hide StrategyFrom;
  }

  // ---------- the settings file ----------

  type File = map<string, string>

  function Field(f: File, key: string): Option<string> {
    if key in f then Some(f[key]) else None
  }

  /** The settings a file stands for. */
  function LoadedFile(f: File): Settings {
    FromFields(LoadedFields(f))
  }

  function Put(f: File, key: string, value: Option<string>): File {
    if value.Some? then f[key := value.value] else f
  }

  /** What an update writes to one field: its own text, or that of the legacy strategy. */
  function UpdatedField(own: Option<string>, legacy: Option<string>): Option<string> {
    if own.Some? then own else legacy
  }

  method UpdateFile(file: File, p: Patch) returns (r: File)
    ensures var legacy := p.strategy.Some?;
            && Field(r, "grounding_strategy") ==
                 UpdatedField(if legacy then Some(StrategyText(StrategyFrom(p.strategy.value))) else None, Field(file, "grounding_strategy"))
            && Field(r, "grounding_source_mode") == (
                 if p.source.Some? then Some(SourceText(SourceFrom(p.source.value)))
                 else if legacy then Some(SourceText(LegacyOf(p).source)) else Field(file, "grounding_source_mode"))
            && Field(r, "grounding_verification_mode") == (
                 if p.verification.Some? then Some(VerificationText(VerificationFrom(p.verification.value)))
                 else if legacy then Some(VerificationText(VerificationOf(LegacyOf(p).behavior))) else Field(file, "grounding_verification_mode"))
            && Field(r, "grounding_behavior") == (
                 if p.behavior.Some? then Some(BehaviorText(BehaviorFrom(p.behavior.value)))
                 else if legacy then Some(BehaviorText(LegacyOf(p).behavior)) else Field(file, "grounding_behavior"))
    ensures LoadedFile(r) == FileUpdated(LoadedFields(file), p)
    ensures forall k :: k in file && k !in GROUNDING_KEYS ==> k in r && r[k] == file[k]
  {
    hide StrategyFrom, SourceFrom, VerificationFrom, BehaviorFrom, StrategyText, SourceText, VerificationText, BehaviorText;
    var legacy: Option<Policy> := if p.strategy.Some? then Some(LegacyOf(p)) else None;
    r := Put(file, "grounding_strategy", if p.strategy.Some? then Some(StrategyText(StrategyFrom(p.strategy.value))) else None);
    r := Put(r, "grounding_source_mode",
      if p.source.Some? then Some(SourceText(SourceFrom(p.source.value)))
      else if legacy.Some? then Some(SourceText(legacy.value.source)) else None);
    r := Put(r, "grounding_verification_mode",
      if p.verification.Some? then Some(VerificationText(VerificationFrom(p.verification.value)))
      else if legacy.Some? then Some(VerificationText(VerificationOf(legacy.value.behavior))) else None);
    r := Put(r, "grounding_behavior",
      if p.behavior.Some? then Some(BehaviorText(BehaviorFrom(p.behavior.value)))
      else if legacy.Some? then Some(BehaviorText(legacy.value.behavior)) else None);
    KeysDiffer();
    AllTextsReadBack();
  }

  const GROUNDING_KEYS: set<string> :=
    {"grounding_strategy", "grounding_source_mode", "grounding_verification_mode", "grounding_behavior"}

  lemma KeysDiffer()
    ensures "grounding_strategy" != "grounding_source_mode" && "grounding_strategy" != "grounding_verification_mode"
    ensures "grounding_strategy" != "grounding_behavior" && "grounding_source_mode" != "grounding_verification_mode"
    ensures "grounding_source_mode" != "grounding_behavior" && "grounding_verification_mode" != "grounding_behavior"
  {
    assert "grounding_strategy"[10] == 's' && "grounding_source_mode"[10] == 's';
    assert "grounding_strategy"[11] == 't' && "grounding_source_mode"[11] == 'o';
    assert "grounding_verification_mode"[10] == 'v' && "grounding_behavior"[10] == 'b';
  }

  lemma AllTextsReadBack()
    ensures forall x: Strategy :: StrategyFrom(StrategyText(x)) == x
    ensures forall x: Source :: SourceFrom(SourceText(x)) == x
    ensures forall x: Verification :: VerificationFrom(VerificationText(x)) == x
    ensures forall x: Behavior :: BehaviorFrom(BehaviorText(x)) == x
  {
    hide StrategyFrom, SourceFrom, VerificationFrom, BehaviorFrom, StrategyText, SourceText, VerificationText, BehaviorText;
    var s := DEFAULTS;
    forall x: Strategy
      ensures StrategyFrom(StrategyText(x)) == x
    {
      TextsReadBack(s.(strategy := x));
    }
    forall x: Source
      ensures SourceFrom(SourceText(x)) == x
    {
      TextsReadBack(s.(source := x));
    }
    forall x: Verification
      ensures VerificationFrom(VerificationText(x)) == x
    {
      TextsReadBack(s.(verification := x));
    }
    forall x: Behavior
      ensures BehaviorFrom(BehaviorText(x)) == x
    {
      TextsReadBack(s.(behavior := x));
    }
  }

  function LoadedFields(f: File): Fields {
    Fields(
      (match Field(f, "grounding_strategy") case Some(t) => Some(StrategyFrom(t)) case None => None),
      (match Field(f, "grounding_source_mode") case Some(t) => Some(SourceFrom(t)) case None => None),
      (match Field(f, "grounding_behavior") case Some(t) => Some(BehaviorFrom(t)) case None => None),
      (match Field(f, "grounding_verification_mode") case Some(t) => Some(VerificationFrom(t)) case None => None))
  }

  /** The settings after an update of the file: each field on its own. */
  function FileUpdated(f: Fields, p: Patch): Settings {
    var legacy := p.strategy.Some?;
    FromFields(Fields(
      if legacy then Some(StrategyFrom(p.strategy.value)) else f.strategy,
      if p.source.Some? then Some(SourceFrom(p.source.value)) else if legacy then Some(LegacyOf(p).source) else f.source,
      if p.behavior.Some? then Some(BehaviorFrom(p.behavior.value)) else if legacy then Some(LegacyOf(p).behavior) else f.behavior,
      if p.verification.Some? then Some(VerificationFrom(p.verification.value))
      else if legacy then Some(VerificationOf(LegacyOf(p).behavior)) else f.verification))
  }

  /** Without typed fields, updating the file and patching the loaded settings come to the same. */
  lemma FileAgreesOnLegacyPatches(f: Fields, p: Patch)
    requires !Typed(p)
    ensures FileUpdated(f, p) == Patched(FromFields(f), p)
  {
    hide StrategyFrom;
    if p.strategy.Some? {
      LegacyRoundTrip(StrategyFrom(p.strategy.value));
    }
  }

  /** The file keeps a typed behavior over a later verification mode. */
  predicate KeepsBehavior(f: Fields, p: Patch) {
    && p.verification.Some? && p.behavior.None? && p.strategy.None? && f.behavior.Some?
    && f.behavior.value != BehaviorOf(VerificationFrom(p.verification.value))
  }

  /** Which strategy stands for a source and a behavior, as a table. */
  predicate Fits(strategy: Strategy, source: Source, behavior: Behavior) {
    match strategy
    case Factual => source.Model?
    case CreateAndGround => !source.Model? && behavior.FactCheck?
    case Rag => source.Documents? && !behavior.FactCheck?
    case AgenticStrategy => (source.Web? || source.WebAndDocuments?) && !behavior.FactCheck?
  }

  /** The strategy the file ends up with: the update's, the file's own, or the default. */
  function FiledStrategy(f: Fields, p: Patch): Strategy {
    if p.strategy.Some? then StrategyFrom(p.strategy.value) else if f.strategy.Some? then f.strategy.value else Factual
  }

  function FiledSource(f: Fields, p: Patch): Source {
    if p.source.Some? then SourceFrom(p.source.value)
    else if p.strategy.Some? || f.source.None? then FromLegacy(FiledStrategy(f, p)).source
    else f.source.value
  }

  /** In the file a behavior comes before any verification mode, new or old. */
  function FiledBehavior(f: Fields, p: Patch): Behavior {
    if p.behavior.Some? then BehaviorFrom(p.behavior.value)
    else if p.strategy.Some? then LegacyOf(p).behavior
    else if f.behavior.Some? then f.behavior.value
    else if p.verification.Some? then BehaviorOf(VerificationFrom(p.verification.value))
    else if f.verification.Some? then BehaviorOf(f.verification.value)
    else BehaviorOf(VerificationOf(FromLegacy(FiledStrategy(f, p)).behavior))
  }

  /**
   An update of the file never recomputes the legacy strategy. It leaves consistent
   settings exactly when it sets a strategy and nothing else, or nothing at all in a
   consistent file, or when the strategy it sets or finds fits the source and behavior
   that it sets or finds.
   */
  lemma FileConsistentIff(f: Fields, p: Patch)
    ensures Matched(FileUpdated(f, p))
    ensures Consistent(FileUpdated(f, p)) <==>
            if Typed(p) then Fits(FiledStrategy(f, p), FiledSource(f, p), FiledBehavior(f, p))
            else p.strategy.Some? || Consistent(FromFields(f))
  {
    hide StrategyFrom, SourceFrom, VerificationFrom, BehaviorFrom;
    if p.strategy.Some? {
      LegacyRoundTrip(StrategyFrom(p.strategy.value));
    }
  }

  /** A typed update that also names a strategy is judged by its own fields alone, whatever the file holds. */
  lemma FileConsistentWithStrategyIff(f: Fields, p: Patch)
    requires p.strategy.Some?
    ensures var policy := LegacyOf(p);
            Consistent(FileUpdated(f, p)) <==>
              Fits(StrategyFrom(p.strategy.value),
                   if p.source.Some? then SourceFrom(p.source.value) else policy.source,
                   if p.behavior.Some? then BehaviorFrom(p.behavior.value) else policy.behavior)
  {
    hide StrategyFrom, SourceFrom, VerificationFrom, BehaviorFrom;
    FileConsistentIff(f, p);
    LegacyRoundTrip(StrategyFrom(p.strategy.value));
  }

  /** Consistent files and typed updates without a strategy: the file's strategy must fit what the update makes of the policy. */
  lemma FileConsistentWithoutStrategyIff(f: Fields, p: Patch)
    requires Consistent(FromFields(f)) && p.strategy.None?
    ensures Consistent(FileUpdated(f, p)) <==>
            !Typed(p) || Fits(FromFields(f).strategy, FiledSource(f, p), FiledBehavior(f, p))
  {
    hide StrategyFrom, SourceFrom, VerificationFrom, BehaviorFrom;
    FileConsistentIff(f, p);
  }

  /** The file hides a behavior under the model as source, and an update of the source alone brings it back. */
  predicate Resurfaces(f: Fields, p: Patch) {
    && p.strategy.None? && p.behavior.None? && p.verification.None?
    && FromFields(f).source.Model? && !FiledBehavior(f, p).Standard?
  }

  /**
   Updating any file and patching its loaded settings agree, in all but the strategy,
   exactly unless the file keeps a behavior over a later verification mode, brings back a
   hidden one, or the patch is torn; with the model as source they always agree.
   */
  lemma FileAgreesButStrategy(f: Fields, p: Patch)
    ensures var a, b := FileUpdated(f, p), Patched(FromFields(f), p);
            a.(strategy := b.strategy) == b <==>
              PatchedSource(FromFields(f), p).Model? || (!KeepsBehavior(f, p) && !Resurfaces(f, p) && !Torn(FromFields(f), p))
  {
    hide StrategyFrom, SourceFrom, VerificationFrom, BehaviorFrom;
  }

  /** A concrete update: the default file with the web as source keeps the factual strategy, while the patch makes it agentic. */
  lemma FileForgetsStrategy()
    ensures var p := Patch(None, Some("web"), None, None);
            var a, b := FileUpdated(Fields(None, None, None, None), p), Patched(DEFAULTS, p);
            a.strategy.Factual? && a.source.Web? && !Consistent(a) && b.strategy.AgenticStrategy? && Consistent(b)
  {
    hide Trim;
    TrimmedStays("web");
  }

  /** Two concrete differences: a fact-checking file told to verify in the standard way, and a file whose agentic behavior the model hides, told to use the web. */
  lemma FileAndPatchDiffer()
    ensures var f, p := Fields(Some(CreateAndGround), Some(Web), Some(FactCheck), Some(Thorough)), Patch(None, None, Some("standard"), None);
            FileUpdated(f, p).behavior.FactCheck? && Patched(FromFields(f), p).behavior.Standard?
    ensures var f, p := Fields(Some(Factual), Some(Model), Some(Agentic), None), Patch(None, Some("web"), None, None);
            FileUpdated(f, p).behavior.Agentic? && Patched(FromFields(f), p).behavior.Standard?
  {
    hide Trim;
    TrimmedStays("standard");
    TrimmedStays("web");
  }

  // ---------- the topic's version ----------

  /** A topic's own grounding; none means that the user's settings hold. */
  datatype Topic = Topic(strategy: Option<Strategy>, source: Option<Source>, behavior: Option<Behavior>, verification: Option<Verification>)

  /** A blank text clears the field. */
  function Blanked(text: string): Option<string> {
    if Trim(text) == "" then None else Some(Trim(text))
  }

  function TopicLegacy(p: Patch): Option<Policy>
    requires p.strategy.Some?
  {
    match Blanked(p.strategy.value)
    case None => None
    case Some(t) => Some(FromLegacy(StrategyFrom(t)))
  }

  function TopicSource(t: Topic, p: Patch): Option<Source> {
    if p.source.Some? then
      match Blanked(p.source.value)
      case None => None
      case Some(x) => Some(SourceFrom(x))
    else if p.strategy.Some? then
      match TopicLegacy(p)
      case None => None
      case Some(policy) => Some(policy.source)
    else t.source
  }

  /** Here the verification mode comes before the legacy strategy. */
  function TopicBehavior(t: Topic, p: Patch): Option<Behavior> {
    if p.behavior.Some? then
      match Blanked(p.behavior.value)
      case None => None
      case Some(x) => Some(BehaviorFrom(x))
    else if p.verification.Some? then
      match Blanked(p.verification.value)
      case None => None
      case Some(x) => Some(BehaviorOf(VerificationFrom(x)))
    else if p.strategy.Some? then
      match TopicLegacy(p)
      case None => None
      case Some(policy) => Some(policy.behavior)
    else t.behavior
  }

  method UpdateTopic(t: Topic, p: Patch) returns (r: Topic)
    ensures r == TopicPatched(t, p)
  {
    hide SourceFrom, BehaviorFrom, VerificationFrom, StrategyFrom, Blanked, Trim;
    if p.strategy.Some? && Blanked(p.strategy.value).Some? {
      LegacyRoundTrip(StrategyFrom(Blanked(p.strategy.value).value));
    }
    var legacy: Option<Policy> := if p.strategy.Some? then TopicLegacy(p) else None;
    var strategy := t.strategy;
    if p.strategy.Some? {
      strategy := match Blanked(p.strategy.value) case None => None case Some(x) => Some(StrategyFrom(x));
    }
    var source := TopicSource(t, p);
    var behavior := TopicBehavior(t, p);
    var verification := t.verification;
    if p.verification.Some? {
      verification := match Blanked(p.verification.value) case None => None case Some(x) => Some(VerificationFrom(x));
    } else if p.strategy.Some? {
      verification := match legacy case None => None case Some(policy) => Some(VerificationOf(policy.behavior));
    }
    if p.behavior.Some? {
      verification := match behavior case None => None case Some(b) => Some(VerificationOf(b));
    }
    if source == Some(Model) {
      behavior := Some(Standard);
      verification := Some(StandardCheck);
    }
    if Typed(p) {
      strategy :=
        match (source, behavior)
        case (Some(s), Some(b)) => Some(LegacyStrategy(Normalized(Policy(s, b))))
        case _ => None;
    }
    r := Topic(strategy, source, behavior, verification);
  }

  /** A topic's verification mode follows its behavior, and its strategy its policy, as soon as a patch touches them. */
  function TopicPatched(t: Topic, p: Patch): Topic {
    var source := TopicSource(t, p);
    var behavior := if source == Some(Model) then Some(Standard) else TopicBehavior(t, p);
    var touched := p.behavior.Some? || p.verification.Some? || p.strategy.Some? || source == Some(Model);
    Topic(
      if Typed(p) || p.strategy.Some? then TopicStrategy(source, behavior) else t.strategy,
      source,
      behavior,
      if touched then (match behavior case None => None case Some(b) => Some(VerificationOf(b))) else t.verification)
  }

  function TopicStrategy(source: Option<Source>, behavior: Option<Behavior>): Option<Strategy> {
    match (source, behavior)
    case (Some(s), Some(b)) => Some(LegacyStrategy(Normalized(Policy(s, b))))
    case _ => None
  }

  /** A topic names a strategy exactly when it has a whole policy, its verification mode always matches, and the model forces the standard modes. */
  predicate TopicSound(t: Topic) {
    && t.strategy == TopicStrategy(t.source, t.behavior)
    && t.verification == (match t.behavior case None => None case Some(b) => Some(VerificationOf(b)))
    && (t.source == Some(Model) ==> t.behavior == Some(Standard))
  }

  lemma TopicPatchKeepsSound(t: Topic, p: Patch)
    requires TopicSound(t)
    ensures TopicSound(TopicPatched(t, p))
  {
    hide SourceFrom, BehaviorFrom, VerificationFrom, StrategyFrom, Blanked, Trim;
  }

  lemma TopicPatchIdempotent(t: Topic, p: Patch)
    ensures TopicPatched(TopicPatched(t, p), p) == TopicPatched(t, p)
  {
    hide SourceFrom, BehaviorFrom, VerificationFrom, StrategyFrom, Blanked, Trim;
  }

  function Lifted(s: Settings): Topic {
    Topic(Some(s.strategy), Some(s.source), Some(s.behavior), Some(s.verification))
  }

  predicate BlankText(text: Option<string>) {
    text.Some? && Trim(text.value) == ""
  }

  /** A blank text clears the topic's source, or its behavior unless the model forces one; the user's settings have no such thing as a cleared field. */
  predicate Clears(s: Settings, p: Patch) {
    || (if p.source.Some? then BlankText(p.source) else BlankText(p.strategy))
    || (!PatchedSource(s, p).Model?
        && if p.behavior.Some? then BlankText(p.behavior)
           else if p.verification.Some? then BlankText(p.verification)
           else BlankText(p.strategy))
  }

  /** The two services read a patch differently: the topic lets the verification mode win over the legacy strategy. */
  predicate ReadDifferently(s: Settings, p: Patch) {
    && p.strategy.Some? && p.verification.Some? && p.behavior.None? && !PatchedSource(s, p).Model?
    && BehaviorOf(VerificationFrom(p.verification.value)) != LegacyOf(p).behavior
  }

  /** On any settings and any patch the user's and the topic's services agree exactly unless the patch clears a field or is read differently. */
  lemma ServicesAgree(s: Settings, p: Patch)
    ensures TopicPatched(Lifted(s), p) == Lifted(Patched(s, p)) <==> !Clears(s, p) && !ReadDifferently(s, p)
  {
    hide Trim;
    if p.strategy.Some? { TrimTwice(p.strategy.value); LegacyRoundTrip(StrategyFrom(p.strategy.value)); }
    if p.source.Some? { TrimTwice(p.source.value); }
    if p.verification.Some? { TrimTwice(p.verification.value); }
    if p.behavior.Some? { TrimTwice(p.behavior.value); }
  }

  // ---------- search profiles ----------

  datatype Depth = Quick | Balanced | Deep

  datatype Freshness = Any | Week | Month | Year

  datatype FailurePolicy = Stop | MarkUnverified

  datatype Profile = Profile(depth: Depth, freshness: Freshness, guidance: string, domains: seq<string>, failure: FailurePolicy)

  /** Domains trimmed and in lower case, without blank ones. */
  function Cleaned(domains: seq<string>): seq<string> {
    if domains == [] then []
    else
      var d := Lower(Trim(domains[0]));
      (if d == "" then [] else [d]) + Cleaned(domains[1..])
  }

  function NormalProfile(p: Profile): Profile {
    p.(guidance := Trim(p.guidance), domains := InsertAll([], Cleaned(p.domains)))
  }

  lemma {:induction false} CleanedMembers(domains: seq<string>)
    ensures forall d :: d in Cleaned(domains) <==> d != "" && exists k :: 0 <= k < |domains| && Lower(Trim(domains[k])) == d
  {
    hide Lower, Trim;
    if domains != [] {
      CleanedMembers(domains[1..]);
      assert forall k :: 0 <= k < |domains[1..]| ==> domains[1..][k] == domains[k + 1];
      assert forall k :: 1 <= k < |domains| ==> domains[k] == domains[1..][k - 1];
    }
  }

  lemma {:induction false} CleanedOfClean(domains: seq<string>)
    requires forall k :: 0 <= k < |domains| ==> domains[k] != "" && Lower(Trim(domains[k])) == domains[k]
    ensures Cleaned(domains) == domains
  {
    hide Lower, Trim;
    if domains != [] {
      CleanedOfClean(domains[1..]);
    }
  }

  lemma EachIsClean(domains: seq<string>, k: nat)
    requires k < |InsertAll([], Cleaned(domains))|
    ensures var d := InsertAll([], Cleaned(domains))[k]; d != "" && Lower(Trim(d)) == d
  {
    hide Lower, Trim, InsertAll;
    CleanedMembers(domains);
    var d := InsertAll([], Cleaned(domains))[k];
    assert d in Cleaned(domains);
    var j :| 0 <= j < |domains| && Lower(Trim(domains[j])) == d;
    LowerTrimTwice(domains[j]);
  }

  /** A normalised profile lists each of its domains once, in order, and normalising it again changes nothing. */
  lemma NormalProfileTwice(p: Profile)
    ensures Sorted(NormalProfile(p).domains) && NormalProfile(NormalProfile(p)) == NormalProfile(p)
    ensures forall d :: d in NormalProfile(p).domains <==> d != "" && exists k :: 0 <= k < |p.domains| && Lower(Trim(p.domains[k])) == d
  {
    hide Lower, Trim, InsertAll, Cleaned, Sorted;
    var ds := InsertAll([], Cleaned(p.domains));
    CleanedMembers(p.domains);
    assert Sorted([]) by { EmptyIsSorted(); }
    InsertAllKeepsSorted([], Cleaned(p.domains));
    forall k | 0 <= k < |ds|
      ensures ds[k] != "" && Lower(Trim(ds[k])) == ds[k]
    {
      EachIsClean(p.domains, k);
    }
    CleanedOfClean(ds);
    InsertAllOfSorted(ds);
    TrimTwice(p.guidance);
  }

  lemma EmptyIsSorted()
    ensures Sorted([])
  {
  }

  // ---------- the names and the tables ----------

  /** The text is the word with nothing but blanks around it. */
  ghost predicate Says(t: string, word: string) {
    exists a, z :: Blank(a) && Blank(z) && t == a + word + z
  }

  lemma SaysIs(t: string, word: string)
    requires word != "" && !IsSpace(word[0]) && !IsSpace(word[|word| - 1])
    ensures Trim(t) == word <==> Says(t, word)
  {
    hide Trim, IsSpace, Blank;
    TrimSplits(t);
    if Says(t, word) {
      var a, z :| Blank(a) && Blank(z) && t == a + word + z;
      TrimUnique(a, word, z);
    }
  }

  /** Which texts name what: the listed words between blanks, and every other text the default. */
  lemma SourcesRead(t: string)
    ensures SourceFrom(t).Web? <==> Says(t, "web")
    ensures SourceFrom(t).Documents? <==> Says(t, "documents")
    ensures SourceFrom(t).WebAndDocuments? <==> Says(t, "web_and_documents")
    ensures VerificationFrom(t).Thorough? <==> Says(t, "thorough")
  {
    hide Trim, Says;
    SaysIs(t, "web");
    SaysIs(t, "documents");
    SaysIs(t, "web_and_documents");
    SaysIs(t, "thorough");
  }

  lemma NamesRead(t: string)
    ensures BehaviorFrom(t).FactCheck? <==> Says(t, "fact_check")
    ensures BehaviorFrom(t).Agentic? <==> Says(t, "agentic")
    ensures StrategyFrom(t).CreateAndGround? <==> Says(t, "create_and_ground")
    ensures StrategyFrom(t).AgenticStrategy? <==> Says(t, "agentic")
    ensures StrategyFrom(t).Rag? <==> Says(t, "rag")
  {
    hide Trim, Says;
    SaysIs(t, "fact_check");
    SaysIs(t, "agentic");
    SaysIs(t, "create_and_ground");
    SaysIs(t, "rag");
  }

  /** The typed policy of each legacy strategy: the agentic and the grounding one search the web, the grounding one checks facts, the retrieving one reads documents. */
  lemma LegacyTable(s: Strategy)
    ensures FromLegacy(s).source.Web? <==> s.AgenticStrategy? || s.CreateAndGround?
    ensures FromLegacy(s).source.Documents? <==> s.Rag?
    ensures FromLegacy(s).source.Model? <==> s.Factual?
    ensures FromLegacy(s).behavior.Agentic? <==> s.AgenticStrategy?
    ensures FromLegacy(s).behavior.FactCheck? <==> s.CreateAndGround?
  {
  }

  /** The legacy strategy of each policy: the model's whatever its behavior, then fact checking, then documents, and the agentic one for the rest. */
  lemma StrategyTable(p: Policy, v: Verification)
    ensures LegacyStrategy(p).Factual? <==> p.source.Model?
    ensures LegacyStrategy(p).CreateAndGround? <==> !p.source.Model? && p.behavior.FactCheck?
    ensures LegacyStrategy(p).Rag? <==> p.source.Documents? && !p.behavior.FactCheck?
    ensures VerificationOf(p.behavior).Thorough? <==> p.behavior.FactCheck?
    ensures BehaviorOf(v).FactCheck? <==> v.Thorough?
    ensures !BehaviorOf(v).Agentic?
  {
  }

  /** The names under which the settings are written. */
  lemma WrittenNames()
    ensures SourceText(Model) == "model" && SourceText(Web) == "web" && SourceText(Documents) == "documents" && SourceText(WebAndDocuments) == "web_and_documents"
    ensures VerificationText(StandardCheck) == "standard" && VerificationText(Thorough) == "thorough"
    ensures BehaviorText(Standard) == "standard" && BehaviorText(FactCheck) == "fact_check" && BehaviorText(Agentic) == "agentic"
    ensures StrategyText(Factual) == "factual" && StrategyText(CreateAndGround) == "create_and_ground" && StrategyText(AgenticStrategy) == "agentic" && StrategyText(Rag) == "rag"
  {
  }

  /** Patches apply one after the other, the last one to what the others made. */
  lemma {:induction false} PatchesApply(s: Settings, patches: seq<Patch>, p: Patch)
    ensures AfterPatches(s, []) == s
    ensures AfterPatches(s, patches + [p]) == Patched(AfterPatches(s, patches), p)
    ensures NoneTorn(s, patches + [p]) <==> NoneTorn(s, patches) && !Torn(AfterPatches(s, patches), p)
    decreases |patches|
  {
    hide Patched, Torn;
    var all := patches + [p];
    if patches == [] {
      assert all[1..] == [];
    } else {
      assert all[1..] == patches[1..] + [p];
      PatchesApply(Patched(s, patches[0]), patches[1..], p);
    }
  }
}
