/** Schema validation at startup: the loop over the registered models, in every mode. */
module Validation {
  import opened Wrappers
  import opened ModelSpecs

  datatype Mode = Strict | Auto | Manual | Warn

  /** A registered model; without an extractor it is skipped. */
  datatype ModelInfo = ModelInfo(name: string, extractor: Option<ModelSpec>)

  /** A stored specification file: it parses, or it does not. */
  datatype File = Readable(spec: ModelSpec) | Corrupt

  datatype Applied = Applied(modelName: string, changes: set<Change>)

  datatype Proposal = Proposal(modelName: string, changes: set<Change>, newSpec: ModelSpec, oldSpec: ModelSpec)

  datatype Config = Config(mode: Mode, isCluster: bool, locked: bool, policy: VotePolicy, saveFails: set<string>)

  /** What validation may change: the files, the cluster's view of schemas, history and proposals. */
  datatype World = World(
    disk: map<string, File>,
    schemas: map<string, ModelSpec>,
    history: seq<Applied>,
    pending: seq<Proposal>)

  /** A missing file and a file that cannot be read both count as a first run. */
  function Load(w: World, name: string): Option<ModelSpec> {
    if name in w.disk && w.disk[name].Readable? then Some(w.disk[name].spec) else None
  }

  function SaveWorks(c: Config, spec: ModelSpec): bool {
    spec.modelName !in c.saveFails
  }

  /** The file is named after the specification, not after the registration. */
  function Save(c: Config, w: World, spec: ModelSpec): World {
    if SaveWorks(c, spec) then w.(disk := w.disk[spec.modelName := Readable(spec)]) else w
  }

  function RecordSchema(w: World, name: string, spec: ModelSpec): World {
    w.(schemas := w.schemas[name := spec])
  }

  function InClusterMode(c: Config, w: World, name: string, stored: ModelSpec, current: ModelSpec): (World, bool) {
    var changes := DetectChanges(stored, current);
    match StrategyFor(c.policy, OverallStrategy(changes))
    case AutoAccept =>
      var recorded := RecordSchema(w, name, current);
      (Save(c, recorded.(history := recorded.history + [Applied(name, changes)]), current), false)
    case Reject => (w, true)
    case _ => (w.(pending := w.pending + [Proposal(name, changes, current, stored)]), false)
  }

  function Standalone(c: Config, w: World, name: string, stored: ModelSpec, current: ModelSpec): World {
    var changes := DetectChanges(stored, current);
    match c.mode
    case Auto =>
      if SaveWorks(c, current)
      then Save(c, w, current).(history := w.history + [Applied(name, changes)])
      else w
    case Manual => w.(pending := w.pending + [Proposal(name, changes, current, stored)])
    case Strict => w
    case Warn => w
  }

  predicate NeedsConsensus(changes: set<Change>) {
    exists c :: c in changes && c.requiresConsensus
  }

  /** One round of the loop: the new world, and whether the model counts as a breaking change. */
  function ValidateModel(c: Config, w: World, info: ModelInfo): (World, bool) {
    if info.extractor.None? then (w, false)
    else
      var current := info.extractor.value;
      var stored := Load(w, info.name);
      if stored.None? then
        var saved := Save(c, w, current);
        (if c.isCluster then RecordSchema(saved, info.name, current) else saved, false)
      else
        var changes := DetectChanges(stored.value, current);
        if changes == {} then (if c.isCluster then RecordSchema(w, info.name, current) else w, false)
        else if c.locked then (w, true)
        else
          var breaking := NeedsConsensus(changes);
          if c.isCluster then
            var (after, refused) := InClusterMode(c, w, info.name, stored.value, current);
            (after, breaking || refused)
          else (Standalone(c, w, info.name, stored.value, current), breaking)
  }

  function ValidateAll(c: Config, w: World, infos: seq<ModelInfo>): (World, bool) {
    if infos == [] then (w, false)
    else
      var (before, breaking) := ValidateAll(c, w, infos[..|infos| - 1]);
      var (after, more) := ValidateModel(c, before, infos[|infos| - 1]);
      (after, breaking || more)
  }

  /** The loop over the models; it fails exactly in strict mode with a breaking change. */
  method ValidateSchemas(c: Config, w: World, infos: seq<ModelInfo>) returns (after: World, ok: bool)
    ensures after == ValidateAll(c, w, infos).0
    ensures ok <==> !(c.mode == Strict && ValidateAll(c, w, infos).1)
  {
    after := w;
    var hasBreakingChanges := false;
    for i := 0 to |infos|
      invariant (after, hasBreakingChanges) == ValidateAll(c, w, infos[..i])
    {
      assert infos[..i + 1][..i] == infos[..i];
      var (next, breaking) := ValidateModel(c, after, infos[i]);
      after, hasBreakingChanges := next, hasBreakingChanges || breaking;
    }
    assert infos[..|infos|] == infos;
    ok := !(c.mode == Strict && hasBreakingChanges);
  }

  // ---------------------------------------------------------------- convergence of auto mode

  /** Each model is registered once, and its extractor names the specification after it. */
  ghost predicate WellRegistered(infos: seq<ModelInfo>) {
    && (forall i :: 0 <= i < |infos| && infos[i].extractor.Some? ==>
          infos[i].extractor.value.modelName == infos[i].name)
    && forall i, j :: 0 <= i < j < |infos| ==> infos[i].name != infos[j].name
  }

  /** The stored file of the model needs no further work. */
  ghost predicate Settled(w: World, info: ModelInfo) {
    info.extractor.Some? ==>
      var stored := Load(w, info.name);
      stored.Some? && DetectChanges(stored.value, info.extractor.value) == {}
  }

  ghost predicate AutoStandalone(c: Config) {
    c.mode == Auto && !c.isCluster && !c.locked
  }

  lemma ModelSettles(c: Config, w: World, info: ModelInfo)
    requires AutoStandalone(c)
    requires info.extractor.Some? ==> info.extractor.value.modelName == info.name && SaveWorks(c, info.extractor.value)
    ensures Settled(ValidateModel(c, w, info).0, info)
    ensures forall name :: name != info.name ==> Load(ValidateModel(c, w, info).0, name) == Load(w, name)
  {
    if info.extractor.Some? {
      NoChangesAgainstItself(info.extractor.value);
    }
  }

  lemma {:induction false} AllSettle(c: Config, w: World, infos: seq<ModelInfo>)
    requires AutoStandalone(c) && WellRegistered(infos)
    requires forall info :: info in infos && info.extractor.Some? ==> SaveWorks(c, info.extractor.value)
    ensures forall info :: info in infos ==> Settled(ValidateAll(c, w, infos).0, info)
  {
    if infos != [] {
      var front, last := infos[..|infos| - 1], infos[|infos| - 1];
      assert infos == front + [last];
      AllSettle(c, w, front);
      ModelSettles(c, ValidateAll(c, w, front).0, last);
      forall info | info in front
        ensures Settled(ValidateAll(c, w, infos).0, info)
      {
        var k :| 0 <= k < |front| && front[k] == info;
        assert infos[k].name != infos[|infos| - 1].name;
      }
    }
  }

  lemma {:induction false} SettledIsUntouched(c: Config, w: World, infos: seq<ModelInfo>)
    requires !c.isCluster && forall info :: info in infos ==> Settled(w, info)
    ensures ValidateAll(c, w, infos) == (w, false)
  {
    if infos != [] {
      var front, last := infos[..|infos| - 1], infos[|infos| - 1];
      assert infos == front + [last];
      SettledIsUntouched(c, w, front);
      assert Settled(w, last);
    }
  }

  /**
    After one validation in auto mode, standalone and unlocked, with saves that work, a second one
    writes no file, adds no history and no proposal, and reports nothing breaking.
   */
  lemma AutoValidationConverges(c: Config, w: World, infos: seq<ModelInfo>)
    requires AutoStandalone(c) && WellRegistered(infos)
    requires forall info :: info in infos && info.extractor.Some? ==> SaveWorks(c, info.extractor.value)
    ensures var first := ValidateAll(c, w, infos).0;
            ValidateAll(c, first, infos) == (first, false)
  {
    AllSettle(c, w, infos);
    SettledIsUntouched(c, ValidateAll(c, w, infos).0, infos);
  }

  /** The history entries of the models whose stored file differs from their specification, in order. */
  function ChangesFound(w: World, infos: seq<ModelInfo>): seq<Applied> {
    if infos == [] then []
    else
      var last := infos[|infos| - 1];
      ChangesFound(w, infos[..|infos| - 1])
      + if Differs(w, last)
        then [Applied(last.name, DetectChanges(Load(w, last.name).value, last.extractor.value))]
        else []
  }

  predicate Differs(w: World, info: ModelInfo) {
    && info.extractor.Some?
    && Load(w, info.name).Some?
    && DetectChanges(Load(w, info.name).value, info.extractor.value) != {}
  }

  /**
    Auto mode, standalone and unlocked, with saves that work: the history gains exactly one entry for
    each model whose stored file differed, the other files keep their contents, and nothing is
    proposed. Every comparison is against the file as it was before validation started.
   */
  lemma {:induction false} AutoRecordsExactlyTheChanges(c: Config, w: World, infos: seq<ModelInfo>)
    requires AutoStandalone(c) && WellRegistered(infos)
    requires forall info :: info in infos && info.extractor.Some? ==> SaveWorks(c, info.extractor.value)
    ensures var after := ValidateAll(c, w, infos).0;
            && after.history == w.history + ChangesFound(w, infos)
            && after.pending == w.pending && after.schemas == w.schemas
            && forall name :: (forall info :: info in infos ==> info.name != name) ==>
                 Load(after, name) == Load(w, name)
  {
    if infos != [] {
      var front, last := infos[..|infos| - 1], infos[|infos| - 1];
      assert infos == front + [last];
      AutoRecordsExactlyTheChanges(c, w, front);
      ModelSettles(c, ValidateAll(c, w, front).0, last);
      forall info | info in front
        ensures info.name != last.name
      {
        var k :| 0 <= k < |front| && front[k] == info;
        assert infos[k].name != infos[|infos| - 1].name;
      }
      assert Load(ValidateAll(c, w, front).0, last.name) == Load(w, last.name);
    }
  }

  /** A locked, readable model is never rewritten: its file, the history and the proposals stay. */
  lemma LockedModelIsUntouched(c: Config, w: World, info: ModelInfo)
    requires c.locked && Load(w, info.name).Some?
    ensures var after := ValidateModel(c, w, info).0;
            after.disk == w.disk && after.history == w.history && after.pending == w.pending
  {
  }
}
