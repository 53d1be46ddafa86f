/**
  What startup validation does to a model, told from the two specifications and the policy: which
  differences are breaking, how the policy treats them, and what each treatment leaves behind.
 */
module ValidationLaws {
  import opened Wrappers
  import opened ModelSpecs
  import opened Validation

  // ---------------------------------------------------------------- what a comparison reports

  predicate IsNewField(stored: ModelSpec, current: ModelSpec, f: string) {
    f in current.fields && f !in stored.fields
  }

  predicate IsKept(stored: ModelSpec, current: ModelSpec, f: string) {
    f in current.fields && f in stored.fields
  }

  predicate HasIndex(spec: ModelSpec, name: string) {
    exists i :: i in spec.indexes && i.name == name
  }

  predicate HasKey(spec: ModelSpec, field: string) {
    exists k :: k in spec.foreignKeys && k.field == field
  }

  /** A new field that would break the stored data: primary or unique, and without a default. */
  predicate AddsConstrained(stored: ModelSpec, current: ModelSpec, f: string) {
    && IsNewField(stored, current, f) && current.fields[f].defaultValue.None?
    && (current.fields[f].primaryKey || current.fields[f].unique)
  }

  /** A new field that every record must have, and for which there is no default. */
  predicate AddsMandatory(stored: ModelSpec, current: ModelSpec, f: string) {
    && IsNewField(stored, current, f) && current.fields[f].defaultValue.None?
    && !current.fields[f].primaryKey && !current.fields[f].unique && !current.fields[f].nullable
  }

  predicate Removes(stored: ModelSpec, current: ModelSpec, f: string) {
    f in stored.fields && f !in current.fields
  }

  predicate Retypes(stored: ModelSpec, current: ModelSpec, f: string) {
    IsKept(stored, current, f) && stored.fields[f].fieldType != current.fields[f].fieldType
  }

  predicate Unindexes(stored: ModelSpec, current: ModelSpec, f: string) {
    IsKept(stored, current, f) && stored.fields[f].indexed && !current.fields[f].indexed
  }

  predicate DropsIndex(stored: ModelSpec, current: ModelSpec, name: string) {
    HasIndex(stored, name) && !HasIndex(current, name)
  }

  predicate AddsKey(stored: ModelSpec, current: ModelSpec, field: string) {
    HasKey(current, field) && !HasKey(stored, field)
  }

  /** The change of this kind about x is breaking. */
  predicate BreaksAt(stored: ModelSpec, current: ModelSpec, x: string) {
    || Removes(stored, current, x) || Retypes(stored, current, x) || Unindexes(stored, current, x)
    || DropsIndex(stored, current, x) || AddsKey(stored, current, x) || AddsConstrained(stored, current, x)
  }

  ghost predicate IsBreaking(stored: ModelSpec, current: ModelSpec) {
    exists x :: BreaksAt(stored, current, x)
  }

  ghost predicate IsVersioned(stored: ModelSpec, current: ModelSpec) {
    exists f :: AddsMandatory(stored, current, f)
  }

  /** What a change reported about x says, kind by kind. */
  predicate Reports(stored: ModelSpec, current: ModelSpec, c: Change) {
    var x := c.subject;
    match c.changeType
    case FieldAdded =>
      && IsNewField(stored, current, x)
      && (c.strategy == Breaking <==> AddsConstrained(stored, current, x))
      && (c.strategy == Versioned <==> AddsMandatory(stored, current, x))
      && c.requiresConsensus == (c.strategy != Additive)
    case FieldRemoved => Removes(stored, current, x) && c.strategy == Breaking && c.requiresConsensus
    case FieldTypeModified => Retypes(stored, current, x) && c.strategy == Breaking && c.requiresConsensus
    case RetentionModified =>
      && IsKept(stored, current, x) && stored.fields[x].retention != current.fields[x].retention
      && c.strategy == Additive && !c.requiresConsensus
    case PermissionsModified =>
      && IsKept(stored, current, x) && stored.fields[x].permissions != current.fields[x].permissions
      && c.strategy == Additive && !c.requiresConsensus
    case IndexAdded =>
      && (|| (IsKept(stored, current, x) && !stored.fields[x].indexed && current.fields[x].indexed)
          || (HasIndex(current, x) && !HasIndex(stored, x)))
      && c.strategy == Additive && !c.requiresConsensus
    case IndexRemoved =>
      && (Unindexes(stored, current, x) || DropsIndex(stored, current, x))
      && c.strategy == Breaking && c.requiresConsensus
    case ForeignKeyAdded => AddsKey(stored, current, x) && c.strategy == Breaking && c.requiresConsensus
  }

  lemma NamesAndKeys(spec: ModelSpec, x: string)
    ensures x in IndexNames(spec) <==> HasIndex(spec, x)
    ensures x in KeyFields(spec) <==> HasKey(spec, x)
  {
  }

  /** The changes of a kept field, kind by kind. */
  lemma KeptFieldReports(name: string, before: Constraints, after: Constraints, c: Change)
    ensures c in FieldChanges(name, before, after) <==>
            || (c == Change(FieldTypeModified, name, Breaking, true) && before.fieldType != after.fieldType)
            || (c == Change(RetentionModified, name, Additive, false) && before.retention != after.retention)
            || (c == Change(PermissionsModified, name, Additive, false) && before.permissions != after.permissions)
            || (c == Change(IndexAdded, name, Additive, false) && !before.indexed && after.indexed)
            || (c == Change(IndexRemoved, name, Breaking, true) && before.indexed && !after.indexed)
  {
  }

  predicate OfNewField(stored: ModelSpec, current: ModelSpec, c: Change) {
    && IsNewField(stored, current, c.subject) && c.changeType == FieldAdded
    && c.strategy == StrategyForAdd(current.fields[c.subject])
    && c.requiresConsensus == ConsensusForAdd(current.fields[c.subject])
  }

  predicate OfKeptField(stored: ModelSpec, current: ModelSpec, c: Change) {
    && IsKept(stored, current, c.subject)
    && c in FieldChanges(c.subject, stored.fields[c.subject], current.fields[c.subject])
  }

  predicate OfNames(stored: ModelSpec, current: ModelSpec, c: Change) {
    || (c == Change(FieldRemoved, c.subject, Breaking, true) && Removes(stored, current, c.subject))
    || (c == Change(IndexAdded, c.subject, Additive, false) && DropsIndex(current, stored, c.subject))
    || (c == Change(IndexRemoved, c.subject, Breaking, true) && DropsIndex(stored, current, c.subject))
    || (c == Change(ForeignKeyAdded, c.subject, Breaking, true) && AddsKey(stored, current, c.subject))
  }

  predicate Found(stored: ModelSpec, current: ModelSpec, c: Change) {
    OfNewField(stored, current, c) || OfKeptField(stored, current, c) || OfNames(stored, current, c)
  }

  lemma DetectedBySource(stored: ModelSpec, current: ModelSpec, c: Change)
    ensures c in DetectChanges(stored, current) <==> Found(stored, current, c)
  {
    NamesAndKeys(stored, c.subject);
    NamesAndKeys(current, c.subject);
    if IsKept(stored, current, c.subject) {
      KeptFieldReports(c.subject, stored.fields[c.subject], current.fields[c.subject], c);
    }
    forall f | IsKept(stored, current, f)
      ensures c in FieldChanges(f, stored.fields[f], current.fields[f]) ==> f == c.subject
    {
      KeptFieldReports(f, stored.fields[f], current.fields[f], c);
    }
  }

  lemma FoundIsReported(stored: ModelSpec, current: ModelSpec, c: Change)
    ensures Found(stored, current, c) <==> Reports(stored, current, c)
  {
    if IsKept(stored, current, c.subject) {
      KeptFieldReports(c.subject, stored.fields[c.subject], current.fields[c.subject], c);
    }
  }

  /** A change is reported exactly when the specifications differ in that way, with that class. */
  lemma ReportedIff(stored: ModelSpec, current: ModelSpec, c: Change)
    ensures c in DetectChanges(stored, current) <==> Reports(stored, current, c)
  {
    DetectedBySource(stored, current, c);
    FoundIsReported(stored, current, c);
  }

  /** The comparison reports a breaking change exactly when one of the breaking differences is there. */
  lemma BreakingIff(stored: ModelSpec, current: ModelSpec)
    ensures (exists c :: c in DetectChanges(stored, current) && c.strategy == Breaking) <==> IsBreaking(stored, current)
    ensures (exists c :: c in DetectChanges(stored, current) && c.strategy == Versioned) <==> IsVersioned(stored, current)
    ensures NeedsConsensus(DetectChanges(stored, current)) <==>
            IsBreaking(stored, current) || IsVersioned(stored, current)
  {
    forall c | c in DetectChanges(stored, current)
      ensures c.strategy == Breaking ==> BreaksAt(stored, current, c.subject)
      ensures c.strategy == Versioned ==> AddsMandatory(stored, current, c.subject)
      ensures c.requiresConsensus <==> c.strategy != Additive
    {
      ReportedIff(stored, current, c);
    }
    if x :| BreaksAt(stored, current, x) {
      var c := BreakingChange(stored, current, x);
    }
    if f :| AddsMandatory(stored, current, f) {
      ReportedIff(stored, current, Change(FieldAdded, f, Versioned, true));
    }
  }

  lemma BreakingChange(stored: ModelSpec, current: ModelSpec, x: string) returns (c: Change)
    requires BreaksAt(stored, current, x)
    ensures c in DetectChanges(stored, current) && c.strategy == Breaking
  {
    var kind := if Removes(stored, current, x) then FieldRemoved
                else if Retypes(stored, current, x) then FieldTypeModified
                else if Unindexes(stored, current, x) || DropsIndex(stored, current, x) then IndexRemoved
                else if AddsKey(stored, current, x) then ForeignKeyAdded
                else FieldAdded;
    c := Change(kind, x, Breaking, true);
    ReportedIff(stored, current, c);
  }

  // ---------------------------------------------------------------- one model

  /** The strategy the policy has for the worst difference. */
  ghost function Treatment(policy: VotePolicy, stored: ModelSpec, current: ModelSpec): VoteStrategy {
    if IsBreaking(stored, current) then policy.breaking
    else if IsVersioned(stored, current) then policy.versioned
    else policy.additive
  }

  lemma PolicyTreats(policy: VotePolicy, stored: ModelSpec, current: ModelSpec)
    ensures StrategyFor(policy, OverallStrategy(DetectChanges(stored, current))) == Treatment(policy, stored, current)
  {
    BreakingIff(stored, current);
  }

  /** The model has a stored specification that can be read, and it differs from the current one. */
  predicate Changed(w: World, info: ModelInfo, stored: ModelSpec) {
    && info.extractor.Some?
    && info.name in w.disk && w.disk[info.name] == Readable(stored)
    && DetectChanges(stored, info.extractor.value) != {}
  }

  /** The current specification has been written to its file, if writing works. */
  predicate Written(c: Config, spec: ModelSpec, before: map<string, File>, after: map<string, File>) {
    after == if spec.modelName in c.saveFails then before else before[spec.modelName := Readable(spec)]
  }

  /**
    In a cluster the worst difference decides: auto-acceptance installs and writes the current
    specification and adds one history entry; rejection leaves everything as it is; anything else adds
    one proposal and leaves the rest as it is. The model counts as breaking unless all its changes are
    additive and not rejected.
   */
  lemma ClusterTreatment(c: Config, w: World, info: ModelInfo, stored: ModelSpec)
    requires c.isCluster && !c.locked && Changed(w, info, stored)
    ensures var current := info.extractor.value;
            var (after, breaking) := ValidateModel(c, w, info);
            var strategy := Treatment(c.policy, stored, current);
            var changes := DetectChanges(stored, current);
            && (breaking <==> IsBreaking(stored, current) || IsVersioned(stored, current) || strategy.Reject?)
            && (strategy.AutoAccept? ==>
                  && after.schemas == w.schemas[info.name := current]
                  && after.history == w.history + [Applied(info.name, changes)]
                  && Written(c, current, w.disk, after.disk)
                  && after.pending == w.pending)
            && (strategy.Reject? ==> after == w)
            && (strategy.Consensus? || strategy.ManualApproval? ==>
                  && after.schemas == w.schemas && after.history == w.history && after.disk == w.disk
                  && after.pending == w.pending + [Proposal(info.name, changes, current, stored)])
  {
    PolicyTreats(c.policy, stored, info.extractor.value);
    BreakingIff(stored, info.extractor.value);
  }

  /**
    Outside a cluster the mode decides: auto writes the file and, only if that works, adds the history
    entry; manual adds one proposal; strict and warn leave everything as it is.
   */
  lemma StandaloneModes(c: Config, w: World, info: ModelInfo, stored: ModelSpec)
    requires !c.isCluster && !c.locked && Changed(w, info, stored)
    ensures var current := info.extractor.value;
            var (after, breaking) := ValidateModel(c, w, info);
            var changes := DetectChanges(stored, current);
            && (breaking <==> IsBreaking(stored, current) || IsVersioned(stored, current))
            && after.schemas == w.schemas
            && (c.mode == Auto ==>
                  && Written(c, current, w.disk, after.disk)
                  && after.history ==
                     w.history + (if current.modelName in c.saveFails then [] else [Applied(info.name, changes)])
                  && after.pending == w.pending)
            && (c.mode == Manual ==>
                  && after.disk == w.disk && after.history == w.history
                  && after.pending == w.pending + [Proposal(info.name, changes, current, stored)])
            && (c.mode == Strict || c.mode == Warn ==> after == w)
  {
    BreakingIff(stored, info.extractor.value);
  }

  /** Under the lock a changed model is left alone and counts as breaking, whatever its changes are. */
  lemma LockedChangeIsBlocked(c: Config, w: World, info: ModelInfo, stored: ModelSpec)
    requires c.locked && Changed(w, info, stored)
    ensures ValidateModel(c, w, info) == (w, true)
  {
  }

  /**
    A model without a stored specification, or with one that cannot be read, is written to disk even
    under the lock; one that has not changed is left alone; a cluster takes either into its schemas.
   */
  lemma UnchangedIsTaken(c: Config, w: World, info: ModelInfo)
    requires info.extractor.Some? && forall stored :: !Changed(w, info, stored)
    ensures var current := info.extractor.value;
            var (after, breaking) := ValidateModel(c, w, info);
            && !breaking && after.history == w.history && after.pending == w.pending
            && after.schemas == (if c.isCluster then w.schemas[info.name := current] else w.schemas)
            && (if info.name in w.disk && w.disk[info.name].Readable? then after.disk == w.disk
                else Written(c, current, w.disk, after.disk))
  {
    if info.name in w.disk && w.disk[info.name].Readable? {
      assert !Changed(w, info, w.disk[info.name].spec);
    }
  }

  // ---------------------------------------------------------------- the whole startup

  ghost predicate SchemaSame(v: World, w: World, name: string) {
    (name in v.schemas <==> name in w.schemas) && (name in w.schemas ==> v.schemas[name] == w.schemas[name])
  }

  /** The two worlds have the same file and the same schema of this name. */
  ghost predicate SameAt(v: World, w: World, name: string) {
    && (name in v.disk <==> name in w.disk) && (name in w.disk ==> v.disk[name] == w.disk[name])
    && SchemaSame(v, w, name)
  }

  /** What is written, if anything is, is the current specification. */
  lemma WritesOrNot(c: Config, w: World, info: ModelInfo)
    requires info.extractor.Some?
    ensures var after, current := ValidateModel(c, w, info).0, info.extractor.value;
            && (after.disk == w.disk || after.disk == w.disk[current.modelName := Readable(current)])
            && (after.schemas == w.schemas || after.schemas == w.schemas[info.name := current])
  {
    if stored :| Changed(w, info, stored) {
      ChangedWritesOrNot(c, w, info, stored);
    } else {
      UnchangedIsTaken(c, w, info);
    }
  }

  lemma ChangedWritesOrNot(c: Config, w: World, info: ModelInfo, stored: ModelSpec)
    requires Changed(w, info, stored)
    ensures var after, current := ValidateModel(c, w, info).0, info.extractor.value;
            && (after.disk == w.disk || after.disk == w.disk[current.modelName := Readable(current)])
            && (after.schemas == w.schemas || after.schemas == w.schemas[info.name := current])
  {
    if c.locked {
      LockedChangeIsBlocked(c, w, info, stored);
    } else if c.isCluster {
      ClusterTreatment(c, w, info, stored);
    } else {
      StandaloneModes(c, w, info, stored);
    }
  }

  /** Only the model's own file and schema can change. */
  lemma OnlyOwn(c: Config, w: World, info: ModelInfo, name: string)
    requires info.extractor.Some? ==> info.extractor.value.modelName == info.name
    requires name != info.name
    ensures SameAt(ValidateModel(c, w, info).0, w, name)
  {
    if info.extractor.Some? {
      WritesOrNot(c, w, info);
    }
  }

  lemma {:induction false} OnlyOwnOfAll(c: Config, w: World, infos: seq<ModelInfo>, name: string)
    requires WellRegistered(infos) && forall info :: info in infos ==> info.name != name
    ensures SameAt(ValidateAll(c, w, infos).0, w, name)
  {
    if infos != [] {
      var front, last := infos[..|infos| - 1], infos[|infos| - 1];
      assert infos == front + [last];
      OnlyOwnOfAll(c, w, front, name);
      OnlyOwn(c, ValidateAll(c, w, front).0, last, name);
    }
  }

  /** The model makes a strict startup fail: a change that is locked, not additive, or rejected by policy. */
  ghost predicate Blocks(c: Config, w: World, info: ModelInfo, stored: ModelSpec) {
    && Changed(w, info, stored)
    && var current := info.extractor.value;
       || c.locked || IsBreaking(stored, current) || IsVersioned(stored, current)
       || (c.isCluster && Treatment(c.policy, stored, current).Reject?)
  }

  ghost predicate SomeBlocks(c: Config, w: World, infos: seq<ModelInfo>) {
    exists info, stored :: info in infos && Blocks(c, w, info, stored)
  }

  lemma BlocksIff(c: Config, w: World, info: ModelInfo)
    ensures ValidateModel(c, w, info).1 <==> exists stored :: Blocks(c, w, info, stored)
  {
    if stored :| Changed(w, info, stored) {
      if c.locked {
        LockedChangeIsBlocked(c, w, info, stored);
      } else if c.isCluster {
        ClusterTreatment(c, w, info, stored);
      } else {
        StandaloneModes(c, w, info, stored);
      }
      assert Blocks(c, w, info, stored) <==> ValidateModel(c, w, info).1;
    } else if info.extractor.Some? {
      UnchangedIsTaken(c, w, info);
    }
  }

  lemma BlocksLater(c: Config, w: World, v: World, info: ModelInfo)
    requires SameAt(v, w, info.name)
    ensures (exists stored :: Blocks(c, v, info, stored)) <==> exists stored :: Blocks(c, w, info, stored)
  {
    forall stored
      ensures Blocks(c, v, info, stored) <==> Blocks(c, w, info, stored)
    {
    }
  }

  lemma LastIsNew(infos: seq<ModelInfo>)
    requires infos != [] && WellRegistered(infos)
    ensures WellRegistered(infos[..|infos| - 1])
    ensures forall info :: info in infos[..|infos| - 1] ==> info.name != infos[|infos| - 1].name
  {
  }

  /**
    A startup fails exactly in strict mode with a model that blocks it, where every model is compared
    with its file as it was before the startup.
   */
  lemma {:induction false} StartupFailsIff(c: Config, w: World, infos: seq<ModelInfo>)
    requires WellRegistered(infos)
    ensures ValidateAll(c, w, infos).1 <==> SomeBlocks(c, w, infos)
  {
    if infos != [] {
      var front, last := infos[..|infos| - 1], infos[|infos| - 1];
      assert infos == front + [last];
      LastIsNew(infos);
      StartupFailsIff(c, w, front);
      OnlyOwnOfAll(c, w, front, last.name);
      BlocksIff(c, ValidateAll(c, w, front).0, last);
      BlocksLater(c, w, ValidateAll(c, w, front).0, last);
    }
  }

  /** The proposal a cluster makes of the model, if its treatment is neither acceptance nor rejection. */
  ghost predicate Proposes(c: Config, w: World, info: ModelInfo, p: Proposal) {
    && !c.locked && Changed(w, info, p.oldSpec)
    && var current := info.extractor.value;
       && !Treatment(c.policy, p.oldSpec, current).AutoAccept? && !Treatment(c.policy, p.oldSpec, current).Reject?
       && p == Proposal(info.name, DetectChanges(p.oldSpec, current), current, p.oldSpec)
  }

  ghost predicate SomeProposes(c: Config, w: World, infos: seq<ModelInfo>, p: Proposal) {
    exists info :: info in infos && Proposes(c, w, info, p)
  }

  /** A cluster takes the current specification over: it is new, has not changed, or is auto-accepted. */
  ghost predicate TakesOver(c: Config, w: World, info: ModelInfo) {
    && info.extractor.Some?
    && forall stored :: Changed(w, info, stored) ==>
         !c.locked && Treatment(c.policy, stored, info.extractor.value).AutoAccept?
  }

  /** The schema of the model afterwards. */
  ghost predicate SchemaIs(c: Config, w: World, after: World, info: ModelInfo) {
    if TakesOver(c, w, info)
    then info.name in after.schemas && after.schemas[info.name] == info.extractor.value
    else SchemaSame(after, w, info.name)
  }

  lemma OneModelInCluster(c: Config, w: World, info: ModelInfo, p: Proposal)
    requires c.isCluster
    ensures var after := ValidateModel(c, w, info).0;
            && SchemaIs(c, w, after, info)
            && (p in after.pending <==> p in w.pending || Proposes(c, w, info, p))
  {
    if stored :| Changed(w, info, stored) {
      if c.locked {
        LockedChangeIsBlocked(c, w, info, stored);
      } else {
        ClusterTreatment(c, w, info, stored);
      }
    } else if info.extractor.Some? {
      UnchangedIsTaken(c, w, info);
    }
  }

  lemma ComparedLater(c: Config, w: World, v: World, info: ModelInfo, p: Proposal)
    requires SameAt(v, w, info.name)
    ensures Proposes(c, v, info, p) <==> Proposes(c, w, info, p)
    ensures TakesOver(c, v, info) <==> TakesOver(c, w, info)
  {
    forall stored
      ensures Changed(v, info, stored) <==> Changed(w, info, stored)
    {
    }
  }

  /**
    Over a whole startup of a cluster: what is pending afterwards is what was pending and one proposal
    for each model that its treatment neither accepts nor rejects; and the schema of a model is its
    current specification if the cluster takes it over, and otherwise what it was. Every model is
    compared with its file as it was before the startup.
   */
  lemma {:induction false} ClusterStartup(c: Config, w: World, infos: seq<ModelInfo>, p: Proposal)
    requires c.isCluster && WellRegistered(infos)
    ensures var after := ValidateAll(c, w, infos).0;
            && (forall info :: info in infos ==> SchemaIs(c, w, after, info))
            && (p in after.pending <==> p in w.pending || SomeProposes(c, w, infos, p))
  {
    if infos != [] {
      var front, last := infos[..|infos| - 1], infos[|infos| - 1];
      assert infos == front + [last];
      var v := ValidateAll(c, w, front).0;
      LastIsNew(infos);
      ClusterStartup(c, w, front, p);
      OnlyOwnOfAll(c, w, front, last.name);
      OneModelInCluster(c, v, last, p);
      ComparedLater(c, w, v, last, p);
      forall info | info in front
        ensures SchemaIs(c, w, ValidateAll(c, w, infos).0, info)
      {
        OnlyOwn(c, v, last, info.name);
      }
    }
  }
}
