/** The guard that both systems load one engine file for a model, and the install it makes when a
    named precision asks for another: every model is judged before any file is written. */
module EngineInstall {
  import opened Options

  datatype Model = ShipDetector | ShipSegmenter | PersonEmbedder | ShipEmbedder

  datatype System = Baseline | ShipInfer | Both

  // A file in a model's version directory of the repository, or one anywhere else.
  datatype Path = InRepository(model: Model, name: string) | Elsewhere(name: string)

  type Bytes = seq<int>

  type Files = map<Path, Bytes>

  // What a configuration resolves to: a flat engine and its dynamic-batch twin for each model, the
  // plan's file name where the repository says one, and whether a precision was named.
  datatype Config = Config(flat: Model -> Path, twin: Model -> Path, artefact: Model -> Option<string>, named: bool)

  // The order of the table of pairs.
  const MODELS: seq<Model> := [ShipDetector, ShipSegmenter, PersonEmbedder, ShipEmbedder]

  // The pairs the baseline has a stake in.
  predicate CrossSystem(m: Model) { m.ShipDetector? || m.ShipSegmenter? }

  predicate Concerns(system: System, m: Model) { system.Baseline? ==> CrossSystem(m) }

  datatype Reason = PlanUnknown | NoFlatEngine | NoPlan | DifferentFiles

  datatype Decision = Refuse(reason: Reason) | Skip | Install

  function PlanOf(c: Config, m: Model): Path
    requires c.artefact(m).Some?
  {
    InRepository(m, c.artefact(m).value)
  }

  function StagedOf(c: Config, m: Model): Path
    requires c.artefact(m).Some?
  {
    InRepository(m, c.artefact(m).value + ".installing")
  }

  // The plan holds the flat engine's bytes.
  predicate Same(c: Config, files: Files, m: Model) {
    && c.artefact(m).Some? && c.flat(m) in files && PlanOf(c, m) in files
    && files[c.flat(m)] == files[PlanOf(c, m)]
  }

  // The plan holds the bytes of the flat engine's twin.
  predicate Twinned(c: Config, files: Files, m: Model) {
    && c.artefact(m).Some? && c.twin(m) in files && PlanOf(c, m) in files
    && files[c.twin(m)] == files[PlanOf(c, m)]
  }

  // One model's turn in the loop.
  function Decide(c: Config, system: System, files: Files, m: Model): Decision {
    if !Concerns(system, m) then Skip
    else if c.artefact(m).None? then Refuse(PlanUnknown)
    else if c.flat(m) !in files then if c.named then Refuse(NoFlatEngine) else Skip
    else if PlanOf(c, m) !in files then Refuse(NoPlan)
    else if Same(c, files, m) then Skip
    else if !system.Baseline? && Twinned(c, files, m) then Skip
    else if c.named && !system.Baseline? then Install
    else Refuse(DifferentFiles)
  }

  datatype Judged = Refused(model: Model, reason: Reason) | Cleared(pending: seq<Model>)

  // The loop: the first refusal, or the installs earned.
  function Judge(c: Config, system: System, files: Files, models: seq<Model>): Judged {
    if models == [] then Cleared([])
    else
      var m := models[|models| - 1];
      var before := Judge(c, system, files, models[..|models| - 1]);
      if before.Refused? then before
      else
        match Decide(c, system, files, m)
        case Refuse(reason) => Refused(m, reason)
        case Skip => before
        case Install => Cleared(before.pending + [m])
  }

  // The write of one plan: staged beside it, then renamed over it.
  function WriteOne(c: Config, files: Files, m: Model): Files
    requires c.artefact(m).Some? && c.flat(m) in files
  {
    var staged := files[StagedOf(c, m) := files[c.flat(m)]];
    (staged - {StagedOf(c, m)})[PlanOf(c, m) := staged[StagedOf(c, m)]]
  }

  // ----- judging -----

  ghost predicate NoRepeats(models: seq<Model>) {
    forall i, j :: 0 <= i < j < |models| ==> models[i] != models[j]
  }

  lemma {:induction false} JudgeExactly(c: Config, system: System, files: Files, models: seq<Model>)
    ensures Judge(c, system, files, models).Cleared? <==> forall m <- models :: !Decide(c, system, files, m).Refuse?
    ensures Judge(c, system, files, models).Cleared? ==>
      forall m :: m in Judge(c, system, files, models).pending <==> m in models && Decide(c, system, files, m).Install?
  {
    if models != [] {
      var n := |models| - 1;
      JudgeExactly(c, system, files, models[..n]);
      assert models == models[..n] + [models[n]];
    }
  }

  lemma {:induction false} JudgeOnce(c: Config, system: System, files: Files, models: seq<Model>)
    requires NoRepeats(models) && Judge(c, system, files, models).Cleared?
    ensures NoRepeats(Judge(c, system, files, models).pending)
  {
    hide Decide;
    if models != [] {
      var n := |models| - 1;
      JudgeOnce(c, system, files, models[..n]);
      JudgeExactly(c, system, files, models[..n]);
      assert models[n] !in models[..n];
    }
  }

  // Model `i` is refused, and none before it.
  ghost predicate FirstRefusal(c: Config, system: System, files: Files, models: seq<Model>, i: nat)
    requires i < |models|
  {
    && Decide(c, system, files, models[i]).Refuse?
    && Judge(c, system, files, models) == Refused(models[i], Decide(c, system, files, models[i]).reason)
    && forall j :: 0 <= j < i ==> !Decide(c, system, files, models[j]).Refuse?
  }

  // The first model refused is the one reported, with everything before it clear.
  lemma {:induction false} RefusalIsFirst(c: Config, system: System, files: Files, models: seq<Model>)
    requires Judge(c, system, files, models).Refused?
    ensures exists i :: 0 <= i < |models| && FirstRefusal(c, system, files, models, i)
  {
    var n := |models| - 1;
    if Judge(c, system, files, models[..n]).Refused? {
      RefusalIsFirst(c, system, files, models[..n]);
      var i :| 0 <= i < |models[..n]| && FirstRefusal(c, system, files, models[..n], i);
      assert forall j :: 0 <= j <= i ==> models[j] == models[..n][j];
      assert FirstRefusal(c, system, files, models, i);
    } else {
      JudgeExactly(c, system, files, models[..n]);
      assert forall j :: 0 <= j < n ==> models[j] in models[..n];
      assert FirstRefusal(c, system, files, models, n);
    }
  }

  lemma AllModels(m: Model)
    ensures m in MODELS
  {
    assert MODELS[0] == ShipDetector && MODELS[1] == ShipSegmenter && MODELS[2] == PersonEmbedder && MODELS[3] == ShipEmbedder;
  }

  // ----- writing -----

  predicate Decided(c: Config, pending: seq<Model>) { forall m <- pending :: c.artefact(m).Some? }

  ghost predicate Writable(c: Config, files: Files, pending: seq<Model>) {
    forall m <- pending :: c.artefact(m).Some? && c.flat(m) in files && PlanOf(c, m) in files
  }

  lemma StagedIsNotPlan(c: Config, m: Model, k: Model)
    requires c.artefact(m).Some? && c.artefact(k).Some?
    ensures StagedOf(c, m) != PlanOf(c, k)
  {
    if m == k { assert |c.artefact(m).value + ".installing"| > |c.artefact(m).value|; }
  }

  // One write changes the plan, drops the staging file and touches nothing else.
  lemma WriteOneFrame(c: Config, files: Files, m: Model, p: Path)
    requires c.artefact(m).Some? && c.flat(m) in files
    ensures
      var now := WriteOne(c, files, m);
      && PlanOf(c, m) in now && now[PlanOf(c, m)] == files[c.flat(m)]
      && (p != PlanOf(c, m) && p != StagedOf(c, m) ==> (p in now <==> p in files) && (p in files ==> now[p] == files[p]))
      && StagedOf(c, m) !in now
  {
    StagedIsNotPlan(c, m, m);
  }

  // A path the installs write, whether or not it stays.
  ghost predicate Touched(c: Config, pending: seq<Model>, p: Path)
    requires Decided(c, pending)
  {
    exists m <- pending :: p == PlanOf(c, m) || p == StagedOf(c, m)
  }

  ghost predicate AgreeAt(files: Files, now: Files, p: Path) {
    (p in now <==> p in files) && (p in files ==> now[p] == files[p])
  }

  // The plan holds what the flat engine held, and nothing is left staged.
  ghost predicate PlanWritten(c: Config, files: Files, now: Files, m: Model)
    requires c.artefact(m).Some? && c.flat(m) in files
  {
    PlanOf(c, m) in now && now[PlanOf(c, m)] == files[c.flat(m)] && StagedOf(c, m) !in now
  }

  // The files after the installs: plans in `pending` hold their flat engine, the rest is untouched.
  ghost predicate Installed(c: Config, files: Files, pending: seq<Model>, now: Files)
    requires Writable(c, files, pending)
  {
    && (forall m <- pending :: PlanWritten(c, files, now, m))
    && (forall p: Path :: !Touched(c, pending, p) ==> AgreeAt(files, now, p))
  }

  // The installs leave every flat engine alone.
  ghost predicate FlatsUntouched(c: Config, pending: seq<Model>)
    requires Decided(c, pending)
  {
    forall m :: !Touched(c, pending, c.flat(m))
  }

  lemma PlansStayWritten(c: Config, files: Files, now: Files, m: Model, k: Model)
    requires c.artefact(m).Some? && c.artefact(k).Some? && c.flat(m) in now && c.flat(k) in files
    requires m != k && PlanWritten(c, files, now, k)
    ensures PlanWritten(c, files, WriteOne(c, now, m), k)
  {
    WriteOneFrame(c, now, m, PlanOf(c, k));
    WriteOneFrame(c, now, m, StagedOf(c, k));
  }

  lemma InstalledNext(c: Config, files: Files, pending: seq<Model>, now: Files, m: Model)
    requires Writable(c, files, pending + [m]) && Writable(c, files, pending)
    requires Installed(c, files, pending, now) && c.flat(m) in now && c.flat(m) in files && now[c.flat(m)] == files[c.flat(m)]
    ensures Installed(c, files, pending + [m], WriteOne(c, now, m))
  {
    assert m in pending + [m];
    assert forall k <- pending :: k in pending + [m];
    var after := WriteOne(c, now, m);
    hide WriteOne;
    forall k | k in pending + [m] ensures PlanWritten(c, files, after, k) {
      if k == m {
        WriteOneFrame(c, now, m, PlanOf(c, m));
      } else {
        PlansStayWritten(c, files, now, m, k);
      }
    }
    forall p: Path | !Touched(c, pending + [m], p) ensures AgreeAt(files, after, p) {
      assert !Touched(c, pending, p);
      WriteOneFrame(c, now, m, p);
    }
  }

  datatype Outcome = Ran | Stopped(model: Model, reason: Reason) | FlatVanished

  datatype Call = Call(outcome: Outcome, files: Files)

  // The installs, one after another; a flat engine that is gone by its turn ends them there.
  function WriteAll(c: Config, files: Files, pending: seq<Model>): Call
    requires Decided(c, pending)
  {
    if pending == [] then Call(Ran, files)
    else
      var m := pending[|pending| - 1];
      var before := WriteAll(c, files, pending[..|pending| - 1]);
      if !before.outcome.Ran? then before
      else if c.flat(m) !in before.files then Call(FlatVanished, before.files)
      else Call(Ran, WriteOne(c, before.files, m))
  }

  lemma {:induction false} WriteAllInstalls(c: Config, files: Files, pending: seq<Model>)
    requires Writable(c, files, pending) && FlatsUntouched(c, pending)
    ensures WriteAll(c, files, pending).outcome.Ran? && Installed(c, files, pending, WriteAll(c, files, pending).files)
  {
    if pending != [] {
      hide WriteOne;
      var n := |pending| - 1;
      assert pending == pending[..n] + [pending[n]];
      assert pending[n] in pending;
      assert forall p: Path :: Touched(c, pending[..n], p) ==> Touched(c, pending, p);
      WriteAllInstalls(c, files, pending[..n]);
      assert AgreeAt(files, WriteAll(c, files, pending[..n]).files, c.flat(pending[n]));
      hide Installed;
      InstalledNext(c, files, pending[..n], WriteAll(c, files, pending[..n]).files, pending[n]);
    }
  }

  // ----- a whole call -----

  function RunOn(c: Config, system: System, files: Files): Call {
    match Judge(c, system, files, MODELS)
    case Refused(m, reason) => Call(Stopped(m, reason), files)
    case Cleared(pending) =>
      JudgeAll(c, system, files);
      WriteAll(c, files, pending)
  }

  lemma JudgeAll(c: Config, system: System, files: Files)
    ensures Judge(c, system, files, MODELS).Cleared? <==> forall m :: !Decide(c, system, files, m).Refuse?
    ensures Judge(c, system, files, MODELS).Cleared? ==>
      var pending := Judge(c, system, files, MODELS).pending;
      && (forall m :: m in pending <==> Decide(c, system, files, m).Install?)
      && Writable(c, files, pending) && NoRepeats(pending)
  {
    JudgeExactly(c, system, files, MODELS);
    if Judge(c, system, files, MODELS).Cleared? { JudgeOnce(c, system, files, MODELS); }
    forall m ensures m in MODELS { AllModels(m); }
  }

  /** A refusal leaves every file as it was, and a baseline-only call or one without a named precision
      never writes whatever it answers. */
  lemma RefusalWritesNothing(c: Config, system: System, files: Files)
    ensures RunOn(c, system, files).outcome.Stopped? || system.Baseline? || !c.named ==> RunOn(c, system, files).files == files
    ensures RunOn(c, system, files).outcome.Stopped? <==> exists m :: Decide(c, system, files, m).Refuse?
  {
    var j := Judge(c, system, files, MODELS);
    assert j.Cleared? && j.pending != [] ==> j.pending[0] in j.pending;
    JudgeAll(c, system, files);
    if j.Cleared? { WriteAllNeverStops(c, files, j.pending); }
  }

  lemma {:induction false} WriteAllNeverStops(c: Config, files: Files, pending: seq<Model>)
    requires Decided(c, pending)
    ensures !WriteAll(c, files, pending).outcome.Stopped?
  {
    if pending != [] { WriteAllNeverStops(c, files, pending[..|pending| - 1]); }
  }

  // ----- the guard by the files alone -----

  ghost predicate SameBytes(files: Files, p: Path, q: Path) {
    p in files && q in files && files[p] == files[q]
  }

  // The plan is the flat engine's bytes or, unless only the baseline runs, those of its twin.
  ghost predicate OneEngine(c: Config, system: System, files: Files, m: Model)
    requires c.artefact(m).Some?
  {
    var plan := InRepository(m, c.artefact(m).value);
    SameBytes(files, plan, c.flat(m)) || (system != Baseline && SameBytes(files, plan, c.twin(m)))
  }

  // The models a call checks: the two the baseline loads, and the embedders unless it runs alone.
  ghost predicate Checked(system: System, m: Model) {
    system == Baseline ==> m == ShipDetector || m == ShipSegmenter
  }

  // What stands against the model, if anything: no plan named, no flat engine for the precision named,
  // no plan beside a flat engine, or two engines where this call may not install.
  ghost predicate Faulty(c: Config, system: System, files: Files, m: Model, why: Reason) {
    var known, flat := c.artefact(m).Some?, c.flat(m) in files;
    match why
    case PlanUnknown => !known
    case NoFlatEngine => known && !flat && c.named
    case NoPlan => known && flat && InRepository(m, c.artefact(m).value) !in files
    case DifferentFiles =>
      && known && flat && InRepository(m, c.artefact(m).value) in files
      && (system == Baseline || !c.named) && !OneEngine(c, system, files, m)
  }

  lemma RefusedIffFaulty(c: Config, system: System, files: Files, m: Model, why: Reason)
    ensures Decide(c, system, files, m) == Refuse(why) <==> Checked(system, m) && Faulty(c, system, files, m, why)
  {
  }

  ghost predicate Faultless(c: Config, system: System, files: Files, m: Model) {
    forall why: Reason :: !Faulty(c, system, files, m, why)
  }

  /** A call is stopped exactly when something stands against a model it checks; it names the first
      such model of the table, and what stands against it. */
  lemma StopsAtFirstFault(c: Config, system: System, files: Files)
    ensures
      var outcome := RunOn(c, system, files).outcome;
      && (outcome.Stopped? <==> exists m :: Checked(system, m) && !Faultless(c, system, files, m))
      && (outcome.Stopped? ==>
            exists i ::
              && 0 <= i < |MODELS| && outcome.model == MODELS[i]
              && Checked(system, MODELS[i]) && Faulty(c, system, files, MODELS[i], outcome.reason)
              && forall j :: 0 <= j < i && Checked(system, MODELS[j]) ==> Faultless(c, system, files, MODELS[j]))
  {
    RefusalWritesNothing(c, system, files);
    forall m, why: Reason
      ensures Decide(c, system, files, m) == Refuse(why) <==> Checked(system, m) && Faulty(c, system, files, m, why) {
      RefusedIffFaulty(c, system, files, m, why);
    }
    hide Faulty;
    hide Checked;
    hide Decide;
    if RunOn(c, system, files).outcome.Stopped? {
      var k :| Decide(c, system, files, k).Refuse?;
      assert Faulty(c, system, files, k, Decide(c, system, files, k).reason);
      JudgeAll(c, system, files);
      RefusalIsFirst(c, system, files, MODELS);
      var i :| 0 <= i < |MODELS| && FirstRefusal(c, system, files, MODELS, i);
    } else {
      forall m, why: Reason | Checked(system, m) ensures !Faulty(c, system, files, m, why) {
        assert !Decide(c, system, files, m).Refuse?;
      }
    }
  }

  // Nothing to check against and no precision named, or one engine on both sides.
  ghost predicate Passes(c: Config, system: System, files: Files, m: Model) {
    c.artefact(m).Some? && (if c.flat(m) in files then OneEngine(c, system, files, m) else !c.named)
  }

  /** The comparison's guard: a call that may not install runs exactly when every model it checks has a
      plan of a known name that is one engine with the flat one, or no flat engine and no precision
      named for it; and it leaves every file as it was. */
  lemma RunsIffOneEngine(c: Config, system: System, files: Files)
    requires !c.named || system == Baseline
    ensures RunOn(c, system, files).outcome.Ran? <==> forall m :: Checked(system, m) ==> Passes(c, system, files, m)
    ensures RunOn(c, system, files).files == files
  {
    RefusalWritesNothing(c, system, files);
    StopsAtFirstFault(c, system, files);
    ReadOnlyEnds(c, system, files);
    forall m ensures Faultless(c, system, files, m) <==> Passes(c, system, files, m) { FaultlessPasses(c, system, files, m); }
    hide Faultless;
    hide Passes;
    hide RunOn;
  }

  lemma FaultlessPasses(c: Config, system: System, files: Files, m: Model)
    requires !c.named || system == Baseline
    ensures Faultless(c, system, files, m) <==> Passes(c, system, files, m)
  {
    if !Passes(c, system, files, m) {
      var why :=
        if c.artefact(m).None? then PlanUnknown
        else if c.flat(m) !in files then NoFlatEngine
        else if InRepository(m, c.artefact(m).value) !in files then NoPlan
        else DifferentFiles;
      assert Faulty(c, system, files, m, why);
    }
  }

  lemma ReadOnlyEnds(c: Config, system: System, files: Files)
    requires !c.named || system == Baseline
    ensures !RunOn(c, system, files).outcome.FlatVanished?
  {
    var j := Judge(c, system, files, MODELS);
    assert j.Cleared? && j.pending != [] ==> j.pending[0] in j.pending;
    JudgeAll(c, system, files);
  }

  lemma {:induction false} UntouchedStays(c: Config, files: Files, pending: seq<Model>, p: Path)
    requires Decided(c, pending) && !Touched(c, pending, p)
    ensures AgreeAt(files, WriteAll(c, files, pending).files, p)
  {
    if pending != [] {
      var n := |pending| - 1;
      assert pending[n] in pending;
      assert forall k <- pending[..n] :: k in pending;
      UntouchedStays(c, files, pending[..n], p);
      var before := WriteAll(c, files, pending[..n]);
      if before.outcome.Ran? && c.flat(pending[n]) in before.files { WriteOneFrame(c, before.files, pending[n], p); }
      hide WriteOne;
    }
  }

  /** A plan that is its flat engine already, or the twin, is never installed over, whatever is asked
      and whatever else is written. */
  lemma GoodPlanIsKept(c: Config, system: System, files: Files, m: Model)
    requires c.artefact(m).Some? && c.flat(m) in files && OneEngine(c, ShipInfer, files, m)
    ensures
      var plan, now := InRepository(m, c.artefact(m).value), RunOn(c, system, files).files;
      plan in now && now[plan] == files[plan]
  {
    RefusalWritesNothing(c, system, files);
    JudgeAll(c, system, files);
    var j := Judge(c, system, files, MODELS);
    if j.Cleared? {
      assert !Decide(c, system, files, m).Install?;
      KeptPlanUntouched(c, j.pending, m);
      UntouchedStays(c, files, j.pending, PlanOf(c, m));
    }
  }

  // The model's plan is kept because it is the twin, and only because of that.
  predicate KeptAsTwin(c: Config, system: System, files: Files, m: Model) {
    Decide(c, system, files, m).Skip? && !Same(c, files, m) && Twinned(c, files, m)
  }

  // No flat engine, and no twin that a plan is kept for, lies where this call is to write or stage a
  // plan. A caller can see this before the call.
  ghost predicate Clear(c: Config, system: System, files: Files) {
    forall m, k :: Decide(c, system, files, k).Install? ==>
      && c.flat(m) != PlanOf(c, k) && c.flat(m) != StagedOf(c, k)
      && (KeptAsTwin(c, system, files, m) ==> c.twin(m) != PlanOf(c, k) && c.twin(m) != StagedOf(c, k))
  }

  // The model's plan is its flat engine, or the flat engine's twin where it already was, and the flat
  // engine is as it was.
  ghost predicate Settled(c: Config, files: Files, now: Files, m: Model) {
    && (Same(c, now, m) || (Twinned(c, now, m) && Twinned(c, files, m)))
    && c.flat(m) in files && c.flat(m) in now && now[c.flat(m)] == files[c.flat(m)]
  }

  ghost predicate OnePrecision(c: Config, system: System, files: Files) {
    RunOn(c, system, files).outcome.Ran? && forall m :: Settled(c, files, RunOn(c, system, files).files, m)
  }

  /** A call of ours with a named precision that is not refused leaves every model's plan equal to its
      flat engine, or to the flat engine's twin where it already was, and every flat engine as it was,
      exactly when no flat engine or kept twin lies where it writes. */
  lemma OnePrecisionIffClear(c: Config, system: System, files: Files)
    requires c.named && !system.Baseline? && !RunOn(c, system, files).outcome.Stopped?
    ensures OnePrecision(c, system, files) <==> Clear(c, system, files)
  {
    if Clear(c, system, files) { ClearSettles(c, system, files); }
    if OnePrecision(c, system, files) { SettledIsClear(c, system, files); }
  }

  lemma ClearSettles(c: Config, system: System, files: Files)
    requires c.named && !system.Baseline? && !RunOn(c, system, files).outcome.Stopped? && Clear(c, system, files)
    ensures OnePrecision(c, system, files)
  {
    JudgeAll(c, system, files);
    RefusalWritesNothing(c, system, files);
    var pending := Judge(c, system, files, MODELS).pending;
    assert FlatsUntouched(c, pending);
    WriteAllInstalls(c, files, pending);
    var now := WriteAll(c, files, pending).files;
    hide WriteAll;
    forall m ensures Settled(c, files, now, m) { ClearModel(c, system, files, pending, now, m); }
  }

  // A plan that is not pending is not touched by the installs.
  lemma KeptPlanUntouched(c: Config, pending: seq<Model>, m: Model)
    requires Decided(c, pending) && c.artefact(m).Some? && m !in pending
    ensures !Touched(c, pending, PlanOf(c, m))
  {
    forall k | k in pending ensures PlanOf(c, m) != PlanOf(c, k) && PlanOf(c, m) != StagedOf(c, k) {
      StagedIsNotPlan(c, k, m);
    }
  }

  lemma ClearModel(c: Config, system: System, files: Files, pending: seq<Model>, now: Files, m: Model)
    requires c.named && !system.Baseline? && Clear(c, system, files)
    requires Writable(c, files, pending) && Installed(c, files, pending, now)
    requires forall k :: k in pending <==> Decide(c, system, files, k).Install?
    requires !Decide(c, system, files, m).Refuse?
    ensures Settled(c, files, now, m)
  {
    assert !Touched(c, pending, c.flat(m));
    assert AgreeAt(files, now, c.flat(m));
    if m !in pending {
      KeptPlanUntouched(c, pending, m);
      assert AgreeAt(files, now, PlanOf(c, m));
      if KeptAsTwin(c, system, files, m) {
        assert !Touched(c, pending, c.twin(m));
        assert AgreeAt(files, now, c.twin(m));
      }
    }
  }

  // ----- what the installs leave, whatever overlaps -----

  // A written plan ends as its flat engine was, or as the written plan that is its flat engine.
  ghost predicate Written(c: Config, files: Files, pending: seq<Model>, now: Files)
    requires Writable(c, files, pending)
  {
    && (forall k <- pending :: PlanOf(c, k) in now && StagedOf(c, k) !in now)
    && (forall k <- pending :: now[PlanOf(c, k)] == files[c.flat(k)]
          || exists l <- pending :: c.flat(k) == PlanOf(c, l) && now[PlanOf(c, k)] == now[PlanOf(c, l)])
    && (forall p: Path :: !Touched(c, pending, p) ==> AgreeAt(files, now, p))
  }

  lemma WrittenNext(c: Config, files: Files, pending: seq<Model>, now: Files, m: Model)
    requires Writable(c, files, pending + [m]) && Writable(c, files, pending) && m !in pending
    requires Written(c, files, pending, now) && c.flat(m) in now
    ensures Written(c, files, pending + [m], WriteOne(c, now, m))
  {
    var all, after := pending + [m], WriteOne(c, now, m);
    assert m in all && forall k <- pending :: k in all;
    hide WriteOne;
    forall k | k in pending
      ensures PlanOf(c, k) in after && StagedOf(c, k) !in after && after[PlanOf(c, k)] == now[PlanOf(c, k)] {
      StagedIsNotPlan(c, m, k);
      StagedIsNotPlan(c, k, m);
      WriteOneFrame(c, now, m, PlanOf(c, k));
      WriteOneFrame(c, now, m, StagedOf(c, k));
    }
    WriteOneFrame(c, now, m, PlanOf(c, m));
    assert after[PlanOf(c, m)] == files[c.flat(m)]
           || exists l <- all :: c.flat(m) == PlanOf(c, l) && after[PlanOf(c, m)] == after[PlanOf(c, l)] by {
      if Touched(c, pending, c.flat(m)) {
        var l :| l in pending && (c.flat(m) == PlanOf(c, l) || c.flat(m) == StagedOf(c, l));
        assert c.flat(m) == PlanOf(c, l);
      } else {
        assert AgreeAt(files, now, c.flat(m));
      }
    }
    forall k | k in pending && now[PlanOf(c, k)] != files[c.flat(k)]
      ensures exists l <- all :: c.flat(k) == PlanOf(c, l) && after[PlanOf(c, k)] == after[PlanOf(c, l)] {
      var l :| l in pending && c.flat(k) == PlanOf(c, l) && now[PlanOf(c, k)] == now[PlanOf(c, l)];
    }
    forall p: Path | !Touched(c, all, p) ensures AgreeAt(files, after, p) {
      assert !Touched(c, pending, p);
      WriteOneFrame(c, now, m, p);
    }
  }

  lemma {:induction false} WriteAllWrites(c: Config, files: Files, pending: seq<Model>)
    requires Writable(c, files, pending) && NoRepeats(pending) && WriteAll(c, files, pending).outcome.Ran?
    ensures Written(c, files, pending, WriteAll(c, files, pending).files)
  {
    if pending != [] {
      hide WriteOne;
      hide Written;
      var n := |pending| - 1;
      assert pending == pending[..n] + [pending[n]];
      assert pending[n] in pending && pending[n] !in pending[..n];
      WriteAllWrites(c, files, pending[..n]);
      WrittenNext(c, files, pending[..n], WriteAll(c, files, pending[..n]).files, pending[n]);
    }
  }

  lemma SettledIsClear(c: Config, system: System, files: Files)
    requires c.named && !system.Baseline? && OnePrecision(c, system, files)
    ensures Clear(c, system, files)
  {
    JudgeAll(c, system, files);
    var pending := Judge(c, system, files, MODELS).pending;
    var now := RunOn(c, system, files).files;
    assert forall m :: Settled(c, files, now, m);
    WriteAllWrites(c, files, pending);
    hide *;
    ClearFrom(c, system, files, pending, now);
  }

  lemma ClearFrom(c: Config, system: System, files: Files, pending: seq<Model>, now: Files)
    requires Writable(c, files, pending) && Written(c, files, pending, now)
    requires forall k :: k in pending <==> Decide(c, system, files, k).Install?
    requires forall m :: Settled(c, files, now, m)
    ensures Clear(c, system, files)
  {
    hide Written;
    hide Settled;
    hide Decide;
    forall m, k | k in pending
      ensures c.flat(m) != PlanOf(c, k) && c.flat(m) != StagedOf(c, k)
      ensures KeptAsTwin(c, system, files, m) ==> c.twin(m) != PlanOf(c, k) && c.twin(m) != StagedOf(c, k)
    {
      NotOverwritten(c, system, files, pending, now, m, k);
    }
  }

  // A flat engine, or a twin a plan is kept for, that ends as it was is not where `k`'s plan goes.
  lemma NotOverwritten(c: Config, system: System, files: Files, pending: seq<Model>, now: Files, m: Model, k: Model)
    requires Writable(c, files, pending) && Written(c, files, pending, now)
    requires k in pending && Decide(c, system, files, k).Install? && (m in pending ==> Decide(c, system, files, m).Install?)
    requires Settled(c, files, now, k) && Settled(c, files, now, m)
    ensures c.flat(m) != PlanOf(c, k) && c.flat(m) != StagedOf(c, k)
    ensures KeptAsTwin(c, system, files, m) ==> c.twin(m) != PlanOf(c, k) && c.twin(m) != StagedOf(c, k)
  {
    ChangedPlan(c, files, pending, now, k);
    if KeptAsTwin(c, system, files, m) {
      KeptPlanUntouched(c, pending, m);
      assert AgreeAt(files, now, PlanOf(c, m));
    }
    hide Written;
    hide Touched;
  }

  // With its flat engine as it was, a written plan holds that engine.
  lemma ChangedPlan(c: Config, files: Files, pending: seq<Model>, now: Files, k: Model)
    requires Writable(c, files, pending) && Written(c, files, pending, now) && k in pending && Settled(c, files, now, k)
    ensures PlanOf(c, k) in now && now[PlanOf(c, k)] == files[c.flat(k)] && StagedOf(c, k) !in now
  {
  }

  /** Asked again, the same call finds every plan in place and writes nothing. */
  lemma RerunWritesNothing(c: Config, system: System, files: Files)
    requires RunOn(c, system, files).outcome.Ran? && Clear(c, system, files)
    ensures RunOn(c, system, RunOn(c, system, files).files) == Call(Ran, RunOn(c, system, files).files)
  {
    var now := RunOn(c, system, files).files;
    RefusalWritesNothing(c, system, files);
    if c.named && !system.Baseline? {
      OnePrecisionIffClear(c, system, files);
      forall m ensures Decide(c, system, now, m).Skip? {
        assert Settled(c, files, now, m);
      }
      JudgeAll(c, system, now);
      NothingPending(c, system, now);
    }
  }

  lemma NothingPending(c: Config, system: System, files: Files)
    requires forall m :: Decide(c, system, files, m).Skip?
    ensures RunOn(c, system, files) == Call(Ran, files)
  {
    var j := Judge(c, system, files, MODELS);
    assert j.Cleared? && j.pending != [] ==> j.pending[0] in j.pending;
    JudgeAll(c, system, files);
  }

  /** The pre-flight order, ours and then the baseline's: after our call the baseline's check passes
      exactly when neither of its two plans is only the twin, and it names the first that is. */
  lemma PreflightBaseline(c: Config, system: System, files: Files)
    requires c.named && !system.Baseline? && RunOn(c, system, files).outcome.Ran? && Clear(c, system, files)
    ensures
      var now := RunOn(c, system, files).files;
      var check := RunOn(c, Baseline, now);
      && check.files == now
      && (check.outcome.Ran? <==> Same(c, now, ShipDetector) && Same(c, now, ShipSegmenter))
      && (forall m :: CrossSystem(m) && !Same(c, now, m) ==> Twinned(c, files, m))
      && (!check.outcome.Ran? ==>
            check.outcome == Stopped(if Same(c, now, ShipDetector) then ShipSegmenter else ShipDetector, DifferentFiles))
  {
    var now := RunOn(c, system, files).files;
    OnePrecisionIffClear(c, system, files);
    RefusalWritesNothing(c, Baseline, now);
    JudgeAll(c, Baseline, now);
    forall m ensures Decide(c, Baseline, now, m) == if !CrossSystem(m) || Same(c, now, m) then Skip else Refuse(DifferentFiles)
      ensures !Same(c, now, m) ==> Twinned(c, files, m) {
      assert Settled(c, files, now, m);
    }
    if Same(c, now, ShipDetector) && Same(c, now, ShipSegmenter) {
      NothingPending(c, Baseline, now);
    } else {
      RefusalIsFirst(c, Baseline, now, MODELS);
      assert MODELS[0] == ShipDetector && MODELS[1] == ShipSegmenter;
      var i :| 0 <= i < |MODELS| && FirstRefusal(c, Baseline, now, MODELS, i);
    }
  }

  /** With the detector's flat engine being the segmenter's plan, a successful
      call overwrites it and leaves the detector's plan equal to neither. */
  lemma OverlapBreaksInstall() returns (c: Config, files: Files)
    ensures c.named && RunOn(c, ShipInfer, files).outcome.Ran?
    ensures !Same(c, RunOn(c, ShipInfer, files).files, ShipDetector) && !Twinned(c, RunOn(c, ShipInfer, files).files, ShipDetector)
  {
    var plan := (m: Model) => InRepository(m, "model.plan");
    var seg, emb, other := Elsewhere("seg.engine"), Elsewhere("emb.engine"), Elsewhere("dyn.engine");
    c := Config((m: Model) => if m.ShipDetector? then plan(ShipSegmenter) else if m.ShipSegmenter? then seg else emb,
                (m: Model) => other, (m: Model) => Some("model.plan"), true);
    files := map[plan(ShipDetector) := [1], plan(ShipSegmenter) := [2], plan(PersonEmbedder) := [3],
                 plan(ShipEmbedder) := [3], seg := [4], emb := [3]];
    var d := (m: Model) => Decide(c, ShipInfer, files, m);
    assert d(ShipDetector).Install? && d(ShipSegmenter).Install? && d(PersonEmbedder).Skip? && d(ShipEmbedder).Skip?;
    assert MODELS[..3] == [ShipDetector, ShipSegmenter, PersonEmbedder] && MODELS[3] == ShipEmbedder;
    assert MODELS[..3][..2] == [ShipDetector, ShipSegmenter];
    assert [ShipDetector, ShipSegmenter][..1] == [ShipDetector];
    assert Judge(c, ShipInfer, files, []) == Cleared([]);
    assert Judge(c, ShipInfer, files, [ShipDetector]) == Cleared([] + [ShipDetector]);
    assert Judge(c, ShipInfer, files, [ShipDetector, ShipSegmenter]) == Cleared([] + [ShipDetector] + [ShipSegmenter]);
    assert Judge(c, ShipInfer, files, MODELS[..3]) == Cleared([] + [ShipDetector] + [ShipSegmenter]);
    assert Judge(c, ShipInfer, files, MODELS).pending == [ShipDetector, ShipSegmenter];
    var one := WriteOne(c, files, ShipDetector);
    WriteOneFrame(c, files, ShipDetector, seg);
    WriteOneFrame(c, files, ShipDetector, other);
    assert WriteAll(c, files, [ShipDetector]) == Call(Ran, one);
    var two := WriteOne(c, one, ShipSegmenter);
    WriteOneFrame(c, one, ShipSegmenter, plan(ShipDetector));
    WriteOneFrame(c, one, ShipSegmenter, other);
    assert WriteAll(c, files, [ShipDetector, ShipSegmenter]) == Call(Ran, two);
  }

  // The disk the guard reads and writes.
  class Disk {
    var files: Files

    constructor (files: Files)
      ensures this.files == files
    {
      this.files := files;
    }

    // The first loop: every model judged, up to the first refusal, with nothing written.
    method JudgeModels(c: Config, system: System) returns (j: Judged)
      ensures j == Judge(c, system, files, MODELS)
    {
      hide Decide;
      var pending: seq<Model> := [];
      for i := 0 to |MODELS|
        invariant Judge(c, system, files, MODELS[..i]) == Cleared(pending)
      {
        assert MODELS[..i + 1][..i] == MODELS[..i];
        match Decide(c, system, files, MODELS[i]) {
          case Refuse(reason) =>
            RefusalStands(c, system, files, MODELS, i + 1);
            return Refused(MODELS[i], reason);
          case Skip =>
          case Install => pending := pending + [MODELS[i]];
        }
      }
      assert MODELS[..|MODELS|] == MODELS;
      j := Cleared(pending);
    }

    // The second loop: each earned plan staged beside its place and renamed over it.
    method WriteModels(c: Config, pending: seq<Model>) returns (r: Outcome)
      requires Decided(c, pending)
      modifies this
      ensures Call(r, files) == WriteAll(c, old(files), pending)
    {
      for i := 0 to |pending|
        invariant WriteAll(c, old(files), pending[..i]) == Call(Ran, files)
      {
        assert pending[..i + 1][..i] == pending[..i];
        var m := pending[i];
        if c.flat(m) !in files {
          EndStands(c, old(files), pending, i + 1);
          return FlatVanished;
        }
        files := files[StagedOf(c, m) := files[c.flat(m)]];
        files := (files - {StagedOf(c, m)})[PlanOf(c, m) := files[StagedOf(c, m)]];
      }
      assert pending[..|pending|] == pending;
      return Ran;
    }

    method RequireSameEngines(c: Config, system: System) returns (r: Outcome)
      modifies this
      ensures Call(r, files) == RunOn(c, system, old(files))
      ensures r.Stopped? ==> files == old(files)
    {
      var j := JudgeModels(c, system);
      JudgeAll(c, system, files);
      hide Judge;
      hide WriteAll;
      match j {
        case Refused(m, reason) => return Stopped(m, reason);
        case Cleared(pending) =>
          WriteAllNeverStops(c, files, pending);
          r := WriteModels(c, pending);
      }
    }
  }

  lemma {:induction false} RefusalStands(c: Config, system: System, files: Files, models: seq<Model>, n: nat)
    requires n <= |models| && Judge(c, system, files, models[..n]).Refused?
    ensures Judge(c, system, files, models) == Judge(c, system, files, models[..n])
    decreases |models|
  {
    if n < |models| {
      assert models[..|models| - 1][..n] == models[..n];
      RefusalStands(c, system, files, models[..|models| - 1], n);
    } else {
      assert models[..n] == models;
    }
  }

  lemma {:induction false} EndStands(c: Config, files: Files, pending: seq<Model>, n: nat)
    requires n <= |pending| && Decided(c, pending) && !WriteAll(c, files, pending[..n]).outcome.Ran?
    ensures WriteAll(c, files, pending) == WriteAll(c, files, pending[..n])
    decreases |pending|
  {
    if n < |pending| {
      assert pending[..|pending| - 1][..n] == pending[..n];
      EndStands(c, files, pending[..|pending| - 1], n);
    } else {
      assert pending[..n] == pending;
    }
  }
}
