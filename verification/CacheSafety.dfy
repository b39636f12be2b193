/** Pin safety, pin conservation and the space bound of the artifact cache, over whole runs. */
module CacheSafety {
  import opened Wrappers
  import opened Eviction
  import opened Transfers
  import opened CacheProtocol
  import opened CacheInvariants

  // ---- one step, seen from the commands that did not move ----

  /** The file at x did not change, time stamps aside. */
  predicate SameAt(before: Store, after: Store, x: Digest) {
    && (x in before <==> x in after)
    && (x in before ==> after[x].content == before[x].content)
  }

  /** The file at x did not change, unless it went. */
  predicate GoneOrSame(before: Store, after: Store, x: Digest) {
    x in after ==> x in before && after[x].content == before[x].content
  }

  lemma {:induction false} CommandKept(cfg: Config, ds: set<Descriptor>, before: Store, after: Store, c: Command)
    requires CommandOk(cfg, ds, before, c)
    requires forall p :: p in c.pinned ==> SameAt(before, after, p.digest) || Good(cfg, after, p)
    requires InCritical(c) ==> GoneOrSame(before, after, c.phase.desc.digest)
    requires InCritical(c) && c.pin ==> SameAt(before, after, c.phase.desc.digest)
    ensures CommandOk(cfg, ds, after, c)
  {
  }

  /** An eviction sweep touches no file that any command relies on. */
  lemma {:induction false} EvictionKeeps(cfg: Config, ds: set<Descriptor>, s: State, j: nat, retaining: Digest, required: nat)
    requires PinsExact(s) && CommandsOk(cfg, ds, s) && j < |s.commands|
    ensures CommandOk(cfg, ds, MakeSpace(s.files, s.pins, retaining, required, cfg.maximum).files, s.commands[j])
  {
    var c := s.commands[j];
    MakeSpaceKeeps(s.files, s.pins, retaining, required, cfg.maximum);
    forall p | p in c.pinned ensures Kept(s.pins, retaining, p.digest) {
      CountMember(c.pinned, p);
      HeldPins(s, j, p.digest);
    }
    if InCritical(c) && c.pin {
      HeldPins(s, j, c.phase.desc.digest);
    }
    CommandKept(cfg, ds, s.files, MakeSpace(s.files, s.pins, retaining, required, cfg.maximum).files, c);
  }

  /** A file found not to match the descriptor is pinned by nobody. */
  lemma {:induction false} MismatchIsUnpinned(cfg: Config, ds: set<Descriptor>, s: State, i: nat, j: nat, p: Descriptor)
    requires CommandsOk(cfg, ds, s) && Agree(cfg, ds)
    requires i < |s.commands| && j < |s.commands| && InCritical(s.commands[i]) && s.commands[i].phase.stage.Checked?
    requires var Fetching(desc, stage) := s.commands[i].phase; stage.size != desc.size || stage.digest != desc.digest
    requires p in s.commands[j].pinned
    ensures p.digest != s.commands[i].phase.desc.digest
  {
    var desc := s.commands[i].phase.desc;
    assert CommandOk(cfg, ds, s.files, s.commands[i]) && CommandOk(cfg, ds, s.files, s.commands[j]);
    assert Good(cfg, s.files, p);
    assert Matches(cfg, s.files[p.digest].content, p);
    assert Realizable(cfg, p);
  }

  /** A verified download is good for every pin on its digest. */
  lemma {:induction false} LandingIsGood(cfg: Config, ds: set<Descriptor>, s: State, i: nat, j: nat, p: Descriptor, f: File)
    requires CommandsOk(cfg, ds, s) && Agree(cfg, ds)
    requires i < |s.commands| && j < |s.commands| && InCritical(s.commands[i])
    requires Matches(cfg, f.content, s.commands[i].phase.desc)
    requires p in s.commands[j].pinned && p.digest == s.commands[i].phase.desc.digest
    ensures Matches(cfg, f.content, p)
  {
    assert CommandOk(cfg, ds, s.files, s.commands[i]) && CommandOk(cfg, ds, s.files, s.commands[j]);
    assert Matches(cfg, s.files[p.digest].content, p);
    assert Realizable(cfg, p);
  }

  // ---- one step, seen from all commands ----

  /** Only command i moved, and every command is in order after the step. */
  lemma {:induction false} CommandsAfter(cfg: Config, ds: set<Descriptor>, s: State, t: State, i: nat)
    requires i < |s.commands| == |t.commands| && t.commands == s.commands[i := t.commands[i]]
    requires CommandOk(cfg, ds, t.files, t.commands[i])
    requires forall j :: 0 <= j < |s.commands| && j != i ==> CommandOk(cfg, ds, t.files, s.commands[j])
    ensures CommandsOk(cfg, ds, t)
  {
  }

  lemma {:induction false} SpaceStepFiles(cfg: Config, ds: set<Descriptor>, s: State, l: Label, t: State)
    requires PinsExact(s) && CommandsOk(cfg, ds, s) && !l.Begin? && l.i < |s.commands|
    requires s.commands[l.i].phase.Fetching? && s.commands[l.i].phase.stage in {Reusing, Reserving}
    requires var c := s.commands[l.i]; FetchStep(cfg, s, l, c, c.phase.desc, c.phase.stage) == Ok(t)
    ensures CommandsOk(cfg, ds, t)
  {
    var c := s.commands[l.i];
    var d := c.phase.desc.digest;
    var required := if c.phase.stage == Reusing then 0 else c.phase.desc.size;
    SpaceStepMoves(cfg, s, l, t);
    forall j | 0 <= j < |s.commands| ensures CommandOk(cfg, ds, t.files, s.commands[j]) {
      EvictionKeeps(cfg, ds, s, j, d, required);
    }
    SpaceStepCommand(cfg, ds, s, l, t);
    CommandsAfter(cfg, ds, s, t, l.i);
  }

  lemma {:induction false} SpaceStepMoves(cfg: Config, s: State, l: Label, t: State)
    requires !l.Begin? && l.i < |s.commands|
    requires s.commands[l.i].phase.Fetching? && s.commands[l.i].phase.stage in {Reusing, Reserving}
    requires var c := s.commands[l.i]; FetchStep(cfg, s, l, c, c.phase.desc, c.phase.stage) == Ok(t)
    ensures |t.commands| == |s.commands| && t.commands == s.commands[l.i := t.commands[l.i]]
    ensures var c := s.commands[l.i];
      t.files == MakeSpace(s.files, s.pins, c.phase.desc.digest,
                           if c.phase.stage == Reusing then 0 else c.phase.desc.size, cfg.maximum).files
  {
    SpaceStepShape(cfg, s, l, t);
    if l.Reuse? {
      ReuseFiles(cfg, s, l, t);
    } else {
      ReserveFiles(cfg, s, l, t);
    }
  }

  lemma {:induction false} ReuseFiles(cfg: Config, s: State, l: Label, t: State)
    requires l.Reuse? && l.i < |s.commands| && s.commands[l.i].phase.Fetching?
    requires var c := s.commands[l.i]; FetchStep(cfg, s, l, c, c.phase.desc, c.phase.stage) == Ok(t)
    ensures s.commands[l.i].phase.stage == Reusing
    ensures t.files == MakeSpace(s.files, s.pins, s.commands[l.i].phase.desc.digest, 0, cfg.maximum).files
  {
  }

  lemma {:induction false} ReserveFiles(cfg: Config, s: State, l: Label, t: State)
    requires l.Reserve? && l.i < |s.commands| && s.commands[l.i].phase.Fetching?
    requires var c := s.commands[l.i]; FetchStep(cfg, s, l, c, c.phase.desc, c.phase.stage) == Ok(t)
    ensures s.commands[l.i].phase.stage == Reserving
    ensures var desc := s.commands[l.i].phase.desc;
      t.files == MakeSpace(s.files, s.pins, desc.digest, desc.size, cfg.maximum).files
  {
  }

  /** The command that made space is in order if it was in order on the files left. */
  lemma {:induction false} SpaceStepCommand(cfg: Config, ds: set<Descriptor>, s: State, l: Label, t: State)
    requires !l.Begin? && l.i < |s.commands| == |t.commands|
    requires s.commands[l.i].phase.Fetching? && s.commands[l.i].phase.stage in {Reusing, Reserving}
    requires var c := s.commands[l.i]; FetchStep(cfg, s, l, c, c.phase.desc, c.phase.stage) == Ok(t)
    requires CommandOk(cfg, ds, t.files, s.commands[l.i])
    ensures CommandOk(cfg, ds, t.files, t.commands[l.i])
  {
    var c := s.commands[l.i];
    SpaceStepEnds(cfg, s, l, t);
    if c.phase.stage == Reusing && t.commands[l.i].phase.Ready? {
      ReturnedOk(cfg, ds, t.files, c);
    }
  }

  function Ended(c: Command): Command {
    c.(phase := Finished, pinned := [])
  }

  function Returned(c: Command): Command
    requires c.phase.Fetching?
  {
    c.(phase := Ready, pinned := if c.pin then c.pinned + [c.phase.desc] else c.pinned)
  }

  lemma {:induction false} SpaceStepEnds(cfg: Config, s: State, l: Label, t: State)
    requires !l.Begin? && l.i < |s.commands| == |t.commands|
    requires s.commands[l.i].phase.Fetching? && s.commands[l.i].phase.stage in {Reusing, Reserving}
    requires var c := s.commands[l.i]; FetchStep(cfg, s, l, c, c.phase.desc, c.phase.stage) == Ok(t)
    ensures var c := s.commands[l.i];
      || t.commands[l.i] == Ended(c)
      || t.commands[l.i] == if c.phase.stage == Reusing then Returned(c) else At(c, Downloading)
  {
  }

  lemma {:induction false} ReturnedOk(cfg: Config, ds: set<Descriptor>, files: Store, c: Command)
    requires c.phase.Fetching? && c.phase.stage == Reusing && CommandOk(cfg, ds, files, c)
    ensures CommandOk(cfg, ds, files, Returned(c))
  {
  }

  lemma {:induction false} DecideStepFiles(cfg: Config, ds: set<Descriptor>, s: State, l: Label, t: State)
    requires Locked(s) && CommandsOk(cfg, ds, s) && Agree(cfg, ds) && l.Decide? && l.i < |s.commands|
    requires s.commands[l.i].phase.Fetching? && s.commands[l.i].phase.stage.Checked?
    requires var c := s.commands[l.i]; FetchStep(cfg, s, l, c, c.phase.desc, c.phase.stage) == Ok(t)
    ensures CommandsOk(cfg, ds, t)
  {
    var c := s.commands[l.i];
    var Fetching(desc, stage) := c.phase;
    assert CommandOk(cfg, ds, s.files, c);
    if stage.size != desc.size || stage.digest != desc.digest {
      forall j | 0 <= j < |s.commands| ensures j == l.i || CommandOk(cfg, ds, t.files, s.commands[j])
        ensures PinnedGood(cfg, t.files, s.commands[j])
      {
        forall p | p in s.commands[j].pinned ensures SameAt(s.files, t.files, p.digest) {
          MismatchIsUnpinned(cfg, ds, s, l.i, j, p);
        }
        if j != l.i { CommandKept(cfg, ds, s.files, t.files, s.commands[j]); }
      }
    }
    CommandsAfter(cfg, ds, s, t, l.i);
  }

  lemma {:induction false} LandStepFiles(cfg: Config, ds: set<Descriptor>, s: State, l: Label, t: State)
    requires Locked(s) && CommandsOk(cfg, ds, s) && Agree(cfg, ds) && l.Land? && l.i < |s.commands|
    requires s.commands[l.i].phase.Fetching? && s.commands[l.i].phase.stage == Downloading
    requires var c := s.commands[l.i]; FetchStep(cfg, s, l, c, c.phase.desc, c.phase.stage) == Ok(t)
    ensures CommandsOk(cfg, ds, t)
  {
    var c := s.commands[l.i];
    if Matches(cfg, l.content, c.phase.desc) {
      var f := File(l.content, l.now, l.now);
      forall j | 0 <= j < |s.commands| ensures j == l.i || CommandOk(cfg, ds, t.files, s.commands[j])
        ensures PinnedGood(cfg, t.files, s.commands[j])
      {
        forall p | p in s.commands[j].pinned
          ensures SameAt(s.files, t.files, p.digest) || Good(cfg, t.files, p)
        {
          if p.digest == c.phase.desc.digest {
            LandingIsGood(cfg, ds, s, l.i, j, p, f);
          }
        }
        if j != l.i { CommandKept(cfg, ds, s.files, t.files, s.commands[j]); }
      }
    }
    CommandsAfter(cfg, ds, s, t, l.i);
  }

  lemma {:induction false} TouchStepFiles(cfg: Config, ds: set<Descriptor>, s: State, l: Label, t: State)
    requires CommandsOk(cfg, ds, s) && l.Touch? && l.i < |s.commands|
    requires s.commands[l.i].phase.Fetching? && s.commands[l.i].phase.stage == Touching
    requires var c := s.commands[l.i]; FetchStep(cfg, s, l, c, c.phase.desc, c.phase.stage) == Ok(t)
    ensures CommandsOk(cfg, ds, t)
  {
    forall j | 0 <= j < |s.commands| ensures CommandOk(cfg, ds, t.files, s.commands[j]) {
      CommandKept(cfg, ds, s.files, t.files, s.commands[j]);
    }
    CommandsAfter(cfg, ds, s, t, l.i);
  }

  /** Steps that leave the files alone. */
  lemma {:induction false} SameFiles(cfg: Config, ds: set<Descriptor>, s: State, t: State, i: nat)
    requires CommandsOk(cfg, ds, s) && i < |s.commands| == |t.commands| && t.files == s.files
    requires t.commands == s.commands[i := t.commands[i]] && CommandOk(cfg, ds, t.files, t.commands[i])
    ensures CommandsOk(cfg, ds, t)
  {
  }

  lemma {:induction false} EndStepFiles(cfg: Config, ds: set<Descriptor>, s: State, i: nat)
    requires CommandsOk(cfg, ds, s) && i < |s.commands|
    ensures CommandsOk(cfg, ds, EndCommand(s, i))
  {
    assert CommandOk(cfg, ds, s.files, s.commands[i]);
    SameFiles(cfg, ds, s, EndCommand(s, i), i);
  }

  lemma {:induction false} ReadStepFiles(cfg: Config, ds: set<Descriptor>, s: State, l: Label, t: State)
    requires CommandsOk(cfg, ds, s) && (l.TakeLock? || l.ReadFile?) && l.i < |s.commands|
    requires s.commands[l.i].phase.Fetching?
    requires var c := s.commands[l.i]; FetchStep(cfg, s, l, c, c.phase.desc, c.phase.stage) == Ok(t)
    ensures CommandsOk(cfg, ds, t)
  {
    assert CommandOk(cfg, ds, s.files, s.commands[l.i]);
    SameFiles(cfg, ds, s, t, l.i);
  }

  lemma {:induction false} FetchStepFiles(cfg: Config, ds: set<Descriptor>, s: State, l: Label, t: State)
    requires Locked(s) && PinsExact(s) && CommandsOk(cfg, ds, s) && Agree(cfg, ds)
    requires !l.Begin? && l.i < |s.commands| && s.commands[l.i].phase.Fetching?
    requires var c := s.commands[l.i]; FetchStep(cfg, s, l, c, c.phase.desc, c.phase.stage) == Ok(t)
    ensures CommandsOk(cfg, ds, t)
  {
    match s.commands[l.i].phase.stage
    case Waiting => ReadStepFiles(cfg, ds, s, l, t);
    case Hashing => ReadStepFiles(cfg, ds, s, l, t);
    case Checked(_, _) => DecideStepFiles(cfg, ds, s, l, t);
    case Touching => TouchStepFiles(cfg, ds, s, l, t);
    case Reusing => SpaceStepFiles(cfg, ds, s, l, t);
    case Reserving => SpaceStepFiles(cfg, ds, s, l, t);
    case Downloading => LandStepFiles(cfg, ds, s, l, t);
  }

  lemma {:induction false} ReadyStepFiles(cfg: Config, ds: set<Descriptor>, s: State, l: Label, t: State)
    requires CommandsOk(cfg, ds, s) && !l.Begin? && l.i < |s.commands| && !s.commands[l.i].phase.Fetching?
    requires Step(cfg, s, l) == Ok(t)
    ensures CommandsOk(cfg, ds, t)
  {
    var c := s.commands[l.i];
    assert CommandOk(cfg, ds, s.files, c);
    if l.Finish? || !l.permitted || c.todo[0].size > cfg.maximum {
      EndStepFiles(cfg, ds, s, l.i);
    } else {
      SameFiles(cfg, ds, s, t, l.i);
    }
  }

  lemma {:induction false} AbortStepFiles(cfg: Config, ds: set<Descriptor>, s: State, l: Label, t: State)
    requires CommandsOk(cfg, ds, s) && l.Abort? && l.i < |s.commands| && s.commands[l.i].phase.Fetching?
    requires Step(cfg, s, l) == Ok(t)
    ensures CommandsOk(cfg, ds, t)
  {
    assert CommandOk(cfg, ds, s.files, s.commands[l.i]);
    SameFiles(cfg, ds, s, t, l.i);
  }

  lemma {:induction false} BeginStepFiles(cfg: Config, ds: set<Descriptor>, s: State, l: Label, t: State)
    requires CommandsOk(cfg, ds, s) && l.Begin? && FromSet(ds, l.todo) && Step(cfg, s, l) == Ok(t)
    ensures CommandsOk(cfg, ds, t)
  {
  }

  lemma {:induction false} StepFiles(cfg: Config, ds: set<Descriptor>, s: State, l: Label, t: State)
    requires Locked(s) && PinsExact(s) && CommandsOk(cfg, ds, s) && Agree(cfg, ds)
    requires l.Begin? ==> FromSet(ds, l.todo)
    requires Step(cfg, s, l) == Ok(t)
    ensures CommandsOk(cfg, ds, t)
  {
    if l.Begin? {
      BeginStepFiles(cfg, ds, s, l, t);
    } else if !s.commands[l.i].phase.Fetching? {
      ReadyStepFiles(cfg, ds, s, l, t);
    } else if l.Abort? {
      AbortStepFiles(cfg, ds, s, l, t);
    } else {
      FetchStepFiles(cfg, ds, s, l, t);
    }
  }

  // ---- the shape of a step ----

  /** Step l asked for space and got it. */
  predicate SpaceMade(l: Label, t: State) {
    (l.Reuse? || l.Reserve?) && l.i < |t.commands| && !t.commands[l.i].phase.Finished?
  }

  ghost predicate Shaped(s: State, l: Label, t: State) {
    && !l.Begin? && l.i < |s.commands| == |t.commands| && t.commands == s.commands[l.i := t.commands[l.i]]
    && (t.commands[l.i].phase.Finished? ==> t.commands[l.i].pinned == [])
    && t.slack == if SpaceMade(l, t) then Reserved(s.commands) else s.slack
  }

  lemma {:induction false} SpaceStepShape(cfg: Config, s: State, l: Label, t: State)
    requires (l.Reuse? || l.Reserve?) && l.i < |s.commands| && s.commands[l.i].phase.Fetching?
    requires var c := s.commands[l.i]; FetchStep(cfg, s, l, c, c.phase.desc, c.phase.stage) == Ok(t)
    ensures Shaped(s, l, t)
  {
  }

  lemma {:induction false} FileStepShape(cfg: Config, s: State, l: Label, t: State)
    requires (l.TakeLock? || l.ReadFile? || l.Decide?) && l.i < |s.commands| && s.commands[l.i].phase.Fetching?
    requires var c := s.commands[l.i]; FetchStep(cfg, s, l, c, c.phase.desc, c.phase.stage) == Ok(t)
    ensures Shaped(s, l, t)
  {
  }

  lemma {:induction false} TimedStepShape(cfg: Config, s: State, l: Label, t: State)
    requires (l.Touch? || l.Land?) && l.i < |s.commands| && s.commands[l.i].phase.Fetching?
    requires var c := s.commands[l.i]; FetchStep(cfg, s, l, c, c.phase.desc, c.phase.stage) == Ok(t)
    ensures Shaped(s, l, t)
  {
  }

  /** One command moves; a command that ends has released what it held; only making space resets the slack. */
  lemma {:induction false} StepShape(cfg: Config, s: State, l: Label, t: State)
    requires Step(cfg, s, l) == Ok(t)
    ensures l.Begin? ==> t.commands == s.commands + [Command(l.pin, l.todo, Ready, [])]
    ensures l.Begin? ==> t.slack == s.slack
    ensures !l.Begin? ==> Shaped(s, l, t)
  {
    if !l.Begin? && s.commands[l.i].phase.Fetching? && !l.Abort? {
      if l.Reuse? || l.Reserve? { SpaceStepShape(cfg, s, l, t); }
      else if l.Touch? || l.Land? { TimedStepShape(cfg, s, l, t); }
      else { FileStepShape(cfg, s, l, t); }
    }
  }

  // ---- space ----

  /** Bytes on disk plus bytes promised to downloads. */
  ghost function Burden(s: State): nat {
    Total(s.files) + Reserved(s.commands)
  }

  /** The effect of one command's step on the burden. */
  lemma {:induction false} BurdenMoves(s: State, t: State, i: nat)
    requires i < |s.commands| && |t.commands| == |s.commands| && t.commands == s.commands[i := t.commands[i]]
    ensures Burden(t) + ReservedBy(s.commands[i]) == Total(t.files) + Reserved(s.commands) + ReservedBy(t.commands[i])
    ensures ReservedBy(s.commands[i]) <= Reserved(s.commands)
  {
    ReservedUpdate(s.commands, i, t.commands[i]);
  }

  /** What a step that makes space leaves on disk. */
  lemma {:induction false} SpaceStepTotal(cfg: Config, s: State, l: Label, t: State)
    requires (l.Reuse? || l.Reserve?) && l.i < |s.commands| && s.commands[l.i].phase.Fetching?
    requires var c := s.commands[l.i]; FetchStep(cfg, s, l, c, c.phase.desc, c.phase.stage) == Ok(t)
    ensures Shaped(s, l, t) && Total(t.files) <= Total(s.files)
    ensures SpaceMade(l, t) ==> Total(t.files) + ReservedBy(t.commands[l.i]) <= cfg.maximum
    ensures l.Reuse? || !SpaceMade(l, t) ==> ReservedBy(t.commands[l.i]) == 0
  {
    SpaceStepShape(cfg, s, l, t);
    if l.Reuse? {
      ReuseTotal(cfg, s, l, t);
    } else {
      ReserveTotal(cfg, s, l, t);
    }
  }

  lemma {:induction false} ReuseTotal(cfg: Config, s: State, l: Label, t: State)
    requires l.Reuse? && l.i < |s.commands| && s.commands[l.i].phase.Fetching? && Shaped(s, l, t)
    requires var c := s.commands[l.i]; FetchStep(cfg, s, l, c, c.phase.desc, c.phase.stage) == Ok(t)
    ensures Total(t.files) <= Total(s.files) && ReservedBy(t.commands[l.i]) == 0
    ensures SpaceMade(l, t) ==> Total(t.files) <= cfg.maximum
  {
    MakeSpaceKeeps(s.files, s.pins, s.commands[l.i].phase.desc.digest, 0, cfg.maximum);
  }

  lemma {:induction false} ReserveTotal(cfg: Config, s: State, l: Label, t: State)
    requires l.Reserve? && l.i < |s.commands| && s.commands[l.i].phase.Fetching? && Shaped(s, l, t)
    requires var c := s.commands[l.i]; FetchStep(cfg, s, l, c, c.phase.desc, c.phase.stage) == Ok(t)
    ensures Total(t.files) <= Total(s.files)
    ensures SpaceMade(l, t) ==> Total(t.files) + ReservedBy(t.commands[l.i]) <= cfg.maximum
    ensures !SpaceMade(l, t) ==> ReservedBy(t.commands[l.i]) == 0
  {
    var desc := s.commands[l.i].phase.desc;
    MakeSpaceKeeps(s.files, s.pins, desc.digest, desc.size, cfg.maximum);
  }

  /** Only making space for a download can add to the burden, and then it fits what was free. */
  lemma {:induction false} SpaceStepBurden(cfg: Config, s: State, l: Label, t: State)
    requires (l.Reuse? || l.Reserve?) && l.i < |s.commands| && s.commands[l.i].phase.Fetching?
    requires var c := s.commands[l.i]; FetchStep(cfg, s, l, c, c.phase.desc, c.phase.stage) == Ok(t)
    ensures SpaceMade(l, t) ==> Burden(t) <= cfg.maximum + Reserved(s.commands)
    ensures SpaceMade(l, t) ==> Total(t.files) + ReservedBy(t.commands[l.i]) <= cfg.maximum
    ensures l.Reuse? || !SpaceMade(l, t) ==> Burden(t) <= Burden(s)
  {
    SpaceStepTotal(cfg, s, l, t);
    BurdenMoves(s, t, l.i);
  }

  lemma {:induction false} FileStepBurden(cfg: Config, s: State, l: Label, t: State)
    requires (l.TakeLock? || l.ReadFile? || l.Decide?) && l.i < |s.commands| && s.commands[l.i].phase.Fetching?
    requires var c := s.commands[l.i]; FetchStep(cfg, s, l, c, c.phase.desc, c.phase.stage) == Ok(t)
    ensures Burden(t) <= Burden(s)
  {
    FileStepShape(cfg, s, l, t);
    ReservedUpdate(s.commands, l.i, t.commands[l.i]);
    TotalWith(s.files, s.commands[l.i].phase.desc.digest, File([], 0, 0));
  }

  lemma {:induction false} TimedStepBurden(cfg: Config, s: State, l: Label, t: State)
    requires (l.Touch? || l.Land?) && l.i < |s.commands| && s.commands[l.i].phase.Fetching?
    requires var c := s.commands[l.i]; FetchStep(cfg, s, l, c, c.phase.desc, c.phase.stage) == Ok(t)
    ensures Burden(t) <= Burden(s)
  {
    var c := s.commands[l.i];
    var d := c.phase.desc.digest;
    TimedStepShape(cfg, s, l, t);
    ReservedUpdate(s.commands, l.i, t.commands[l.i]);
    if l.Touch? && d in s.files {
      TotalRetimed(s.files, d, t.files[d]);
    } else if l.Land? && Matches(cfg, l.content, c.phase.desc) {
      TotalWith(s.files, d, t.files[d]);
    }
  }

  /** Every other step adds nothing. */
  lemma {:induction false} StepBurden(cfg: Config, s: State, l: Label, t: State)
    requires Step(cfg, s, l) == Ok(t)
    ensures SpaceMade(l, t) ==> Burden(t) <= cfg.maximum + Reserved(s.commands)
    ensures SpaceMade(l, t) ==> Total(t.files) + ReservedBy(t.commands[l.i]) <= cfg.maximum
    ensures l.Reuse? || !SpaceMade(l, t) ==> Burden(t) <= Burden(s)
  {
    StepShape(cfg, s, l, t);
    if l.Begin? {
      assert t.commands[..|t.commands| - 1] == s.commands;
    } else if s.commands[l.i].phase.Fetching? && !l.Abort? {
      if l.Reuse? || l.Reserve? { SpaceStepBurden(cfg, s, l, t); }
      else if l.Touch? || l.Land? { TimedStepBurden(cfg, s, l, t); }
      else { FileStepBurden(cfg, s, l, t); }
    } else {
      ReservedUpdate(s.commands, l.i, t.commands[l.i]);
    }
  }

  /** The burden never outgrows the maximum and the slack. */
  lemma {:induction false} StepSpace(cfg: Config, s: State, l: Label, t: State)
    requires WithinSlack(cfg, s) && Step(cfg, s, l) == Ok(t)
    ensures WithinSlack(cfg, t)
  {
    StepShape(cfg, s, l, t);
    StepBurden(cfg, s, l, t);
  }

  // ---- runs ----

  lemma {:induction false} RunInv(cfg: Config, ds: set<Descriptor>, s: State, ls: seq<Label>, t: State)
    requires Init(cfg, s) && Agree(cfg, ds) && Uses(ls, ds) && Run(cfg, s, ls) == Ok(t)
    ensures Inv(cfg, ds, t)
  {
    if ls != [] {
      var init, l := ls[..|ls| - 1], ls[|ls| - 1];
      var m := Run(cfg, s, init).value;
      assert forall k :: 0 <= k < |init| ==> init[k] == ls[k];
      RunInv(cfg, ds, s, init, m);
      StepPins(cfg, m, l, t);
      StepLocks(cfg, m, l, t);
      StepFiles(cfg, ds, m, l, t);
      StepSpace(cfg, m, l, t);
    }
  }

  /** Pins and space need no assumption on the descriptors. */
  lemma {:induction false} RunBooks(cfg: Config, s: State, ls: seq<Label>, t: State)
    requires Init(cfg, s) && Run(cfg, s, ls) == Ok(t)
    ensures PinsExact(t) && Locked(t) && WithinSlack(cfg, t)
  {
    if ls != [] {
      var init, l := ls[..|ls| - 1], ls[|ls| - 1];
      var m := Run(cfg, s, init).value;
      RunBooks(cfg, s, init, m);
      StepPins(cfg, m, l, t);
      StepLocks(cfg, m, l, t);
      StepSpace(cfg, m, l, t);
    }
  }
}
