/** The main results on pins and progress in the concurrent artifact cache, each about every run. */
module CacheTheorems {
  import opened Wrappers
  import opened Eviction
  import opened Transfers
  import opened CacheProtocol
  import opened CacheInvariants
  import opened CacheSafety
  import opened CacheRuns

  // ---- pin safety ----

  /** Every file a command has fetched with a pin and not released is there and is what it asked for. */
  ghost predicate PinSafe(cfg: Config, s: State) {
    forall i, p :: 0 <= i < |s.commands| && p in s.commands[i].pinned ==> Good(cfg, s.files, p)
  }

  ghost predicate AlwaysPinSafe(cfg: Config, ds: set<Descriptor>) {
    forall s, ls :: Init(cfg, s) && Uses(ls, ds) && Run(cfg, s, ls).Ok? ==> PinSafe(cfg, Run(cfg, s, ls).value)
  }

  /** A second descriptor with the same digest and another size takes the pinned file away. */
  lemma {:induction false} DisagreementBreaks(cfg: Config, ds: set<Descriptor>, a: Descriptor, b: Descriptor)
    requires a in ds && b in ds && a.digest == b.digest && a.size != b.size
    requires Realizable(cfg, a) && b.size <= cfg.maximum
    ensures !AlwaysPinSafe(cfg, ds)
  {
    var content :| Matches(cfg, content, a);
    var s := Empty();
    assert Run(cfg, s, []) == Ok(s);
    var la, m := ReserveFrom(cfg, ds, s, [], s, a);
    var n := LandNew(cfg, s, la, m, 0, content);
    var lb := la + [Land(0, content, 0)];
    var lc, t := RefetchUnlinks(cfg, ds, s, lb, n, b);
    assert a in t.commands[0].pinned && !Good(cfg, t.files, a);
    assert Init(cfg, s) && Uses(lc, ds);
  }

  /** Pin safety holds in every run over a set of descriptors exactly when they agree on sizes. */
  lemma {:induction false} PinSafetyIff(cfg: Config, ds: set<Descriptor>)
    ensures AlwaysPinSafe(cfg, ds) <==> Agree(cfg, ds)
  {
    if Agree(cfg, ds) {
      forall s, ls | Init(cfg, s) && Uses(ls, ds) && Run(cfg, s, ls).Ok?
        ensures PinSafe(cfg, Run(cfg, s, ls).value)
      {
        var t := Run(cfg, s, ls).value;
        RunInv(cfg, ds, s, ls, t);
        assert forall i :: 0 <= i < |t.commands| ==> CommandOk(cfg, ds, t.files, t.commands[i]);
      }
    } else {
      var a, b :| a in ds && b in ds && a.digest == b.digest && Realizable(cfg, a) && b.size <= cfg.maximum
        && a.size != b.size;
      DisagreementBreaks(cfg, ds, a, b);
    }
  }

  // ---- pin conservation ----

  /** Step l gives up a pin on d: a pinning fetch is stopped while waiting for the lock. */
  predicate LosesPin(m: State, l: Label, d: Digest) {
    && l.Abort? && l.i < |m.commands|
    && var c := m.commands[l.i];
    && c.pin && c.phase.Fetching? && c.phase.stage == Waiting && c.phase.desc.digest == d
  }

  lemma {:induction false} FetchStepLeaks(cfg: Config, s: State, l: Label, t: State)
    requires !l.Begin? && l.i < |s.commands| && s.commands[l.i].phase.Fetching?
    requires var c := s.commands[l.i]; FetchStep(cfg, s, l, c, c.phase.desc, c.phase.stage) == Ok(t)
    ensures t.leaked == s.leaked
  {
  }

  lemma {:induction false} StepLeaks(cfg: Config, s: State, l: Label, t: State)
    requires Step(cfg, s, l) == Ok(t)
    ensures forall d: Digest :: t.leaked[d] == s.leaked[d] + if LosesPin(s, l, d) then 1 else 0
  {
    if !l.Begin? && s.commands[l.i].phase.Fetching? && !l.Abort? {
      FetchStepLeaks(cfg, s, l, t);
    }
  }

  ghost function LostPins(cfg: Config, s: State, ls: seq<Label>, d: Digest): nat {
    if ls == [] then 0
    else
      var init := ls[..|ls| - 1];
      LostPins(cfg, s, init, d)
        + if Run(cfg, s, init).Ok? && LosesPin(Run(cfg, s, init).value, ls[|ls| - 1], d) then 1 else 0
  }

  lemma {:induction false} LeakedAreLost(cfg: Config, s: State, ls: seq<Label>, t: State, d: Digest)
    requires Init(cfg, s) && Run(cfg, s, ls) == Ok(t)
    ensures t.leaked[d] == LostPins(cfg, s, ls, d)
  {
    if ls != [] {
      var init, l := ls[..|ls| - 1], ls[|ls| - 1];
      var m := Run(cfg, s, init).value;
      LeakedAreLost(cfg, s, init, m, d);
      StepLeaks(cfg, m, l, t);
    }
  }

  /** At every point of every run a digest's pin count is the number of its outstanding holds plus the
      pins given up in the lock wait, and no zero is stored. */
  lemma {:induction false} PinConservation(cfg: Config, s: State, ls: seq<Label>, t: State, d: Digest)
    requires Init(cfg, s) && Run(cfg, s, ls) == Ok(t)
    ensures PinsOf(t.pins, d) == AllHolds(t.commands, d) + LostPins(cfg, s, ls, d)
    ensures d in t.pins <==> PinsOf(t.pins, d) > 0
  {
    RunBooks(cfg, s, ls, t);
    LeakedAreLost(cfg, s, ls, t, d);
  }

  ghost predicate Quiescent(s: State) {
    forall i :: 0 <= i < |s.commands| ==> s.commands[i].phase.Finished?
  }

  lemma {:induction false} FinishedHoldNothing(cs: seq<Command>, d: Digest)
    requires forall i :: 0 <= i < |cs| ==> cs[i].phase.Finished? && cs[i].pinned == []
    ensures AllHolds(cs, d) == 0
  {
    if cs != [] {
      FinishedHoldNothing(cs[..|cs| - 1], d);
    }
  }

  lemma {:induction false} FinishedReleased(cfg: Config, s: State, ls: seq<Label>, t: State, i: nat)
    requires Init(cfg, s) && Run(cfg, s, ls) == Ok(t) && i < |t.commands| && t.commands[i].phase.Finished?
    ensures t.commands[i].pinned == []
  {
    if ls != [] {
      var init, l := ls[..|ls| - 1], ls[|ls| - 1];
      var m := Run(cfg, s, init).value;
      StepShape(cfg, m, l, t);
      if (l.Begin? && i < |m.commands|) || (!l.Begin? && l.i != i) {
        FinishedReleased(cfg, s, init, m, i);
      }
    }
  }

  /** Once every command has ended, on whatever path, the pin map is empty exactly when no pinning
      fetch was stopped while it waited for the digest lock. */
  lemma {:induction false} PinsEmptyAtQuiescence(cfg: Config, s: State, ls: seq<Label>, t: State)
    requires Init(cfg, s) && Run(cfg, s, ls) == Ok(t) && Quiescent(t)
    ensures t.pins == map[] <==> forall d: Digest :: LostPins(cfg, s, ls, d) == 0
  {
    forall d: Digest ensures d in t.pins <==> LostPins(cfg, s, ls, d) > 0 {
      forall i | 0 <= i < |t.commands| ensures t.commands[i].pinned == [] {
        FinishedReleased(cfg, s, ls, t, i);
      }
      FinishedHoldNothing(t.commands, d);
      PinConservation(cfg, s, ls, t, d);
    }
    if t.pins != map[] {
      var d :| d in t.pins;
      assert LostPins(cfg, s, ls, d) > 0;
    }
  }

  // ---- progress ----

  /** A fetch can move without being aborted. */
  ghost predicate CanMove(cfg: Config, s: State, i: nat) {
    exists l: Label :: !l.Begin? && !l.Abort? && l.i == i && Step(cfg, s, l).Ok?
  }

  lemma {:induction false} HolderMoves(cfg: Config, s: State, i: nat)
    requires i < |s.commands| && InCritical(s.commands[i])
    ensures CanMove(cfg, s, i)
  {
    var l := match s.commands[i].phase.stage
      case Waiting => TakeLock(i)
      case Hashing => ReadFile(i)
      case Checked(_, _) => Decide(i)
      case Touching => Touch(i, 0)
      case Reusing => Reuse(i)
      case Reserving => Reserve(i)
      case Downloading => Land(i, [], 0);
    assert Step(cfg, s, l).Ok?;
  }

  /** No deadlock: a fetch in progress can move, or waits for a lock whose holder can. */
  lemma {:induction false} NoDeadlock(cfg: Config, s: State, ls: seq<Label>, t: State, i: nat)
    requires Init(cfg, s) && Run(cfg, s, ls) == Ok(t) && i < |t.commands| && t.commands[i].phase.Fetching?
    ensures CanMove(cfg, t, i)
      || exists j: nat :: Holder(t, j, t.commands[i].phase.desc.digest) && CanMove(cfg, t, j)
  {
    RunBooks(cfg, s, ls, t);
    var c := t.commands[i];
    if InCritical(c) {
      HolderMoves(cfg, t, i);
    } else if c.phase.desc.digest in t.locked {
      var j :| Holder(t, j, c.phase.desc.digest);
      HolderMoves(cfg, t, j);
    } else {
      assert Step(cfg, t, TakeLock(i)).Ok?;
    }
  }
}
