/** What every step of the cache protocol keeps, for every interleaving. */
module CacheInvariants {
  import opened Wrappers
  import opened Eviction
  import opened Transfers
  import opened CacheProtocol

  // ---- the descriptors in use ----

  /** Some content has the size and digest the descriptor announces, and fits the cache. */
  ghost predicate Realizable(cfg: Config, desc: Descriptor) {
    desc.size <= cfg.maximum && exists content :: Matches(cfg, content, desc)
  }

  /** A fetchable descriptor agrees on the size with every realizable one of the same digest. */
  ghost predicate Agree(cfg: Config, ds: set<Descriptor>) {
    forall a, b :: a in ds && b in ds && a.digest == b.digest && Realizable(cfg, a) && b.size <= cfg.maximum
      ==> a.size == b.size
  }

  predicate FromSet(ds: set<Descriptor>, q: seq<Descriptor>) {
    forall x :: x in q ==> x in ds
  }

  ghost predicate DescriptorsOk(cfg: Config, ds: set<Descriptor>, c: Command) {
    && FromSet(ds, c.todo)
    && (forall p :: p in c.pinned ==> p in ds && p.size <= cfg.maximum)
    && (c.phase.Fetching? ==> c.phase.desc in ds && c.phase.desc.size <= cfg.maximum)
    && (c.phase.Finished? ==> c.pinned == [])
  }

  // ---- locks ----

  ghost predicate Locked(s: State) {
    && (forall i :: 0 <= i < |s.commands| && InCritical(s.commands[i]) ==> s.commands[i].phase.desc.digest in s.locked)
    && (forall i, j :: 0 <= i < j < |s.commands| && InCritical(s.commands[i]) && InCritical(s.commands[j])
          ==> s.commands[i].phase.desc.digest != s.commands[j].phase.desc.digest)
    && (forall d :: d in s.locked ==> exists i :: Holder(s, i, d))
  }

  predicate Holder(s: State, i: int, d: Digest) {
    0 <= i < |s.commands| && InCritical(s.commands[i]) && s.commands[i].phase.desc.digest == d
  }

  // ---- pins ----

  ghost predicate PinsExact(s: State) {
    && NoZeros(s.pins)
    && forall d: Digest :: PinsOf(s.pins, d) == AllHolds(s.commands, d) + s.leaked[d]
  }

  // ---- files ----

  predicate Good(cfg: Config, files: Store, desc: Descriptor) {
    desc.digest in files && Matches(cfg, files[desc.digest].content, desc)
  }

  predicate PinnedGood(cfg: Config, files: Store, c: Command) {
    forall p :: p in c.pinned ==> Good(cfg, files, p)
  }

  /** What a fetch knows about its file at each suspension point. */
  predicate StageOk(cfg: Config, files: Store, c: Command) {
    match c.phase
    case Ready => true
    case Finished => true
    case Fetching(desc, stage) =>
      var d := desc.digest;
      match stage
      case Waiting => true
      case Hashing => c.pin ==> d in files
      case Checked(size, digest) =>
        && (c.pin ==> d in files)
        && (d in files ==> |files[d].content| == size && cfg.hash(files[d].content) == digest)
      case Touching => (c.pin ==> d in files) && (d in files ==> Good(cfg, files, desc))
      case Reusing => (c.pin ==> d in files) && (d in files ==> Good(cfg, files, desc))
      case Reserving => true
      case Downloading => true
  }

  predicate UnpinnedHoldsNothing(c: Command) {
    !c.pin ==> c.pinned == []
  }

  ghost predicate CommandOk(cfg: Config, ds: set<Descriptor>, files: Store, c: Command) {
    && DescriptorsOk(cfg, ds, c) && PinnedGood(cfg, files, c) && StageOk(cfg, files, c) && UnpinnedHoldsNothing(c)
  }

  ghost predicate CommandsOk(cfg: Config, ds: set<Descriptor>, s: State) {
    forall i :: 0 <= i < |s.commands| ==> CommandOk(cfg, ds, s.files, s.commands[i])
  }

  // ---- space ----

  ghost predicate WithinSlack(cfg: Config, s: State) {
    Total(s.files) + Reserved(s.commands) <= cfg.maximum + s.slack
  }

  ghost predicate Inv(cfg: Config, ds: set<Descriptor>, s: State) {
    Locked(s) && PinsExact(s) && CommandsOk(cfg, ds, s) && WithinSlack(cfg, s)
  }

  // ---- pin bookkeeping of the building blocks ----

  lemma {:induction false} HeldPins(s: State, i: nat, d: Digest)
    requires PinsExact(s) && i < |s.commands|
    ensures Holds(s.commands[i], d) <= PinsOf(s.pins, d)
  {
    AllHoldsUpdate(s.commands, i, s.commands[i], d);
  }

  /** Replacing one command and moving pins by the same amount keeps the books. */
  lemma {:induction false} PinsMove(s: State, t: State, i: nat)
    requires PinsExact(s) && i < |s.commands| == |t.commands|
    requires t.commands == s.commands[i := t.commands[i]]
    requires NoZeros(t.pins)
    requires forall d: Digest ::
      PinsOf(t.pins, d) + Holds(s.commands[i], d) + s.leaked[d]
        == PinsOf(s.pins, d) + Holds(t.commands[i], d) + t.leaked[d]
    ensures PinsExact(t)
  {
    forall d: Digest ensures PinsOf(t.pins, d) == AllHolds(t.commands, d) + t.leaked[d] {
      AllHoldsUpdate(s.commands, i, t.commands[i], d);
    }
  }

  /** Ending a command drops exactly the pins of its finished fetches. */
  lemma {:induction false} DropHeld(pins: Pins, c: Command)
    requires NoZeros(pins)
    requires forall d :: Count(c.pinned, d) <= PinsOf(pins, d)
    ensures NoZeros(DropAll(pins, c.pinned))
    ensures forall d :: PinsOf(DropAll(pins, c.pinned), d) == PinsOf(pins, d) - Count(c.pinned, d)
  {
    DropAllCounts(pins, c.pinned, 0);
    forall d ensures PinsOf(DropAll(pins, c.pinned), d) == PinsOf(pins, d) - Count(c.pinned, d) {
      DropAllCounts(pins, c.pinned, d);
    }
  }

  lemma {:induction false} FinishPins(s: State, i: nat)
    requires PinsExact(s) && i < |s.commands| && s.commands[i].phase.Ready?
    ensures PinsExact(EndCommand(s, i))
  {
    var c := s.commands[i];
    forall d ensures Count(c.pinned, d) <= PinsOf(s.pins, d) { HeldPins(s, i, d); }
    DropHeld(s.pins, c);
    PinsMove(s, EndCommand(s, i), i);
  }

  lemma {:induction false} LeakPins(s: State, i: nat, t: State)
    requires PinsExact(s) && i < |s.commands| && s.commands[i].phase.Fetching?
    requires var c := s.commands[i];
      t == EndCommand(s.(leaked := if c.pin then s.leaked + multiset{c.phase.desc.digest} else s.leaked), i)
    ensures PinsExact(t)
  {
    var c := s.commands[i];
    forall d ensures Count(c.pinned, d) <= PinsOf(s.pins, d) { HeldPins(s, i, d); }
    DropHeld(s.pins, c);
    PinsMove(s, t, i);
  }

  lemma {:induction false} RaisePins(s: State, i: nat)
    requires PinsExact(s) && i < |s.commands| && InCritical(s.commands[i])
    ensures PinsExact(Raise(s, i))
  {
    var c := s.commands[i];
    var own := if c.pin then DropPin(s.pins, c.phase.desc.digest) else s.pins;
    forall d ensures Holds(c, d) <= PinsOf(s.pins, d) { HeldPins(s, i, d); }
    assert Holds(c, c.phase.desc.digest) <= PinsOf(s.pins, c.phase.desc.digest);
    forall d ensures Count(c.pinned, d) <= PinsOf(own, d) {
      assert Holds(c, d) <= PinsOf(s.pins, d);
    }
    DropHeld(own, c);
    PinsMove(s, Raise(s, i), i);
  }

  lemma {:induction false} ReturnPins(s: State, i: nat)
    requires PinsExact(s) && i < |s.commands| && InCritical(s.commands[i])
    ensures PinsExact(Return(s, i))
  {
    var c := s.commands[i];
    forall d ensures Holds(Return(s, i).commands[i], d) == Holds(c, d) {
      CountAppend(c.pinned, c.phase.desc, d);
    }
    PinsMove(s, Return(s, i), i);
  }

  lemma {:induction false} StartPins(s: State, i: nat, t: State)
    requires PinsExact(s) && i < |s.commands| && s.commands[i].phase.Ready? && s.commands[i].todo != []
    requires var c := s.commands[i];
      t == With(s, i, c.(todo := c.todo[1..], phase := Fetching(c.todo[0], Waiting)))
             .(pins := if c.pin then AddPin(s.pins, c.todo[0].digest) else s.pins)
    ensures PinsExact(t)
  {
    PinsMove(s, t, i);
  }

  lemma {:induction false} BeginPins(s: State, c: Command)
    requires PinsExact(s) && c.phase.Ready? && c.pinned == []
    ensures PinsExact(s.(commands := s.commands + [c]))
  {
    var cs := s.commands + [c];
    assert cs[..|cs| - 1] == s.commands;
  }

  /** Steps that keep the command's holds keep the books. */
  lemma {:induction false} SameHolds(s: State, t: State, i: nat)
    requires PinsExact(s) && i < |s.commands| == |t.commands|
    requires t.commands == s.commands[i := t.commands[i]] && t.pins == s.pins && t.leaked == s.leaked
    requires forall d :: Holds(t.commands[i], d) == Holds(s.commands[i], d)
    ensures PinsExact(t)
  {
    PinsMove(s, t, i);
  }

  /** Pins, in every step. */
  lemma {:induction false} StepPins(cfg: Config, s: State, l: Label, t: State)
    requires PinsExact(s) && Step(cfg, s, l) == Ok(t)
    ensures PinsExact(t)
  {
    if l.Begin? {
      BeginPins(s, Command(l.pin, l.todo, Ready, []));
    } else {
      var c := s.commands[l.i];
      match c.phase
      case Finished =>
      case Ready =>
        if !l.Finish? && l.permitted && c.todo[0].size <= cfg.maximum {
          StartPins(s, l.i, t);
        } else {
          FinishPins(s, l.i);
        }
      case Fetching(desc, stage) =>
        if l.Abort? {
          if stage == Waiting { LeakPins(s, l.i, t); } else { RaisePins(s, l.i); }
        } else {
          FetchStepPins(cfg, s, l, t);
        }
    }
  }

  lemma {:induction false} SpaceStepPins(cfg: Config, s: State, l: Label, t: State)
    requires PinsExact(s) && (l.Reuse? || l.Reserve?) && l.i < |s.commands| && s.commands[l.i].phase.Fetching?
    requires var c := s.commands[l.i]; FetchStep(cfg, s, l, c, c.phase.desc, c.phase.stage) == Ok(t)
    ensures PinsExact(t)
  {
    var c := s.commands[l.i];
    var space := MakeSpace(s.files, s.pins, c.phase.desc.digest, if l.Reuse? then 0 else c.phase.desc.size, cfg.maximum);
    var m := s.(files := space.files, slack := if space.ok then Reserved(s.commands) else s.slack);
    if !space.ok { RaisePins(m, l.i); }
    else if l.Reuse? { ReturnPins(m, l.i); }
    else { SameHolds(m, t, l.i); }
  }

  lemma {:induction false} ReadStepPins(cfg: Config, s: State, l: Label, t: State)
    requires PinsExact(s) && (l.TakeLock? || l.ReadFile? || l.Decide?) && l.i < |s.commands|
    requires s.commands[l.i].phase.Fetching?
    requires var c := s.commands[l.i]; FetchStep(cfg, s, l, c, c.phase.desc, c.phase.stage) == Ok(t)
    ensures PinsExact(t)
  {
    var d := s.commands[l.i].phase.desc.digest;
    if l.ReadFile? && (d !in s.files || |s.files[d].content| > cfg.maximum) {
      RaisePins(s, l.i);
    } else {
      SameHolds(s, t, l.i);
    }
  }

  lemma {:induction false} TouchStepPins(cfg: Config, s: State, l: Label, t: State)
    requires PinsExact(s) && l.Touch? && l.i < |s.commands| && s.commands[l.i].phase.Fetching?
    requires var c := s.commands[l.i]; FetchStep(cfg, s, l, c, c.phase.desc, c.phase.stage) == Ok(t)
    ensures PinsExact(t)
  {
    if s.commands[l.i].phase.desc.digest in s.files {
      SameHolds(s, t, l.i);
    } else {
      RaisePins(s, l.i);
    }
  }

  lemma {:induction false} LandStepPins(cfg: Config, s: State, l: Label, t: State)
    requires PinsExact(s) && l.Land? && l.i < |s.commands| && s.commands[l.i].phase.Fetching?
    requires var c := s.commands[l.i]; FetchStep(cfg, s, l, c, c.phase.desc, c.phase.stage) == Ok(t)
    ensures PinsExact(t)
  {
    var desc := s.commands[l.i].phase.desc;
    if Matches(cfg, l.content, desc) {
      ReturnPins(s.(files := s.files[desc.digest := File(l.content, l.now, l.now)]), l.i);
    } else {
      RaisePins(s, l.i);
    }
  }

  lemma {:induction false} FetchStepPins(cfg: Config, s: State, l: Label, t: State)
    requires PinsExact(s) && !l.Begin? && l.i < |s.commands| && s.commands[l.i].phase.Fetching?
    requires var c := s.commands[l.i]; FetchStep(cfg, s, l, c, c.phase.desc, c.phase.stage) == Ok(t)
    ensures PinsExact(t)
  {
    if l.Reuse? || l.Reserve? { SpaceStepPins(cfg, s, l, t); }
    else if l.Touch? { TouchStepPins(cfg, s, l, t); }
    else if l.Land? { LandStepPins(cfg, s, l, t); }
    else { ReadStepPins(cfg, s, l, t); }
  }

  // ---- locks ----

  /** The effect of a step on the digest locks, in terms of the one command that moved. */
  predicate LockFollows(s: State, t: State, i: nat) {
    && i < |s.commands| == |t.commands| && t.commands == s.commands[i := t.commands[i]]
    && var was, now := s.commands[i], t.commands[i];
    && (InCritical(was) && InCritical(now) ==> now.phase.desc == was.phase.desc && t.locked == s.locked)
    && (InCritical(was) && !InCritical(now) ==> t.locked == s.locked - {was.phase.desc.digest})
    && (!InCritical(was) && InCritical(now) ==>
          now.phase.desc.digest !in s.locked && t.locked == s.locked + {now.phase.desc.digest})
    && (!InCritical(was) && !InCritical(now) ==> t.locked == s.locked)
  }

  lemma {:induction false} LockMove(s: State, t: State, i: nat)
    requires Locked(s) && LockFollows(s, t, i)
    ensures Locked(t)
  {
    forall j | 0 <= j < |t.commands| && InCritical(t.commands[j])
      ensures t.commands[j].phase.desc.digest in t.locked
    {
      if j != i {
        assert t.commands[j] == s.commands[j];
      }
    }
    forall d | d in t.locked ensures exists j :: Holder(t, j, d) {
      if d in s.locked {
        var j :| Holder(s, j, d);
        if j != i { assert Holder(t, j, d); } else { assert Holder(t, i, d); }
      } else {
        assert Holder(t, i, d);
      }
    }
    forall j, k | 0 <= j < k < |t.commands| && InCritical(t.commands[j]) && InCritical(t.commands[k])
      ensures t.commands[j].phase.desc.digest != t.commands[k].phase.desc.digest
    {
      assert j != i ==> t.commands[j] == s.commands[j];
      assert k != i ==> t.commands[k] == s.commands[k];
    }
  }

  lemma {:induction false} BeginLocks(s: State, c: Command)
    requires Locked(s) && c.phase.Ready?
    ensures Locked(s.(commands := s.commands + [c]))
  {
    var t := s.(commands := s.commands + [c]);
    forall d | d in t.locked ensures exists j :: Holder(t, j, d) {
      var j :| Holder(s, j, d);
      assert Holder(t, j, d);
    }
  }

  lemma {:induction false} SpaceStepLocks(cfg: Config, s: State, l: Label, t: State)
    requires (l.Reuse? || l.Reserve?) && l.i < |s.commands| && s.commands[l.i].phase.Fetching?
    requires var c := s.commands[l.i]; FetchStep(cfg, s, l, c, c.phase.desc, c.phase.stage) == Ok(t)
    ensures LockFollows(s, t, l.i)
  {
  }

  lemma {:induction false} FileStepLocks(cfg: Config, s: State, l: Label, t: State)
    requires (l.TakeLock? || l.ReadFile? || l.Decide?) && l.i < |s.commands| && s.commands[l.i].phase.Fetching?
    requires var c := s.commands[l.i]; FetchStep(cfg, s, l, c, c.phase.desc, c.phase.stage) == Ok(t)
    ensures LockFollows(s, t, l.i)
  {
  }

  lemma {:induction false} TimedStepLocks(cfg: Config, s: State, l: Label, t: State)
    requires (l.Touch? || l.Land?) && l.i < |s.commands| && s.commands[l.i].phase.Fetching?
    requires var c := s.commands[l.i]; FetchStep(cfg, s, l, c, c.phase.desc, c.phase.stage) == Ok(t)
    ensures LockFollows(s, t, l.i)
  {
  }

  lemma {:induction false} StepLocks(cfg: Config, s: State, l: Label, t: State)
    requires Locked(s) && Step(cfg, s, l) == Ok(t)
    ensures Locked(t)
  {
    if l.Begin? {
      BeginLocks(s, Command(l.pin, l.todo, Ready, []));
    } else {
      if s.commands[l.i].phase.Fetching? && !l.Abort? {
        if l.Reuse? || l.Reserve? { SpaceStepLocks(cfg, s, l, t); }
        else if l.Touch? || l.Land? { TimedStepLocks(cfg, s, l, t); }
        else { FileStepLocks(cfg, s, l, t); }
      }
      LockMove(s, t, l.i);
    }
  }
}
