/** How a command works through its descriptors: which one comes next, and how it ends. */
module CacheCommands {
  import opened Wrappers
  import opened Eviction
  import opened Transfers
  import opened CacheProtocol
  import opened CacheInvariants
  import opened CacheSafety
  import opened CacheTheorems

  // ---- what the labels say ----

  /** The commands of a run, as they were begun; the i-th begins command i. */
  function Begun(ls: seq<Label>): seq<Label> {
    if ls == [] then []
    else
      var init, l := ls[..|ls| - 1], ls[|ls| - 1];
      Begun(init) + if l.Begin? then [l] else []
  }

  /** How many fetches command i has started. */
  function Started(ls: seq<Label>, i: nat): nat {
    if ls == [] then 0
    else
      var init, l := ls[..|ls| - 1], ls[|ls| - 1];
      Started(init, i) + if l.Start? && l.i == i then 1 else 0
  }

  lemma {:induction false} BegunAre(ls: seq<Label>)
    ensures forall k :: 0 <= k < |Begun(ls)| ==> Begun(ls)[k].Begin?
  {
    if ls != [] {
      BegunAre(ls[..|ls| - 1]);
    }
  }

  // ---- the order of the fetches ----

  /** Command c was begun by b and has started k fetches: it has gone through the first k descriptors of
      its list, in order.  A finished command has nothing more to do. */
  ghost predicate InOrder(c: Command, b: Label, k: nat)
    requires b.Begin?
  {
    && c.pin == b.pin
    && (c.phase.Finished? || (
          && k <= |b.todo| && c.todo == b.todo[k..]
          && (c.phase.Fetching? ==> k > 0 && c.phase.desc == b.todo[k - 1])
          && c.pinned == if !c.pin then [] else if c.phase.Fetching? then b.todo[..k - 1] else b.todo[..k]))
  }

  lemma {:induction false} StartInOrder(c: Command, b: Label, k: nat)
    requires b.Begin? && InOrder(c, b, k) && c.phase.Ready? && c.todo != []
    ensures InOrder(c.(todo := c.todo[1..], phase := Fetching(c.todo[0], Waiting)), b, k + 1)
  {
    assert b.todo[k..][1..] == b.todo[k + 1..];
  }

  lemma {:induction false} ReturnInOrder(c: Command, b: Label, k: nat)
    requires b.Begin? && InOrder(c, b, k) && c.phase.Fetching?
    ensures InOrder(Returned(c), b, k)
  {
    assert b.todo[..k - 1] + [b.todo[k - 1]] == b.todo[..k];
  }

  /** What a step under way makes of its command: it goes on, returns, or ends. */
  ghost predicate Proceeds(c: Command, c': Command)
    requires c.phase.Fetching?
  {
    || (c'.phase.Fetching? && c' == At(c, c'.phase.stage))
    || c' == Returned(c)
    || c' == Ended(c)
  }

  lemma {:induction false} SpaceStepProceeds(cfg: Config, s: State, l: Label, t: State)
    requires (l.Reuse? || l.Reserve?) && l.i < |s.commands| && s.commands[l.i].phase.Fetching?
    requires var c := s.commands[l.i]; FetchStep(cfg, s, l, c, c.phase.desc, c.phase.stage) == Ok(t)
    ensures |t.commands| == |s.commands| && Proceeds(s.commands[l.i], t.commands[l.i])
  {
  }

  lemma {:induction false} FileStepProceeds(cfg: Config, s: State, l: Label, t: State)
    requires (l.TakeLock? || l.ReadFile? || l.Decide?) && l.i < |s.commands| && s.commands[l.i].phase.Fetching?
    requires var c := s.commands[l.i]; FetchStep(cfg, s, l, c, c.phase.desc, c.phase.stage) == Ok(t)
    ensures |t.commands| == |s.commands| && Proceeds(s.commands[l.i], t.commands[l.i])
  {
  }

  lemma {:induction false} TimedStepProceeds(cfg: Config, s: State, l: Label, t: State)
    requires (l.Touch? || l.Land?) && l.i < |s.commands| && s.commands[l.i].phase.Fetching?
    requires var c := s.commands[l.i]; FetchStep(cfg, s, l, c, c.phase.desc, c.phase.stage) == Ok(t)
    ensures |t.commands| == |s.commands| && Proceeds(s.commands[l.i], t.commands[l.i])
  {
  }

  lemma {:induction false} FetchStepInOrder(cfg: Config, s: State, l: Label, t: State, b: Label, k: nat)
    requires !l.Begin? && l.i < |s.commands| && s.commands[l.i].phase.Fetching?
    requires b.Begin? && InOrder(s.commands[l.i], b, k)
    requires var c := s.commands[l.i]; FetchStep(cfg, s, l, c, c.phase.desc, c.phase.stage) == Ok(t)
    ensures |t.commands| == |s.commands| && InOrder(t.commands[l.i], b, k)
  {
    if l.Reuse? || l.Reserve? { SpaceStepProceeds(cfg, s, l, t); }
    else if l.Touch? || l.Land? { TimedStepProceeds(cfg, s, l, t); }
    else { FileStepProceeds(cfg, s, l, t); }
    if t.commands[l.i] == Returned(s.commands[l.i]) {
      ReturnInOrder(s.commands[l.i], b, k);
    }
  }

  lemma {:induction false} ReadyStepInOrder(cfg: Config, s: State, l: Label, t: State, b: Label, k: nat)
    requires !l.Begin? && l.i < |s.commands| && s.commands[l.i].phase.Ready? && Step(cfg, s, l) == Ok(t)
    requires b.Begin? && InOrder(s.commands[l.i], b, k)
    ensures |t.commands| == |s.commands| && InOrder(t.commands[l.i], b, if l.Start? then k + 1 else k)
  {
    if l.Start? {
      StartInOrder(s.commands[l.i], b, k);
    }
  }

  ghost predicate AllInOrder(ls: seq<Label>, s: State) {
    && |s.commands| == |Begun(ls)|
    && (forall i :: 0 <= i < |s.commands| ==> Begun(ls)[i].Begin? && InOrder(s.commands[i], Begun(ls)[i], Started(ls, i)))
    && (forall i: nat :: i >= |s.commands| ==> Started(ls, i) == 0)
  }

  lemma {:induction false} MoveInOrder(cfg: Config, s: State, l: Label, t: State, b: Label, k: nat)
    requires Step(cfg, s, l) == Ok(t) && !l.Begin? && b.Begin? && l.i < |s.commands| && InOrder(s.commands[l.i], b, k)
    ensures |t.commands| == |s.commands| && InOrder(t.commands[l.i], b, if l.Start? then k + 1 else k)
  {
    if s.commands[l.i].phase.Ready? {
      ReadyStepInOrder(cfg, s, l, t, b, k);
    } else if !l.Abort? {
      FetchStepInOrder(cfg, s, l, t, b, k);
    }
  }

  lemma {:induction false} BegunGrows(ls: seq<Label>, l: Label, i: nat)
    ensures Begun(ls + [l]) == Begun(ls) + if l.Begin? then [l] else []
    ensures Started(ls + [l], i) == Started(ls, i) + if l.Start? && l.i == i then 1 else 0
  {
    assert (ls + [l])[..|ls|] == ls;
  }

  lemma {:induction false} StepInOrder(cfg: Config, ls: seq<Label>, s: State, l: Label, t: State)
    requires AllInOrder(ls, s) && Step(cfg, s, l) == Ok(t)
    ensures AllInOrder(ls + [l], t)
  {
    forall i: nat
      ensures Begun(ls + [l]) == Begun(ls) + if l.Begin? then [l] else []
      ensures Started(ls + [l], i) == Started(ls, i) + if l.Start? && l.i == i then 1 else 0
    {
      BegunGrows(ls, l, i);
    }
    StepShape(cfg, s, l, t);
    if !l.Begin? {
      MoveInOrder(cfg, s, l, t, Begun(ls)[l.i], Started(ls, l.i));
    }
  }

  lemma {:induction false} RunInOrder(cfg: Config, s: State, ls: seq<Label>, t: State)
    requires Init(cfg, s) && Run(cfg, s, ls) == Ok(t)
    ensures AllInOrder(ls, t)
  {
    if ls != [] {
      var init, l := ls[..|ls| - 1], ls[|ls| - 1];
      RunInOrder(cfg, s, init, Run(cfg, s, init).value);
      StepInOrder(cfg, init, Run(cfg, s, init).value, l, t);
      assert init + [l] == ls;
    }
  }

  /** In every run a pinning command that has not ended has pinned, is fetching and has still to fetch
      exactly the descriptors it began with, in this order.  One that does not pin has still to fetch its
      list without as many leading descriptors as it has started fetches. */
  lemma {:induction false} NothingSkipped(cfg: Config, s: State, ls: seq<Label>, t: State, i: nat)
    requires Init(cfg, s) && Run(cfg, s, ls) == Ok(t) && i < |t.commands| && !t.commands[i].phase.Finished?
    ensures i < |Begun(ls)| && Begun(ls)[i].Begin? && t.commands[i].pin == Begun(ls)[i].pin
    ensures var c, todo := t.commands[i], Begun(ls)[i].todo;
      && (c.pin ==> c.pinned + (if c.phase.Fetching? then [c.phase.desc] else []) + c.todo == todo)
      && Started(ls, i) <= |todo| && c.todo == todo[Started(ls, i)..]
      && (c.phase.Fetching? ==> Started(ls, i) > 0 && c.phase.desc == todo[Started(ls, i) - 1])
  {
    RunInOrder(cfg, s, ls, t);
    InOrderMeans(t.commands[i], Begun(ls)[i], Started(ls, i));
  }

  lemma {:induction false} InOrderMeans(c: Command, b: Label, k: nat)
    requires b.Begin? && InOrder(c, b, k) && !c.phase.Finished?
    ensures c.pin ==> c.pinned + (if c.phase.Fetching? then [c.phase.desc] else []) + c.todo == b.todo
  {
    if c.phase.Fetching? {
      assert b.todo[..k - 1] + [b.todo[k - 1]] + b.todo[k..] == b.todo;
    } else {
      assert b.todo[..k] + [] + b.todo[k..] == b.todo;
    }
  }

  /** A workflow that is ready and has nothing left to fetch has pinned every descriptor it began with, in
      order; if descriptors agree on sizes, the files are all there and right. */
  lemma {:induction false} WorkflowHasAll(cfg: Config, ds: set<Descriptor>, s: State, ls: seq<Label>, t: State, i: nat)
    requires Init(cfg, s) && Run(cfg, s, ls) == Ok(t) && i < |t.commands|
    requires t.commands[i].pin && t.commands[i].phase.Ready? && t.commands[i].todo == []
    ensures i < |Begun(ls)| && Begun(ls)[i].Begin? && t.commands[i].pinned == Begun(ls)[i].todo
    ensures Uses(ls, ds) && Agree(cfg, ds) ==> forall d :: d in Begun(ls)[i].todo ==> Good(cfg, t.files, d)
  {
    NothingSkipped(cfg, s, ls, t, i);
    assert t.commands[i].pinned + [] + [] == t.commands[i].pinned;
    if Uses(ls, ds) && Agree(cfg, ds) {
      PinSafetyIff(cfg, ds);
      assert PinSafe(cfg, Run(cfg, s, ls).value);
    }
  }

  // ---- how a command ends ----

  /** A cancellation or an error ends the command where it is suspended, and frees the lock if it holds
      one; the end of the work ends it too.  Neither touches a file or another command. */
  lemma {:induction false} EndsExactly(cfg: Config, s: State, l: Label, t: State)
    requires Step(cfg, s, l) == Ok(t) && (l.Abort? || l.Finish?)
    ensures l.i < |s.commands| == |t.commands| && t.commands == s.commands[l.i := t.commands[l.i]]
    ensures t.commands[l.i].phase.Finished? && t.commands[l.i].pinned == [] && t.files == s.files
    ensures t.locked == if InCritical(s.commands[l.i]) then s.locked - {s.commands[l.i].phase.desc.digest} else s.locked
  {
  }

  /** Wherever a command is, it can be ended, and while it has something to fetch it can be asked to. */
  lemma {:induction false} CanAlwaysEnd(cfg: Config, s: State, i: nat)
    requires i < |s.commands| && !s.commands[i].phase.Finished?
    ensures if s.commands[i].phase.Fetching? then Step(cfg, s, Abort(i)).Ok? else Step(cfg, s, Finish(i)).Ok?
    ensures s.commands[i].phase.Ready? && s.commands[i].todo != [] ==>
      forall permitted :: Step(cfg, s, Start(i, permitted)).Ok?
  {
  }

  /** A start is granted exactly if the descriptor is permitted and fits the cache by itself; then the
      command waits for the lock, with its pin taken.  Otherwise it ends. */
  lemma {:induction false} StartsExactly(cfg: Config, s: State, i: nat, permitted: bool, t: State)
    requires Step(cfg, s, Start(i, permitted)) == Ok(t)
    ensures i < |s.commands| == |t.commands| && s.commands[i].phase.Ready? && s.commands[i].todo != []
    ensures var desc := s.commands[i].todo[0];
      if permitted && desc.size <= cfg.maximum then
        && t.commands[i].phase == Fetching(desc, Waiting)
        && PinsOf(t.pins, desc.digest) == PinsOf(s.pins, desc.digest) + (if s.commands[i].pin then 1 else 0)
      else t.commands[i].phase.Finished?
    ensures t.files == s.files && t.locked == s.locked
  {
  }

  /** A fetch reads its file exactly if it is still there and not beyond the bound, refreshes it exactly if
      it is still there, puts it in place exactly if it is verified, and raises otherwise. */
  lemma {:induction false} RaisesExactly(cfg: Config, s: State, l: Label, t: State)
    requires Step(cfg, s, l) == Ok(t) && (l.ReadFile? || l.Touch? || l.Land?)
    ensures l.i < |s.commands| == |t.commands| && InCritical(s.commands[l.i])
    ensures var desc := s.commands[l.i].phase.desc;
      t.commands[l.i].phase.Finished? <==>
        match l
        case ReadFile(_) => desc.digest !in s.files || |s.files[desc.digest].content| > cfg.maximum
        case Touch(_, _) => desc.digest !in s.files
        case Land(_, content, _) => |content| != desc.size || cfg.hash(content) != desc.digest
        case _ => true
  {
  }

  /** Making space lets a fetch go on exactly if what cannot go, and what the fetch needs, fit. */
  lemma {:induction false} SpaceExactly(cfg: Config, s: State, l: Label, t: State)
    requires Step(cfg, s, l) == Ok(t) && (l.Reuse? || l.Reserve?)
    ensures l.i < |s.commands| == |t.commands| && InCritical(s.commands[l.i])
    ensures var desc := s.commands[l.i].phase.desc;
      !t.commands[l.i].phase.Finished? <==>
        KeptBytes(s.files, s.pins, desc.digest) + (if l.Reuse? then 0 else desc.size) <= cfg.maximum
  {
    var desc := s.commands[l.i].phase.desc;
    MakeSpaceSucceedsIff(s.files, s.pins, desc.digest, if l.Reuse? then 0 else desc.size, cfg.maximum);
  }
}
