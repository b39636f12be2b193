/** Concurrent use of the Agent artifact cache as a state machine.

    Each step is what one asyncio task does between two suspension points, so tasks interleave
    freely at every `await`.  A command is a flash (one descriptor), a workflow (its descriptors
    in order), or a single fetch without a pin.  `leaked` and `slack` are history variables: no
    step reads them. */
module CacheProtocol {
  import opened Wrappers
  import opened Eviction
  import opened Transfers

  datatype Config = Config(maximum: nat, hash: Hash)

  datatype Descriptor = Descriptor(digest: Digest, size: nat)

  /** Where a fetch is suspended.  All but Waiting hold the digest lock. */
  datatype Stage =
    | Waiting                              // for the digest lock
    | Hashing                              // the file was there; its bytes are about to be read
    | Checked(size: nat, digest: Digest)   // they have been read
    | Touching                             // they matched; about to refresh the time stamps
    | Reusing                              // about to make space for nothing more
    | Reserving                            // about to make space for the download
    | Downloading                          // space was made; the download has not landed

  datatype Phase = Ready | Fetching(desc: Descriptor, stage: Stage) | Finished

  datatype Command = Command(pin: bool, todo: seq<Descriptor>, phase: Phase, pinned: seq<Descriptor>)

  datatype State = State(
    commands: seq<Command>,
    files: Store,
    locked: set<Digest>,
    pins: Pins,
    leaked: multiset<Digest>,
    slack: nat)

  datatype Label =
    | Begin(pin: bool, todo: seq<Descriptor>)
    | Start(i: nat, permitted: bool)   // origin and expiry checks passed
    | TakeLock(i: nat)
    | ReadFile(i: nat)
    | Decide(i: nat)
    | Touch(i: nat, now: int)
    | Reuse(i: nat)
    | Reserve(i: nat)
    | Land(i: nat, content: seq<Byte>, now: int)
    | Abort(i: nat)                    // an error or a cancellation at any suspension point
    | Finish(i: nat)                   // the command ends: success, failure or cancellation

  // ---- pins ----

  function AddPin(pins: Pins, d: Digest): Pins {
    pins[d := PinsOf(pins, d) + 1]
  }

  function DropPin(pins: Pins, d: Digest): Pins {
    if PinsOf(pins, d) <= 1 then pins - {d} else pins[d := pins[d] - 1]
  }

  function DropAll(pins: Pins, held: seq<Descriptor>): Pins {
    if held == [] then pins else DropAll(DropPin(pins, held[0].digest), held[1..])
  }

  // ---- steps ----

  predicate Matches(cfg: Config, content: seq<Byte>, desc: Descriptor) {
    |content| == desc.size && cfg.hash(content) == desc.digest
  }

  predicate InCritical(c: Command) {
    c.phase.Fetching? && c.phase.stage != Waiting
  }

  function At(c: Command, stage: Stage): Command
    requires c.phase.Fetching?
  {
    c.(phase := Fetching(c.phase.desc, stage))
  }

  function With(s: State, i: nat, c: Command): State
    requires i < |s.commands|
  {
    s.(commands := s.commands[i := c])
  }

  /** `finally`: every digest the command pinned is released. */
  function EndCommand(s: State, i: nat): State
    requires i < |s.commands|
  {
    var c := s.commands[i];
    With(s, i, c.(phase := Finished, pinned := [])).(pins := DropAll(s.pins, c.pinned))
  }

  /** A fetch that raises with the digest lock held: its own pin goes, the lock goes, the command ends. */
  function Raise(s: State, i: nat): State
    requires i < |s.commands| && InCritical(s.commands[i])
  {
    var c := s.commands[i];
    var d := c.phase.desc.digest;
    EndCommand(s.(pins := if c.pin then DropPin(s.pins, d) else s.pins, locked := s.locked - {d}), i)
  }

  /** A fetch that returns: the lock goes; a pinning fetch leaves its pin with the command. */
  function Return(s: State, i: nat): State
    requires i < |s.commands| && InCritical(s.commands[i])
  {
    var c := s.commands[i];
    var desc := c.phase.desc;
    With(s, i, c.(phase := Ready, pinned := if c.pin then c.pinned + [desc] else c.pinned))
      .(locked := s.locked - {desc.digest})
  }

  /** Bytes of the downloads that made space and have not landed. */
  function Reserved(cs: seq<Command>): nat {
    if cs == [] then 0 else Reserved(cs[..|cs| - 1]) + ReservedBy(cs[|cs| - 1])
  }

  function ReservedBy(c: Command): nat {
    if c.phase.Fetching? && c.phase.stage == Downloading then c.phase.desc.size else 0
  }

  ghost function Step(cfg: Config, s: State, l: Label): Outcome<State> {
    if l.Begin? then
      Ok(s.(commands := s.commands + [Command(l.pin, l.todo, Ready, [])]))
    else if l.i >= |s.commands| then Failed
    else
      var c := s.commands[l.i];
      match c.phase
      case Finished => Failed
      case Ready =>
        if l.Finish? then Ok(EndCommand(s, l.i))
        else if l.Start? && c.todo != [] then
          var desc := c.todo[0];
          if !l.permitted || desc.size > cfg.maximum then Ok(EndCommand(s, l.i))
          else Ok(With(s, l.i, c.(todo := c.todo[1..], phase := Fetching(desc, Waiting)))
                    .(pins := if c.pin then AddPin(s.pins, desc.digest) else s.pins))
        else Failed
      case Fetching(desc, stage) =>
        if l.Abort? then
          if stage == Waiting then
            // the wait for the lock lies before the `try`, so the pin just taken stays behind
            Ok(EndCommand(s.(leaked := if c.pin then s.leaked + multiset{desc.digest} else s.leaked), l.i))
          else Ok(Raise(s, l.i))
        else FetchStep(cfg, s, l, c, desc, stage)
  }

  ghost function FetchStep(cfg: Config, s: State, l: Label, c: Command, desc: Descriptor, stage: Stage): Outcome<State>
    requires !l.Begin? && l.i < |s.commands| && s.commands[l.i] == c && c.phase == Fetching(desc, stage)
  {
    var d := desc.digest;
    if l.TakeLock? && stage == Waiting && d !in s.locked then
      Ok(With(s, l.i, At(c, if d in s.files then Hashing else Reserving)).(locked := s.locked + {d}))
    else if l.ReadFile? && stage == Hashing then
      if d !in s.files || |s.files[d].content| > cfg.maximum then Ok(Raise(s, l.i))
      else
        var content := s.files[d].content;
        Ok(With(s, l.i, At(c, Checked(|content|, cfg.hash(content)))))
    else if l.Decide? && stage.Checked? then
      if stage.size == desc.size && stage.digest == d then Ok(With(s, l.i, At(c, Touching)))
      else Ok(With(s, l.i, At(c, Reserving)).(files := s.files - {d}))
    else if l.Touch? && stage == Touching then
      if d !in s.files then Ok(Raise(s, l.i))
      else Ok(With(s, l.i, At(c, Reusing)).(files := s.files[d := File(s.files[d].content, l.now, l.now)]))
    else if l.Reuse? && stage == Reusing then
      var space := MakeSpace(s.files, s.pins, d, 0, cfg.maximum);
      if space.ok then Ok(Return(s.(files := space.files, slack := Reserved(s.commands)), l.i))
      else Ok(Raise(s.(files := space.files), l.i))
    else if l.Reserve? && stage == Reserving then
      var space := MakeSpace(s.files, s.pins, d, desc.size, cfg.maximum);
      if space.ok then Ok(With(s.(files := space.files, slack := Reserved(s.commands)), l.i, At(c, Downloading)))
      else Ok(Raise(s.(files := space.files), l.i))
    else if l.Land? && stage == Downloading then
      if Matches(cfg, l.content, desc) then
        Ok(Return(s.(files := s.files[d := File(l.content, l.now, l.now)]), l.i))
      else Ok(Raise(s, l.i))
    else Failed
  }

  // ---- runs ----

  /** Any files may be there at the start, corrupt ones included; the slack starts as the overshoot. */
  ghost predicate Init(cfg: Config, s: State) {
    && s.commands == [] && s.locked == {} && s.pins == map[] && s.leaked == multiset{}
    && s.slack == if Total(s.files) > cfg.maximum then Total(s.files) - cfg.maximum else 0
  }

  ghost function Run(cfg: Config, s: State, ls: seq<Label>): Outcome<State> {
    if ls == [] then Ok(s)
    else
      match Run(cfg, s, ls[..|ls| - 1])
      case Failed => Failed
      case Ok(m) => Step(cfg, m, ls[|ls| - 1])
  }

  /** Every descriptor a run uses comes from ds. */
  ghost predicate Uses(ls: seq<Label>, ds: set<Descriptor>) {
    forall k :: 0 <= k < |ls| && ls[k].Begin? ==> forall d :: d in ls[k].todo ==> d in ds
  }

  // ---- holds ----

  function Count(held: seq<Descriptor>, d: Digest): nat {
    if held == [] then 0 else (if held[0].digest == d then 1 else 0) + Count(held[1..], d)
  }

  /** Pins one command accounts for: fetched and not yet released, plus a pinning fetch in progress. */
  function Holds(c: Command, d: Digest): nat {
    Count(c.pinned, d) + if c.pin && c.phase.Fetching? && c.phase.desc.digest == d then 1 else 0
  }

  function AllHolds(cs: seq<Command>, d: Digest): nat {
    if cs == [] then 0 else AllHolds(cs[..|cs| - 1], d) + Holds(cs[|cs| - 1], d)
  }

  lemma {:induction false} AllHoldsUpdate(cs: seq<Command>, i: nat, c: Command, d: Digest)
    requires i < |cs|
    ensures AllHolds(cs[i := c], d) + Holds(cs[i], d) == AllHolds(cs, d) + Holds(c, d)
    ensures Holds(cs[i], d) <= AllHolds(cs, d)
    decreases |cs|
  {
    var n := |cs| - 1;
    if i < n {
      AllHoldsUpdate(cs[..n], i, c, d);
      assert cs[i := c][..n] == cs[..n][i := c];
    } else {
      assert cs[i := c][..n] == cs[..n];
    }
  }

  lemma {:induction false} ReservedUpdate(cs: seq<Command>, i: nat, c: Command)
    requires i < |cs|
    ensures Reserved(cs[i := c]) + ReservedBy(cs[i]) == Reserved(cs) + ReservedBy(c)
    ensures ReservedBy(cs[i]) <= Reserved(cs)
    decreases |cs|
  {
    var n := |cs| - 1;
    if i < n {
      ReservedUpdate(cs[..n], i, c);
      assert cs[i := c][..n] == cs[..n][i := c];
    } else {
      assert cs[i := c][..n] == cs[..n];
    }
  }

  lemma {:induction false} CountAppend(held: seq<Descriptor>, x: Descriptor, d: Digest)
    ensures Count(held + [x], d) == Count(held, d) + if x.digest == d then 1 else 0
  {
    if held == [] {
      assert held + [x] == [x];
    } else {
      CountAppend(held[1..], x, d);
      assert (held + [x])[1..] == held[1..] + [x];
    }
  }

  lemma {:induction false} CountMember(held: seq<Descriptor>, x: Descriptor)
    requires x in held
    ensures Count(held, x.digest) > 0
  {
    if held[0] != x {
      CountMember(held[1..], x);
    }
  }

  /** No key is stored with a zero. */
  predicate NoZeros(pins: Pins) {
    forall d :: d in pins ==> pins[d] > 0
  }

  lemma {:induction false} DropAllCounts(pins: Pins, held: seq<Descriptor>, d: Digest)
    requires NoZeros(pins)
    requires forall x :: Count(held, x) <= PinsOf(pins, x)
    ensures NoZeros(DropAll(pins, held))
    ensures PinsOf(DropAll(pins, held), d) == PinsOf(pins, d) - Count(held, d)
  {
    if held != [] {
      var rest := DropPin(pins, held[0].digest);
      forall x ensures Count(held[1..], x) <= PinsOf(rest, x) {
        assert Count(held, x) <= PinsOf(pins, x);
      }
      assert Count(held, held[0].digest) <= PinsOf(pins, held[0].digest);
      DropAllCounts(rest, held[1..], d);
    }
  }
}
