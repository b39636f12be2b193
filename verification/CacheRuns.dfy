/** Runs of the cache protocol put together step by step. */
module CacheRuns {
  import opened Wrappers
  import opened Eviction
  import opened Transfers
  import opened CacheProtocol

  predicate IsDownloading(c: Command) {
    c.phase.Fetching? && c.phase.stage == Downloading
  }

  lemma {:induction false} Extend(cfg: Config, s: State, ls: seq<Label>, m: State, l: Label, t: State)
    requires Run(cfg, s, ls) == Ok(m) && Step(cfg, m, l) == Ok(t)
    ensures Run(cfg, s, ls + [l]) == Ok(t)
  {
    assert (ls + [l])[..|ls + [l]| - 1] == ls;
  }

  /** m with one more command, which is fetching. */
  ghost function During(m: State, pin: bool, desc: Descriptor, stage: Stage, files: Store, pins: Pins): State {
    m.(commands := m.commands + [Command(pin, [], Fetching(desc, stage), [])],
       files := files, pins := pins, locked := if stage == Waiting then m.locked else m.locked + {desc.digest})
  }

  ghost predicate Leads(cfg: Config, s: State, ls: seq<Label>, t: State) {
    Run(cfg, s, ls) == Ok(t)
  }

  lemma {:induction false} LastMoves(cs: seq<Command>, c: Command, c': Command)
    ensures (cs + [c])[|cs| := c'] == cs + [c']
  {
  }

  /** A flash of b has begun and waits for the digest lock. */
  ghost function Queued(m: State, b: Descriptor): State {
    During(m, true, b, Waiting, m.files, AddPin(m.pins, b.digest))
  }

  lemma {:induction false} QueueFlash(cfg: Config, s: State, ls: seq<Label>, m: State, b: Descriptor)
    requires Run(cfg, s, ls) == Ok(m) && b.size <= cfg.maximum
    ensures Leads(cfg, s, ls + [Begin(true, [b])] + [Start(|m.commands|, true)], Queued(m, b))
  {
    var i := |m.commands|;
    var begun := m.(commands := m.commands + [Command(true, [b], Ready, [])]);
    Extend(cfg, s, ls, m, Begin(true, [b]), begun);
    assert [b][1..] == [];
    LastMoves(m.commands, begun.commands[i], Queued(m, b).commands[i]);
    Extend(cfg, s, ls + [Begin(true, [b])], begun, Start(i, true), Queued(m, b));
  }

  lemma {:induction false} UsesMore(ls: seq<Label>, l: Label, ds: set<Descriptor>)
    requires Uses(ls, ds) && (l.Begin? ==> forall d :: d in l.todo ==> d in ds)
    ensures Uses(ls + [l], ds)
  {
  }

  ghost function Empty(): State {
    State([], map[], {}, map[], multiset{}, 0)
  }

  /** While there is room for b, a flash of it gets as far as its download. */
  lemma {:induction false} ReserveFrom(cfg: Config, ds: set<Descriptor>, s: State, ls: seq<Label>, m: State, b: Descriptor)
    returns (ls': seq<Label>, t: State)
    requires Uses(ls, ds) && b in ds
    requires Run(cfg, s, ls) == Ok(m) && b.digest !in m.locked && b.digest !in m.files
    requires Total(m.files) + b.size <= cfg.maximum
    ensures Run(cfg, s, ls') == Ok(t) && Uses(ls', ds)
    ensures t.commands == m.commands + [Command(true, [], Fetching(b, Downloading), [])]
    ensures t.files == m.files && t.locked == m.locked + {b.digest} && t.pins == AddPin(m.pins, b.digest)
  {
    var i, pins := |m.commands|, AddPin(m.pins, b.digest);
    QueueFlash(cfg, s, ls, m, b);
    var lq := ls + [Begin(true, [b])] + [Start(i, true)];
    UsesMore(ls, Begin(true, [b]), ds);
    UsesMore(ls + [Begin(true, [b])], Start(i, true), ds);
    var locked := During(m, true, b, Reserving, m.files, pins);
    LastMoves(m.commands, Queued(m, b).commands[i], locked.commands[i]);
    Extend(cfg, s, lq, Queued(m, b), TakeLock(i), locked);
    UsesMore(lq, TakeLock(i), ds);
    t := ReserveIdle(cfg, s, lq + [TakeLock(i)], m, b, pins);
    UsesMore(lq + [TakeLock(i)], Reserve(i), ds);
    ls' := lq + [TakeLock(i)] + [Reserve(i)];
  }

  lemma {:induction false} ReserveIdle(cfg: Config, s: State, ls: seq<Label>, m: State, b: Descriptor, pins: Pins) returns (t: State)
    requires Leads(cfg, s, ls, During(m, true, b, Reserving, m.files, pins))
    requires Total(m.files) + b.size <= cfg.maximum
    ensures Leads(cfg, s, ls + [Reserve(|m.commands|)], t)
    ensures exists slack :: t == During(m, true, b, Downloading, m.files, pins).(slack := slack)
  {
    var i, before := |m.commands|, During(m, true, b, Reserving, m.files, pins);
    t := During(m, true, b, Downloading, m.files, pins).(slack := Reserved(before.commands));
    LastMoves(m.commands, before.commands[i], t.commands[i]);
    MakeSpaceIdle(m.files, pins, b.digest, b.size, cfg.maximum);
    Extend(cfg, s, ls, before, Reserve(i), t);
  }

  /** A verified download adds its bytes and leaves its pin with the command. */
  lemma {:induction false} LandNew(cfg: Config, s: State, ls: seq<Label>, m: State, i: nat, content: seq<Byte>) returns (t: State)
    requires Run(cfg, s, ls) == Ok(m) && i < |m.commands| && IsDownloading(m.commands[i])
    requires var desc := m.commands[i].phase.desc; Matches(cfg, content, desc) && desc.digest !in m.files
    ensures var desc := m.commands[i].phase.desc;
      && Run(cfg, s, ls + [Land(i, content, 0)]) == Ok(t)
      && t.files == m.files[desc.digest := File(content, 0, 0)] && t.locked == m.locked - {desc.digest}
      && Total(t.files) == Total(m.files) + desc.size
      && |t.commands| == |m.commands| && (m.commands[i].pin ==> desc in t.commands[i].pinned)
      && forall j :: 0 <= j < |m.commands| && j != i ==> t.commands[j] == m.commands[j]
  {
    var d := m.commands[i].phase.desc.digest;
    t := Return(m.(files := m.files[d := File(content, 0, 0)]), i);
    Extend(cfg, s, ls, m, Land(i, content, 0), t);
    TotalWith(m.files, d, File(content, 0, 0));
    assert m.files - {d} == m.files;
  }

  /** A waiting fetch takes the lock, reads its file, finds it wrong and removes it. */
  lemma {:induction false} ReadMismatch(cfg: Config, s: State, ls: seq<Label>, m: State, b: Descriptor, pins: Pins)
    requires Leads(cfg, s, ls, During(m, true, b, Waiting, m.files, pins))
    requires b.digest !in m.locked && b.digest in m.files
    requires |m.files[b.digest].content| <= cfg.maximum && |m.files[b.digest].content| != b.size
    ensures Leads(cfg, s, ls + [TakeLock(|m.commands|)] + [ReadFile(|m.commands|)] + [Decide(|m.commands|)],
                  During(m, true, b, Reserving, m.files - {b.digest}, pins))
  {
    var i, content := |m.commands|, m.files[b.digest].content;
    var waiting := During(m, true, b, Waiting, m.files, pins);
    var hashing := During(m, true, b, Hashing, m.files, pins);
    var checked := During(m, true, b, Checked(|content|, cfg.hash(content)), m.files, pins);
    var unlinked := During(m, true, b, Reserving, m.files - {b.digest}, pins);
    LastMoves(m.commands, waiting.commands[i], hashing.commands[i]);
    LastMoves(m.commands, hashing.commands[i], checked.commands[i]);
    LastMoves(m.commands, checked.commands[i], unlinked.commands[i]);
    Extend(cfg, s, ls, waiting, TakeLock(i), hashing);
    Extend(cfg, s, ls + [TakeLock(i)], hashing, ReadFile(i), checked);
    Extend(cfg, s, ls + [TakeLock(i)] + [ReadFile(i)], checked, Decide(i), unlinked);
  }

  /** A fetch of b that finds a file of another size unlinks it, whoever has it pinned. */
  lemma {:induction false} RefetchUnlinks(cfg: Config, ds: set<Descriptor>, s: State, ls: seq<Label>, m: State, b: Descriptor)
    returns (ls': seq<Label>, t: State)
    requires Run(cfg, s, ls) == Ok(m) && b.size <= cfg.maximum && b.digest !in m.locked && b.digest in m.files
    requires |m.files[b.digest].content| <= cfg.maximum && |m.files[b.digest].content| != b.size
    requires Uses(ls, ds) && b in ds
    ensures Run(cfg, s, ls') == Ok(t) && Uses(ls', ds)
    ensures |t.commands| == |m.commands| + 1 && forall j :: 0 <= j < |m.commands| ==> t.commands[j] == m.commands[j]
    ensures b.digest !in t.files
  {
    var i, pins := |m.commands|, AddPin(m.pins, b.digest);
    QueueFlash(cfg, s, ls, m, b);
    var lq := ls + [Begin(true, [b])] + [Start(i, true)];
    UsesMore(ls, Begin(true, [b]), ds);
    UsesMore(ls + [Begin(true, [b])], Start(i, true), ds);
    ReadMismatch(cfg, s, lq, m, b, pins);
    UsesMore(lq, TakeLock(i), ds);
    UsesMore(lq + [TakeLock(i)], ReadFile(i), ds);
    UsesMore(lq + [TakeLock(i)] + [ReadFile(i)], Decide(i), ds);
    ls' := lq + [TakeLock(i)] + [ReadFile(i)] + [Decide(i)];
    t := During(m, true, b, Reserving, m.files - {b.digest}, pins);
  }
}
