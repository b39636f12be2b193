/** One fetch with nothing interleaved: what it comes to, and the run of the protocol that it is. */
module FetchAlone {
  import opened Wrappers
  import opened Eviction
  import opened Transfers
  import opened CacheProtocol
  import opened CacheRuns

  predicate Matching(hash: Hash, files: Store, desc: Descriptor) {
    && desc.digest in files && |files[desc.digest].content| == desc.size
    && hash(files[desc.digest].content) == desc.digest
  }

  predicate Delivers(hash: Hash, response: Response, desc: Descriptor) {
    && LengthAgrees(response, desc.size)
    && |Flatten(response.body)| == desc.size && hash(Flatten(response.body)) == desc.digest
  }

  datatype Fetched = Fetched(ok: bool, files: Store, pins: Pins)

  ghost function Hit(cfg: Config, files: Store, pins: Pins, desc: Descriptor, now: int): Space
    requires desc.digest in files
  {
    MakeSpace(files[desc.digest := File(files[desc.digest].content, now, now)], pins, desc.digest, 0, cfg.maximum)
  }

  ghost function Miss(cfg: Config, files: Store, pins: Pins, desc: Descriptor, response: Response, now: int): Space {
    var space := MakeSpace(files, pins, desc.digest, desc.size, cfg.maximum);
    if space.ok && Delivers(cfg.hash, response, desc) then
      Space(space.files[desc.digest := File(Flatten(response.body), now, now)], true)
    else Space(space.files, false)
  }

  /** The part under the digest lock. */
  ghost function Served(cfg: Config, files: Store, pins: Pins, desc: Descriptor, response: Response, now: int): Space {
    if desc.digest in files && |files[desc.digest].content| > cfg.maximum then Space(files, false)
    else if Matching(cfg.hash, files, desc) then Hit(cfg, files, pins, desc, now)
    else Miss(cfg, files - {desc.digest}, pins, desc, response, now)
  }

  /** The whole fetch. */
  ghost function Alone(cfg: Config, files: Store, pins: Pins, desc: Descriptor, pin: bool, permitted: bool,
      response: Response, now: int): Fetched
  {
    if !permitted || desc.size > cfg.maximum then Fetched(false, files, pins)
    else
      var pinned := if pin then AddPin(pins, desc.digest) else pins;
      var space := Served(cfg, files, pinned, desc, response, now);
      Fetched(space.ok, space.files, if pin && !space.ok then DropPin(pinned, desc.digest) else pinned)
  }

  // ---- what it means ----

  /** The time stamps that eviction goes by were set at `now`. */
  predicate UsedAt(files: Store, d: Digest, now: int) {
    d in files && files[d] == File(files[d].content, now, now)
  }

  /** Nothing but the fetched digest is added or altered, and what is pinned stays. */
  predicate OthersKept(before: Store, after: Store, pins: Pins, digest: Digest) {
    && (forall d :: d in after && d != digest ==> d in before && after[d] == before[d])
    && (forall d :: d in before && d != digest && PinsOf(pins, d) > 0 ==> d in after)
  }

  lemma {:induction false} KeptElsewhere(files: Store, pins: Pins, pins': Pins, d: Digest)
    requires forall x :: x != d ==> PinsOf(pins, x) == PinsOf(pins', x)
    ensures KeptBytes(files - {d}, pins, d) == KeptBytes(files - {d}, pins', d)
  {
    var rest := files - {d};
    assert (map x | x in rest && Kept(pins, d, x) :: rest[x]) == (map x | x in rest && Kept(pins', d, x) :: rest[x]);
  }

  /** The bytes kept once d, which is retained, is there as f. */
  lemma {:induction false} KeptTouched(files: Store, pins: Pins, d: Digest, f: File)
    ensures KeptBytes(files[d := f], pins, d) == KeptBytes(files - {d}, pins, d) + |f.content|
  {
    var next, rest := files[d := f], files - {d};
    var all := map x | x in next && Kept(pins, d, x) :: next[x];
    assert all - {d} == (map x | x in rest && Kept(pins, d, x) :: rest[x]);
    TotalWithout(all, d);
  }

  /** A fetch under the lock succeeds: a file found is not beyond the bound, what is needed fits beside the
      files that cannot go, and either the file or the response is what the descriptor announces. */
  ghost predicate Servable(cfg: Config, files: Store, pins: Pins, desc: Descriptor, response: Response) {
    && (desc.digest in files ==> |files[desc.digest].content| <= cfg.maximum)
    && KeptBytes(files - {desc.digest}, pins, desc.digest) + desc.size <= cfg.maximum
    && (Matching(cfg.hash, files, desc) || Delivers(cfg.hash, response, desc))
  }

  /** After a success the announced file is there, just used, and the cache is within its maximum; in any
      case no other file is altered and no other pinned file goes. */
  ghost predicate Serves(cfg: Config, before: Store, pins: Pins, desc: Descriptor, now: int, space: Space) {
    && (space.ok ==> Matching(cfg.hash, space.files, desc) && Total(space.files) <= cfg.maximum
                     && UsedAt(space.files, desc.digest, now))
    && OthersKept(before, space.files, pins, desc.digest)
  }

  lemma {:induction false} HitMeans(cfg: Config, files: Store, pins: Pins, desc: Descriptor, now: int)
    requires Matching(cfg.hash, files, desc)
    ensures var space := Hit(cfg, files, pins, desc, now);
      && Serves(cfg, files, pins, desc, now, space)
      && (space.ok <==> KeptBytes(files - {desc.digest}, pins, desc.digest) + desc.size <= cfg.maximum)
  {
    HitServes(cfg, files, pins, desc, now);
    var touched := File(files[desc.digest].content, now, now);
    MakeSpaceSucceedsIff(files[desc.digest := touched], pins, desc.digest, 0, cfg.maximum);
    KeptTouched(files, pins, desc.digest, touched);
  }

  lemma {:induction false} HitServes(cfg: Config, files: Store, pins: Pins, desc: Descriptor, now: int)
    requires Matching(cfg.hash, files, desc)
    ensures Serves(cfg, files, pins, desc, now, Hit(cfg, files, pins, desc, now))
  {
    var touched := files[desc.digest := File(files[desc.digest].content, now, now)];
    MakeSpaceKeeps(touched, pins, desc.digest, 0, cfg.maximum);
  }

  lemma {:induction false} MissMeans(cfg: Config, files: Store, pins: Pins, desc: Descriptor, response: Response, now: int)
    requires desc.digest !in files
    ensures var space := Miss(cfg, files, pins, desc, response, now);
      && Serves(cfg, files, pins, desc, now, space)
      && (space.ok <==> KeptBytes(files, pins, desc.digest) + desc.size <= cfg.maximum && Delivers(cfg.hash, response, desc))
  {
    var d := desc.digest;
    MakeSpaceKeeps(files, pins, d, desc.size, cfg.maximum);
    MakeSpaceSucceedsIff(files, pins, d, desc.size, cfg.maximum);
    TotalWith(MakeSpace(files, pins, d, desc.size, cfg.maximum).files, d, File(Flatten(response.body), now, now));
  }

  lemma {:induction false} ServedMeans(cfg: Config, files: Store, pins: Pins, desc: Descriptor, response: Response, now: int)
    ensures var space := Served(cfg, files, pins, desc, response, now);
      && Serves(cfg, files, pins, desc, now, space)
      && (space.ok <==> Servable(cfg, files, pins, desc, response))
  {
    if Matching(cfg.hash, files, desc) {
      HitMeans(cfg, files, pins, desc, now);
    } else {
      MissMeans(cfg, files - {desc.digest}, pins, desc, response, now);
    }
  }

  /** When a fetch succeeds, what it leaves, and that its own pin is the only one that changes. */
  lemma {:induction false} AloneMeans(cfg: Config, files: Store, pins: Pins, desc: Descriptor, pin: bool, permitted: bool,
      response: Response, now: int)
    ensures var r := Alone(cfg, files, pins, desc, pin, permitted, response, now);
      && (r.ok <==> permitted && desc.size <= cfg.maximum && Servable(cfg, files, pins, desc, response))
      && Serves(cfg, files, pins, desc, now, Space(r.files, r.ok))
      && (if r.ok && pin then r.pins == AddPin(pins, desc.digest)
          else forall d :: PinsOf(r.pins, d) == PinsOf(pins, d))
  {
    if permitted && desc.size <= cfg.maximum {
      var pinned := if pin then AddPin(pins, desc.digest) else pins;
      ServedMeans(cfg, files, pinned, desc, response, now);
      KeptElsewhere(files, pins, pinned, desc.digest);
    }
  }

  // ---- the run ----

  /** The fetch has ended in t as it does alone; nothing else moved, and the lock is free again. */
  ghost predicate EndsAs(m: State, t: State, pin: bool, desc: Descriptor, r: Fetched) {
    && t.files == r.files && t.pins == r.pins && t.locked == m.locked && t.leaked == m.leaked
    && |t.commands| == |m.commands| + 1 && t.commands[..|m.commands|] == m.commands
    && var c := t.commands[|m.commands|];
    && c.phase == (if r.ok then Ready else Finished)
    && c.pinned == if r.ok && pin then [desc] else []
  }

  /** A fetch that raises under the lock. */
  lemma {:induction false} RaiseEnds(m: State, pin: bool, desc: Descriptor, stage: Stage, files: Store, pins: Pins, slack: nat)
    requires stage != Waiting && desc.digest !in m.locked
    ensures var d := During(m, pin, desc, stage, files, pins).(slack := slack);
      EndsAs(m, Raise(d, |m.commands|), pin, desc,
             Fetched(false, files, if pin then DropPin(pins, desc.digest) else pins))
  {
    var locked := m.locked + {desc.digest};
    assert locked - {desc.digest} == m.locked;
  }

  lemma {:induction false} ReturnEnds(m: State, pin: bool, desc: Descriptor, stage: Stage, files: Store, pins: Pins, slack: nat)
    requires stage != Waiting && desc.digest !in m.locked
    ensures var d := During(m, pin, desc, stage, files, pins).(slack := slack);
      EndsAs(m, Return(d, |m.commands|), pin, desc, Fetched(true, files, pins))
  {
    var locked := m.locked + {desc.digest};
    assert locked - {desc.digest} == m.locked;
  }

  /** From the refreshed time stamps on. */
  lemma {:induction false} HitRun(cfg: Config, s: State, ls: seq<Label>, m: State, pin: bool, desc: Descriptor, files: Store, pins: Pins, now: int)
    returns (ls': seq<Label>, t: State)
    requires desc.digest !in m.locked && desc.digest in files
    requires Leads(cfg, s, ls, During(m, pin, desc, Touching, files, pins))
    ensures Leads(cfg, s, ls', t)
    ensures var space := Hit(cfg, files, pins, desc, now);
      EndsAs(m, t, pin, desc,
             Fetched(space.ok, space.files, if pin && !space.ok then DropPin(pins, desc.digest) else pins))
  {
    var i, d := |m.commands|, desc.digest;
    var touched := files[d := File(files[d].content, now, now)];
    var before, after := During(m, pin, desc, Touching, files, pins), During(m, pin, desc, Reusing, touched, pins);
    LastMoves(m.commands, before.commands[i], after.commands[i]);
    Extend(cfg, s, ls, before, Touch(i, now), after);
    ls', t := ReuseRun(cfg, s, ls + [Touch(i, now)], m, pin, desc, touched, pins);
  }

  lemma {:induction false} ReuseRun(cfg: Config, s: State, ls: seq<Label>, m: State, pin: bool, desc: Descriptor, files: Store, pins: Pins)
    returns (ls': seq<Label>, t: State)
    requires desc.digest !in m.locked
    requires Leads(cfg, s, ls, During(m, pin, desc, Reusing, files, pins))
    ensures Leads(cfg, s, ls', t)
    ensures var space := MakeSpace(files, pins, desc.digest, 0, cfg.maximum);
      EndsAs(m, t, pin, desc,
             Fetched(space.ok, space.files, if pin && !space.ok then DropPin(pins, desc.digest) else pins))
  {
    var i, before := |m.commands|, During(m, pin, desc, Reusing, files, pins);
    t := ReuseStep(cfg, before, i);
    var space := MakeSpace(files, pins, desc.digest, 0, cfg.maximum);
    if space.ok {
      ReturnEnds(m, pin, desc, Reusing, space.files, pins, Reserved(before.commands));
    } else {
      RaiseEnds(m, pin, desc, Reusing, space.files, pins, m.slack);
    }
    Extend(cfg, s, ls, before, Reuse(i), t);
    ls' := ls + [Reuse(i)];
  }

  lemma {:induction false} ReuseStep(cfg: Config, s: State, i: nat) returns (t: State)
    requires i < |s.commands| && s.commands[i].phase.Fetching? && s.commands[i].phase.stage == Reusing
    ensures Step(cfg, s, Reuse(i)) == Ok(t)
    ensures var space := MakeSpace(s.files, s.pins, s.commands[i].phase.desc.digest, 0, cfg.maximum);
      t == if space.ok then Return(s.(files := space.files, slack := Reserved(s.commands)), i)
           else Raise(s.(files := space.files), i)
  {
    var space := MakeSpace(s.files, s.pins, s.commands[i].phase.desc.digest, 0, cfg.maximum);
    t := if space.ok then Return(s.(files := space.files, slack := Reserved(s.commands)), i)
         else Raise(s.(files := space.files), i);
  }

  /** From making space for the download on. */
  lemma {:induction false} MissRun(cfg: Config, s: State, ls: seq<Label>, m: State, pin: bool, desc: Descriptor, files: Store, pins: Pins,
      response: Response, now: int)
    returns (ls': seq<Label>, t: State)
    requires desc.digest !in m.locked
    requires Leads(cfg, s, ls, During(m, pin, desc, Reserving, files, pins))
    ensures Leads(cfg, s, ls', t)
    ensures var space := Miss(cfg, files, pins, desc, response, now);
      EndsAs(m, t, pin, desc,
             Fetched(space.ok, space.files, if pin && !space.ok then DropPin(pins, desc.digest) else pins))
  {
    var i, d := |m.commands|, desc.digest;
    var before := During(m, pin, desc, Reserving, files, pins);
    var space := MakeSpace(files, pins, d, desc.size, cfg.maximum);
    if !space.ok {
      t := Raise(before.(files := space.files), i);
      RaiseEnds(m, pin, desc, Reserving, space.files, pins, m.slack);
      Extend(cfg, s, ls, before, Reserve(i), t);
      ls' := ls + [Reserve(i)];
    } else {
      var slack := Reserved(before.commands);
      var after := During(m, pin, desc, Downloading, space.files, pins).(slack := slack);
      LastMoves(m.commands, before.commands[i], after.commands[i]);
      Extend(cfg, s, ls, before, Reserve(i), after);
      ls' := DownloadRun(cfg, s, ls + [Reserve(i)], m, pin, desc, space.files, pins, slack, response, now);
      t := Run(cfg, s, ls').value;
    }
  }

  lemma {:induction false} DownloadRun(cfg: Config, s: State, ls: seq<Label>, m: State, pin: bool, desc: Descriptor, files: Store, pins: Pins,
      slack: nat, response: Response, now: int)
    returns (ls': seq<Label>)
    requires desc.digest !in m.locked
    requires Leads(cfg, s, ls, During(m, pin, desc, Downloading, files, pins).(slack := slack))
    ensures Run(cfg, s, ls').Ok?
    ensures EndsAs(m, Run(cfg, s, ls').value, pin, desc,
      if Delivers(cfg.hash, response, desc) then
        Fetched(true, files[desc.digest := File(Flatten(response.body), now, now)], pins)
      else Fetched(false, files, if pin then DropPin(pins, desc.digest) else pins))
  {
    var i, d := |m.commands|, desc.digest;
    var before := During(m, pin, desc, Downloading, files, pins).(slack := slack);
    if Delivers(cfg.hash, response, desc) {
      var landed := files[d := File(Flatten(response.body), now, now)];
      var t := Return(before.(files := landed), i);
      ReturnEnds(m, pin, desc, Downloading, landed, pins, slack);
      Extend(cfg, s, ls, before, Land(i, Flatten(response.body), now), t);
      ls' := ls + [Land(i, Flatten(response.body), now)];
    } else {
      var t := Raise(before, i);
      RaiseEnds(m, pin, desc, Downloading, files, pins, slack);
      Extend(cfg, s, ls, before, Abort(i), t);
      ls' := ls + [Abort(i)];
    }
  }

  /** From waiting for the digest lock on. */
  lemma {:induction false} ServedRun(cfg: Config, s: State, ls: seq<Label>, m: State, pin: bool, desc: Descriptor, pins: Pins,
      response: Response, now: int)
    returns (ls': seq<Label>, t: State)
    requires desc.digest !in m.locked
    requires Leads(cfg, s, ls, During(m, pin, desc, Waiting, m.files, pins))
    ensures Leads(cfg, s, ls', t)
    ensures var space := Served(cfg, m.files, pins, desc, response, now);
      EndsAs(m, t, pin, desc,
             Fetched(space.ok, space.files, if pin && !space.ok then DropPin(pins, desc.digest) else pins))
  {
    var i, d := |m.commands|, desc.digest;
    var waiting := During(m, pin, desc, Waiting, m.files, pins);
    var next := During(m, pin, desc, if d in m.files then Hashing else Reserving, m.files, pins);
    LastMoves(m.commands, waiting.commands[i], next.commands[i]);
    Extend(cfg, s, ls, waiting, TakeLock(i), next);
    ls' := ls + [TakeLock(i)];
    if d !in m.files {
      assert m.files - {d} == m.files;
      ls', t := MissRun(cfg, s, ls', m, pin, desc, m.files, pins, response, now);
    } else if |m.files[d].content| > cfg.maximum {
      t := Raise(next, i);
      RaiseEnds(m, pin, desc, Hashing, m.files, pins, m.slack);
      Extend(cfg, s, ls', next, ReadFile(i), t);
      ls' := ls' + [ReadFile(i)];
    } else {
      ls', t := ReadRun(cfg, s, ls', m, pin, desc, pins, response, now);
    }
  }

  lemma {:induction false} ReadRun(cfg: Config, s: State, ls: seq<Label>, m: State, pin: bool, desc: Descriptor, pins: Pins,
      response: Response, now: int)
    returns (ls': seq<Label>, t: State)
    requires desc.digest !in m.locked && desc.digest in m.files && |m.files[desc.digest].content| <= cfg.maximum
    requires Leads(cfg, s, ls, During(m, pin, desc, Hashing, m.files, pins))
    ensures Leads(cfg, s, ls', t)
    ensures var space := Served(cfg, m.files, pins, desc, response, now);
      EndsAs(m, t, pin, desc,
             Fetched(space.ok, space.files, if pin && !space.ok then DropPin(pins, desc.digest) else pins))
  {
    var i, d := |m.commands|, desc.digest;
    var content := m.files[d].content;
    var hashing := During(m, pin, desc, Hashing, m.files, pins);
    var checked := During(m, pin, desc, Checked(|content|, cfg.hash(content)), m.files, pins);
    LastMoves(m.commands, hashing.commands[i], checked.commands[i]);
    Extend(cfg, s, ls, hashing, ReadFile(i), checked);
    ls' := ls + [ReadFile(i)];
    var found := Matching(cfg.hash, m.files, desc);
    var files := if found then m.files else m.files - {d};
    var next := During(m, pin, desc, if found then Touching else Reserving, files, pins);
    LastMoves(m.commands, checked.commands[i], next.commands[i]);
    Extend(cfg, s, ls', checked, Decide(i), next);
    ls' := ls' + [Decide(i)];
    if found {
      ls', t := HitRun(cfg, s, ls', m, pin, desc, files, pins, now);
    } else {
      ls', t := MissRun(cfg, s, ls', m, pin, desc, files, pins, response, now);
    }
  }

  /** The origin, the expiry or the size check refuses. */
  lemma {:induction false} RefusedRun(cfg: Config, s: State, ls: seq<Label>, m: State, desc: Descriptor, pin: bool, permitted: bool)
    returns (ls': seq<Label>, t: State)
    requires Run(cfg, s, ls) == Ok(m) && (!permitted || desc.size > cfg.maximum)
    ensures Run(cfg, s, ls') == Ok(t) && EndsAs(m, t, pin, desc, Fetched(false, m.files, m.pins))
  {
    var i := |m.commands|;
    var begun := m.(commands := m.commands + [Command(pin, [desc], Ready, [])]);
    Extend(cfg, s, ls, m, Begin(pin, [desc]), begun);
    t := EndCommand(begun, i);
    Extend(cfg, s, ls + [Begin(pin, [desc])], begun, Start(i, permitted), t);
    ls' := ls + [Begin(pin, [desc])] + [Start(i, permitted)];
  }

  lemma {:induction false} GrantedRun(cfg: Config, s: State, ls: seq<Label>, m: State, desc: Descriptor, pin: bool)
    requires Run(cfg, s, ls) == Ok(m) && desc.size <= cfg.maximum
    ensures var pins := if pin then AddPin(m.pins, desc.digest) else m.pins;
      Leads(cfg, s, ls + [Begin(pin, [desc])] + [Start(|m.commands|, true)], During(m, pin, desc, Waiting, m.files, pins))
  {
    var i := |m.commands|;
    var begun := m.(commands := m.commands + [Command(pin, [desc], Ready, [])]);
    Extend(cfg, s, ls, m, Begin(pin, [desc]), begun);
    var pins := if pin then AddPin(m.pins, desc.digest) else m.pins;
    var waiting := During(m, pin, desc, Waiting, m.files, pins);
    assert [desc][1..] == [];
    LastMoves(m.commands, begun.commands[i], waiting.commands[i]);
    Extend(cfg, s, ls + [Begin(pin, [desc])], begun, Start(i, true), waiting);
  }

  /** From any state in which the digest lock is free, a fetch that nothing interleaves with is a run of
      the protocol, with the same files, pins and outcome. */
  lemma {:induction false} AloneIsARun(cfg: Config, s: State, ls: seq<Label>, m: State, desc: Descriptor, pin: bool, permitted: bool,
      response: Response, now: int)
    returns (ls': seq<Label>, t: State)
    requires Run(cfg, s, ls) == Ok(m) && desc.digest !in m.locked
    ensures Run(cfg, s, ls') == Ok(t)
    ensures EndsAs(m, t, pin, desc, Alone(cfg, m.files, m.pins, desc, pin, permitted, response, now))
  {
    if !permitted || desc.size > cfg.maximum {
      ls', t := RefusedRun(cfg, s, ls, m, desc, pin, permitted);
    } else {
      GrantedRun(cfg, s, ls, m, desc, pin);
      var pins := if pin then AddPin(m.pins, desc.digest) else m.pins;
      ls', t := ServedRun(cfg, s, ls + [Begin(pin, [desc])] + [Start(|m.commands|, true)], m, pin, desc, pins, response, now);
    }
  }
}
