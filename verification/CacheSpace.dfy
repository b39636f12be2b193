/** How far the artifact cache can outgrow its maximum, over whole runs. */
module CacheSpace {
  import opened Wrappers
  import opened Eviction
  import opened Transfers
  import opened CacheProtocol
  import opened CacheInvariants
  import opened CacheSafety
  import opened CacheRuns

  /** The last step makes space, for a download or after a hit, and succeeds. */
  ghost predicate LastMakesSpace(cfg: Config, s: State, ls: seq<Label>) {
    ls != [] && Run(cfg, s, ls).Ok? && SpaceMade(ls[|ls| - 1], Run(cfg, s, ls).value)
  }

  /** Bytes of the other downloads that had made space and not landed when space was last made;
      before that, the bytes by which the files found at the start exceed the maximum. */
  ghost function Promised(cfg: Config, s: State, ls: seq<Label>): nat {
    if ls == [] then if Total(s.files) > cfg.maximum then Total(s.files) - cfg.maximum else 0
    else
      var init := ls[..|ls| - 1];
      if LastMakesSpace(cfg, s, ls) && Run(cfg, s, init).Ok? then Reserved(Run(cfg, s, init).value.commands)
      else Promised(cfg, s, init)
  }

  lemma {:induction false} SlackIsPromised(cfg: Config, s: State, ls: seq<Label>, t: State)
    requires Init(cfg, s) && Run(cfg, s, ls) == Ok(t)
    ensures t.slack == Promised(cfg, s, ls)
  {
    if ls != [] {
      var init, l := ls[..|ls| - 1], ls[|ls| - 1];
      var m := Run(cfg, s, init).value;
      StepShape(cfg, m, l, t);
      SlackIsPromised(cfg, s, init, m);
    }
  }

  /** In every interleaving the files, with the bytes still promised, exceed the maximum by at most what
      the other downloads in flight had been promised when space was last made. */
  lemma {:induction false} SpaceBound(cfg: Config, s: State, ls: seq<Label>, t: State)
    requires Init(cfg, s) && Run(cfg, s, ls) == Ok(t)
    ensures Burden(t) <= cfg.maximum + Promised(cfg, s, ls)
  {
    RunBooks(cfg, s, ls, t);
    SlackIsPromised(cfg, s, ls, t);
  }

  predicate OneDownload(s: State) {
    forall i, j :: 0 <= i < j < |s.commands| ==> !IsDownloading(s.commands[i]) || !IsDownloading(s.commands[j])
  }

  ghost predicate NeverOverlap(cfg: Config, s: State, ls: seq<Label>) {
    forall k :: 0 <= k <= |ls| && Run(cfg, s, ls[..k]).Ok? ==> OneDownload(Run(cfg, s, ls[..k]).value)
  }

  lemma {:induction false} SoleReservation(cs: seq<Command>, i: nat)
    requires i < |cs| && forall j :: 0 <= j < |cs| && j != i ==> !IsDownloading(cs[j])
    ensures Reserved(cs) == ReservedBy(cs[i])
    decreases |cs|
  {
    var n := |cs| - 1;
    if i < n {
      SoleReservation(cs[..n], i);
    } else {
      NoReservation(cs[..n]);
    }
  }

  lemma {:induction false} NoReservation(cs: seq<Command>)
    requires forall j :: 0 <= j < |cs| ==> !IsDownloading(cs[j])
    ensures Reserved(cs) == 0
  {
    if cs != [] {
      NoReservation(cs[..|cs| - 1]);
    }
  }

  lemma {:induction false} StepWithin(cfg: Config, s: State, l: Label, t: State)
    requires Step(cfg, s, l) == Ok(t) && OneDownload(t) && Burden(s) <= cfg.maximum
    ensures Burden(t) <= cfg.maximum
  {
    StepBurden(cfg, s, l, t);
    if SpaceMade(l, t) && l.Reserve? {
      StepShape(cfg, s, l, t);
      ReserveStepDownloads(cfg, s, l, t);
      SoleReservation(t.commands, l.i);
    }
  }

  lemma {:induction false} ReserveStepDownloads(cfg: Config, s: State, l: Label, t: State)
    requires Step(cfg, s, l) == Ok(t) && l.Reserve? && SpaceMade(l, t)
    ensures l.i < |t.commands| && IsDownloading(t.commands[l.i])
  {
  }

  lemma {:induction false} SamePrefixes(ls: seq<Label>, n: nat)
    requires n <= |ls|
    ensures forall j :: 0 <= j <= n ==> ls[..n][..j] == ls[..j]
  {
  }

  /** While downloads never overlap, a cache that starts within its bound stays within it. */
  lemma {:induction false} NoOverlapStaysWithin(cfg: Config, s: State, ls: seq<Label>, t: State)
    requires Init(cfg, s) && Run(cfg, s, ls) == Ok(t)
    requires Total(s.files) <= cfg.maximum && NeverOverlap(cfg, s, ls)
    ensures Burden(t) <= cfg.maximum
  {
    if ls != [] {
      var n := |ls| - 1;
      var init, l := ls[..n], ls[n];
      var m := Run(cfg, s, init).value;
      SamePrefixes(ls, n);
      NoOverlapStaysWithin(cfg, s, init, m);
      assert ls[..|ls|] == ls;
      assert OneDownload(t);
      StepWithin(cfg, m, l, t);
    }
  }

  // ---- exactly when the maximum is kept ----

  /** Every run over ds that starts within the maximum stays within it. */
  ghost predicate AlwaysWithin(cfg: Config, ds: set<Descriptor>) {
    forall s, ls | Init(cfg, s) && Uses(ls, ds) && Run(cfg, s, ls).Ok? && Total(s.files) <= cfg.maximum
      :: Total(Run(cfg, s, ls).value.files) <= cfg.maximum
  }

  /** Some content meets the descriptor, fits the cache and is not empty. */
  ghost predicate Fillable(cfg: Config, desc: Descriptor) {
    Realizable(cfg, desc) && desc.size > 0
  }

  /** Whatever can be downloaded, and is not empty, has one digest. */
  ghost predicate OneDigest(cfg: Config, ds: set<Descriptor>) {
    forall a, b :: a in ds && b in ds && Fillable(cfg, a) && Fillable(cfg, b) ==> a.digest == b.digest
  }

  /** Two downloads of different digests make space before either lands, and both land. */
  lemma {:induction false} OverlapExceeds(cfg: Config, ds: set<Descriptor>, a: Descriptor, b: Descriptor)
    returns (s: State, ls: seq<Label>, t: State)
    requires a in ds && b in ds && Fillable(cfg, a) && Fillable(cfg, b) && a.digest != b.digest && b.size <= a.size
    ensures Init(cfg, s) && Total(s.files) <= cfg.maximum && Uses(ls, ds) && Run(cfg, s, ls) == Ok(t)
    ensures Total(t.files) == cfg.maximum + b.size > cfg.maximum
  {
    var ca :| Matches(cfg, ca, a);
    var cb :| Matches(cfg, cb, b);
    var filler := File(seq(cfg.maximum - a.size, _ => 0), 0, 0);
    var other := a.digest + b.digest + 1;
    s := Empty().(files := map[other := filler]);
    FillerTotal(other, filler);
    assert Run(cfg, s, []) == Ok(s);
    var la, m := ReserveFrom(cfg, ds, s, [], s, a);
    var lb, n := ReserveFrom(cfg, ds, s, la, m, b);
    var p := LandNew(cfg, s, lb, n, 0, ca);
    var l := lb + [Land(0, ca, 0)];
    t := LandNew(cfg, s, l, p, 1, cb);
    ls := l + [Land(1, cb, 0)];
  }

  lemma {:induction false} FillerTotal(d: Digest, f: File)
    ensures Total(map[d := f]) == |f.content|
  {
    var none: Store := map[];
    TotalWith(none, d, f);
    assert none[d := f] == map[d := f];
    assert none - {d} == none;
  }

  /** The maximum is kept, and every download in flight that can land still fits. */
  ghost predicate RoomForAll(cfg: Config, s: State) {
    && Total(s.files) <= cfg.maximum
    && forall i :: 0 <= i < |s.commands| ==> RoomFor(cfg, s, s.commands[i])
  }

  ghost predicate RoomFor(cfg: Config, s: State, c: Command) {
    IsDownloading(c) && Realizable(cfg, c.phase.desc) ==> Total(s.files) + c.phase.desc.size <= cfg.maximum
  }

  /** The command only fetches from ds, and only what the size check lets through. */
  predicate Sourced(cfg: Config, ds: set<Descriptor>, c: Command) {
    && FromSet(ds, c.todo)
    && (c.phase.Fetching? ==> c.phase.desc in ds && c.phase.desc.size <= cfg.maximum)
  }

  ghost predicate AllSourced(cfg: Config, ds: set<Descriptor>, s: State) {
    forall i :: 0 <= i < |s.commands| ==> Sourced(cfg, ds, s.commands[i])
  }

  /** A fetch goes on with its descriptor, or is over. */
  predicate GoesOn(c: Command, c': Command) {
    c'.todo == c.todo && (c'.phase.Fetching? ==> c.phase.Fetching? && c'.phase.desc == c.phase.desc)
  }

  lemma {:induction false} SpaceStepGoesOn(cfg: Config, s: State, l: Label, t: State)
    requires (l.Reuse? || l.Reserve?) && l.i < |s.commands| && s.commands[l.i].phase.Fetching?
    requires var c := s.commands[l.i]; FetchStep(cfg, s, l, c, c.phase.desc, c.phase.stage) == Ok(t)
    ensures |t.commands| == |s.commands| && GoesOn(s.commands[l.i], t.commands[l.i])
    ensures IsDownloading(t.commands[l.i]) ==> l.Reserve?
  {
  }

  lemma {:induction false} FileStepGoesOn(cfg: Config, s: State, l: Label, t: State)
    requires (l.TakeLock? || l.ReadFile? || l.Decide?) && l.i < |s.commands| && s.commands[l.i].phase.Fetching?
    requires var c := s.commands[l.i]; FetchStep(cfg, s, l, c, c.phase.desc, c.phase.stage) == Ok(t)
    ensures |t.commands| == |s.commands| && GoesOn(s.commands[l.i], t.commands[l.i])
    ensures !IsDownloading(t.commands[l.i]) && Total(t.files) <= Total(s.files)
  {
    TotalWith(s.files, s.commands[l.i].phase.desc.digest, File([], 0, 0));
  }

  lemma {:induction false} TimedStepGoesOn(cfg: Config, s: State, l: Label, t: State)
    requires (l.Touch? || l.Land?) && l.i < |s.commands| && s.commands[l.i].phase.Fetching?
    requires var c := s.commands[l.i]; FetchStep(cfg, s, l, c, c.phase.desc, c.phase.stage) == Ok(t)
    ensures |t.commands| == |s.commands| && GoesOn(s.commands[l.i], t.commands[l.i])
    ensures !IsDownloading(t.commands[l.i])
  {
  }

  lemma {:induction false} FetchStepGoesOn(cfg: Config, s: State, l: Label, t: State)
    requires !l.Begin? && l.i < |s.commands| && s.commands[l.i].phase.Fetching?
    requires var c := s.commands[l.i]; FetchStep(cfg, s, l, c, c.phase.desc, c.phase.stage) == Ok(t)
    ensures |t.commands| == |s.commands| && GoesOn(s.commands[l.i], t.commands[l.i])
    ensures IsDownloading(t.commands[l.i]) ==> l.Reserve?
  {
    if l.Reuse? || l.Reserve? { SpaceStepGoesOn(cfg, s, l, t); }
    else if l.Touch? || l.Land? { TimedStepGoesOn(cfg, s, l, t); }
    else { FileStepGoesOn(cfg, s, l, t); }
  }

  lemma {:induction false} StepSourced(cfg: Config, ds: set<Descriptor>, s: State, l: Label, t: State)
    requires AllSourced(cfg, ds, s) && Step(cfg, s, l) == Ok(t) && (l.Begin? ==> FromSet(ds, l.todo))
    ensures AllSourced(cfg, ds, t)
  {
    StepShape(cfg, s, l, t);
    if !l.Begin? && s.commands[l.i].phase.Fetching? && !l.Abort? {
      FetchStepGoesOn(cfg, s, l, t);
    }
  }

  lemma {:induction false} TouchTotal(cfg: Config, s: State, l: Label, t: State)
    requires l.Touch? && l.i < |s.commands| && s.commands[l.i].phase.Fetching?
    requires var c := s.commands[l.i]; FetchStep(cfg, s, l, c, c.phase.desc, c.phase.stage) == Ok(t)
    ensures Total(t.files) == Total(s.files)
  {
    var d := s.commands[l.i].phase.desc.digest;
    if d in s.files {
      TotalRetimed(s.files, d, t.files[d]);
    }
  }

  lemma {:induction false} LandTotal(cfg: Config, s: State, l: Label, t: State)
    requires l.Land? && l.i < |s.commands| && s.commands[l.i].phase.Fetching?
    requires var c := s.commands[l.i]; FetchStep(cfg, s, l, c, c.phase.desc, c.phase.stage) == Ok(t)
    ensures t.files == s.files || Landed(cfg, s, l, t)
  {
    TotalWith(s.files, s.commands[l.i].phase.desc.digest, File(l.content, l.now, l.now));
  }

  /** Only a landing adds bytes. */
  lemma {:induction false} StepTotal(cfg: Config, s: State, l: Label, t: State)
    requires Step(cfg, s, l) == Ok(t)
    ensures Total(t.files) <= Total(s.files) || (l.Land? && Landed(cfg, s, l, t))
  {
    if !l.Begin? && s.commands[l.i].phase.Fetching? && !l.Abort? {
      if l.Reuse? || l.Reserve? { SpaceStepTotal(cfg, s, l, t); }
      else if l.Touch? { TouchTotal(cfg, s, l, t); }
      else if l.Land? { LandTotal(cfg, s, l, t); }
      else { FileStepGoesOn(cfg, s, l, t); }
    }
  }

  /** The download of command l.i was verified and put in place. */
  ghost predicate Landed(cfg: Config, s: State, l: Label, t: State)
    requires l.Land?
  {
    && l.i < |s.commands| == |t.commands| && IsDownloading(s.commands[l.i]) && !IsDownloading(t.commands[l.i])
    && Matches(cfg, l.content, s.commands[l.i].phase.desc)
    && Total(t.files) <= Total(s.files) + s.commands[l.i].phase.desc.size
  }

  lemma {:induction false} ReserveFits(cfg: Config, s: State, l: Label, t: State)
    requires l.Reserve? && l.i < |s.commands| && s.commands[l.i].phase.Fetching?
    requires var c := s.commands[l.i]; FetchStep(cfg, s, l, c, c.phase.desc, c.phase.stage) == Ok(t)
    requires l.i < |t.commands| && IsDownloading(t.commands[l.i])
    ensures Total(t.files) + t.commands[l.i].phase.desc.size <= cfg.maximum
  {
    SpaceStepTotal(cfg, s, l, t);
  }

  lemma {:induction false} OnlyReserveDownloads(cfg: Config, s: State, l: Label, t: State)
    requires Step(cfg, s, l) == Ok(t) && !l.Begin? && l.i < |t.commands| && IsDownloading(t.commands[l.i])
    ensures l.Reserve? && l.i < |s.commands| && s.commands[l.i].phase.Fetching?
  {
    if s.commands[l.i].phase.Fetching? && !l.Abort? {
      FetchStepGoesOn(cfg, s, l, t);
    }
  }

  /** A command that starts to download has made space for it. */
  lemma {:induction false} NewDownloadFits(cfg: Config, s: State, l: Label, t: State)
    requires Step(cfg, s, l) == Ok(t) && !l.Begin? && l.i < |t.commands| && IsDownloading(t.commands[l.i])
    ensures Total(t.files) + t.commands[l.i].phase.desc.size <= cfg.maximum
  {
    OnlyReserveDownloads(cfg, s, l, t);
    ReserveFits(cfg, s, l, t);
  }

  /** While one digest is all there is, the lock on it keeps landings apart. */
  lemma {:induction false} StepRoom(cfg: Config, ds: set<Descriptor>, s: State, l: Label, t: State)
    requires OneDigest(cfg, ds) && AllSourced(cfg, ds, s) && Locked(s) && RoomForAll(cfg, s)
    requires Step(cfg, s, l) == Ok(t)
    ensures RoomForAll(cfg, t)
  {
    StepShape(cfg, s, l, t);
    StepTotal(cfg, s, l, t);
    if l.Begin? {
      assert forall j :: 0 <= j < |s.commands| ==> RoomFor(cfg, t, s.commands[j]);
    } else if Total(t.files) <= Total(s.files) {
      assert forall j :: 0 <= j < |s.commands| ==> RoomFor(cfg, t, s.commands[j]);
      if IsDownloading(t.commands[l.i]) {
        NewDownloadFits(cfg, s, l, t);
      }
    } else {
      LandingRoom(cfg, ds, s, l, t);
    }
  }

  lemma {:induction false} LocksDiffer(s: State, i: nat, j: nat)
    requires Locked(s) && i < |s.commands| && j < |s.commands| && i != j
    requires InCritical(s.commands[i]) && InCritical(s.commands[j])
    ensures s.commands[i].phase.desc.digest != s.commands[j].phase.desc.digest
  {
  }

  lemma {:induction false} LandingRoom(cfg: Config, ds: set<Descriptor>, s: State, l: Label, t: State)
    requires OneDigest(cfg, ds) && AllSourced(cfg, ds, s) && Locked(s) && RoomForAll(cfg, s)
    requires l.Land? && Landed(cfg, s, l, t) && Shaped(s, l, t) && Total(t.files) > Total(s.files)
    ensures RoomForAll(cfg, t)
  {
    var desc := s.commands[l.i].phase.desc;
    assert Sourced(cfg, ds, s.commands[l.i]) && RoomFor(cfg, s, s.commands[l.i]);
    assert Fillable(cfg, desc);
    forall j | 0 <= j < |s.commands| && j != l.i ensures RoomFor(cfg, t, s.commands[j]) {
      var c := s.commands[j];
      assert Sourced(cfg, ds, c);
      if IsDownloading(c) {
        LocksDiffer(s, l.i, j);
        assert !Fillable(cfg, c.phase.desc);
      }
    }
  }

  lemma {:induction false} RunRoom(cfg: Config, ds: set<Descriptor>, s: State, ls: seq<Label>, t: State)
    requires Init(cfg, s) && Uses(ls, ds) && Run(cfg, s, ls) == Ok(t)
    requires OneDigest(cfg, ds) && Total(s.files) <= cfg.maximum
    ensures RoomForAll(cfg, t) && AllSourced(cfg, ds, t)
  {
    if ls != [] {
      var init, l := ls[..|ls| - 1], ls[|ls| - 1];
      var m := Run(cfg, s, init).value;
      assert forall k :: 0 <= k < |init| ==> init[k] == ls[k];
      RunRoom(cfg, ds, s, init, m);
      RunBooks(cfg, s, init, m);
      StepSourced(cfg, ds, m, l, t);
      StepRoom(cfg, ds, m, l, t);
    }
  }

  /** The cache stays within its maximum in every run over a set of descriptors exactly when everything
      in it that can be downloaded and is not empty has one digest. */
  lemma {:induction false} SpaceWithinIff(cfg: Config, ds: set<Descriptor>)
    ensures AlwaysWithin(cfg, ds) <==> OneDigest(cfg, ds)
  {
    if OneDigest(cfg, ds) {
      forall s, ls | Init(cfg, s) && Uses(ls, ds) && Run(cfg, s, ls).Ok? && Total(s.files) <= cfg.maximum
        ensures Total(Run(cfg, s, ls).value.files) <= cfg.maximum
      {
        RunRoom(cfg, ds, s, ls, Run(cfg, s, ls).value);
      }
    } else {
      var a, b :| a in ds && b in ds && Fillable(cfg, a) && Fillable(cfg, b) && a.digest != b.digest;
      var big, small := if b.size <= a.size then a else b, if b.size <= a.size then b else a;
      var s, ls, t := OverlapExceeds(cfg, ds, big, small);
    }
  }
}
