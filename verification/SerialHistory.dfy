/** Reference definitions for the serial capture, over the whole history of lines. */
module SerialHistory {
  import opened Eviction

  /** A result entry: its payload and the size of its JSON form. */
  datatype Entry = Entry(item: string, size: nat)

  /** A captured line: its result entry and its redacted text, encoded. */
  datatype Line = Line(entry: Entry, text: seq<Byte>)

  datatype Limits = Limits(tailLines: nat, artifactBytes: nat)

  const RESULT_MAX_BYTES: nat := 192 * 1024
  const PROGRESS_INTERVAL: nat := 25
  /** "[SERIAL CAPTURE TRUNCATED]" and a line feed. */
  const MARKER: seq<Byte> :=
    [91, 83, 69, 82, 73, 65, 76, 32, 67, 65, 80, 84, 85, 82, 69, 32, 84, 82, 85, 78, 67, 65, 84, 69, 68, 93, 10]

  // ---- the tail ----

  function Sizes(q: seq<Entry>): nat {
    if q == [] then 0 else q[0].size + Sizes(q[1..])
  }

  /** At most `limit` entries, within the byte budget unless there is only one. */
  predicate Fits(q: seq<Entry>, limit: nat) {
    |q| <= limit && (|q| <= 1 || Sizes(q) <= RESULT_MAX_BYTES)
  }

  /** q[k..] is the longest suffix of q that fits. */
  ghost predicate IsTailStart(q: seq<Entry>, limit: nat, k: nat) {
    k <= |q| && Fits(q[k..], limit) && forall j :: 0 <= j < k ==> !Fits(q[j..], limit)
  }

  ghost function TailStart(q: seq<Entry>, limit: nat): (k: nat)
    ensures k <= |q|
  {
    if q == [] || Fits(q, limit) then 0 else TailStart(q[1..], limit) + 1
  }

  lemma {:induction false} TailStartIs(q: seq<Entry>, limit: nat)
    ensures IsTailStart(q, limit, TailStart(q, limit))
  {
    assert q[0..] == q;
    if q != [] && !Fits(q, limit) {
      TailStartIs(q[1..], limit);
      var k := TailStart(q[1..], limit);
      assert q[k + 1..] == q[1..][k..];
      assert forall j :: 1 <= j < k + 1 ==> q[j..] == q[1..][j - 1..];
    }
  }

  lemma {:induction false} SizesAppend(p: seq<Entry>, q: seq<Entry>)
    ensures Sizes(p + q) == Sizes(p) + Sizes(q)
  {
    if p == [] {
      assert p + q == q;
    } else {
      SizesAppend(p[1..], q);
      assert (p + q)[1..] == p[1..] + q;
    }
  }

  /** A suffix of what fits, fits. */
  lemma {:induction false} FitsSuffix(q: seq<Entry>, limit: nat, i: nat, j: nat)
    requires i <= j <= |q| && Fits(q[i..], limit)
    ensures Fits(q[j..], limit)
  {
    SizesAppend(q[i..j], q[j..]);
    assert q[i..j] + q[j..] == q[i..];
  }

  /** The start of the tail is the threshold between the suffixes that fit and those that do not. */
  lemma {:induction false} FitsIff(q: seq<Entry>, limit: nat, j: nat)
    requires j <= |q|
    ensures Fits(q[j..], limit) <==> TailStart(q, limit) <= j
  {
    TailStartIs(q, limit);
    if TailStart(q, limit) <= j {
      FitsSuffix(q, limit, TailStart(q, limit), j);
    }
  }

  /** One more entry: the new tail is the longest fitting suffix of the old tail with the entry added. */
  lemma {:induction false} TailGrows(q: seq<Entry>, x: Entry, limit: nat, k: nat)
    requires 0 < limit && TailStart(q, limit) <= k <= |q|
    requires Fits(q[k..] + [x], limit)
    requires k == TailStart(q, limit) || !Fits(q[k - 1..] + [x], limit)
    ensures TailStart(q + [x], limit) == k
    ensures (q + [x])[k..] == q[k..] + [x]
  {
    assert (q + [x])[k..] == q[k..] + [x];
    FitsIff(q + [x], limit, k);
    if k > 0 {
      FitsIff(q, limit, k - 1);
      TailCannotStartEarlier(q, x, limit, k - 1);
    }
  }

  lemma {:induction false} TailCannotStartEarlier(q: seq<Entry>, x: Entry, limit: nat, j: nat)
    requires j < |q| && (!Fits(q[j..], limit) || !Fits(q[j..] + [x], limit))
    ensures j < TailStart(q + [x], limit)
  {
    assert (q + [x])[j..] == q[j..] + [x];
    if Fits(q[j..] + [x], limit) {
      FitsPrefix(q[j..], x, limit);
    }
    FitsIff(q + [x], limit, j);
  }

  lemma {:induction false} SizesGrow(p: seq<Entry>, x: Entry)
    ensures Sizes(p + [x]) == Sizes(p) + x.size
  {
    SizesAppend(p, [x]);
    assert Sizes([x]) == x.size + Sizes([]);
  }

  lemma {:induction false} EntriesGrow(h: seq<Line>, line: Line)
    ensures Entries(h + [line]) == Entries(h) + [line.entry]
  {
    assert (h + [line])[..|h|] == h;
  }

  /** While the tail is shortened for x: q[k..] is left, and everything dropped had to go. */
  ghost predicate Dropping(q: seq<Entry>, x: Entry, limit: nat, k: nat) {
    && TailStart(q, limit) <= k <= |q|
    && (k == TailStart(q, limit) || !Fits(q[k - 1..] + [x], limit))
  }

  lemma {:induction false} DropFront(q: seq<Entry>, x: Entry, limit: nat, k: nat)
    requires Dropping(q, x, limit, k) && k < |q|
    ensures q[k..][1..] == q[k + 1..] && Sizes(q[k + 1..]) == Sizes(q[k..]) - q[k].size
    ensures |q[k..]| >= limit || Sizes(q[k..]) + x.size > RESULT_MAX_BYTES ==> Dropping(q, x, limit, k + 1)
  {
    SizesGrow(q[k..], x);
  }

  /** Dropping stopped at k, so the new tail starts there. */
  lemma {:induction false} DropDone(q: seq<Entry>, x: Entry, limit: nat, k: nat)
    requires 0 < limit && Dropping(q, x, limit, k)
    requires k == |q| || (|q| - k < limit && Sizes(q[k..]) + x.size <= RESULT_MAX_BYTES)
    ensures (q + [x])[TailStart(q + [x], limit)..] == q[k..] + [x]
    ensures Sizes(q[k..] + [x]) == Sizes(q[k..]) + x.size
  {
    SizesGrow(q[k..], x);
    TailGrows(q, x, limit, k);
  }

  lemma {:induction false} FitsPrefix(p: seq<Entry>, x: Entry, limit: nat)
    requires Fits(p + [x], limit)
    ensures Fits(p, limit)
  {
    SizesAppend(p, [x]);
  }

  // ---- the artifact ----

  function Encoded(l: Line): seq<Byte> {
    l.text + [10]
  }

  function Bytes(h: seq<Line>): seq<Byte> {
    if h == [] then [] else Bytes(h[..|h| - 1]) + Encoded(h[|h| - 1])
  }

  lemma {:induction false} BytesPrefix(h: seq<Line>, k: nat)
    requires k <= |h|
    ensures Bytes(h[..k]) <= Bytes(h)
  {
    if k == |h| {
      assert h[..k] == h;
    } else {
      BytesPrefix(h[..|h| - 1], k);
      assert h[..|h| - 1][..k] == h[..k];
    }
  }

  /** Each line's text is there in its place, followed by a line feed. */
  lemma {:induction false} BytesAt(h: seq<Line>, i: nat)
    requires i < |h|
    ensures var start, text := |Bytes(h[..i])|, h[i].text;
      && start + |text| < |Bytes(h)|
      && Bytes(h)[start..start + |text|] == text && Bytes(h)[start + |text|] == 10
      && (if i + 1 < |h| then |Bytes(h[..i + 1])| else |Bytes(h)|) == start + |text| + 1
  {
    var next := h[..i + 1];
    assert next[..i] == h[..i];
    BytesPrefix(h, i + 1);
    assert i + 1 == |h| ==> next == h;
    assert Bytes(next) == Bytes(h[..i]) + (h[i].text + [10]);
  }

  /** What the artifact holds: the stored lines one after the other, each with its line feed; or, when
      even the first does not fit, as much of the marker as does. */
  lemma {:induction false} ArtifactHolds(h: seq<Line>, maximum: nat, i: nat)
    requires 0 < maximum && i < Stored(h, maximum)
    ensures var a, start, text := Artifact(h, maximum), |Bytes(h[..i])|, h[i].text;
      start + |text| < |a| && a[start..start + |text|] == text && a[start + |text|] == 10
    ensures i + 1 == Stored(h, maximum) ==> |Artifact(h, maximum)| == |Bytes(h[..i])| + |h[i].text| + 1
  {
    var stored := h[..Stored(h, maximum)];
    BytesAt(stored, i);
    assert stored[..i] == h[..i];
  }

  lemma {:induction false} BytesGrow(h: seq<Line>, k: nat)
    requires k <= |h|
    ensures |Bytes(h[..k])| + (|h| - k) <= |Bytes(h)|
    decreases |h| - k
  {
    if k == |h| {
      assert h[..k] == h;
    } else {
      BytesGrow(h, k + 1);
      assert h[..k + 1][..k] == h[..k];
    }
  }

  /** h[..k] is the longest prefix whose encoding fits. */
  ghost predicate IsStored(h: seq<Line>, maximum: nat, k: nat) {
    k <= |h| && |Bytes(h[..k])| <= maximum && (k < |h| ==> |Bytes(h[..k + 1])| > maximum)
  }

  ghost function Stored(h: seq<Line>, maximum: nat): (k: nat)
    ensures k <= |h|
  {
    if h == [] then 0
    else
      var k := Stored(h[..|h| - 1], maximum);
      if k == |h| - 1 && |Bytes(h)| <= maximum then |h| else k
  }

  lemma {:induction false} StoredFits(h: seq<Line>, maximum: nat)
    ensures IsStored(h, maximum, Stored(h, maximum))
  {
    if h != [] {
      var n := |h| - 1;
      StoredFits(h[..n], maximum);
      var k := Stored(h[..n], maximum);
      assert h[..n][..k] == h[..k];
      assert k < n ==> h[..n][..k + 1] == h[..k + 1];
      assert h[..n + 1] == h;
    }
  }

  lemma {:induction false} LongerOverflows(h: seq<Line>, maximum: nat, k: nat, s: nat)
    requires IsStored(h, maximum, k) && k < s <= |h|
    ensures |Bytes(h[..s])| > maximum
  {
    BytesGrow(h[..s], k + 1);
    assert h[..s][..k + 1] == h[..k + 1];
  }

  lemma {:induction false} StoredIs(h: seq<Line>, maximum: nat, k: nat)
    requires IsStored(h, maximum, k)
    ensures k == Stored(h, maximum)
  {
    var s := Stored(h, maximum);
    StoredFits(h, maximum);
    if k < s {
      LongerOverflows(h, maximum, k, s);
    } else if s < k {
      LongerOverflows(h, maximum, s, k);
    }
  }

  /** Some line of the history is not in the artifact. */
  ghost predicate Truncated(h: seq<Line>, maximum: nat) {
    Stored(h, maximum) < |h|
  }

  /** What the artifact holds: the stored lines, or a cut-down marker when not even the first fits. */
  ghost function Artifact(h: seq<Line>, maximum: nat): seq<Byte> {
    if Truncated(h, maximum) && Stored(h, maximum) == 0 then
      MARKER[..if maximum < |MARKER| then maximum else |MARKER|]
    else Bytes(h[..Stored(h, maximum)])
  }

  lemma {:induction false} ArtifactBounded(h: seq<Line>, maximum: nat)
    requires 0 < maximum
    ensures |Artifact(h, maximum)| <= maximum
    ensures Truncated(h, maximum) <==> |Bytes(h)| > maximum
    ensures Artifact(h, maximum) == [] <==> h == []
  {
    var k := Stored(h, maximum);
    StoredFits(h, maximum);
    if k < |h| {
      BytesGrow(h, k + 1);
    } else {
      assert h[..k] == h;
    }
    BytesGrow(h[..k], 0);
  }

  /** One more line: it is stored iff nothing was dropped before and it fits. */
  lemma {:induction false} StoredGrows(h: seq<Line>, x: Line, maximum: nat)
    ensures Stored(h + [x], maximum) ==
      if !Truncated(h, maximum) && |Bytes(h)| + |Encoded(x)| <= maximum then |h| + 1 else Stored(h, maximum)
    ensures Truncated(h, maximum) ==> Truncated(h + [x], maximum)
  {
    assert (h + [x])[..|h|] == h;
  }

  // ---- progress reports ----

  datatype Report = Report(items: seq<string>, offset: nat, count: nat, truncated: bool)

  function Entries(h: seq<Line>): (q: seq<Entry>)
    ensures |q| == |h|
  {
    if h == [] then [] else Entries(h[..|h| - 1]) + [h[|h| - 1].entry]
  }

  lemma {:induction false} EntriesPrefix(h: seq<Line>, n: nat)
    requires n <= |h|
    ensures Entries(h[..n]) == Entries(h)[..n]
  {
    if n < |h| {
      EntriesPrefix(h[..|h| - 1], n);
      assert h[..|h| - 1][..n] == h[..n];
    } else {
      assert h[..n] == h;
    }
  }

  function Items(q: seq<Entry>): (r: seq<string>)
    ensures |r| == |q|
  {
    if q == [] then [] else Items(q[..|q| - 1]) + [q[|q| - 1].item]
  }

  lemma {:induction false} ItemsJoin(q: seq<Entry>, n: nat)
    requires n <= |q|
    ensures Items(q[..n]) == Items(q)[..n] && Items(q[..n]) + Items(q[n..]) == Items(q)
  {
    if n < |q| {
      var init := q[..|q| - 1];
      ItemsJoin(init, n);
      assert init[..n] == q[..n] && q[n..][..|q| - n - 1] == init[n..];
    } else {
      assert q[..n] == q && q[n..] == [];
    }
  }

  /** The report issued when the history is h: the tail, where it starts, how many lines there are. */
  ghost function ReportOn(h: seq<Line>, lim: Limits): Report {
    var q := Entries(h);
    var k := TailStart(q, lim.tailLines);
    Report(Items(q[k..]), k, |h|, Truncated(h, lim.artifactBytes))
  }

  lemma {:induction false} ItemsAt(q: seq<Entry>, i: nat)
    requires i < |q|
    ensures Items(q)[i] == q[i].item
  {
    if i < |q| - 1 {
      ItemsAt(q[..|q| - 1], i);
    }
  }

  lemma {:induction false} EntriesAt(h: seq<Line>, i: nat)
    requires i < |h|
    ensures Entries(h)[i] == h[i].entry
  {
    if i < |h| - 1 {
      EntriesAt(h[..|h| - 1], i);
    }
  }

  /** The report r shows the items of the last lines of h, from its offset on, in order. */
  ghost predicate Shows(r: Report, h: seq<Line>) {
    && r.count == |h| && r.offset <= |h| && |r.items| == |h| - r.offset
    && forall i :: 0 <= i < |r.items| ==> r.items[i] == h[r.offset + i].entry.item
  }

  /** A report shows the last lines, as many as fit the tail, and is marked truncated exactly when all the
      encoded lines exceed the artifact's bound. */
  lemma {:induction false} ReportShows(h: seq<Line>, lim: Limits)
    requires 0 < lim.artifactBytes
    ensures var r := ReportOn(h, lim);
      && Shows(r, h) && IsTailStart(Entries(h), lim.tailLines, r.offset)
      && (r.truncated <==> |Bytes(h)| > lim.artifactBytes)
  {
    var q, r := Entries(h), ReportOn(h, lim);
    TailStartIs(q, lim.tailLines);
    ArtifactBounded(h, lim.artifactBytes);
    forall i | 0 <= i < |r.items| ensures r.items[i] == h[r.offset + i].entry.item {
      ItemsAt(q[r.offset..], i);
      EntriesAt(h, r.offset + i);
    }
  }

  predicate Due(n: nat) {
    n == 1 || n % PROGRESS_INTERVAL == 0
  }

  /** The line counts reported while streaming n lines. */
  function Periodic(n: nat): seq<nat> {
    if n == 0 then [] else Periodic(n - 1) + if Due(n) then [n] else []
  }

  /** With the closing report, issued only if the last line was not reported yet. */
  function Counts(n: nat): seq<nat> {
    Periodic(n) + if n > 0 && !Due(n) then [n] else []
  }

  /** The last count reported while streaming n lines. */
  function LastPeriodic(n: nat): nat {
    if n == 0 || Due(n) then n else LastPeriodic(n - 1)
  }

  predicate Increasing(c: seq<nat>) {
    forall i, j :: 0 <= i < j < |c| ==> c[i] < c[j]
  }

  /** The last count so far, or 0. */
  function LastOf(c: seq<nat>): nat {
    if c == [] then 0 else c[|c| - 1]
  }

  lemma {:induction false} LastPeriodicIs(n: nat)
    ensures LastPeriodic(n) == if 0 < n < PROGRESS_INTERVAL then 1 else n - n % PROGRESS_INTERVAL
  {
    if n > 0 && !Due(n) {
      LastPeriodicIs(n - 1);
    }
  }

  lemma {:induction false} LastPeriodicStep(n: nat)
    requires n > 0
    ensures 0 < n - LastPeriodic(n - 1) <= PROGRESS_INTERVAL
    ensures !Due(n) ==> 0 < n - LastPeriodic(n) <= PROGRESS_INTERVAL
  {
    LastPeriodicIs(n - 1);
    LastPeriodicIs(n);
  }

  lemma {:induction false} PeriodicStep(n: nat)
    requires n > 0
    ensures Periodic(n) == if Due(n) then Periodic(n - 1) + [n] else Periodic(n - 1)
  {
    assert Periodic(n - 1) + [] == Periodic(n - 1);
  }

  lemma {:induction false} PeriodicMembers(n: nat, k: nat)
    ensures k in Periodic(n) <==> 1 <= k <= n && Due(k)
  {
    if n > 0 {
      PeriodicMembers(n - 1, k);
    }
  }

  lemma {:induction false} PeriodicLast(n: nat)
    ensures LastOf(Periodic(n)) == LastPeriodic(n)
  {
    if n > 0 {
      PeriodicLast(n - 1);
      LastPeriodicStep(n);
    }
  }

  /** Every count is above the one before it, by at most the interval. */
  predicate SmallGaps(c: seq<nat>) {
    c == [] || (SmallGaps(c[..|c| - 1]) && 0 < c[|c| - 1] - LastOf(c[..|c| - 1]) <= PROGRESS_INTERVAL)
  }

  lemma {:induction false} GapsExtend(c: seq<nat>, n: nat)
    requires SmallGaps(c) && 0 < n - LastOf(c) <= PROGRESS_INTERVAL
    ensures SmallGaps(c + [n])
  {
    assert (c + [n])[..|c|] == c;
  }

  lemma {:induction false} PeriodicGaps(n: nat)
    ensures SmallGaps(Periodic(n))
  {
    if n > 0 {
      PeriodicGaps(n - 1);
      PeriodicLast(n - 1);
      LastPeriodicStep(n);
      PeriodicStep(n);
      if Due(n) {
        GapsExtend(Periodic(n - 1), n);
      }
    }
  }

  lemma {:induction false} GapsIncrease(c: seq<nat>)
    requires SmallGaps(c)
    ensures Increasing(c) && Within(c, LastOf(c))
  {
    if c != [] {
      var init, last := c[..|c| - 1], c[|c| - 1];
      GapsIncrease(init);
      assert c == init + [last];
      assert forall i :: 0 <= i < |init| ==> init[i] < last;
    }
  }

  /** Reports come exactly at line 1, at multiples of 25 and at the end; their counts increase. */
  lemma {:induction false} CountsExact(n: nat, k: nat)
    ensures Increasing(Counts(n))
    ensures k in Counts(n) <==> 1 <= k <= n && (k == 1 || k % 25 == 0 || k == n)
  {
    CountsShape(n);
    GapsIncrease(Counts(n));
    PeriodicMembers(n, k);
  }

  lemma {:induction false} CountsShape(n: nat)
    ensures SmallGaps(Counts(n)) && LastOf(Counts(n)) == n
  {
    PeriodicLast(n);
    PeriodicGaps(n);
    if n > 0 && !Due(n) {
      LastPeriodicStep(n);
      GapsExtend(Periodic(n), n);
      assert Counts(n) == Periodic(n) + [n];
    } else {
      assert Counts(n) == Periodic(n);
    }
  }

  // ---- stitching the reports together ----

  datatype Stitched = Whole(items: seq<string>) | Gap

  /** A reader lays each report at its offset over what it has; a report that starts later leaves a gap. */
  function Stitch(rs: seq<Report>): Stitched {
    if rs == [] then Whole([])
    else
      var r := rs[|rs| - 1];
      match Stitch(rs[..|rs| - 1])
      case Gap => Gap
      case Whole(items) => if r.offset > |items| then Gap else Whole(items[..r.offset] + r.items)
  }

  predicate Within(c: seq<nat>, n: nat) {
    forall i :: 0 <= i < |c| ==> c[i] <= n
  }

  ghost function ReportsOn(h: seq<Line>, lim: Limits, c: seq<nat>): (rs: seq<Report>)
    requires Within(c, |h|)
    ensures |rs| == |c|
  {
    if c == [] then [] else ReportsOn(h, lim, c[..|c| - 1]) + [ReportOn(h[..c[|c| - 1]], lim)]
  }

  /** The i-th report is the one on the lines counted by then. */
  lemma {:induction false} ReportsOnAt(h: seq<Line>, lim: Limits, c: seq<nat>, i: nat)
    requires Within(c, |h|) && i < |c|
    ensures ReportsOn(h, lim, c)[i] == ReportOn(h[..c[i]], lim)
  {
    if i < |c| - 1 {
      ReportsOnAt(h, lim, c[..|c| - 1], i);
    }
  }

  /** The entries from one report to the next fit the tail. */
  predicate Covered(q: seq<Entry>, limit: nat, from: nat, to: nat) {
    from <= to <= |q| && Fits(q[from..to], limit)
  }

  predicate NothingMissed(q: seq<Entry>, limit: nat, c: seq<nat>) {
    c == [] || (NothingMissed(q, limit, c[..|c| - 1]) && Covered(q, limit, LastOf(c[..|c| - 1]), c[|c| - 1]))
  }

  /** Laying reports over one another gives the history without a gap exactly when, between any two
      consecutive reports, no more came than the tail holds. */
  lemma {:induction false} StitchIff(h: seq<Line>, lim: Limits, c: seq<nat>)
    requires Increasing(c) && Within(c, |h|)
    ensures NothingMissed(Entries(h), lim.tailLines, c) <==> Stitch(ReportsOn(h, lim, c)).Whole?
    ensures NothingMissed(Entries(h), lim.tailLines, c) ==>
      Stitch(ReportsOn(h, lim, c)) == Whole(Items(Entries(h)[..LastOf(c)]))
  {
    if c != [] {
      var init, n := c[..|c| - 1], c[|c| - 1];
      assert c == init + [n];
      StitchIff(h, lim, init);
      ReportsStep(h, lim, init, n);
      StitchStep(ReportsOn(h, lim, init), ReportOn(h[..n], lim));
      MissedStep(Entries(h), lim.tailLines, init, n);
      LayReport(h, lim, LastOf(init), n);
    }
  }

  lemma {:induction false} ReportsStep(h: seq<Line>, lim: Limits, c: seq<nat>, n: nat)
    requires Within(c + [n], |h|)
    ensures Within(c, |h|) && n <= |h|
    ensures ReportsOn(h, lim, c + [n]) == ReportsOn(h, lim, c) + [ReportOn(h[..n], lim)]
  {
    assert (c + [n])[|c|] == n;
    assert (c + [n])[..|c|] == c;
    assert forall i :: 0 <= i < |c| ==> (c + [n])[i] == c[i];
  }

  lemma {:induction false} StitchStep(rs: seq<Report>, r: Report)
    ensures Stitch(rs + [r]) == match Stitch(rs)
      case Gap => Gap
      case Whole(items) => if r.offset > |items| then Gap else Whole(items[..r.offset] + r.items)
  {
    assert (rs + [r])[..|rs|] == rs;
  }

  lemma {:induction false} MissedStep(q: seq<Entry>, limit: nat, c: seq<nat>, n: nat)
    ensures NothingMissed(q, limit, c + [n]) <==> NothingMissed(q, limit, c) && Covered(q, limit, LastOf(c), n)
  {
    assert (c + [n])[..|c|] == c;
  }

  lemma {:induction false} LayItems(q: seq<Entry>, k: nat, from: nat, to: nat)
    requires k <= from <= to <= |q|
    ensures Items(q[..from])[..k] + Items(q[..to][k..]) == Items(q[..to])
  {
    ItemsJoin(q[..from], k);
    ItemsJoin(q[..to], k);
    assert q[..from][..k] == q[..to][..k];
  }

  /** The report on the first `to` lines, laid over the first `from` items. */
  lemma {:induction false} LayReport(h: seq<Line>, lim: Limits, from: nat, to: nat)
    requires from <= to <= |h|
    ensures var q := Entries(h);
      var r := ReportOn(h[..to], lim);
      && (Covered(q, lim.tailLines, from, to) <==> r.offset <= from)
      && (r.offset <= from ==> Items(q[..from])[..r.offset] + r.items == Items(q[..to]))
  {
    var q := Entries(h);
    var k := TailStart(q[..to], lim.tailLines);
    EntriesPrefix(h, to);
    assert q[..to][from..] == q[from..to];
    FitsIff(q[..to], lim.tailLines, from);
    if k <= from {
      LayItems(q, k, from, to);
    }
  }

  /** The documented use: a tail of at least 25 lines and no 25 consecutive entries over the budget. */
  lemma {:induction false} ReportsReconstruct(h: seq<Line>, lim: Limits)
    requires PROGRESS_INTERVAL <= lim.tailLines
    requires WindowsFit(Entries(h))
    ensures Within(Counts(|h|), |h|)
    ensures var whole := Stitch(ReportsOn(h, lim, Counts(|h|)));
      && whole.Whole? && |whole.items| == |h|
      && forall i :: 0 <= i < |h| ==> whole.items[i] == h[i].entry.item
  {
    ReportsStitch(h, lim);
    forall i | 0 <= i < |h| ensures Items(Entries(h))[i] == h[i].entry.item {
      ItemsAt(Entries(h), i);
      EntriesAt(h, i);
    }
  }

  lemma {:induction false} ReportsStitch(h: seq<Line>, lim: Limits)
    requires PROGRESS_INTERVAL <= lim.tailLines
    requires WindowsFit(Entries(h))
    ensures Within(Counts(|h|), |h|)
    ensures Stitch(ReportsOn(h, lim, Counts(|h|))) == Whole(Items(Entries(h)))
  {
    var c := Counts(|h|);
    CountsShape(|h|);
    GapsIncrease(c);
    SmallGapsMissNothing(Entries(h), lim.tailLines, c);
    StitchIff(h, lim, c);
    assert Entries(h)[..|h|] == Entries(h);
  }

  /** No stretch of up to 25 entries exceeds the byte budget. */
  ghost predicate WindowsFit(q: seq<Entry>) {
    forall i, j :: 0 <= i <= j <= |q| && j - i <= PROGRESS_INTERVAL ==> Sizes(q[i..j]) <= RESULT_MAX_BYTES
  }

  lemma {:induction false} WindowCovered(q: seq<Entry>, limit: nat, i: nat, j: nat)
    requires WindowsFit(q) && PROGRESS_INTERVAL <= limit && i <= j <= |q| && j - i <= PROGRESS_INTERVAL
    ensures Covered(q, limit, i, j)
  {
    assert Sizes(q[i..j]) <= RESULT_MAX_BYTES;
  }

  lemma {:induction false} SmallGapsMissNothing(q: seq<Entry>, limit: nat, c: seq<nat>)
    requires PROGRESS_INTERVAL <= limit && SmallGaps(c) && Within(c, |q|) && WindowsFit(q)
    ensures NothingMissed(q, limit, c)
  {
    if c != [] {
      SmallGapsMissNothing(q, limit, c[..|c| - 1]);
      WindowCovered(q, limit, LastOf(c[..|c| - 1]), c[|c| - 1]);
    }
  }
}
