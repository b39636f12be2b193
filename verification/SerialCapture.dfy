/** The online serial capture, proved against the definitions over the whole history. */
module SerialCapture {
  import opened Wrappers
  import Eviction
  import opened Transfers
  import opened SerialHistory

  class DistributedSerialCapture {
    const maximumTailLines: nat
    const maximumArtifactBytes: nat
    var tail: seq<Entry>
    var tailSizeBytes: nat
    var lineCount: nat
    var artifactSizeBytes: nat
    var artifactTruncated: bool
    var lastReportedLineCount: nat
    ghost var history: seq<Line>   // every line accepted so far

    ghost function Lim(): Limits {
      Limits(maximumTailLines, maximumArtifactBytes)
    }

    ghost predicate TailValid()
      reads this
    {
      TailIs(history, maximumTailLines, tail, tailSizeBytes, lineCount)
    }

    ghost predicate ArtifactValid()
      reads this
    {
      && 0 < maximumArtifactBytes
      && artifactSizeBytes == |Artifact(history, maximumArtifactBytes)|
      && artifactTruncated == Truncated(history, maximumArtifactBytes)
    }

    ghost predicate Valid()
      reads this
    {
      TailValid() && ArtifactValid() && lastReportedLineCount == LastPeriodic(lineCount)
    }

    constructor (maximumTailLines: nat, maximumArtifactBytes: nat)
      requires 0 < maximumTailLines && 0 < maximumArtifactBytes
      ensures Valid() && history == []
      ensures this.maximumTailLines == maximumTailLines && this.maximumArtifactBytes == maximumArtifactBytes
    {
      this.maximumTailLines, this.maximumArtifactBytes := maximumTailLines, maximumArtifactBytes;
      tail, tailSizeBytes, lineCount := [], 0, 0;
      artifactSizeBytes, artifactTruncated, lastReportedLineCount := 0, false, 0;
      history := [];
    }

    /** A bound that is not positive is refused. */
    static method Create(maximumTailLines: int, maximumArtifactBytes: int)
      returns (r: Outcome<DistributedSerialCapture>)
      ensures r.Ok? <==> 0 < maximumTailLines && 0 < maximumArtifactBytes
      ensures r.Ok? ==> fresh(r.value) && r.value.Valid() && r.value.history == []
      ensures r.Ok? ==> r.value.Lim() == Limits(maximumTailLines, maximumArtifactBytes)
    {
      if maximumTailLines <= 0 || maximumArtifactBytes <= 0 {
        return Failed;
      }
      var capture := new DistributedSerialCapture(maximumTailLines, maximumArtifactBytes);
      r := Ok(capture);
    }

    /** The live result: the tail, its offset, the line count and the truncation flag. */
    method Result() returns (r: Report)
      requires TailValid() && ArtifactValid()
      ensures r == ReportOn(history, Lim())
      ensures Shows(r, history) && IsTailStart(Entries(history), maximumTailLines, r.offset)
      ensures r.truncated <==> |Bytes(history)| > maximumArtifactBytes
    {
      ReportShows(history, Lim());
      r := Report(Items(tail), lineCount - |tail|, lineCount, artifactTruncated);
    }

    /** Drops entries from the front until the new one fits. */
    method DropTail(x: Entry) returns (ghost k: nat)
      requires TailValid()
      modifies this`tail, this`tailSizeBytes
      ensures lineCount == |history| && 0 < maximumTailLines
      ensures Dropping(Entries(history), x, maximumTailLines, k)
      ensures tail == Entries(history)[k..] && tailSizeBytes == Sizes(tail)
      ensures tail == [] || (|tail| < maximumTailLines && tailSizeBytes + x.size <= RESULT_MAX_BYTES)
    {
      ghost var q := Entries(history);
      k := TailStart(q, maximumTailLines);
      while tail != [] && (|tail| >= maximumTailLines || tailSizeBytes + x.size > RESULT_MAX_BYTES)
        invariant Dropping(q, x, maximumTailLines, k)
        invariant tail == q[k..] && tailSizeBytes == Sizes(tail)
        decreases |tail|
      {
        DropFront(q, x, maximumTailLines, k);
        tailSizeBytes := tailSizeBytes - tail[0].size;
        tail := tail[1..];
        k := k + 1;
      }
    }

    method AppendTail(x: Entry, ghost line: Line)
      requires TailValid() && line.entry == x
      modifies this`tail, this`tailSizeBytes, this`lineCount, this`history
      ensures history == old(history) + [line] && TailValid()
    {
      ghost var k := DropTail(x);
      TailIsNext(history, line, maximumTailLines, k);
      tail := tail + [x];
      tailSizeBytes := tailSizeBytes + x.size;
      lineCount := lineCount + 1;
      history := history + [line];
    }

    /** The line's bytes go to the artifact while they fit and nothing was dropped before. */
    method AppendArtifact(line: Line, ghost before: seq<Line>) returns (chunk: seq<Eviction.Byte>)
      requires history == before + [line] && 0 < maximumArtifactBytes
      requires artifactSizeBytes == |Artifact(before, maximumArtifactBytes)|
      requires artifactTruncated == Truncated(before, maximumArtifactBytes)
      modifies this`artifactSizeBytes, this`artifactTruncated
      ensures ArtifactValid()
      ensures Artifact(history, maximumArtifactBytes) == Artifact(before, maximumArtifactBytes) + chunk
    {
      ArtifactStep(before, line, maximumArtifactBytes);
      chunk := [];
      var encoded := line.text + [10];
      if !artifactTruncated {
        if artifactSizeBytes + |encoded| <= maximumArtifactBytes {
          chunk := encoded;
        } else {
          artifactTruncated := true;
          if artifactSizeBytes == 0 {
            chunk := MARKER[..if maximumArtifactBytes < |MARKER| then maximumArtifactBytes else |MARKER|];
          }
        }
      }
      artifactSizeBytes := artifactSizeBytes + |chunk|;
    }

    /** One line: the tail and the artifact take it, and a report is issued if one is due. */
    method Accept(line: Line) returns (chunk: seq<Eviction.Byte>, reports: seq<Report>)
      requires Valid()
      modifies this
      ensures Valid() && history == old(history) + [line]
      ensures Artifact(history, maximumArtifactBytes) == Artifact(old(history), maximumArtifactBytes) + chunk
      ensures reports == if Due(|history|) then [ReportOn(history, Lim())] else []
    {
      AppendTail(line.entry, line);
      chunk := AppendArtifact(line, old(history));
      reports := Progress();
    }

    /** The periodic report, if the line just accepted calls for one. */
    method Progress() returns (reports: seq<Report>)
      requires TailValid() && ArtifactValid()
      requires lineCount > 0 && lastReportedLineCount == LastPeriodic(lineCount - 1)
      modifies this`lastReportedLineCount
      ensures lastReportedLineCount == LastPeriodic(lineCount)
      ensures reports == if Due(|history|) then [ReportOn(history, Lim())] else []
    {
      LastPeriodicStep(lineCount);
      reports := [];
      if lineCount == 1 || lineCount % PROGRESS_INTERVAL == 0 {
        var r := Result();
        reports := [r];
        lastReportedLineCount := lineCount;
      }
    }

    /** The lines, up to the end of the stream. */
    method StreamLines(lines: seq<Line>) returns (chunks: seq<seq<Eviction.Byte>>, reports: seq<Report>)
      requires Valid() && history == []
      modifies this
      ensures Valid() && history == lines && Streamed(history, chunks, reports, Lim())
    {
      chunks, reports := [], [];
      var i := 0;
      while i < |lines|
        invariant i <= |lines| && Valid() && history == lines[..i]
        invariant Streamed(history, chunks, reports, Lim())
      {
        chunks, reports := StreamLine(lines[i], chunks, reports);
        i := i + 1;
      }
    }

    /** One iteration: the line's chunk, if there is one, and the report, if one is due. */
    method StreamLine(line: Line, before: seq<seq<Eviction.Byte>>, reported: seq<Report>)
      returns (chunks: seq<seq<Eviction.Byte>>, reports: seq<Report>)
      requires Valid() && Streamed(history, before, reported, Lim())
      modifies this
      ensures Valid() && history == old(history) + [line] && Streamed(history, chunks, reports, Lim())
    {
      var chunk, rs := Accept(line);
      StreamedNext(old(history), line, before, reported, chunk, Lim());
      chunks := if chunk == [] then before else before + [chunk];
      reports := reported + rs;
    }

    /** The whole stream. */
    method Stream(lines: seq<Line>) returns (chunks: seq<seq<Eviction.Byte>>, reports: seq<Report>)
      requires Valid() && history == []
      modifies this
      ensures history == lines && TailValid() && ArtifactValid()
      ensures Flatten(chunks) == Artifact(lines, maximumArtifactBytes)
      ensures [] !in chunks
      ensures Within(Counts(|lines|), |lines|) && reports == ReportsOn(lines, Lim(), Counts(|lines|))
    {
      chunks, reports := StreamLines(lines);
      PeriodicReportsAre(lines, Lim());
      StreamEnd(lines, Lim());
      var rs := Close();
      reports := reports + rs;
    }

    /** The closing report, unless the last line was reported. */
    method Close() returns (reports: seq<Report>)
      requires Valid()
      modifies this`lastReportedLineCount
      ensures TailValid() && ArtifactValid()
      ensures reports == if |history| > LastPeriodic(|history|) then [ReportOn(history, Lim())] else []
    {
      reports := [];
      if lineCount > lastReportedLineCount {
        var r := Result();
        reports := [r];
        lastReportedLineCount := lineCount;
      }
    }
  }

  /** The tail of the history h and its counters. */
  ghost predicate TailIs(h: seq<Line>, limit: nat, tail: seq<Entry>, size: nat, count: nat) {
    var q := Entries(h);
    0 < limit && tail == q[TailStart(q, limit)..] && size == Sizes(tail) && count == |h|
  }

  /** What is left after dropping, with the new entry, is the tail of the longer history. */
  lemma {:induction false} TailIsNext(h: seq<Line>, line: Line, limit: nat, k: nat)
    requires 0 < limit && Dropping(Entries(h), line.entry, limit, k)
    requires var rest := Entries(h)[k..];
      rest == [] || (|rest| < limit && Sizes(rest) + line.entry.size <= RESULT_MAX_BYTES)
    ensures var rest := Entries(h)[k..];
      TailIs(h + [line], limit, rest + [line.entry], Sizes(rest) + line.entry.size, |h| + 1)
  {
    DropDone(Entries(h), line.entry, limit, k);
    EntriesGrow(h, line);
  }

  /** What one more line adds to the artifact. */
  lemma {:induction false} ArtifactStep(h: seq<Line>, x: Line, maximum: nat)
    requires 0 < maximum
    ensures Truncated(h + [x], maximum)
      <==> Truncated(h, maximum) || |Artifact(h, maximum)| + |Encoded(x)| > maximum
    ensures Artifact(h + [x], maximum) == Artifact(h, maximum) +
      if Truncated(h, maximum) then []
      else if |Artifact(h, maximum)| + |Encoded(x)| <= maximum then Encoded(x)
      else if |Artifact(h, maximum)| == 0 then MARKER[..if maximum < |MARKER| then maximum else |MARKER|]
      else []
  {
    var r := h + [x];
    StoredGrows(h, x, maximum);
    ArtifactBounded(h, maximum);
    assert r[..|h|] == h && h[..|h|] == h && r[..|r|] == r;
    assert forall k :: 0 <= k <= |h| ==> r[..k] == h[..k];
  }

  /** The reports that came while the history grew to h. */
  ghost function PeriodicReports(h: seq<Line>, lim: Limits): seq<Report> {
    if h == [] then []
    else PeriodicReports(h[..|h| - 1], lim) + if Due(|h|) then [ReportOn(h, lim)] else []
  }

  /** What was yielded and reported while the history grew to h. */
  ghost predicate Streamed(h: seq<Line>, chunks: seq<seq<Eviction.Byte>>, reports: seq<Report>, lim: Limits) {
    && Flatten(chunks) == Artifact(h, lim.artifactBytes) && [] !in chunks
    && reports == PeriodicReports(h, lim)
  }

  lemma {:induction false} StreamedNext(h: seq<Line>, line: Line, chunks: seq<seq<Eviction.Byte>>, reports: seq<Report>,
      chunk: seq<Eviction.Byte>, lim: Limits)
    requires Streamed(h, chunks, reports, lim)
    requires Artifact(h + [line], lim.artifactBytes) == Artifact(h, lim.artifactBytes) + chunk
    ensures Streamed(h + [line], if chunk == [] then chunks else chunks + [chunk],
                     reports + if Due(|h| + 1) then [ReportOn(h + [line], lim)] else [], lim)
  {
    assert (h + [line])[..|h|] == h;
    FlattenAppend(chunks, chunk);
    assert Artifact(h, lim.artifactBytes) + [] == Artifact(h, lim.artifactBytes);
  }

  lemma {:induction false} ReportsPrefix(h: seq<Line>, n: nat, lim: Limits, c: seq<nat>)
    requires n <= |h| && Within(c, n)
    ensures Within(c, |h|) && ReportsOn(h[..n], lim, c) == ReportsOn(h, lim, c)
  {
    if c != [] {
      ReportsPrefix(h, n, lim, c[..|c| - 1]);
      assert h[..n][..c[|c| - 1]] == h[..c[|c| - 1]];
    }
  }

  lemma {:induction false} PeriodicReportsAre(h: seq<Line>, lim: Limits)
    ensures Within(Periodic(|h|), |h|) && PeriodicReports(h, lim) == ReportsOn(h, lim, Periodic(|h|))
  {
    var n := |h|;
    if n > 0 {
      PeriodicReportsAre(h[..n - 1], lim);
      ReportsPrefix(h, n - 1, lim, Periodic(n - 1));
      ReportsGrow(h, lim, n);
      assert h[..n] == h;
    }
  }

  lemma {:induction false} ReportsGrow(lines: seq<Line>, lim: Limits, n: nat)
    requires 0 < n <= |lines| && Within(Periodic(n - 1), |lines|)
    ensures Within(Periodic(n), |lines|)
    ensures ReportsOn(lines, lim, Periodic(n)) ==
      ReportsOn(lines, lim, Periodic(n - 1)) + if Due(n) then [ReportOn(lines[..n], lim)] else []
  {
    PeriodicStep(n);
    if Due(n) {
      ReportsStep(lines, lim, Periodic(n - 1), n);
    }
  }

  lemma {:induction false} StreamEnd(lines: seq<Line>, lim: Limits)
    requires Within(Periodic(|lines|), |lines|)
    ensures Within(Counts(|lines|), |lines|)
    ensures ReportsOn(lines, lim, Counts(|lines|)) == ReportsOn(lines, lim, Periodic(|lines|))
      + if |lines| > LastPeriodic(|lines|) then [ReportOn(lines, lim)] else []
  {
    var n := |lines|;
    assert lines[..n] == lines;
    if n > 0 {
      LastPeriodicStep(n);
      assert Periodic(n) + [] == Periodic(n);
      if !Due(n) {
        ReportsStep(lines, lim, Periodic(n), n);
      }
    }
  }
}
