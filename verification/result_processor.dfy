/** The result processor: it scans one result file of the enumeration tool,
    inserts every non-blank line into the deduplication store, collects the
    lines whose insert created a fresh row, and hands that batch to the
    notifier through a temporary newline-delimited file. */
module ResultProcessor {
  import opened Sequences
  import opened DedupStore

  /** A scanned text file: its lines in order, without their terminators. */
  type Lines = seq<string>

  /** Positions of the lines whose insert statement returns an error. */
  type Failures = set<nat>

  datatype ScanResult = ScanResult(store: Store, newDomains: seq<string>)

  /** The insert loop over the result file. Each non-blank line is inserted;
      a failed insert skips only that line; a line is reported as new only
      when its insert created a fresh row. Defined over prefixes, so the last
      line is the one processed last. */
  function Scan(store: Store, lines: Lines, failing: Failures): (r: ScanResult)
    decreases |lines|
    ensures store <= r.store
    ensures forall d :: d in r.store ==> d in store || (d in lines && d != "")
    ensures forall d :: d in r.newDomains ==> d !in store && d in r.store && d != ""
    ensures NoDuplicates(r.newDomains)
    ensures IsSubsequence(r.newDomains, lines)
  {
    if |lines| == 0 then ScanResult(store, [])
    else
      var prefix := lines[..|lines| - 1];
      var d := lines[|lines| - 1];
      var prev := Scan(store, prefix, failing);
      if d == "" then
        ScanResult(prev.store, prev.newDomains)
      else
        var ins := TryInsert(prev.store, d, |lines| - 1 in failing);
        if ins.outcome == Inserted then
          var batch := prev.newDomains + [d];
          assert batch[..|batch| - 1] == prev.newDomains;
          ScanResult(ins.store, batch)
        else
          ScanResult(ins.store, prev.newDomains)
  }

  // ---------------------------------------------------------------------
  // A reference description of the scan that does not thread the store.

  /** The domains whose insert succeeds at least once during the scan. */
  ghost function Accepted(lines: Lines, failing: Failures): set<string>
  {
    set i | 0 <= i < |lines| && lines[i] != "" && i !in failing :: lines[i]
  }

  /** Line `i` is reported: it is non-blank, its insert does not fail, its
      domain was not stored before the scan, and no earlier line with the
      same domain was inserted successfully. */
  ghost predicate ReportedAt(store: Store, lines: Lines, failing: Failures, i: nat)
    requires i < |lines|
  {
    && lines[i] != ""
    && i !in failing
    && lines[i] !in store
    && forall j :: 0 <= j < i && lines[j] == lines[i] ==> j in failing
  }

  /** The reported lines, in scan order. */
  ghost function Reported(store: Store, lines: Lines, failing: Failures): seq<string>
    decreases |lines|
  {
    if |lines| == 0 then []
    else
      Reported(store, lines[..|lines| - 1], failing)
      + (if ReportedAt(store, lines, failing, |lines| - 1) then [lines[|lines| - 1]] else [])
  }

  lemma AcceptedSnoc(lines: Lines, failing: Failures)
    requires |lines| > 0
    ensures var n := |lines| - 1;
            Accepted(lines, failing)
            == Accepted(lines[..n], failing)
               + (if lines[n] != "" && n !in failing then {lines[n]} else {})
  {
  }

  /** The fold agrees with the reference description: the store ends as the
      old store plus every non-blank line whose insert did not fail, and the
      batch holds exactly the reported lines in scan order. */
  lemma {:induction false} ScanMatchesReference(store: Store, lines: Lines, failing: Failures)
    ensures Scan(store, lines, failing).store == store + Accepted(lines, failing)
    ensures Scan(store, lines, failing).newDomains == Reported(store, lines, failing)
    decreases |lines|
  {
    if |lines| == 0 {
      assert Accepted(lines, failing) == {};
    } else {
      var n := |lines| - 1;
      var prefix := lines[..n];
      var d := lines[n];
      ScanMatchesReference(store, prefix, failing);
      AcceptedSnoc(lines, failing);
      var before := store + Accepted(prefix, failing);
      if d != "" && n !in failing {
        if d in before {
          if d !in store {
            var j :| 0 <= j < |prefix| && prefix[j] != "" && j !in failing && prefix[j] == d;
            assert lines[j] == d && j < n;
            assert !ReportedAt(store, lines, failing, n);
          }
        } else {
          forall j | 0 <= j < n && lines[j] == d
            ensures j in failing
          {
            assert prefix[j] == d;
            assert j !in failing ==> d in Accepted(prefix, failing);
          }
          assert ReportedAt(store, lines, failing, n);
        }
      }
    }
  }

  /** Scanning the same lines again, against the store the first pass left,
      reports only domains all of whose inserts failed in the first pass. */
  lemma RescanReportsOnlyFailed(store: Store, lines: Lines, first: Failures, second: Failures)
    ensures var again := Scan(Scan(store, lines, first).store, lines, second);
            forall i :: 0 <= i < |lines| && lines[i] in again.newDomains ==> i in first
  {
    ScanMatchesReference(store, lines, first);
  }

  /** When no insert of the first pass failed, a second pass over the same
      lines reports nothing and leaves the store as the first pass left it. */
  lemma RescanIsIdempotent(store: Store, lines: Lines, second: Failures)
    ensures var s1 := Scan(store, lines, {}).store;
            var again := Scan(s1, lines, second);
            again.newDomains == [] && again.store == s1
  {
    var s1 := Scan(store, lines, {}).store;
    ScanMatchesReference(store, lines, {});
    forall d | d in lines && d != ""
      ensures d in s1
    {
      var i :| 0 <= i < |lines| && lines[i] == d;
      assert lines[i] in Accepted(lines, {});
    }
    var again := Scan(s1, lines, second);
    assert forall d :: d in again.store ==> d in s1;
    ScanMatchesReference(s1, lines, second);
    NothingReportedWhenAllStored(s1, lines, second);
  }

  /** A scan against a store that already holds every non-blank line reports
      nothing. */
  lemma {:induction false} NothingReportedWhenAllStored(store: Store, lines: Lines, failing: Failures)
    requires forall i :: 0 <= i < |lines| && lines[i] != "" ==> lines[i] in store
    ensures Reported(store, lines, failing) == []
    decreases |lines|
  {
    if |lines| > 0 {
      var prefix := lines[..|lines| - 1];
      assert forall i :: 0 <= i < |prefix| ==> prefix[i] == lines[i];
      NothingReportedWhenAllStored(store, prefix, failing);
    }
  }

  /** The insert loop as the program writes it: one pass over the lines,
      skipping blank ones. It computes what `Scan` describes. */
  method ScanResultFile(store: Store, lines: Lines, failing: Failures)
    returns (store': Store, newDomains: seq<string>)
    ensures ScanResult(store', newDomains) == Scan(store, lines, failing)
    ensures store' == store + Accepted(lines, failing)
    ensures newDomains == Reported(store, lines, failing)
  {
    store' := store;
    newDomains := [];
    var i := 0;
    while i < |lines|
      invariant 0 <= i <= |lines|
      invariant ScanResult(store', newDomains) == Scan(store, lines[..i], failing)
    {
      var domain := lines[i];
      assert lines[..i + 1][..i] == lines[..i];
      if domain != "" {
        var ins := TryInsert(store', domain, i in failing);
        store' := ins.store;
        if ins.outcome == Inserted {
          newDomains := newDomains + [domain];
        }
      }
      i := i + 1;
    }
    assert lines[..|lines|] == lines;
    ScanMatchesReference(store, lines, failing);
  }

  // ---------------------------------------------------------------------
  // The temporary file handed to the notifier.

  /** The temporary file's contents: each domain followed by a newline. */
  function Render(domains: seq<string>): (text: string)
    decreases |domains|
    ensures |text| == 0 <==> |domains| == 0
    ensures |domains| > 0 ==> text[|text| - 1] == '\n'
    ensures |domains| > 0 ==>
              |text| > |domains[0]| && text[..|domains[0]|] == domains[0] && text[|domains[0]|] == '\n'
  {
    if |domains| == 0 then "" else domains[0] + "\n" + Render(domains[1..])
  }

  /** Writing one more domain appends it and a newline to the contents. */
  lemma {:induction false} RenderAppend(domains: seq<string>, d: string)
    ensures Render(domains + [d]) == Render(domains) + d + "\n"
    decreases |domains|
  {
    if |domains| == 0 {
      assert domains + [d] == [d];
      assert [d][1..] == [];
    } else {
      var rest := domains[1..];
      assert (domains + [d])[0] == domains[0];
      assert (domains + [d])[1..] == rest + [d];
      RenderAppend(rest, d);
      var head := domains[0] + "\n";
      assert Render(domains + [d]) == head + Render(rest + [d]);
      assert Render(domains) == head + Render(rest);
      assert head + (Render(rest) + d + "\n") == (head + Render(rest)) + d + "\n";
    }
  }

  /** The loop that writes the batch into the temporary file, one
      `domain + "\n"` per write; the file ends up holding `Render(batch)`. */
  method WriteTempFile(batch: seq<string>) returns (contents: string)
    ensures contents == Render(batch)
    ensures NewlineFree(batch) ==> SplitLines(contents) == batch
  {
    contents := "";
    var i := 0;
    while i < |batch|
      invariant 0 <= i <= |batch|
      invariant contents == Render(batch[..i])
    {
      RenderAppend(batch[..i], batch[i]);
      assert batch[..i + 1] == batch[..i] + [batch[i]];
      contents := contents + batch[i] + "\n";
      i := i + 1;
    }
    assert batch[..|batch|] == batch;
    assert NewlineFree(batch) ==> SplitLines(contents) == batch by {
      if NewlineFree(batch) {
        RenderRoundTrip(batch);
      }
    }
  }

  /** Length of the first line of `text`: the position of its first newline,
      or the whole length when there is none. */
  function FirstLineLength(text: string): (k: nat)
    decreases |text|
    ensures k <= |text|
    ensures '\n' !in text[..k]
    ensures k < |text| ==> text[k] == '\n'
  {
    if |text| == 0 then 0
    else if text[0] == '\n' then 0
    else
      var k := 1 + FirstLineLength(text[1..]);
      assert text[..k] == [text[0]] + text[1..][..k - 1];
      k
  }

  /** How a reader of a newline-delimited file (the notifier) splits it into
      lines; a final line without a newline still counts. */
  function SplitLines(text: string): seq<string>
    decreases |text|
  {
    if |text| == 0 then []
    else
      var k := FirstLineLength(text);
      if k == |text| then [text] else [text[..k]] + SplitLines(text[k + 1..])
  }

  /** No scanned line contains a newline. */
  ghost predicate NewlineFree(lines: seq<string>)
  {
    forall i :: 0 <= i < |lines| ==> '\n' !in lines[i]
  }

  lemma FirstLineOfRendered(d: string, rest: string)
    requires '\n' !in d
    ensures FirstLineLength(d + "\n" + rest) == |d|
  {
    var text := d + "\n" + rest;
    var k := FirstLineLength(text);
    assert text[|d|] == '\n';
    assert forall i :: 0 <= i < |d| ==> text[i] == d[i];
  }

  /** The notifier reads back exactly the batch that was written. */
  lemma {:induction false} RenderRoundTrip(domains: seq<string>)
    requires NewlineFree(domains)
    ensures SplitLines(Render(domains)) == domains
    decreases |domains|
  {
    if |domains| > 0 {
      var d := domains[0];
      var rest := Render(domains[1..]);
      var text := d + "\n" + rest;
      assert '\n' !in domains[0];
      FirstLineOfRendered(d, rest);
      assert text[..|d|] == d;
      assert text[|d| + 1..] == rest;
      RenderRoundTrip(domains[1..]);
    }
  }

  lemma SubsequenceNewlineFree(a: seq<string>, b: seq<string>)
    requires IsSubsequence(a, b) && NewlineFree(b)
    ensures NewlineFree(a)
  {
  }

  /** A batch taken from scanned lines is read back intact by the notifier. */
  lemma BatchReadsBack(batch: seq<string>, lines: Lines)
    requires IsSubsequence(batch, lines)
    ensures NewlineFree(lines) ==> SplitLines(Render(batch)) == batch
  {
    if NewlineFree(lines) {
      SubsequenceNewlineFree(batch, lines);
      RenderRoundTrip(batch);
    }
  }

  // ---------------------------------------------------------------------
  // The whole result-file step.

  /** The steps before the scan, each of which can abandon the file. */
  datatype Preflight =
    | Ready
    | DatabaseOpenFailed
    | TableCreateFailed
    | ResultFileOpenFailed

  /** What happens after the scan. */
  datatype Handoff =
    | NotReached          // the step was abandoned before scanning
    | NothingNew          // empty batch: the notifier is not run
    | TempFileFailed      // the temporary file could not be created, written or closed
    | Notified(data: string)  // the notifier ran on a file with these contents

  datatype Report = Report(store: Store, newDomains: seq<string>, handoff: Handoff)

  /** One result file, end to end. `tempOk` says whether the temporary file
      could be created, written and closed. */
  function ProcessOutputFile(store: Store, preflight: Preflight, lines: Lines,
                             failing: Failures, tempOk: bool): (r: Report)
    ensures preflight != Ready ==> r == Report(store, [], NotReached)
    ensures store <= r.store
    ensures forall d :: d in r.newDomains ==> d !in store && d in r.store && d != ""
    ensures NoDuplicates(r.newDomains)
    ensures IsSubsequence(r.newDomains, lines)
    ensures r.handoff.Notified? <==> preflight == Ready && tempOk && |r.newDomains| > 0
    ensures r.handoff == NothingNew <==> preflight == Ready && |r.newDomains| == 0
    ensures r.handoff == TempFileFailed <==> preflight == Ready && !tempOk && |r.newDomains| > 0
    ensures preflight == Ready ==>
              && r.store == store + Accepted(lines, failing)
              && r.newDomains == Reported(store, lines, failing)
    ensures r.handoff.Notified? ==> r.handoff.data == Render(r.newDomains)
    ensures r.handoff.Notified? && NewlineFree(lines) ==> SplitLines(r.handoff.data) == r.newDomains
  {
    ScanMatchesReference(store, lines, failing);
    if preflight != Ready then
      EmptyIsSubsequence(lines);
      Report(store, [], NotReached)
    else
      var scan := Scan(store, lines, failing);
      if |scan.newDomains| == 0 then Report(scan.store, [], NothingNew)
      else if !tempOk then Report(scan.store, scan.newDomains, TempFileFailed)
      else
        BatchReadsBack(scan.newDomains, lines);
        Report(scan.store, scan.newDomains, Notified(Render(scan.newDomains)))
  }

  /** Processing the same result file again, after a first pass in which no
      insert failed, finds nothing new and does not run the notifier. */
  lemma ReprocessNotifiesNothing(store: Store, lines: Lines, second: Failures, tempOk: bool)
    ensures var first := ProcessOutputFile(store, Ready, lines, {}, tempOk);
            var again := ProcessOutputFile(first.store, Ready, lines, second, tempOk);
            again.newDomains == [] && again.handoff == NothingNew && again.store == first.store
  {
    RescanIsIdempotent(store, lines, second);
  }
}
