/** The scheduler's single pass over the domain list: every non-blank line
    names a target domain, the enumeration tool is run for it into a file
    named after the domain and the current time, and the result file is
    handed to the result processor. */
module Scheduler {
  import opened Sequences
  import opened DedupStore
  import opened ResultProcessor

  // ---------------------------------------------------------------------
  // Which lines of the domain list are processed.

  /** The target domains of a scanned domain list: its non-blank lines, in
      file order. */
  function Targets(lines: Lines): (r: seq<string>)
    decreases |lines|
    ensures "" !in r
    ensures IsSubsequence(r, lines)
    ensures forall d :: d != "" ==> multiset(r)[d] == multiset(lines)[d]
  {
    if |lines| == 0 then []
    else
      var prefix := lines[..|lines| - 1];
      var d := lines[|lines| - 1];
      var prev := Targets(prefix);
      assert lines == prefix + [d];
      if d == "" then
        prev
      else
        var r := prev + [d];
        assert r[..|r| - 1] == prev;
        r
  }

  // ---------------------------------------------------------------------
  // The result file's name.

  /** The layout the timestamp is formatted with: year, month, day, an
      underscore, hour, minute, second. */
  const TimestampLayout: string := "20060102_150405"

  /** A formatted timestamp: digits where the layout has digits and the
      underscore where it has one. */
  predicate IsTimestamp(t: string)
  {
    && |t| == |TimestampLayout|
    && forall i :: 0 <= i < |t| ==>
         if TimestampLayout[i] == '_' then t[i] == '_' else '0' <= t[i] <= '9'
  }

  /** The file the enumeration tool writes for `domain` at time `datetime`. */
  function OutputFileName(domain: string, datetime: string): (name: string)
    ensures |name| == |domain| + |datetime| + 5
    ensures name[..|domain|] == domain && name[|domain|] == '_'
    ensures name[|domain| + 1..|name| - 4] == datetime && name[|name| - 4..] == ".txt"
  {
    domain + "_" + datetime + ".txt"
  }

  /** A file name split into the parts the program put into it. */
  datatype FileNameParts = NotAResultFile | ResultFile(domain: string, datetime: string)

  /** Recovers the domain and timestamp from a result file name;
      `NotAResultFile` when the name does not have the shape
      `<domain>_<timestamp>.txt`. */
  function ParseOutputFileName(name: string): (r: FileNameParts)
    ensures r.ResultFile? ==> IsTimestamp(r.datetime) && OutputFileName(r.domain, r.datetime) == name
  {
    var n := |name|;
    var k := |TimestampLayout|;
    if n < k + 5 then NotAResultFile
    else if name[n - 4..] != ".txt" || name[n - k - 5] != '_' then NotAResultFile
    else
      var domain := name[..n - k - 5];
      var datetime := name[n - k - 4..n - 4];
      if IsTimestamp(datetime) then
        assert name == domain + "_" + datetime + ".txt";
        ResultFile(domain, datetime)
      else NotAResultFile
  }

  /** Parsing a result file name gives back the domain and the timestamp. */
  lemma OutputFileNameRoundTrip(domain: string, datetime: string)
    requires IsTimestamp(datetime)
    ensures ParseOutputFileName(OutputFileName(domain, datetime)) == ResultFile(domain, datetime)
  {
    var name := OutputFileName(domain, datetime);
    var n := |name|;
    var k := |TimestampLayout|;
    assert name[n - 4..] == ".txt";
    assert name[n - k - 5] == '_';
    assert name[..n - k - 5] == domain;
    assert name[n - k - 4..n - 4] == datetime;
  }

  /** Distinct domains, or distinct timestamps, give distinct file names. */
  lemma OutputFileNameInjective(d1: string, t1: string, d2: string, t2: string)
    requires IsTimestamp(t1) && IsTimestamp(t2)
    requires OutputFileName(d1, t1) == OutputFileName(d2, t2)
    ensures d1 == d2 && t1 == t2
  {
    OutputFileNameRoundTrip(d1, t1);
    OutputFileNameRoundTrip(d2, t2);
  }

  // ---------------------------------------------------------------------
  // One domain.

  /** The enumeration tool's run: a launch failure or non-zero exit, or the
      scanned lines of the result file it wrote. */
  datatype ToolRun = ToolFailed | ToolWrote(lines: Lines)

  /** Everything outside the program that decides how one domain goes: the
      clock reading, the tool's run, the database and file steps, and the
      temporary file. */
  datatype DomainEnv = DomainEnv(
    datetime: string,
    tool: ToolRun,
    preflight: Preflight,
    failing: Failures,
    tempOk: bool)

  datatype DomainRun = DomainRun(domain: string, outputFile: string, report: Report)

  /** Runs the enumeration tool for `domain`, then processes its result
      file; a failed tool run skips the result file altogether. */
  function ProcessDomain(store: Store, domain: string, env: DomainEnv): (r: DomainRun)
    ensures r.domain == domain
    ensures r.outputFile == OutputFileName(domain, env.datetime)
    ensures IsTimestamp(env.datetime) ==>
              ParseOutputFileName(r.outputFile) == ResultFile(domain, env.datetime)
    ensures env.tool.ToolFailed? ==> r.report == Report(store, [], NotReached)
    ensures env.tool.ToolWrote? ==>
              r.report == ProcessOutputFile(store, env.preflight, env.tool.lines, env.failing, env.tempOk)
    ensures store <= r.report.store
    ensures forall d :: d in r.report.newDomains ==> d !in store && d in r.report.store
    ensures NoDuplicates(r.report.newDomains)
    ensures r.report.handoff.Notified? ==> env.tool.ToolWrote? && |r.report.newDomains| > 0
  {
    var outputFile := OutputFileName(domain, env.datetime);
    assert IsTimestamp(env.datetime) ==>
             ParseOutputFileName(outputFile) == ResultFile(domain, env.datetime) by {
      if IsTimestamp(env.datetime) {
        OutputFileNameRoundTrip(domain, env.datetime);
      }
    }
    match env.tool
    case ToolFailed =>
      DomainRun(domain, outputFile, Report(store, [], NotReached))
    case ToolWrote(lines) =>
      DomainRun(domain, outputFile,
                ProcessOutputFile(store, env.preflight, lines, env.failing, env.tempOk))
  }

  // ---------------------------------------------------------------------
  // One pass over the domain list.

  /** The domain list: unreadable, or its scanned lines. */
  datatype DomainList = Unreadable | Listed(lines: Lines)

  datatype Cycle = Cycle(store: Store, runs: seq<DomainRun>)

  /** The domains handed to the per-domain step, in call order. */
  function Calls(runs: seq<DomainRun>): seq<string>
  {
    seq(|runs|, i requires 0 <= i < |runs| => runs[i].domain)
  }

  /** Every domain reported as new during the runs, in order. */
  ghost function AllReported(runs: seq<DomainRun>): seq<string>
    decreases |runs|
  {
    if |runs| == 0 then [] else AllReported(runs[..|runs| - 1]) + runs[|runs| - 1].report.newDomains
  }

  /** The store run `i` starts from: the initial store for the first run,
      the store the previous run left for every later one. */
  ghost function StoreBefore(store: Store, runs: seq<DomainRun>, i: nat): Store
    requires i <= |runs|
  {
    if i == 0 then store else runs[i - 1].report.store
  }

  /** `runs` comes from processing `targets[i]` with `envs[i]`, in order,
      each against the store the previous run left. */
  ghost predicate Chained(store: Store, targets: seq<string>, envs: seq<DomainEnv>, runs: seq<DomainRun>)
    decreases |runs|
  {
    && |runs| == |targets| == |envs|
    && (|runs| > 0 ==>
          var n := |runs| - 1;
          && Chained(store, targets[..n], envs[..n], runs[..n])
          && runs[n] == ProcessDomain(StoreBefore(store, runs, n), targets[n], envs[n]))
  }

  /** In chained runs, run `i` is the per-domain step for `targets[i]` with
      `envs[i]` against the store run `i - 1` left. */
  lemma {:induction false} ChainedRun(store: Store, targets: seq<string>, envs: seq<DomainEnv>,
                                      runs: seq<DomainRun>, i: nat)
    requires Chained(store, targets, envs, runs)
    requires i < |runs|
    decreases |runs|
    ensures runs[i] == ProcessDomain(StoreBefore(store, runs, i), targets[i], envs[i])
  {
    var n := |runs| - 1;
    if i < n {
      ChainedRun(store, targets[..n], envs[..n], runs[..n], i);
      assert StoreBefore(store, runs[..n], i) == StoreBefore(store, runs, i);
    }
  }

  /** Processes the targets one after another, each against the store the
      previous one left. `envs[i]` is the environment of the i-th call. */
  function RunDomains(store: Store, targets: seq<string>, envs: seq<DomainEnv>): (c: Cycle)
    requires |envs| == |targets|
    decreases |targets|
    ensures |c.runs| == |targets|
    ensures Calls(c.runs) == targets
    ensures store <= c.store
    ensures forall d :: d in AllReported(c.runs) ==> d !in store && d in c.store
    ensures NoDuplicates(AllReported(c.runs))
  {
    if |targets| == 0 then Cycle(store, [])
    else
      var n := |targets| - 1;
      var prev := RunDomains(store, targets[..n], envs[..n]);
      var run := ProcessDomain(prev.store, targets[n], envs[n]);
      var runs := prev.runs + [run];
      assert runs[..|runs| - 1] == prev.runs;
      NoDuplicatesConcat(AllReported(prev.runs), run.report.newDomains);
      assert Calls(runs) == Calls(prev.runs) + [targets[n]];
      assert targets == targets[..n] + [targets[n]];
      Cycle(run.report.store, runs)
  }

  /** The pass threads the store: run `i` is the per-domain step for
      `targets[i]` with `envs[i]`, against the store run `i - 1` left (the
      initial store for the first run), and the pass ends with the store
      the last run left. */
  lemma {:induction false} RunDomainsChained(store: Store, targets: seq<string>, envs: seq<DomainEnv>)
    requires |envs| == |targets|
    decreases |targets|
    ensures var c := RunDomains(store, targets, envs);
            && Chained(store, targets, envs, c.runs)
            && c.store == StoreBefore(store, c.runs, |c.runs|)
  {
    if |targets| > 0 {
      var n := |targets| - 1;
      RunDomainsChained(store, targets[..n], envs[..n]);
      var prev := RunDomains(store, targets[..n], envs[..n]);
      var run := ProcessDomain(prev.store, targets[n], envs[n]);
      var runs := prev.runs + [run];
      assert RunDomains(store, targets, envs) == Cycle(run.report.store, runs);
      assert runs[..n] == prev.runs;
    } else {
      assert RunDomains(store, targets, envs) == Cycle(store, []);
    }
  }

  /** One pass over the domain list. An unreadable list is a pass that does
      nothing. */
  function RunTasks(store: Store, list: DomainList, envs: seq<DomainEnv>): (c: Cycle)
    requires list.Listed? ==> |envs| == |Targets(list.lines)|
    ensures list.Unreadable? ==> c == Cycle(store, [])
    ensures list.Listed? ==> Chained(store, Targets(list.lines), envs, c.runs)
    ensures list.Listed? ==> c.store == StoreBefore(store, c.runs, |c.runs|)
    ensures list.Listed? ==> Calls(c.runs) == Targets(list.lines)
    ensures store <= c.store
    ensures forall d :: d in AllReported(c.runs) ==> d !in store && d in c.store
    ensures NoDuplicates(AllReported(c.runs))
  {
    match list
    case Unreadable => Cycle(store, [])
    case Listed(lines) =>
      RunDomainsChained(store, Targets(lines), envs);
      RunDomains(store, Targets(lines), envs)
  }

  /** Each non-blank line of the domain list is processed exactly as many
      times as it occurs, blank lines never, and in file order. */
  lemma EachListedDomainProcessedOnce(store: Store, lines: Lines, envs: seq<DomainEnv>)
    requires |envs| == |Targets(lines)|
    ensures var calls := Calls(RunTasks(store, Listed(lines), envs).runs);
            && "" !in calls
            && IsSubsequence(calls, lines)
            && forall d :: d != "" ==> multiset(calls)[d] == multiset(lines)[d]
  {
  }

  /** A later pass never reports a domain an earlier pass reported. */
  lemma LaterCycleNeverRepeats(store: Store, list1: DomainList, envs1: seq<DomainEnv>,
                               list2: DomainList, envs2: seq<DomainEnv>)
    requires list1.Listed? ==> |envs1| == |Targets(list1.lines)|
    requires list2.Listed? ==> |envs2| == |Targets(list2.lines)|
    ensures var c1 := RunTasks(store, list1, envs1);
            var c2 := RunTasks(c1.store, list2, envs2);
            forall d :: d in AllReported(c1.runs) ==> d !in AllReported(c2.runs)
  {
  }

  /** The two-domain example: the list names `a.com`, a blank line and
      `b.com`; the tool finds two new hosts for `a.com` and, for `b.com`, one
      host the first run already stored. The blank line is not processed,
      the notifier gets both hosts of `a.com` once, and `b.com` reports
      nothing. */
  lemma TwoDomainExample()
    ensures var ok := DomainEnv("20240101_000000", ToolWrote(["x.a.com", "y.a.com"]), Ready, {}, true);
            var again := DomainEnv("20240101_000100", ToolWrote(["x.a.com"]), Ready, {}, true);
            var c := RunTasks({}, Listed(["a.com", "", "b.com"]), [ok, again]);
            && Calls(c.runs) == ["a.com", "b.com"]
            && c.runs[0].report.handoff == Notified("x.a.com\ny.a.com\n")
            && c.runs[1].report.handoff == NothingNew
            && c.store == {"x.a.com", "y.a.com"}
  {
    var ok := DomainEnv("20240101_000000", ToolWrote(["x.a.com", "y.a.com"]), Ready, {}, true);
    var again := DomainEnv("20240101_000100", ToolWrote(["x.a.com"]), Ready, {}, true);
    var stored: Store := {"x.a.com", "y.a.com"};
    ExampleTargets();
    ExampleFirstReport();
    ExampleSecondReport();
    var run0 := ProcessDomain({}, "a.com", ok);
    var run1 := ProcessDomain(run0.report.store, "b.com", again);
    TwoTargets({}, "a.com", "b.com", ok, again);
    var c := RunTasks({}, Listed(["a.com", "", "b.com"]), [ok, again]);
    assert c == Cycle(stored, [run0, run1]);
  }

  /** Two targets are processed one after the other. */
  lemma TwoTargets(store: Store, t0: string, t1: string, e0: DomainEnv, e1: DomainEnv)
    ensures var run0 := ProcessDomain(store, t0, e0);
            var run1 := ProcessDomain(run0.report.store, t1, e1);
            RunDomains(store, [t0, t1], [e0, e1]) == Cycle(run1.report.store, [run0, run1])
  {
    var targets := [t0, t1];
    var envs := [e0, e1];
    assert targets[..1] == [t0] && envs[..1] == [e0];
    assert targets[..1][..0] == [] && envs[..1][..0] == [];
    var run0 := ProcessDomain(store, t0, e0);
    assert RunDomains(store, [], []) == Cycle(store, []);
    assert RunDomains(store, targets[..1], envs[..1]) == Cycle(run0.report.store, [run0]);
  }

  lemma ExampleTargets()
    ensures Targets(["a.com", "", "b.com"]) == ["a.com", "b.com"]
  {
  }

  lemma ExampleFirstReport()
    ensures ProcessOutputFile({}, Ready, ["x.a.com", "y.a.com"], {}, true)
            == Report({"x.a.com", "y.a.com"}, ["x.a.com", "y.a.com"], Notified("x.a.com\ny.a.com\n"))
  {
    var hosts := ["x.a.com", "y.a.com"];
    assert hosts[..1] == ["x.a.com"];
    assert hosts[..1][..0] == [];
    assert Scan({}, hosts[..1], {}) == ScanResult({"x.a.com"}, ["x.a.com"]);
    assert Scan({}, hosts, {}) == ScanResult({"x.a.com", "y.a.com"}, hosts);
    assert Render(hosts) == "x.a.com\ny.a.com\n";
  }

  lemma ExampleSecondReport()
    ensures ProcessOutputFile({"x.a.com", "y.a.com"}, Ready, ["x.a.com"], {}, true)
            == Report({"x.a.com", "y.a.com"}, [], NothingNew)
  {
  }
}
