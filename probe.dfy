/** The probe end to end (lines 105-106 and 147-302 of check_ib_switch.py): the three decoded switch reports and
    the options in, the printed line and the exit status out. */
module Probe {
  import opened Failures
  import opened Text
  import opened Numerals
  import opened Nagios
  import opened Telemetry
  import opened Evaluation
  import opened Report

  /** The command-line options the core reads: whether a host was given, the output mode,
      the basename of the probe's path, the two memory percentages and the four
      comma-separated threshold lists. */
  datatype Options = Options(
    hostGiven: bool,
    checkMK: bool,
    program: string,
    memoryWarning: int,
    memoryCritical: int,
    loadWarning: string,
    loadCritical: string,
    tempWarning: string,
    tempCritical: string)

  /** The option defaults of lines 80-86; `-H` has no default and `-m` is a flag, so whether
      they were given stays a parameter. */
  function Defaults(hostGiven: bool, checkMK: bool, program: string): (o: Options)
    ensures o.hostGiven == hostGiven && o.checkMK == checkMK && o.program == program
    ensures o.memoryWarning < o.memoryCritical
  {
    Options(hostGiven, checkMK, program, 85, 90, "4,3.5,3.40", "4.5,4,3.5", "60,55,82", "70,60,90")
  }

  /** The decoded answers to `show module`, `show version` and `show temperature`. */
  datatype Reports = Reports(modules: seq<ModuleRecord>, version: seq<VersionEntry>, temperatures: seq<SensorGroup>)

  /** Lines 225-228: the four lists split at commas. */
  function ThresholdsOf(o: Options): Thresholds {
    Thresholds(SplitList(o.loadWarning), SplitList(o.loadCritical), SplitList(o.tempWarning), SplitList(o.tempCritical))
  }

  /** `float()` of the three load averages, which are text. */
  function LoadValues(u: Usage): seq<Result<real>> {
    [FloatOf(Literal(u.load1)), FloatOf(Literal(u.load5)), FloatOf(Literal(u.load15))]
  }

  /** `float()` of the CPU, ASIC and SIB temperatures, which are numbers and so convert to
      themselves. */
  function PeakValues(p: Peaks): seq<Result<real>> {
    [FloatOf(Number(p.cpu.celsius)), FloatOf(Number(p.asic.celsius)), FloatOf(Number(p.sib.celsius))]
  }

  /** Everything the probe has worked out once the four verdicts are in. */
  datatype Assessment = Assessment(
    scan: ModuleScan,
    usage: Usage,
    peaks: Peaks,
    percent: real,
    thresholds: Thresholds,
    memory: State,
    load: State,
    temperature: State,
    modules: State)

  /** The four verdicts in the order the aggregation walks them. */
  function States(a: Assessment): seq<State> {
    [a.memory, a.load, a.temperature, a.modules]
  }

  /** What the three reports yield: the module lists, the memory and load figures and the
      temperature maxima. */
  datatype Readings = Readings(scan: ModuleScan, usage: Usage, peaks: Peaks)

  /** Lines 147-214 in the order Python runs them; the first exception ends the run. */
  function Gather(reports: Reports): (r: Result<Readings>)
    ensures r.Ok? ==> Reported(reports.modules)
    ensures r.Ok? ==> r.value.scan == ModuleScan(Marked(reports.modules, "not-present"), Marked(reports.modules, "failed"))
    ensures r.Ok? ==> VersionScan(reports.version).Ok? && ReadUsage(VersionScan(reports.version).value) == Ok(r.value.usage)
    ensures r.Ok? ==> (ScanUpTo(reports.temperatures, |reports.temperatures|).Ok?
                       && Maxima(ScanUpTo(reports.temperatures, |reports.temperatures|).value) == Ok(r.value.peaks))
    ensures ModuleScanOf(reports.modules).Err? ==> r == ModuleScanOf(reports.modules).PropagateFailure()
  {
    var scan :- ModuleScanOf(reports.modules);
    var fields :- VersionScan(reports.version);
    var u :- ReadUsage(fields);
    var temperatures :- ScanUpTo(reports.temperatures, |reports.temperatures|);
    var peaks :- Maxima(temperatures);
    Ok(Readings(scan, u, peaks))
  }

  /** `float()` of the three load averages and of every entry of the four threshold lists. */
  datatype Conversions = Conversions(
    loads: seq<Result<real>>,
    loadWarning: seq<Result<real>>,
    loadCritical: seq<Result<real>>,
    tempWarning: seq<Result<real>>,
    tempCritical: seq<Result<real>>)

  function ConversionsOf(u: Usage, t: Thresholds): Conversions {
    Conversions(LoadValues(u), Floats(t.loadWarning), Floats(t.loadCritical), Floats(t.tempWarning), Floats(t.tempCritical))
  }

  /** Lines 217-266: the percentage and the four verdicts, given the split threshold lists
      and their conversions. */
  function Judge(o: Options, g: Readings, t: Thresholds, c: Conversions): (r: Result<Assessment>)
    ensures g.usage.total == 0 ==> r == Err(DivisionByZero)
    ensures r.Ok? ==> r.value.scan == g.scan && r.value.usage == g.usage && r.value.peaks == g.peaks && r.value.thresholds == t
    ensures r.Ok? ==> PercentUsed(g.usage.used, g.usage.total) == Ok(r.value.percent)
    ensures r.Ok? ==> r.value.memory == MemoryVerdict(r.value.percent, o.memoryWarning, o.memoryCritical)
    ensures r.Ok? ==> ThreeWayVerdict(c.loads, c.loadWarning, c.loadCritical) == Ok(r.value.load)
    ensures r.Ok? ==> ThreeWayVerdict(PeakValues(g.peaks), c.tempWarning, c.tempCritical) == Ok(r.value.temperature)
    ensures r.Ok? ==> (r.value.modules == CRITICAL <==> |g.scan.failed| > 0) && (r.value.modules == OK <==> |g.scan.failed| == 0)
    ensures r.Ok? ==> UNKNOWN !in States(r.value)
  {
    var percent :- PercentUsed(g.usage.used, g.usage.total);
    var memory := MemoryVerdict(percent, o.memoryWarning, o.memoryCritical);
    var load :- ThreeWayVerdict(c.loads, c.loadWarning, c.loadCritical);
    var temperature :- ThreeWayVerdict(PeakValues(g.peaks), c.tempWarning, c.tempCritical);
    var modules := if |g.scan.failed| > 0 then CRITICAL else OK;
    Ok(Assessment(g.scan, g.usage, g.peaks, percent, t, memory, load, temperature, modules))
  }

  /** The assessment: the readings are those the reports yield, the verdicts rest on them
      and on the threshold lists, and none of them is UNKNOWN. */
  function Assess(o: Options, reports: Reports): (r: Result<Assessment>)
    ensures Gather(reports).Err? ==> r == Gather(reports).PropagateFailure()
    ensures r.Ok? ==> Gather(reports) == Ok(Readings(r.value.scan, r.value.usage, r.value.peaks))
    ensures r.Ok? ==> Reported(reports.modules)
    ensures r.Ok? ==> r.value.scan == ModuleScan(Marked(reports.modules, "not-present"), Marked(reports.modules, "failed"))
    ensures r.Ok? ==> r.value.thresholds == ThresholdsOf(o)
    ensures r.Ok? ==> PercentUsed(r.value.usage.used, r.value.usage.total) == Ok(r.value.percent)
    ensures r.Ok? ==> r.value.memory == MemoryVerdict(r.value.percent, o.memoryWarning, o.memoryCritical)
    ensures r.Ok? ==> ThreeWayVerdict(LoadValues(r.value.usage), Floats(r.value.thresholds.loadWarning), Floats(r.value.thresholds.loadCritical)) == Ok(r.value.load)
    ensures r.Ok? ==> ThreeWayVerdict(PeakValues(r.value.peaks), Floats(r.value.thresholds.tempWarning), Floats(r.value.thresholds.tempCritical)) == Ok(r.value.temperature)
    ensures r.Ok? ==> (r.value.modules == CRITICAL <==> |r.value.scan.failed| > 0) && (r.value.modules == OK <==> |r.value.scan.failed| == 0)
    ensures r.Ok? ==> UNKNOWN !in States(r.value)
  {
    var g :- Gather(reports);
    var t := ThresholdsOf(o);
    Judge(o, g, t, ConversionsOf(g.usage, t))
  }

  /** Lines 268-302: the overall state, the perf data, the message and the line printed.
      `render` is how Python writes the percentage. */
  function Conclude(o: Options, a: Assessment, render: real -> string): (r: Result<Emission>)
    ensures r.Ok? <==> Complete(a.thresholds)
    ensures r.Err? ==> r.fault == IndexOutOfRange(FirstShort(a.thresholds))
    ensures r.Ok? ==> r.value.exitCode == ExitCode(Worst(States(a)))
  {
    var perf :- if Complete(a.thresholds) then Ok(PerfList(a.usage, a.thresholds, a.peaks))
                else Err(IndexOutOfRange(FirstShort(a.thresholds)));
    var message := ModuleMessage(a.scan.failed) + MemoryLine(render(a.percent)) + TemperatureLine(a.peaks) + LoadLine(a.load, a.usage);
    Ok(PrintAndExit(o.checkMK, o.program, message, perf, Worst(States(a))))
  }

  /** Lines 105-106: without a host the probe stops at once with UNKNOWN. */
  function HostMissing(o: Options): (e: Emission)
    ensures e.exitCode == 3
    ensures !o.checkMK ==> e.line == "Hostname missing!"
  {
    PrintAndExit(o.checkMK, o.program, "Hostname missing!", [], UNKNOWN)
  }

  /** The whole run: Ok with what is printed, or the exception that ends it. */
  function Probe(o: Options, reports: Reports, render: real -> string): Result<Emission> {
    if !o.hostGiven then Ok(HostMissing(o))
    else
      var a :- Assess(o, reports);
      Conclude(o, a, render)
  }

  /** The run as the script performs it, step by step through the scanning loops, the
      aggregation loop and the appends. */
  method Run(o: Options, reports: Reports, render: real -> string) returns (r: Result<Emission>)
    ensures r == Probe(o, reports, render)
  {
    if !o.hostGiven {
      return Ok(PrintAndExit(o.checkMK, o.program, "Hostname missing!", [], UNKNOWN));
    }
    var scan :- ScanModules(reports.modules);
    var fields :- ScanVersion(reports.version);
    var u :- ReadUsage(fields);
    var temperatures :- ScanTemperatures(reports.temperatures);
    var peaks :- Maxima(temperatures);
    var percent :- PercentUsed(u.used, u.total);
    var t := ThresholdsOf(o);
    var memory := MemoryVerdict(percent, o.memoryWarning, o.memoryCritical);
    var load :- ThreeWayVerdict(LoadValues(u), Floats(t.loadWarning), Floats(t.loadCritical));
    var temperature :- ThreeWayVerdict(PeakValues(peaks), Floats(t.tempWarning), Floats(t.tempCritical));
    var moduleMessage, modules := ModuleCheck(scan.failed, scan.missing);
    var state := Aggregate([memory, load, temperature, modules]);
    var perf :- BuildPerfData(u, t, peaks);
    var message := ComposeMessage(moduleMessage, render(percent), peaks, load, u);
    ghost var a := Assessment(scan, u, peaks, percent, t, memory, load, temperature, modules);
    assert Assess(o, reports) == Ok(a);
    return Ok(PrintAndExit(o.checkMK, o.program, message, perf, state));
  }

  /** With a host given, the run fails exactly when an assessment step raises or a
      threshold list has fewer than three entries. */
  lemma ProbeFails(o: Options, reports: Reports, render: real -> string)
    requires o.hostGiven
    ensures Probe(o, reports, render).Ok? <==> Assess(o, reports).Ok? && Complete(Assess(o, reports).value.thresholds)
    ensures Assess(o, reports).Err? ==> Probe(o, reports, render) == Err(Assess(o, reports).fault)
    ensures Assess(o, reports).Ok? && !Complete(Assess(o, reports).value.thresholds) ==>
      Probe(o, reports, render) == Err(IndexOutOfRange(FirstShort(Assess(o, reports).value.thresholds)))
  {
  }

  /** The exit status is the most severe verdict's: never UNKNOWN, 0 only when all four
      verdicts are OK, 2 exactly when one is CRITICAL. */
  lemma ExitFollowsVerdicts(o: Options, reports: Reports, render: real -> string, a: Assessment)
    requires o.hostGiven && Assess(o, reports) == Ok(a) && Probe(o, reports, render).Ok?
    ensures var code := Probe(o, reports, render).value.exitCode;
      && code <= 2
      && (code == 0 <==> forall k :: 0 <= k < |States(a)| ==> States(a)[k] == OK)
      && (code == 2 <==> CRITICAL in States(a))
      && (forall k :: 0 <= k < |States(a)| ==> ExitCode(States(a)[k]) <= code)
  {
    assert Probe(o, reports, render) == Conclude(o, a, render);
    VerdictsDecideExit(o, a, render);
  }

  /** The exit status of a concluded run, given verdicts none of which is UNKNOWN. */
  lemma VerdictsDecideExit(o: Options, a: Assessment, render: real -> string)
    requires Conclude(o, a, render).Ok? && UNKNOWN !in States(a)
    ensures var code := Conclude(o, a, render).value.exitCode;
      && code <= 2
      && (code == 0 <==> forall k :: 0 <= k < |States(a)| ==> States(a)[k] == OK)
      && (code == 2 <==> CRITICAL in States(a))
      && (forall k :: 0 <= k < |States(a)| ==> ExitCode(States(a)[k]) <= code)
  {
    WorstIsMostSevere(States(a));
  }

  /** Exit status 3 comes only from the missing host. */
  lemma UnknownOnlyWithoutHost(o: Options, reports: Reports, render: real -> string)
    requires Probe(o, reports, render).Ok?
    ensures Probe(o, reports, render).value.exitCode == 3 <==> !o.hostGiven
  {
    if o.hostGiven {
      ExitFollowsVerdicts(o, reports, render, Assess(o, reports).value);
    }
  }

  /** The module verdict is CRITICAL exactly when some module's last status contains
      `failed`, and OK otherwise; missing modules play no part. */
  lemma ModuleVerdict(o: Options, reports: Reports, a: Assessment)
    requires Assess(o, reports) == Ok(a)
    ensures Reported(reports.modules)
    ensures a.modules == CRITICAL <==>
      exists k :: 0 <= k < |reports.modules| && Contains(LastStatus(reports.modules[k]), "failed")
    ensures a.modules == CRITICAL || a.modules == OK
  {
    MarkedNonEmpty(reports.modules, "failed");
  }

  /** A module whose last status contains `failed` makes the run CRITICAL, and its id is
      on the printed line. */
  lemma FailedModuleIsReported(o: Options, reports: Reports, render: real -> string, k: nat)
    requires o.hostGiven && Probe(o, reports, render).Ok?
    requires k < |reports.modules| && |reports.modules[k].statuses| > 0
    requires Contains(LastStatus(reports.modules[k]), "failed")
    ensures Probe(o, reports, render).value.exitCode == 2
    ensures Contains(Probe(o, reports, render).value.line, reports.modules[k].id)
  {
    var records := reports.modules;
    var a := Assess(o, reports).value;
    ModuleVerdict(o, reports, a);
    ExitFollowsVerdicts(o, reports, render, a);
    var failed := a.scan.failed;
    MarkedMembership(records, "failed", records[k].id);
    var j :| 0 <= j < |failed| && failed[j] == records[k].id;
    ModuleMessageNamesFailed(failed, j);
    assert Probe(o, reports, render) == Conclude(o, a, render);
    FailedOnLine(o, a, render, j);
  }

  /** The printed line contains what the module message contains. */
  lemma FailedOnLine(o: Options, a: Assessment, render: real -> string, j: nat)
    requires Conclude(o, a, render).Ok? && j < |a.scan.failed|
    requires Contains(ModuleMessage(a.scan.failed), a.scan.failed[j])
    ensures Contains(Conclude(o, a, render).value.line, a.scan.failed[j])
  {
    var head := ModuleMessage(a.scan.failed);
    var rest := MemoryLine(render(a.percent)) + TemperatureLine(a.peaks) + LoadLine(a.load, a.usage);
    var message := head + MemoryLine(render(a.percent)) + TemperatureLine(a.peaks) + LoadLine(a.load, a.usage);
    assert message == head + rest;
    var perf := PerfList(a.usage, a.thresholds, a.peaks);
    var state := Worst(States(a));
    var line := Conclude(o, a, render).value.line;
    if o.checkMK {
      var front := IntToDecimal(ExitCode(state)) + " " + o.program + " " + CheckMKPerf(perf) + " " + Abbrev(state) + " - ";
      assert line == front + head + rest;
      ContainsWithin(front, head, rest, a.scan.failed[j]);
    } else {
      var back := rest + "|" + Join(" ", perf);
      assert line == "" + head + back;
      ContainsWithin("", head, back, a.scan.failed[j]);
    }
  }

  /** With a positive total, the memory verdict compares `100 * Used` with the percentages
      times `Total`, bounds inclusive. */
  lemma MemoryVerdictOfReports(o: Options, reports: Reports, a: Assessment)
    requires Assess(o, reports) == Ok(a) && a.usage.total > 0
    ensures a.memory == CRITICAL <==> 100 * a.usage.used >= o.memoryCritical * a.usage.total
    ensures a.memory == WARNING <==>
      (100 * a.usage.used < o.memoryCritical * a.usage.total && 100 * a.usage.used >= o.memoryWarning * a.usage.total)
  {
    PercentThreshold(a.usage.used, a.usage.total, o.memoryCritical);
    PercentThreshold(a.usage.used, a.usage.total, o.memoryWarning);
  }

  /** When the three loads and the thresholds they are compared with all convert, the load
      verdict is CRITICAL iff some load reaches its critical threshold, else WARNING iff some
      load reaches its warning threshold, else OK. */
  lemma LoadVerdictOfReports(o: Options, reports: Reports, a: Assessment)
    requires Assess(o, reports) == Ok(a)
    requires Comparable(LoadValues(a.usage), Floats(a.thresholds.loadWarning))
    requires Comparable(LoadValues(a.usage), Floats(a.thresholds.loadCritical))
    ensures a.load == if SomeAtOrAbove(LoadValues(a.usage), Floats(a.thresholds.loadCritical), 0) then CRITICAL
                      else if SomeAtOrAbove(LoadValues(a.usage), Floats(a.thresholds.loadWarning), 0) then WARNING
                      else OK
  {
    ThreeWayRule(LoadValues(a.usage), Floats(a.thresholds.loadWarning), Floats(a.thresholds.loadCritical));
  }

  /** The same rule for the CPU, ASIC and SIB temperatures, which always convert. */
  lemma TemperatureVerdictOfReports(o: Options, reports: Reports, a: Assessment)
    requires Assess(o, reports) == Ok(a)
    requires Comparable(PeakValues(a.peaks), Floats(a.thresholds.tempWarning))
    requires Comparable(PeakValues(a.peaks), Floats(a.thresholds.tempCritical))
    ensures a.temperature == if SomeAtOrAbove(PeakValues(a.peaks), Floats(a.thresholds.tempCritical), 0) then CRITICAL
                             else if SomeAtOrAbove(PeakValues(a.peaks), Floats(a.thresholds.tempWarning), 0) then WARNING
                             else OK
  {
    ThreeWayRule(PeakValues(a.peaks), Floats(a.thresholds.tempWarning), Floats(a.thresholds.tempCritical));
  }
}
