# check_ib_switch: a verified model of the probe's decision core

`check_ib_switch.py` is a Nagios/Icinga plugin for Mellanox InfiniBand switches. It runs
three commands through the switch's JSON API: `show module`, `show version` and
`show temperature`. From their answers it then:

- collects the failed and missing modules;
- extracts the memory figures and the three load averages;
- walks the temperature table, which has one of three topologies: a CS7500 chassis with management
  card `MGMT1` or `MGMT2`, or the single-card SB7800 with key `MGMT`;
- takes the CPU, ASIC and SIB peaks;
- compares memory, load and temperature against thresholds that are given on the command line
  as comma-separated lists;
- folds the four partial states into one Nagios state;
- builds the performance data and the multi-line message;
- prints a single line, in plain Nagios form or in CheckMK local-check form, and exits with
  the state's code.

This project models that pipeline in Dafny, from the decoded command answers to the emitted
line and exit status, and proves what the pipeline promises. The modules are:

- `Failures`: the exceptions the script can raise (KeyError, IndexError, ValueError,
  NameError, ZeroDivisionError), carried by a `Result`.
- `Text`: the Python string operations the script relies on: `in`, `str.replace`,
  `str.split`, `str.join`, `str.strip` and the `re.split(r'\s*,\s*', …)` threshold split.
- `Numerals`: `int()` and `float()` on decimal text, and the decimal rendering of integers.
- `Nagios`: the `EXIT` table and `PrintAndExit`.
- `Telemetry`: the three parsing stages. These are the module scan, the `show version`
  scan with the memory and load clean-up, and the temperature scan with its maxima.
  Where the script loops, the model has methods with loop invariants, proved equal to
  reference functions.
- `Evaluation`: the memory percentage, the three verdicts, the module check and the
  aggregation loop.
- `Report`: the performance data and the message lines.
- `Probe`: the whole run. This includes the host check, the four stage functions
  `Gather`, `Judge`, `Assess` and `Conclude`, the end-to-end function `Probe`, and the
  imperative `Run` that performs the script's statements in order and is proved equal to it.

A dictionary from the JSON answers is a sequence in its iteration order. A Python
exception is an `Err` value carrying the fault that would have been raised first.

## Model

| member | source | states |
|---|---|---|
| Nagios.ExitCode | check_ib_switch.py.py:33 | Every state's code is at most 3. Reading the code back through the table gives the same state. |
| Nagios.StateOfCode | check_ib_switch.py.py:33 | Exactly the codes 0 to 3 name a state. |
| Nagios.AbbrevIdentifies | check_ib_switch.py.py:48 | The 4-letter prefix `State[:4]` printed in CheckMK mode tells the four states apart: equal prefixes iff equal states. |
| Nagios.PrintAndExit | check_ib_switch.py.py:42-54 | The exit status is `EXIT[State]`. In plain mode the line starts with the message, and it is the message alone when there is no perf data. |
| Nagios.PlainLineParts | check_ib_switch.py.py:49-52 | A plain line splits at `\|` back into the message and the space-joined perf data, or into the message alone without perf data. |
| Nagios.CheckMKLineFields | check_ib_switch.py.py:43-48 | In CheckMK mode the fields are the code, the program, the perf data, the abbreviation and `-`, then the message's words. The first field parses back to the exit code, and the perf field splits at `\|` into the entries. |
| Nagios.NameContainsOnlyItself | check_ib_switch.py.py:270-273 | A state name contains `WARNING` (or `CRITICAL`) iff it is that state, so the substring tests of the script act as equality tests. |
| Telemetry.ScanModules | check_ib_switch.py.py:153-159 | The loop succeeds iff every module has a status history. It then returns the ids whose last status contains `not-present` and `failed`, in order. Otherwise it raises the IndexError of the first module without a history. |
| Telemetry.ModuleScanOf | check_ib_switch.py.py:153-159 | Reference value of the scan: Ok iff every module reports. Its error names a module without a history, all of whose predecessors report. |
| Telemetry.FirstUnreported | check_ib_switch.py.py:156 | The module whose `v[-1]` raises first: it has no history, and every earlier module has one. |
| Telemetry.FirstUnreportedIsUnique | check_ib_switch.py.py:156 | Any module without a history whose predecessors all report is exactly that first failing module. |
| Telemetry.MarkedMembership | check_ib_switch.py.py:154-159 | An id is in the failed (or missing) list iff some module with that id has a last status containing the word. |
| Telemetry.MarkedNonEmpty | check_ib_switch.py.py:257 | The failed list is non-empty iff some module's last status contains `failed`. |
| Telemetry.MarkedOfConcat | check_ib_switch.py.py:154-159 | Scanning two runs of modules gives the first run's ids, then the second's. |
| Telemetry.MarkedIgnoresHistory | check_ib_switch.py.py:156-158 | Only the last status counts: earlier snapshots never change the lists. |
| Telemetry.MissingAndFailed | check_ib_switch.py.py:156-159 | The two tests are independent `if`s: one status can mark a module both missing and failed. |
| Telemetry.ThreeParts | check_ib_switch.py.py:164-166 | Unpacking `v.split('/')` works iff there are exactly three parts, which rejoin to the value. Any other count is a ValueError. |
| Telemetry.VersionScanFails | check_ib_switch.py.py:162-166 | The `show version` scan raises iff some entry is a load or memory entry that does not have three `/`-parts. |
| Telemetry.VersionScanStops | check_ib_switch.py.py:162-166 | After the first raising entry, later entries change nothing. |
| Telemetry.VersionScanLastWins | check_ib_switch.py.py:162-166 | When several keys match, the last matching entry's parts are the ones kept. |
| Telemetry.VersionScanUnset | check_ib_switch.py.py:162-166 | With no matching key, the parts stay unassigned. |
| Telemetry.ScanVersion | check_ib_switch.py.py:162-166 | The loop computes the reference scan. |
| Telemetry.MemoryFieldIsClean | check_ib_switch.py.py:168-170 | After the unit and the spaces are removed, no space is left. When the unit holds a space, no copy of the unit remains either. |
| Telemetry.MemoryFieldValue | check_ib_switch.py.py:168-170 | A field made of spaces, the decimal `n`, any run of spaces (possibly none), the unit and spaces reads back as `n`: both `5MB used` and ` 5 MB used` give 5. |
| Telemetry.UnitRemoved | check_ib_switch.py.py:168-170 | Removing the unit from such a field leaves the number with its padding and nothing else changed. |
| Telemetry.SpacesRemoved | check_ib_switch.py.py:168-173 | Removing the spaces from a padded space-free text gives back that text. |
| Telemetry.ReadUsage | check_ib_switch.py.py:168-173 | The memory and load parts are read exactly when both were assigned and the three memory fields convert. The loads are the three `/`-parts of the load entry with only their spaces removed. Errors come in the script's order: the unassigned memory part, then `Used`, `Free` and `Total` that do not convert, then the unassigned `Load1`. |
| Telemetry.Lookup | check_ib_switch.py.py:178 | `d[name]` succeeds iff a group has that key, returns that group's sensors, and otherwise raises a KeyError for the name. |
| Telemetry.LastReadingIsLastMatch | check_ib_switch.py.py:178-180 | The CPU reading kept is the last sensor whose component matches. |
| Telemetry.LastReadingWithoutMatch | check_ib_switch.py.py:178-180 | With no matching sensor, the earlier value stays. |
| Telemetry.MatchingMembership | check_ib_switch.py.py:184-188 | A reading is appended from a group iff some sensor of the group matches with that reading. |
| Telemetry.CollectedMembership | check_ib_switch.py.py:181-188 | The ASIC/SIB list holds exactly the readings of matching sensors across all groups. |
| Telemetry.ReadCpu | check_ib_switch.py.py:178-180 | The loop keeps the reference last-match reading. |
| Telemetry.CollectAll | check_ib_switch.py.py:181-188 | The nested loop appends exactly the collected ASIC and SIB readings to what was there. |
| Telemetry.ReadSingle | check_ib_switch.py.py:204-210 | The lone-MGMT loop leaves the last CPU match, and a single ASIC (`Ports AMB`) and SIB value. |
| Telemetry.ScanTemperatures | check_ib_switch.py.py:175-210 | The loop over the temperature table computes the reference scan, errors included. |
| Telemetry.ScanStops | check_ib_switch.py.py:175-210 | A KeyError part way stops the scan with that error. |
| Telemetry.ScanSkips | check_ib_switch.py.py:175-177 | Keys without `MGMT` are passed over. |
| Telemetry.WithoutManagementNothingIsRead | check_ib_switch.py.py:175-210 | Without an `MGMT` key nothing is read: no CPU value, and empty ASIC and SIB lists. |
| Telemetry.OnlyKeyCounts | check_ib_switch.py.py:175-210 | With a single `MGMT` key the result is that key's step alone. |
| Telemetry.LaterKeysSkip | check_ib_switch.py.py:175-210 | Keys after the last `MGMT` key change nothing. |
| Telemetry.ChassisTopology | check_ib_switch.py.py:175-201 | With one card, `MGMT1` or `MGMT2`, and no other key containing `MGMT`: the CPU reading is the card's last CPU package match, and the ASIC and SIB lists hold the matching readings of every group. |
| Telemetry.ChassisKey | check_ib_switch.py.py:177-201 | A card's key rereads the CPU reading from its own group (keeping the earlier one without a match) and appends every group's ASIC and SIB readings to the lists. |
| Telemetry.TwoCardTopology | check_ib_switch.py.py:175-201 | With both cards and no other key containing `MGMT`: the CPU reading is the later card's match, or the earlier card's when the later has none, and each list holds every matching reading twice. |
| Telemetry.TwoCardPeaks | check_ib_switch.py.py:175-214 | With both cards, the maxima are those of every matching reading taken once. |
| Telemetry.SingleTopology | check_ib_switch.py.py:203-210 | With a single `MGMT` card alone, the CPU, ASIC and SIB values come from that card only. |
| Telemetry.LookupFindsKey | check_ib_switch.py.py:178 | Looking up a group's own key, which no other group shares, returns that group's sensors. |
| Telemetry.MaxReading | check_ib_switch.py.py:212-213 | `max()` raises on an empty list. Otherwise it returns a member that is at least every reading, and the first such member. |
| Telemetry.FirstMaximumUnique | check_ib_switch.py.py:212-213 | A list of readings has only one first maximum. |
| Telemetry.MaxReadingDoubled | check_ib_switch.py.py:212-213 | `max(xs + xs) == max(xs)`, the error on the empty list included. |
| Telemetry.MaximaOfDoubled | check_ib_switch.py.py:212-214 | Doubling the ASIC and SIB lists leaves the peaks, and the errors, as they were. |
| Telemetry.Maxima | check_ib_switch.py.py:212-214 | The peaks exist iff ASIC and SIB readings and a CPU reading exist. The errors come in the script's order: ASIC, then SIB, then the unassigned CPU value. Each peak comes from its list. |
| Evaluation.PercentUsed | check_ib_switch.py.py:217 | The percentage times the total is 100 times used. A zero total raises ZeroDivisionError. |
| Evaluation.PercentThreshold | check_ib_switch.py.py:217-234 | Comparing the percentage with a threshold is the integer comparison `100*used >= t*total`. |
| Evaluation.MemoryVerdict | check_ib_switch.py.py:232-237 | CRITICAL iff at or above the critical threshold. WARNING iff below it and at or above the warning threshold. Otherwise OK. |
| Evaluation.MemoryVerdictMonotone | check_ib_switch.py.py:232-237 | More memory used never lowers the memory state's code. |
| Evaluation.FloatOfDecimal | check_ib_switch.py.py:240-253 | `float(str(i)) == i`. |
| Evaluation.FloatsOfDecimalList | check_ib_switch.py.py:225-253 | A threshold option of three integers, such as `4,3,2`, splits and converts back to those integers. |
| Evaluation.AnyFromIsDisjunction | check_ib_switch.py.py:240 | When every operand converts and every list is long enough, the `or` chain is the plain disjunction of the comparisons. |
| Evaluation.AnyFromStopsAtFirstHit | check_ib_switch.py.py:240 | Short circuit: once one comparison holds, later bad text or short lists raise nothing. |
| Evaluation.AnyFromRaisesFirstError | check_ib_switch.py.py:240 | The first comparison that raises, before any that holds, decides the error. |
| Evaluation.ThreeWayVerdict | check_ib_switch.py.py:240-253 | A verdict that is reached is never UNKNOWN. |
| Evaluation.ThreeWayRule | check_ib_switch.py.py:240-253 | With comparable operands: CRITICAL iff some value is at or above its critical threshold. Otherwise WARNING iff some value is at or above its warning threshold. Otherwise OK. |
| Evaluation.CriticalIgnoresWarnings | check_ib_switch.py.py:240-241 | Once the critical chain holds, the warning thresholds are never read. |
| Evaluation.ModuleCheck | check_ib_switch.py.py:255-266 | The module state is CRITICAL iff some module failed, and OK otherwise. The message is the failed-module message, because the missing-module branch never runs. |
| Evaluation.ModuleMessageNamesFailed | check_ib_switch.py.py:255-258 | The message starts with `[FAILED]` and names every failed module. |
| Evaluation.Worst | check_ib_switch.py.py:268-274 | The aggregate is never UNKNOWN. |
| Evaluation.Aggregate | check_ib_switch.py.py:268-274 | The loop, with its `break` at CRITICAL, computes the reference aggregate. |
| Evaluation.WorstIgnoresOrder | check_ib_switch.py.py:268-274 | Reordering the partial states does not change the aggregate. |
| Evaluation.WorstIsMostSevere | check_ib_switch.py.py:268-274 | Over non-UNKNOWN states, the aggregate is one of them and its code is at least each one's. |
| Report.PerfEntryFields | check_ib_switch.py.py:284-290 | An entry splits at `;` into the quoted name with its value, warn, crit, min and max. |
| Report.BuildPerfData | check_ib_switch.py.py:283-290 | The entries are built iff every threshold list has three entries. A short list raises the IndexError of the first short list, in the order the script indexes them. |
| Report.LoadLineTag | check_ib_switch.py.py:295-300 | The load line starts `[FAILED]` iff the load state is WARNING or CRITICAL, and `[PASSED]` iff it is OK or UNKNOWN. |
| Report.ComposeMessage | check_ib_switch.py.py:293-300 | The message is the module message, then the memory, temperature and load lines. |
| Report.MessageLines | check_ib_switch.py.py:293-300 | The three appended lines come apart at line breaks, back into their texts. |
| Probe.Defaults | check_ib_switch.py.py:80-86 | The default memory warning threshold (85) is below the critical one (90). Whether `-H` and `-m` were given is kept as passed. |
| Probe.HostMissing | check_ib_switch.py.py:105-106 | Without a host the probe exits 3 with `Hostname missing!`. |
| Probe.Gather | check_ib_switch.py.py:147-214 | When the parsing stages succeed, every module reports and the lists are the reference scan. The usage is what the version scan's parts read as, and the peaks are the maxima of the temperature scan. A module without a history raises first. |
| Probe.Judge | check_ib_switch.py.py:217-266 | A zero total raises ZeroDivisionError. Otherwise the memory, load and temperature states are the reference verdicts, the module state follows the failed list, and no state is UNKNOWN. |
| Probe.Assess | check_ib_switch.py.py:147-266 | An error of the parsing stages is the run's error. Otherwise the scan, usage and peaks are what `Gather` reads from the reports, the threshold lists are the split options, and the percentage and the four states are the verdicts over them. |
| Probe.Conclude | check_ib_switch.py.py:268-302 | Output is produced iff every threshold list has three entries (otherwise the first short list's IndexError). The exit status is the code of the aggregate state. |
| Probe.Run | check_ib_switch.py.py:105-302 | The script's statements, in order, compute exactly the end-to-end result `Probe`. |
| Probe.ProbeFails | check_ib_switch.py.py:147-302 | With a host, the probe prints iff assessment succeeds and the threshold lists are complete. Otherwise the first raised error propagates. |
| Probe.ExitFollowsVerdicts | check_ib_switch.py.py:268-302 | The exit code is at most 2, and it is at least each partial state's code. It is 0 iff every partial state is OK, and 2 iff one is CRITICAL. |
| Probe.UnknownOnlyWithoutHost | check_ib_switch.py.py:105-106 | When the probe prints, it exits 3 iff no host was given. |
| Probe.ModuleVerdict | check_ib_switch.py.py:153-259 | The module state is CRITICAL iff some module's last status contains `failed`, and OK otherwise. |
| Probe.FailedModuleIsReported | check_ib_switch.py.py:153-302 | A failed module makes the probe exit 2 and puts the module's id on the printed line. |
| Probe.MemoryVerdictOfReports | check_ib_switch.py.py:217-237 | The memory state, in terms of the reported figures: CRITICAL iff `100*used >= critical*total`, and so on. |
| Probe.LoadVerdictOfReports | check_ib_switch.py.py:240-245 | When the loads and thresholds convert, the load state is the three-way rule over them. |
| Probe.TemperatureVerdictOfReports | check_ib_switch.py.py:248-253 | When the peaks and thresholds convert, the temperature state is the three-way rule over them. |
| Text.SplitList | check_ib_switch.py.py:225-228 | One field per comma piece, with no comma inside. Each field is a slice of its piece from which only whitespace was cut: on the sides that touch a comma, all of it; the outer ends of the text are kept. |
| Text.SplitListOfPadded | check_ib_switch.py.py:225-228 | Whitespace around a comma is dropped: `a<spaces>,<spaces>b` splits into `a` and `b`. |
| Text.SplitListWithoutSpace | check_ib_switch.py.py:225-228 | Without blanks, the threshold split is splitting at commas. |
| Text.SplitListOfThree | check_ib_switch.py.py:225-228 | A list of three blank-free entries splits back into those three. |
| Text.JoinSplit | check_ib_switch.py.py:164-166 | Joining the pieces of a split restores the text. |
| Text.SplitJoin | check_ib_switch.py.py:47-51 | Splitting a join of separator-free pieces restores the pieces. |
| Numerals.ParseIntOfDecimal | check_ib_switch.py.py:168-170 | `int(str(i)) == i`. |
| Numerals.ParseFloatOfInteger | check_ib_switch.py.py:240-253 | `float()` agrees with `int()` on integer text. |
| Numerals.ParseFloatOfPoint | check_ib_switch.py.py:240-253 | `float("w.f")` is the whole part plus the scaled fraction. |

Reference functions without a row of their own are characterised by the members listed with them:

- `Probe.Probe` by `Probe.Run`, `Probe.ProbeFails`, `Probe.ExitFollowsVerdicts`, `Probe.UnknownOnlyWithoutHost` and `Probe.FailedModuleIsReported`.
- `Telemetry.ScanUpTo`, `KeyStep`, `ChassisStep` and `SingleStep` by `Telemetry.ScanTemperatures` and the lemmas from `ScanStops` to `TwoCardPeaks`.
- `Telemetry.VersionScan` and `VersionStep` by `Telemetry.ScanVersion` and the `VersionScan…` lemmas.
- `Telemetry.MemoryField` by `MemoryFieldIsClean` and `MemoryFieldValue`.
- `Evaluation.ModuleMessage` by `ModuleMessageNamesFailed` and `ModuleCheck`.
- `Report.PerfList` by `Report.BuildPerfData` and `Report.PerfEntryFields`.
- `Report.MemoryLine`, `TemperatureLine` and `LoadLine` by `Report.ComposeMessage`, `Report.MessageLines` and `Report.LoadLineTag`.
- `Text.Split` and `Join` by `Text.JoinSplit` and `Text.SplitJoin`; `Text.RemoveAll` by `UnitRemoved`, `SpacesRemoved` and `MemoryFieldIsClean`; `Text.Contains` by `Nagios.NameContainsOnlyItself` and the topology lemmas.

## Left out

- The HTTP session, login and JSON decoding (lines 117-145) are left out. The three decoded answers are inputs (`Probe.Reports`).
- Option parsing (lines 76-92) is left out. `Probe.Options` holds the parsed values, and `Probe.Defaults` holds their defaults. The user name, password and timeout do not affect the decision.
- Signal handlers and the alarm (lines 58-69, 94-109) are left out: they concern time and the operating system.
- `VerboseOutput` (lines 37-38) is left out: it only prints, using the clock.
- `print` and `sys.exit` are left out: `Nagios.Emission` holds the printed line and the exit status.
- An uncaught exception ends the script with a Python traceback and status 1. The model returns that exception as `Err(fault)` and does not model the traceback text.
- `float()` and `int()` are modelled on plain decimal notation with an optional sign and surrounding whitespace, whitespace being what `str.isspace()` accepts. Exponents, `inf`/`nan`, underscores, non-ASCII digits and IEEE-754 rounding are not modelled: values are exact reals.
- Temperatures arrive in the JSON as numbers. The model takes each as an exact value together with the text `str()` prints for it. `float()` of a temperature is that value.
- The rendering of the real percentage by `'{}'.format` (Python's shortest repr) is not modelled. It is a parameter `render` of `Probe.Conclude`, `Probe.Probe` and `Probe.Run`.
- `Evaluation.PercentUsed`: the division is exact (Python 3). Under Python 2, `(100 * Used) / Total` would truncate.
- KeyErrors from records that lack `Status`, `Component` or `CurTemp (Celsius)`, from an answer that lacks `data` (lines 153, 162, 175), or from a temperature answer that lacks `Temperature per module` (line 175), are not modelled. Records and answers always carry these fields.
- `Telemetry.ReadSingle` and `Telemetry.LastAsList`: on the SB7800 branch the script assigns a scalar temperature to `sib_temps` and `asic_temps`. `max()` of that scalar would then raise a TypeError (or, for text, pick its largest character). The model keeps the value as a one-element list.
- A table with both `MGMT`-only data and a later `MGMT1`/`MGMT2` key would make `append` run on a scalar, an AttributeError. That error is not modelled.
- The fault payloads are approximate. Python's IndexError message does not name the list, but the model's `IndexOutOfRange` names one: `threshold list` in the verdicts, and the list's own name in the perf data.
- `Nagios.NameContainsOnlyItself` is stated only for the patterns `WARNING` and `CRITICAL`, the only ones the script tests.
- Parsing the default threshold strings (for instance, that `"4,3.5,3.40"` gives 4.0, 3.5 and 3.4) is not proved as a lemma. `Text.SplitListOfThree` and `Numerals.ParseFloatOfPoint` state the general facts it rests on, and `Evaluation.FloatsOfDecimalList` proves the case of three integers.

Behaviours of the script that the model reproduces as written:

- The memory perf entry is labelled `kb`, although the figures are in MB.
- The memory line ends in a literal `%%`, because the text is passed through `str.format`, not `%`.
- The missing-module branch (lines 260-266) tests `len(MissingModules) < 0`, which never holds. Missing modules are collected but never reported and never raise the state.
- On a chassis table, every `MGMT1` or `MGMT2` key rescans all groups, so a table holding both keys collects each ASIC and SIB reading twice (`Telemetry.TwoCardTopology`). The maxima are unaffected (`Telemetry.MaximaOfDoubled`, `Telemetry.TwoCardPeaks`).
