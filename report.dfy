/** The probe's output before it is printed: the performance data, read by graphing tools,
    and the multi-line message. */
module Report {
  import opened Failures
  import opened Text
  import opened Numerals
  import opened Nagios
  import opened Telemetry

  // ---------------------------------------------------------------------------------------
  // Performance data
  // ---------------------------------------------------------------------------------------

  /** One entry `'label'=value;warn;crit;min;max`. */
  function PerfEntry(name: string, value: string, warn: string, crit: string, minimum: string, maximum: string): string {
    "'" + name + "'=" + value + ";" + warn + ";" + crit + ";" + minimum + ";" + maximum
  }

  /** A reader splitting an entry at ';' gets the quoted name with the value, then the four
      threshold and range fields. */
  lemma PerfEntryFields(name: string, value: string, warn: string, crit: string, minimum: string, maximum: string)
    requires ';' !in name && ';' !in value && ';' !in warn && ';' !in crit && ';' !in minimum && ';' !in maximum
    ensures Split(PerfEntry(name, value, warn, crit, minimum, maximum), ';') == ["'" + name + "'=" + value, warn, crit, minimum, maximum]
  {
    var head := "'" + name + "'=" + value;
    var r3 := minimum + [';'] + maximum;
    var r2 := crit + [';'] + r3;
    var r1 := warn + [';'] + r2;
    assert ';' !in head by {
      assert forall i :: 0 <= i < |head| ==> head[i] == '\'' || head[i] == '=' || head[i] in name || head[i] in value by {
        forall i | 0 <= i < |head| ensures head[i] == '\'' || head[i] == '=' || head[i] in name || head[i] in value {
          if i < 1 {
          } else if i < 1 + |name| {
            assert head[i] == name[i - 1];
          } else if i < 3 + |name| {
          } else {
            assert head[i] == value[i - 3 - |name|];
          }
        }
      }
    }
    assert PerfEntry(name, value, warn, crit, minimum, maximum) == head + [';'] + r1;
    SplitAfter(minimum, maximum, ';');
    SplitWithoutSeparator(maximum, ';');
    SplitAfter(crit, r3, ';');
    SplitAfter(warn, r2, ';');
    SplitAfter(head, r1, ';');
  }

  /** `xs[k]`; an IndexError naming the list past its end. */
  function Nth(xs: seq<string>, k: nat, name: string): (r: Result<string>)
    ensures r.Ok? <==> k < |xs|
    ensures r.Ok? ==> r.value == xs[k]
    ensures r.Err? ==> r.fault == IndexOutOfRange(name)
  {
    if k < |xs| then Ok(xs[k]) else Err(IndexOutOfRange(name))
  }

  /** The four threshold lists: load warning, load critical, temperature warning and
      temperature critical. */
  datatype Thresholds = Thresholds(loadWarning: seq<string>, loadCritical: seq<string>, tempWarning: seq<string>, tempCritical: seq<string>)

  /** Every list has the three entries the output reads. */
  predicate Complete(t: Thresholds) {
    |t.loadWarning| >= 3 && |t.loadCritical| >= 3 && |t.tempWarning| >= 3 && |t.tempCritical| >= 3
  }

  /** The seven entries: memory used in `kb` with the total as maximum, the three load
      averages with minimum 0, then the CPU, ASIC and SIB temperatures without range. */
  function PerfList(u: Usage, t: Thresholds, p: Peaks): (r: seq<string>)
    requires Complete(t)
    ensures |r| == 7
  {
    [PerfEntry("mem_used", IntToDecimal(u.used) + "kb", "", "", "0", IntToDecimal(u.total)),
     PerfEntry("load1", u.load1, t.loadWarning[0], t.loadCritical[0], "0", ""),
     PerfEntry("load5", u.load5, t.loadWarning[1], t.loadCritical[1], "0", ""),
     PerfEntry("load15", u.load15, t.loadWarning[2], t.loadCritical[2], "0", ""),
     PerfEntry("cpu", p.cpu.text, t.tempWarning[0], t.tempCritical[0], "", ""),
     PerfEntry("asic", p.asic.text, t.tempWarning[1], t.tempCritical[1], "", ""),
     PerfEntry("sib", p.sib.text, t.tempWarning[2], t.tempCritical[2], "", "")]
  }

  /** The list the first short threshold list names, in the order lines 285-290 index them. */
  function FirstShort(t: Thresholds): (name: string)
    requires !Complete(t)
  {
    if |t.loadWarning| < 1 then "Load_Warning"
    else if |t.loadCritical| < 1 then "Load_Critical"
    else if |t.loadWarning| < 2 then "Load_Warning"
    else if |t.loadCritical| < 2 then "Load_Critical"
    else if |t.loadWarning| < 3 then "Load_Warning"
    else if |t.loadCritical| < 3 then "Load_Critical"
    else if |t.tempWarning| < 1 then "Temp_Warning"
    else if |t.tempCritical| < 1 then "Temp_Critical"
    else if |t.tempWarning| < 2 then "Temp_Warning"
    else if |t.tempCritical| < 2 then "Temp_Critical"
    else if |t.tempWarning| < 3 then "Temp_Warning"
    else "Temp_Critical"
  }

  /** Lines 283-290: the entries appended one by one; an entry whose threshold list is too
      short raises an IndexError before it is appended. */
  method BuildPerfData(u: Usage, t: Thresholds, p: Peaks) returns (r: Result<seq<string>>)
    ensures r.Ok? <==> Complete(t)
    ensures r.Ok? ==> r.value == PerfList(u, t, p)
    ensures r.Err? ==> r.fault == IndexOutOfRange(FirstShort(t))
  {
    var perf: seq<string> := [];
    perf := perf + [PerfEntry("mem_used", IntToDecimal(u.used) + "kb", "", "", "0", IntToDecimal(u.total))];
    var lw0 :- Nth(t.loadWarning, 0, "Load_Warning");
    var lc0 :- Nth(t.loadCritical, 0, "Load_Critical");
    perf := perf + [PerfEntry("load1", u.load1, lw0, lc0, "0", "")];
    var lw1 :- Nth(t.loadWarning, 1, "Load_Warning");
    var lc1 :- Nth(t.loadCritical, 1, "Load_Critical");
    perf := perf + [PerfEntry("load5", u.load5, lw1, lc1, "0", "")];
    var lw2 :- Nth(t.loadWarning, 2, "Load_Warning");
    var lc2 :- Nth(t.loadCritical, 2, "Load_Critical");
    perf := perf + [PerfEntry("load15", u.load15, lw2, lc2, "0", "")];
    var tw0 :- Nth(t.tempWarning, 0, "Temp_Warning");
    var tc0 :- Nth(t.tempCritical, 0, "Temp_Critical");
    perf := perf + [PerfEntry("cpu", p.cpu.text, tw0, tc0, "", "")];
    var tw1 :- Nth(t.tempWarning, 1, "Temp_Warning");
    var tc1 :- Nth(t.tempCritical, 1, "Temp_Critical");
    perf := perf + [PerfEntry("asic", p.asic.text, tw1, tc1, "", "")];
    var tw2 :- Nth(t.tempWarning, 2, "Temp_Warning");
    var tc2 :- Nth(t.tempCritical, 2, "Temp_Critical");
    perf := perf + [PerfEntry("sib", p.sib.text, tw2, tc2, "", "")];
    return Ok(perf);
  }

  // ---------------------------------------------------------------------------------------
  // Message
  // ---------------------------------------------------------------------------------------

  /** `'Memory used: {}%%\n'`: the percentage as rendered, followed by two percent signs, since
      the text never goes through %-formatting. */
  function MemoryLine(percentText: string): string {
    "Memory used: " + percentText + "%%\n"
  }

  function TemperatureLine(p: Peaks): string {
    "CPU:" + p.cpu.text + " Asic:" + p.asic.text + " SIB:" + p.sib.text + "\n"
  }

  /** The load line, tagged [FAILED] when the load state's name contains WARNING or CRITICAL,
      [PASSED] otherwise. */
  function LoadLine(loadState: State, u: Usage): string {
    if Contains(Name(loadState), "WARNING") || Contains(Name(loadState), "CRITICAL") then
      "[FAILED] - CPU Load: " + u.load1 + "," + u.load5 + "," + u.load15 + "\n"
    else
      "[PASSED] - CPU Load: " + u.load1 + "," + u.load5 + "," + u.load15 + "\n"
  }

  /** The load line fails exactly when the load is at WARNING or CRITICAL. */
  lemma LoadLineTag(loadState: State, u: Usage)
    ensures StartsWith(LoadLine(loadState, u), "[FAILED]") <==> loadState == WARNING || loadState == CRITICAL
    ensures StartsWith(LoadLine(loadState, u), "[PASSED]") <==> loadState == OK || loadState == UNKNOWN
  {
    NameContainsOnlyItself(loadState, WARNING);
    NameContainsOnlyItself(loadState, CRITICAL);
    var line := LoadLine(loadState, u);
    assert line[..8] == if loadState == WARNING || loadState == CRITICAL then "[FAILED]" else "[PASSED]";
  }

  /** Lines 293-300: the memory, temperature and load lines appended to the module message. */
  method ComposeMessage(moduleMessage: string, percentText: string, p: Peaks, loadState: State, u: Usage) returns (message: string)
    ensures message == moduleMessage + MemoryLine(percentText) + TemperatureLine(p) + LoadLine(loadState, u)
  {
    NameContainsOnlyItself(loadState, WARNING);
    NameContainsOnlyItself(loadState, CRITICAL);
    message := moduleMessage;
    message := message + ("Memory used: " + percentText + "%%\n");
    message := message + ("CPU:" + p.cpu.text + " Asic:" + p.asic.text + " SIB:" + p.sib.text + "\n");
    if Contains(Name(loadState), "WARNING") {
      message := message + ("[FAILED] - CPU Load: " + u.load1 + "," + u.load5 + "," + u.load15 + "\n");
    } else if Contains(Name(loadState), "CRITICAL") {
      message := message + ("[FAILED] - CPU Load: " + u.load1 + "," + u.load5 + "," + u.load15 + "\n");
    } else {
      message := message + ("[PASSED] - CPU Load: " + u.load1 + "," + u.load5 + "," + u.load15 + "\n");
    }
  }

  /** The three appended lines come apart again at the line breaks when none of the rendered
      values holds one. */
  lemma MessageLines(percentText: string, p: Peaks, loadState: State, u: Usage)
    requires '\n' !in MemoryLine(percentText)[..|MemoryLine(percentText)| - 1]
    requires '\n' !in TemperatureLine(p)[..|TemperatureLine(p)| - 1]
    requires '\n' !in LoadLine(loadState, u)[..|LoadLine(loadState, u)| - 1]
    ensures Split(MemoryLine(percentText) + TemperatureLine(p) + LoadLine(loadState, u), '\n')
         == [MemoryLine(percentText)[..|MemoryLine(percentText)| - 1],
             TemperatureLine(p)[..|TemperatureLine(p)| - 1],
             LoadLine(loadState, u)[..|LoadLine(loadState, u)| - 1],
             ""]
  {
    var a := MemoryLine(percentText);
    var b := TemperatureLine(p);
    var c := LoadLine(loadState, u);
    var a' := a[..|a| - 1];
    var b' := b[..|b| - 1];
    var c' := c[..|c| - 1];
    assert a == a' + ['\n'] && b == b' + ['\n'] && c == c' + ['\n'];
    assert a + b + c == a' + ['\n'] + (b' + ['\n'] + (c' + ['\n'] + ""));
    SplitAfter(c', "", '\n');
    SplitAfter(b', c' + ['\n'] + "", '\n');
    SplitAfter(a', b' + ['\n'] + (c' + ['\n'] + ""), '\n');
  }
}
