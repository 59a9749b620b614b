/** The probe's reading of the three switch reports it fetches (`show module`,
    `show version`, `show temperature`), each given as the already decoded records in the
    order the switch sent them. */
module Telemetry {
  import opened Failures
  import opened Text
  import opened Numerals

  // ---------------------------------------------------------------------------------------
  // Module scan
  // ---------------------------------------------------------------------------------------

  /** One entry of `show module`: the module's id and the `Status` of its snapshots, oldest
      first. */
  datatype ModuleRecord = ModuleRecord(id: string, statuses: seq<string>)

  /** The lists the scan builds: ids of missing modules and ids of failed modules. */
  datatype ModuleScan = ModuleScan(missing: seq<string>, failed: seq<string>)

  /** Every module has at least one snapshot, so `v[-1]` exists for each. */
  predicate Reported(records: seq<ModuleRecord>) {
    forall k :: 0 <= k < |records| ==> |records[k].statuses| > 0
  }

  /** The status of a module's most recent snapshot. */
  function LastStatus(m: ModuleRecord): string
    requires |m.statuses| > 0
  {
    m.statuses[|m.statuses| - 1]
  }

  /** The ids, in input order, of the modules whose last status contains `word`. */
  function Marked(records: seq<ModuleRecord>, word: string): seq<string>
    requires Reported(records)
    decreases |records|
  {
    if |records| == 0 then []
    else
      var last := records[|records| - 1];
      Marked(records[..|records| - 1], word) + (if Contains(LastStatus(last), word) then [last.id] else [])
  }

  /** The position of the first module without snapshots. */
  function FirstUnreported(records: seq<ModuleRecord>): (k: nat)
    requires !Reported(records)
    ensures k < |records| && |records[k].statuses| == 0 && Reported(records[..k])
    decreases |records|
  {
    if |records[0].statuses| == 0 then 0
    else
      var k := 1 + FirstUnreported(records[1..]);
      assert forall j :: 1 <= j < k ==> records[..k][j] == records[1..][..k - 1][j - 1];
      k
  }

  /** Only the first module without snapshots can be the one the scan stops at. */
  lemma FirstUnreportedIsUnique(records: seq<ModuleRecord>, k: nat)
    requires k < |records| && |records[k].statuses| == 0 && Reported(records[..k])
    ensures !Reported(records) && FirstUnreported(records) == k
  {
    var f := FirstUnreported(records);
    forall j | 0 <= j < k ensures |records[j].statuses| > 0 {
      assert records[..k][j] == records[j];
    }
    forall j | 0 <= j < f ensures |records[j].statuses| > 0 {
      assert records[..f][j] == records[j];
    }
  }

  /** What the module scan yields: both lists, or the IndexError of the first module
      without snapshots. */
  function ModuleScanOf(records: seq<ModuleRecord>): (r: Result<ModuleScan>)
    ensures r.Ok? <==> Reported(records)
    ensures r.Err? ==> exists k :: (0 <= k < |records| && |records[k].statuses| == 0
      && r.fault == IndexOutOfRange(records[k].id) && Reported(records[..k]))
  {
    if Reported(records) then Ok(ModuleScan(Marked(records, "not-present"), Marked(records, "failed")))
    else Err(IndexOutOfRange(records[FirstUnreported(records)].id))
  }

  /** The module scan: walks the modules in order and appends each id to the missing list when
      its last status contains `not-present` and to the failed list when it contains `failed`.
      A module without snapshots stops the scan with an IndexError. */
  method ScanModules(records: seq<ModuleRecord>) returns (r: Result<ModuleScan>)
    ensures r.Ok? <==> Reported(records)
    ensures r.Ok? ==> r.value == ModuleScan(Marked(records, "not-present"), Marked(records, "failed"))
    ensures r.Err? ==> r.fault == IndexOutOfRange(records[FirstUnreported(records)].id)
  {
    var missing: seq<string> := [];
    var failed: seq<string> := [];
    for i := 0 to |records|
      invariant Reported(records[..i])
      invariant missing == Marked(records[..i], "not-present")
      invariant failed == Marked(records[..i], "failed")
    {
      var m := records[i];
      if |m.statuses| == 0 {
        FirstUnreportedIsUnique(records, i);
        return Err(IndexOutOfRange(m.id));
      }
      assert records[..i + 1][..i] == records[..i];
      var status := m.statuses[|m.statuses| - 1];
      if Contains(status, "not-present") {
        missing := missing + [m.id];
      }
      if Contains(status, "failed") {
        failed := failed + [m.id];
      }
    }
    assert records[..|records|] == records;
    return Ok(ModuleScan(missing, failed));
  }

  /** An id is listed exactly when some module with that id ends in a status that contains
      the word. */
  lemma {:induction false} MarkedMembership(records: seq<ModuleRecord>, word: string, id: string)
    requires Reported(records)
    ensures id in Marked(records, word) <==>
      exists k :: 0 <= k < |records| && records[k].id == id && Contains(LastStatus(records[k]), word)
    decreases |records|
  {
    if |records| > 0 {
      var init := records[..|records| - 1];
      MarkedMembership(init, word, id);
      assert forall k :: 0 <= k < |init| ==> init[k] == records[k];
    }
  }

  /** A list is non-empty exactly when some module ends in a status that contains the word. */
  lemma MarkedNonEmpty(records: seq<ModuleRecord>, word: string)
    requires Reported(records)
    ensures |Marked(records, word)| > 0 <==>
      exists k :: 0 <= k < |records| && Contains(LastStatus(records[k]), word)
  {
    var marked := Marked(records, word);
    if |marked| > 0 {
      MarkedMembership(records, word, marked[0]);
    }
    if exists k :: 0 <= k < |records| && Contains(LastStatus(records[k]), word) {
      var k :| 0 <= k < |records| && Contains(LastStatus(records[k]), word);
      MarkedMembership(records, word, records[k].id);
    }
  }

  /** The lists keep input order: scanning two runs of modules one after the other lists the
      first run's ids before the second's. */
  lemma {:induction false} MarkedOfConcat(a: seq<ModuleRecord>, b: seq<ModuleRecord>, word: string)
    requires Reported(a) && Reported(b)
    ensures Reported(a + b)
    ensures Marked(a + b, word) == Marked(a, word) + Marked(b, word)
    decreases |b|
  {
    if |b| == 0 {
      assert a + b == a;
    } else {
      var init := b[..|b| - 1];
      assert (a + b)[..|a + b| - 1] == a + init;
      MarkedOfConcat(a, init, word);
    }
  }

  /** Only the most recent snapshot counts: two reports that agree on every module's id and
      last status give the same lists, whatever their earlier snapshots. */
  lemma {:induction false} MarkedIgnoresHistory(a: seq<ModuleRecord>, b: seq<ModuleRecord>, word: string)
    requires Reported(a) && Reported(b) && |a| == |b|
    requires forall k :: 0 <= k < |a| ==> a[k].id == b[k].id && LastStatus(a[k]) == LastStatus(b[k])
    ensures Marked(a, word) == Marked(b, word)
    decreases |a|
  {
    if |a| > 0 {
      MarkedIgnoresHistory(a[..|a| - 1], b[..|b| - 1], word);
    }
  }

  /** A status can mark a module both missing and failed at once. */
  lemma MissingAndFailed(m: ModuleRecord)
    requires |m.statuses| > 0
    requires Contains(LastStatus(m), "not-present") && Contains(LastStatus(m), "failed")
    ensures Marked([m], "not-present") == [m.id] && Marked([m], "failed") == [m.id]
  {
    assert [m][..0] == [];
  }

  // ---------------------------------------------------------------------------------------
  // Memory and load
  // ---------------------------------------------------------------------------------------

  /** One entry of `show version`: a label and its text. */
  datatype VersionEntry = VersionEntry(key: string, value: string)

  /** The three names a `/`-separated value is unpacked into. */
  datatype Triple = Triple(first: string, second: string, third: string)

  /** The parts of the last `CPU load` and `System memory` values seen, if any. */
  datatype VersionFields = VersionFields(loads: Option<Triple>, memory: Option<Triple>)

  /** The figures the probe keeps: memory in MB, and the three load averages as text. */
  datatype Usage = Usage(used: int, free: int, total: int, load1: string, load5: string, load15: string)

  /** The parts of `v.split('/')` unpacked into three names; any other count is a ValueError. */
  function ThreeParts(value: string): (r: Result<Triple>)
    ensures r.Ok? <==> |Split(value, '/')| == 3
    ensures r.Ok? ==> value == r.value.first + "/" + r.value.second + "/" + r.value.third
    ensures r.Ok? ==> '/' !in r.value.first && '/' !in r.value.second && '/' !in r.value.third
    ensures r.Err? ==> r.fault == BadValue(value)
  {
    var parts := Split(value, '/');
    JoinSplit(value, '/');
    if |parts| == 3 then
      assert parts[1..][1..] == [parts[2]];
      assert Join("/", parts[1..]) == parts[1] + "/" + parts[2];
      assert value == parts[0] + "/" + (parts[1] + "/" + parts[2]);
      Ok(Triple(parts[0], parts[1], parts[2]))
    else Err(BadValue(value))
  }

  /** What one entry does to the fields: a key containing `CPU load` replaces the load
      parts, then a key containing `System memory` replaces the memory parts. */
  function VersionStep(fields: VersionFields, e: VersionEntry): Result<VersionFields> {
    var f1 :- if Contains(e.key, "CPU load") then
        var parts :- ThreeParts(e.value); Ok(fields.(loads := Some(parts)))
      else Ok(fields);
    if Contains(e.key, "System memory") then
      var parts :- ThreeParts(e.value); Ok(f1.(memory := Some(parts)))
    else Ok(f1)
  }

  /** The fields after the entries, in order. */
  function VersionScan(entries: seq<VersionEntry>): Result<VersionFields>
    decreases |entries|
  {
    if |entries| == 0 then Ok(VersionFields(None, None))
    else
      var fields :- VersionScan(entries[..|entries| - 1]);
      VersionStep(fields, entries[|entries| - 1])
  }

  /** Once an entry raises, the scan of any longer run raises the same. */
  lemma {:induction false} VersionScanStops(entries: seq<VersionEntry>, n: nat)
    requires n <= |entries| && VersionScan(entries[..n]).Err?
    ensures VersionScan(entries) == VersionScan(entries[..n])
    decreases |entries| - n
  {
    if n < |entries| {
      assert entries[..n + 1][..n] == entries[..n];
      VersionScanStops(entries, n + 1);
    } else {
      assert entries[..n] == entries;
    }
  }

  /** The key text that fills a slot of the fields: `System memory` for the memory parts,
      `CPU load` for the load parts. */
  function Label(memory: bool): string {
    if memory then "System memory" else "CPU load"
  }

  function Slot(fields: VersionFields, memory: bool): Option<Triple> {
    if memory then fields.memory else fields.loads
  }

  /** An entry the scan unpacks whose value is not three `/`-parts. */
  predicate Malformed(e: VersionEntry) {
    (Contains(e.key, "CPU load") || Contains(e.key, "System memory")) && |Split(e.value, '/')| != 3
  }

  /** The scan raises exactly when some entry it unpacks is malformed. */
  lemma {:induction false} VersionScanFails(entries: seq<VersionEntry>)
    ensures VersionScan(entries).Err? <==> exists k :: 0 <= k < |entries| && Malformed(entries[k])
    decreases |entries|
  {
    if |entries| > 0 {
      var init := entries[..|entries| - 1];
      VersionScanFails(init);
      assert forall k :: 0 <= k < |init| ==> init[k] == entries[k];
    }
  }

  /** A successful scan fills each slot from the last entry whose key holds its label. */
  lemma {:induction false} VersionScanLastWins(entries: seq<VersionEntry>, memory: bool, k: nat)
    requires VersionScan(entries).Ok?
    requires k < |entries| && Contains(entries[k].key, Label(memory))
    requires forall j :: k < j < |entries| ==> !Contains(entries[j].key, Label(memory))
    ensures ThreeParts(entries[k].value).Ok?
    ensures Slot(VersionScan(entries).value, memory) == Some(ThreeParts(entries[k].value).value)
    decreases |entries|
  {
    var init := entries[..|entries| - 1];
    if k < |entries| - 1 {
      VersionScanLastWins(init, memory, k);
    }
  }

  /** A slot no entry's key names stays empty. */
  lemma {:induction false} VersionScanUnset(entries: seq<VersionEntry>, memory: bool)
    requires VersionScan(entries).Ok?
    requires forall j :: 0 <= j < |entries| ==> !Contains(entries[j].key, Label(memory))
    ensures Slot(VersionScan(entries).value, memory).None?
    decreases |entries|
  {
    if |entries| > 0 {
      VersionScanUnset(entries[..|entries| - 1], memory);
    }
  }

  /** `part.replace(unit, '').replace(' ', '')` read by `int()`. */
  function MemoryField(part: string, unit: string): Result<int>
    requires |unit| > 0
  {
    ParseInt(RemoveAll(RemoveAll(part, unit), " "))
  }

  /** The text handed to `int()` has neither spaces nor, when the unit holds a space, the unit. */
  lemma MemoryFieldIsClean(part: string, unit: string)
    requires |unit| > 0
    ensures ' ' !in RemoveAll(RemoveAll(part, unit), " ")
    ensures ' ' in unit ==> !Contains(RemoveAll(RemoveAll(part, unit), " "), unit)
  {
    var t := RemoveAll(RemoveAll(part, unit), " ");
    RemoveCharLeavesNone(RemoveAll(part, unit), ' ');
    PatternNeedsItsCharacters(t, unit, ' ');
  }

  /** A field that reads `<n><unit>`, with any run of spaces (or none) before the number,
      between the number and the unit, and after the unit, parses as n. */
  lemma MemoryFieldValue(n: int, unit: string, before: string, mid: string, after: string)
    requires |unit| > 0 && unit[0] != ' ' && unit[0] != '-' && !IsDigit(unit[0])
    requires forall i :: 0 <= i < |before| ==> before[i] == ' '
    requires forall i :: 0 <= i < |mid| ==> mid[i] == ' '
    requires forall i :: 0 <= i < |after| ==> after[i] == ' '
    ensures MemoryField(before + IntToDecimal(n) + mid + unit + after, unit) == Ok(n)
  {
    var d := IntToDecimal(n);
    DecimalHasNoSpace(n);
    assert ' ' !in d && unit[0] !in d by {
      assert forall i :: 0 <= i < |d| ==> d[i] == '-' || IsDigit(d[i]);
    }
    UnitRemoved(d, unit, before, mid, after);
    var gap := mid + after;
    assert forall i :: 0 <= i < |gap| ==> gap[i] == ' ' by {
      forall i | 0 <= i < |gap| ensures gap[i] == ' ' {
        if i < |mid| {
          assert gap[i] == mid[i];
        } else {
          assert gap[i] == after[i - |mid|];
        }
      }
    }
    assert before + d + mid + after == before + d + gap;
    SpacesRemoved(d, before, gap);
    ParseIntOfDecimal(n);
  }

  lemma UnitRemoved(d: string, unit: string, before: string, mid: string, after: string)
    requires |unit| > 0 && unit[0] != ' ' && unit[0] !in d
    requires forall i :: 0 <= i < |before| ==> before[i] == ' '
    requires forall i :: 0 <= i < |mid| ==> mid[i] == ' '
    requires forall i :: 0 <= i < |after| ==> after[i] == ' '
    ensures RemoveAll(before + d + mid + unit + after, unit) == before + d + mid + after
  {
    var head := before + d + mid;
    assert unit[0] !in head by {
      forall i | 0 <= i < |head| ensures head[i] != unit[0] {
        if i < |before| {
          assert head[i] == before[i];
        } else if i < |before| + |d| {
          assert head[i] == d[i - |before|];
        } else {
          assert head[i] == mid[i - |before| - |d|];
        }
      }
    }
    assert before + d + mid + unit + after == head + (unit + after);
    RemoveAllKeepsPrefix(head, unit + after, unit);
    RemovePatternInFront(unit, after);
    PatternNeedsItsCharacters(after, unit, unit[0]);
    RemoveAllAbsent(after, unit);
  }

  lemma SpacesRemoved(d: string, before: string, after: string)
    requires ' ' !in d
    requires forall i :: 0 <= i < |before| ==> before[i] == ' '
    requires forall i :: 0 <= i < |after| ==> after[i] == ' '
    ensures RemoveAll(before + d + after, " ") == d
  {
    var x := before + d;
    RemoveCharOfConcat(x, after, ' ');
    assert RemoveAll(x, " ") == d by {
      PatternNeedsItsCharacters(d, " ", ' ');
      RemoveAllAbsent(d, " ");
      RemoveCharOfConcat(before, d, ' ');
      RemoveCharOfCopies(before, ' ');
    }
    RemoveCharOfCopies(after, ' ');
  }

  /** Lines 168-173 after the scan: the memory parts lose their unit and spaces and go through
      `int()` (used, then free, then total), the load parts lose their spaces. A name that no
      entry assigned is a NameError. */
  function ReadUsage(fields: VersionFields): (r: Result<Usage>)
    ensures fields.memory.None? ==> r == Err(Unassigned("Used"))
    ensures r.Ok? <==> (fields.memory.Some? && fields.loads.Some?
      && MemoryField(fields.memory.value.first, "MB used").Ok?
      && MemoryField(fields.memory.value.second, "MB free").Ok?
      && MemoryField(fields.memory.value.third, "MB total").Ok?)
    ensures r.Ok? ==> (Ok(r.value.used) == MemoryField(fields.memory.value.first, "MB used")
      && Ok(r.value.free) == MemoryField(fields.memory.value.second, "MB free")
      && Ok(r.value.total) == MemoryField(fields.memory.value.third, "MB total"))
    ensures r.Ok? ==> ' ' !in r.value.load1 && ' ' !in r.value.load5 && ' ' !in r.value.load15
    ensures r.Ok? ==> (r.value.load1 == RemoveAll(fields.loads.value.first, " ")
      && r.value.load5 == RemoveAll(fields.loads.value.second, " ")
      && r.value.load15 == RemoveAll(fields.loads.value.third, " "))
    ensures fields.memory.Some? && MemoryField(fields.memory.value.first, "MB used").Err? ==>
      r == MemoryField(fields.memory.value.first, "MB used").PropagateFailure()
    ensures (fields.memory.Some? && MemoryField(fields.memory.value.first, "MB used").Ok?
             && MemoryField(fields.memory.value.second, "MB free").Err?) ==>
      r == MemoryField(fields.memory.value.second, "MB free").PropagateFailure()
    ensures (fields.memory.Some? && MemoryField(fields.memory.value.first, "MB used").Ok?
             && MemoryField(fields.memory.value.second, "MB free").Ok?
             && MemoryField(fields.memory.value.third, "MB total").Err?) ==>
      r == MemoryField(fields.memory.value.third, "MB total").PropagateFailure()
    ensures (fields.memory.Some? && MemoryField(fields.memory.value.first, "MB used").Ok?
             && MemoryField(fields.memory.value.second, "MB free").Ok?
             && MemoryField(fields.memory.value.third, "MB total").Ok? && fields.loads.None?) ==>
      r == Err(Unassigned("Load1"))
  {
    if fields.memory.None? then Err(Unassigned("Used"))
    else
      var m := fields.memory.value;
      var used :- MemoryField(m.first, "MB used");
      var free :- MemoryField(m.second, "MB free");
      var total :- MemoryField(m.third, "MB total");
      if fields.loads.None? then Err(Unassigned("Load1"))
      else
        var l := fields.loads.value;
        RemoveCharLeavesNone(l.first, ' ');
        RemoveCharLeavesNone(l.second, ' ');
        RemoveCharLeavesNone(l.third, ' ');
        Ok(Usage(used, free, total, RemoveAll(l.first, " "), RemoveAll(l.second, " "), RemoveAll(l.third, " ")))
  }

  /** The scan itself (lines 162-166): each entry in turn, the later of several matching keys
      replacing the earlier. */
  method ScanVersion(entries: seq<VersionEntry>) returns (r: Result<VersionFields>)
    ensures r == VersionScan(entries)
  {
    var fields := VersionFields(None, None);
    for i := 0 to |entries|
      invariant VersionScan(entries[..i]) == Ok(fields)
    {
      assert entries[..i + 1][..i] == entries[..i];
      var e := entries[i];
      if Contains(e.key, "CPU load") {
        var parts := Split(e.value, '/');
        if |parts| != 3 {
          VersionScanStops(entries, i + 1);
          return Err(BadValue(e.value));
        }
        fields := fields.(loads := Some(Triple(parts[0], parts[1], parts[2])));
      }
      if Contains(e.key, "System memory") {
        var parts := Split(e.value, '/');
        if |parts| != 3 {
          VersionScanStops(entries, i + 1);
          return Err(BadValue(e.value));
        }
        fields := fields.(memory := Some(Triple(parts[0], parts[1], parts[2])));
      }
    }
    assert entries[..|entries|] == entries;
    return Ok(fields);
  }

  // ---------------------------------------------------------------------------------------
  // Temperatures
  // ---------------------------------------------------------------------------------------

  /** A `CurTemp (Celsius)` value: the number the report carried and its text as Python's
      `str()` writes it. */
  datatype Reading = Reading(celsius: real, text: string)

  /** One sensor of a group: its `Component` name and its reading. */
  datatype Sensor = Sensor(component: string, reading: Reading)

  /** One entry of `Temperature per module`: the group's key and its sensors. */
  datatype SensorGroup = SensorGroup(name: string, sensors: seq<Sensor>)

  /** The variables the scan fills: the CPU reading, unassigned until a CPU sensor is seen,
      and the ASIC and SIB lists. */
  datatype Temperatures = Temperatures(cpu: Option<Reading>, asic: seq<Reading>, sib: seq<Reading>)

  const CpuSensor := "CPU package Sensor"

  /** `groups[name]`: the sensors of the group whose key is exactly `name` (keys of a report are
      distinct); a KeyError when there is none. */
  function Lookup(groups: seq<SensorGroup>, name: string): (r: Result<seq<Sensor>>)
    ensures r.Ok? <==> exists k :: 0 <= k < |groups| && groups[k].name == name
    ensures r.Ok? ==> exists k :: 0 <= k < |groups| && groups[k].name == name && groups[k].sensors == r.value
    ensures r.Err? ==> r.fault == KeyMissing(name)
    decreases |groups|
  {
    if |groups| == 0 then Err(KeyMissing(name))
    else if groups[0].name == name then Ok(groups[0].sensors)
    else
      var r := Lookup(groups[1..], name);
      assert forall k :: 0 <= k < |groups| - 1 ==> groups[1..][k] == groups[k + 1];
      r
  }

  /** What a loop that assigns each matching sensor's reading in turn leaves behind, starting
      from `current`. */
  function LastReading(sensors: seq<Sensor>, word: string, current: Option<Reading>): Option<Reading>
    decreases |sensors|
  {
    if |sensors| == 0 then current
    else
      var last := sensors[|sensors| - 1];
      if Contains(last.component, word) then Some(last.reading)
      else LastReading(sensors[..|sensors| - 1], word, current)
  }

  /** That is the reading of the last sensor whose component contains the word... */
  lemma {:induction false} LastReadingIsLastMatch(sensors: seq<Sensor>, word: string, current: Option<Reading>, k: nat)
    requires k < |sensors| && Contains(sensors[k].component, word)
    requires forall j :: k < j < |sensors| ==> !Contains(sensors[j].component, word)
    ensures LastReading(sensors, word, current) == Some(sensors[k].reading)
    decreases |sensors|
  {
    if k < |sensors| - 1 {
      LastReadingIsLastMatch(sensors[..|sensors| - 1], word, current, k);
    }
  }

  /** ...and the starting value when no component contains it. */
  lemma {:induction false} LastReadingWithoutMatch(sensors: seq<Sensor>, word: string, current: Option<Reading>)
    requires forall j :: 0 <= j < |sensors| ==> !Contains(sensors[j].component, word)
    ensures LastReading(sensors, word, current) == current
    decreases |sensors|
  {
    if |sensors| > 0 {
      LastReadingWithoutMatch(sensors[..|sensors| - 1], word, current);
    }
  }

  /** The readings, in order, of the sensors whose component contains the word. */
  function Matching(sensors: seq<Sensor>, word: string): seq<Reading>
    decreases |sensors|
  {
    if |sensors| == 0 then []
    else
      var last := sensors[|sensors| - 1];
      Matching(sensors[..|sensors| - 1], word) + (if Contains(last.component, word) then [last.reading] else [])
  }

  /** The matching readings of every group, group by group. */
  function Collected(groups: seq<SensorGroup>, word: string): seq<Reading>
    decreases |groups|
  {
    if |groups| == 0 then []
    else Collected(groups[..|groups| - 1], word) + Matching(groups[|groups| - 1].sensors, word)
  }

  lemma {:induction false} MatchingMembership(sensors: seq<Sensor>, word: string, x: Reading)
    ensures x in Matching(sensors, word) <==>
      exists k :: 0 <= k < |sensors| && Contains(sensors[k].component, word) && sensors[k].reading == x
    decreases |sensors|
  {
    if |sensors| > 0 {
      var init := sensors[..|sensors| - 1];
      MatchingMembership(init, word, x);
      assert forall k :: 0 <= k < |init| ==> init[k] == sensors[k];
    }
  }

  /** A reading is collected exactly when some sensor, in some group, whose component contains
      the word carries it. */
  lemma {:induction false} CollectedMembership(groups: seq<SensorGroup>, word: string, x: Reading)
    ensures x in Collected(groups, word) <==>
      exists i, k :: 0 <= i < |groups| && 0 <= k < |groups[i].sensors|
        && Contains(groups[i].sensors[k].component, word) && groups[i].sensors[k].reading == x
    decreases |groups|
  {
    if |groups| > 0 {
      var init := groups[..|groups| - 1];
      CollectedMembership(init, word, x);
      MatchingMembership(groups[|groups| - 1].sensors, word, x);
      assert forall i :: 0 <= i < |init| ==> init[i] == groups[i];
    }
  }

  /** The single value the lone-MGMT loop keeps for a list: the last matching reading as a
      one-element list, or the list as it was when nothing matches. */
  function LastAsList(sensors: seq<Sensor>, word: string, current: seq<Reading>): (r: seq<Reading>)
    ensures |r| == 1 || r == current
  {
    match LastReading(sensors, word, None)
    case Some(x) => [x]
    case None => current
  }

  /** A key containing MGMT1 or MGMT2 (the CS7500 chassis): the CPU reading from that group,
      then every group's ASIC and SIB readings appended. */
  function ChassisStep(groups: seq<SensorGroup>, name: string, t: Temperatures): Result<Temperatures> {
    var sensors :- Lookup(groups, name);
    Ok(Temperatures(LastReading(sensors, CpuSensor, t.cpu), t.asic + Collected(groups, "ASIC"), t.sib + Collected(groups, "SIB")))
  }

  /** A key containing MGMT only (the SB7800 switch): CPU, SIB and `Ports AMB` readings from
      the MGMT group. */
  function SingleStep(groups: seq<SensorGroup>, t: Temperatures): Result<Temperatures> {
    var sensors :- Lookup(groups, "MGMT");
    Ok(Temperatures(LastReading(sensors, CpuSensor, t.cpu), LastAsList(sensors, "Ports AMB", t.asic), LastAsList(sensors, "SIB", t.sib)))
  }

  /** What one key of the report does. */
  function KeyStep(groups: seq<SensorGroup>, key: string, t: Temperatures): Result<Temperatures> {
    if Contains(key, "MGMT1") then ChassisStep(groups, "MGMT1", t)
    else if Contains(key, "MGMT2") then ChassisStep(groups, "MGMT2", t)
    else if Contains(key, "MGMT") then SingleStep(groups, t)
    else Ok(t)
  }

  /** The variables after the first n keys. */
  function ScanUpTo(groups: seq<SensorGroup>, n: nat): Result<Temperatures>
    requires n <= |groups|
  {
    if n == 0 then Ok(Temperatures(None, [], []))
    else
      var t :- ScanUpTo(groups, n - 1);
      KeyStep(groups, groups[n - 1].name, t)
  }

  /** The loop over one group's sensors that keeps the CPU package reading. */
  method ReadCpu(sensors: seq<Sensor>, cpu: Option<Reading>) returns (c: Option<Reading>)
    ensures c == LastReading(sensors, CpuSensor, cpu)
  {
    c := cpu;
    for j := 0 to |sensors|
      invariant c == LastReading(sensors[..j], CpuSensor, cpu)
    {
      assert sensors[..j + 1][..j] == sensors[..j];
      if Contains(sensors[j].component, CpuSensor) {
        c := Some(sensors[j].reading);
      }
    }
    assert sensors[..|sensors|] == sensors;
  }

  /** The nested loop over every group that appends the SIB and ASIC readings. */
  method CollectAll(groups: seq<SensorGroup>, asic: seq<Reading>, sib: seq<Reading>) returns (asic': seq<Reading>, sib': seq<Reading>)
    ensures asic' == asic + Collected(groups, "ASIC")
    ensures sib' == sib + Collected(groups, "SIB")
  {
    asic', sib' := asic, sib;
    for i := 0 to |groups|
      invariant asic' == asic + Collected(groups[..i], "ASIC")
      invariant sib' == sib + Collected(groups[..i], "SIB")
    {
      var sensors := groups[i].sensors;
      assert groups[..i + 1][..i] == groups[..i];
      for j := 0 to |sensors|
        invariant asic' == asic + Collected(groups[..i], "ASIC") + Matching(sensors[..j], "ASIC")
        invariant sib' == sib + Collected(groups[..i], "SIB") + Matching(sensors[..j], "SIB")
      {
        assert sensors[..j + 1][..j] == sensors[..j];
        if Contains(sensors[j].component, "SIB") {
          sib' := sib' + [sensors[j].reading];
        }
        if Contains(sensors[j].component, "ASIC") {
          asic' := asic' + [sensors[j].reading];
        }
      }
      assert sensors[..|sensors|] == sensors;
    }
    assert groups[..|groups|] == groups;
  }

  /** The loop over the MGMT group of the lone-MGMT topology. */
  method ReadSingle(sensors: seq<Sensor>, t: Temperatures) returns (t': Temperatures)
    ensures t' == Temperatures(LastReading(sensors, CpuSensor, t.cpu), LastAsList(sensors, "Ports AMB", t.asic), LastAsList(sensors, "SIB", t.sib))
  {
    var cpu, asic, sib := t.cpu, t.asic, t.sib;
    var asicSeen, sibSeen: Option<Reading> := None, None;
    for j := 0 to |sensors|
      invariant cpu == LastReading(sensors[..j], CpuSensor, t.cpu)
      invariant asicSeen == LastReading(sensors[..j], "Ports AMB", None)
      invariant sibSeen == LastReading(sensors[..j], "SIB", None)
      invariant asic == (if asicSeen.Some? then [asicSeen.value] else t.asic)
      invariant sib == (if sibSeen.Some? then [sibSeen.value] else t.sib)
    {
      assert sensors[..j + 1][..j] == sensors[..j];
      var line := sensors[j];
      if Contains(line.component, CpuSensor) {
        cpu := Some(line.reading);
      }
      if Contains(line.component, "SIB") {
        sib := [line.reading];
        sibSeen := Some(line.reading);
      }
      if Contains(line.component, "Ports AMB") {
        asic := [line.reading];
        asicSeen := Some(line.reading);
      }
    }
    assert sensors[..|sensors|] == sensors;
    t' := Temperatures(cpu, asic, sib);
  }

  /** The temperature scan (lines 175-210): each key of the report in turn. */
  method ScanTemperatures(groups: seq<SensorGroup>) returns (r: Result<Temperatures>)
    ensures r == ScanUpTo(groups, |groups|)
  {
    var t := Temperatures(None, [], []);
    for i := 0 to |groups|
      invariant ScanUpTo(groups, i) == Ok(t)
    {
      var key := groups[i].name;
      if Contains(key, "MGMT1") || Contains(key, "MGMT2") {
        var name := if Contains(key, "MGMT1") then "MGMT1" else "MGMT2";
        var sensors := Lookup(groups, name);
        if sensors.Err? {
          ScanStops(groups, i + 1);
          return Err(sensors.fault);
        }
        var cpu := ReadCpu(sensors.value, t.cpu);
        var asic, sib := CollectAll(groups, t.asic, t.sib);
        t := Temperatures(cpu, asic, sib);
      } else if Contains(key, "MGMT") {
        var sensors := Lookup(groups, "MGMT");
        if sensors.Err? {
          ScanStops(groups, i + 1);
          return Err(sensors.fault);
        }
        t := ReadSingle(sensors.value, t);
      }
    }
    return Ok(t);
  }

  /** Once a key raises, the scan of the whole report raises the same. */
  lemma {:induction false} ScanStops(groups: seq<SensorGroup>, n: nat)
    requires n <= |groups| && ScanUpTo(groups, n).Err?
    ensures ScanUpTo(groups, |groups|) == ScanUpTo(groups, n)
    decreases |groups| - n
  {
    if n < |groups| {
      ScanStops(groups, n + 1);
    }
  }

  /** Keys without MGMT in them leave the variables alone. */
  lemma {:induction false} ScanSkips(groups: seq<SensorGroup>, lo: nat, hi: nat)
    requires lo <= hi <= |groups|
    requires forall j :: lo <= j < hi ==> !Contains(groups[j].name, "MGMT")
    ensures ScanUpTo(groups, hi) == ScanUpTo(groups, lo)
    decreases hi - lo
  {
    if lo < hi {
      ScanSkips(groups, lo, hi - 1);
      ScanStep(groups, hi);
      KeyStepSkips(groups, groups[hi - 1].name);
    }
  }

  /** One more key: an error stays, otherwise that key's step applies. */
  lemma ScanStep(groups: seq<SensorGroup>, n: nat)
    requires 0 < n <= |groups|
    ensures ScanUpTo(groups, n - 1).Err? ==> ScanUpTo(groups, n) == ScanUpTo(groups, n - 1)
    ensures ScanUpTo(groups, n - 1).Ok? ==> ScanUpTo(groups, n) == KeyStep(groups, groups[n - 1].name, ScanUpTo(groups, n - 1).value)
  {
  }

  lemma KeyStepSkips(groups: seq<SensorGroup>, key: string)
    requires !Contains(key, "MGMT")
    ensures forall t :: KeyStep(groups, key, t) == Ok(t)
  {
    assert StartsWith("MGMT1", "MGMT") && StartsWith("MGMT2", "MGMT");
    ContainsPatternPrefix(key, "MGMT1", "MGMT");
    ContainsPatternPrefix(key, "MGMT2", "MGMT");
  }

  /** A report without any MGMT key leaves both lists empty and no CPU reading. */
  lemma WithoutManagementNothingIsRead(groups: seq<SensorGroup>)
    requires forall j :: 0 <= j < |groups| ==> !Contains(groups[j].name, "MGMT")
    ensures ScanUpTo(groups, |groups|) == Ok(Temperatures(None, [], []))
  {
    ScanSkips(groups, 0, |groups|);
  }

  /** When only key m holds MGMT, the scan is that key's step from the initial variables. */
  lemma OnlyKeyCounts(groups: seq<SensorGroup>, m: nat)
    requires m < |groups|
    requires forall j :: 0 <= j < |groups| && j != m ==> !Contains(groups[j].name, "MGMT")
    ensures ScanUpTo(groups, |groups|) == KeyStep(groups, groups[m].name, Temperatures(None, [], []))
  {
    LaterKeysSkip(groups, m + 1);
    ScanSkips(groups, 0, m);
    ScanStep(groups, m + 1);
  }

  /** After the last key that holds MGMT, the result no longer changes. */
  lemma LaterKeysSkip(groups: seq<SensorGroup>, n: nat)
    requires n <= |groups|
    requires forall j :: n <= j < |groups| ==> !Contains(groups[j].name, "MGMT")
    ensures ScanUpTo(groups, |groups|) == ScanUpTo(groups, n)
  {
    if ScanUpTo(groups, n).Ok? {
      ScanSkips(groups, n, |groups|);
    } else {
      ScanStops(groups, n);
    }
  }

  /** The keys of the two management cards of a CS7500 chassis. */
  predicate IsChassisKey(name: string) {
    name == "MGMT1" || name == "MGMT2"
  }

  /** The CS7500 topology with one card: when the one key holding MGMT is `MGMT1` or `MGMT2`
      itself, the CPU reading is that group's last CPU package sensor, and the ASIC and SIB
      lists hold every matching reading of every group. */
  lemma ChassisTopology(groups: seq<SensorGroup>, m: nat)
    requires m < |groups| && IsChassisKey(groups[m].name)
    requires forall j :: 0 <= j < |groups| && j != m ==> !Contains(groups[j].name, "MGMT")
    ensures ScanUpTo(groups, |groups|)
         == Ok(Temperatures(LastReading(groups[m].sensors, CpuSensor, None), Collected(groups, "ASIC"), Collected(groups, "SIB")))
  {
    var init := Temperatures(None, [], []);
    OnlyKeyCounts(groups, m);
    ChassisKeyIsOwn(groups, m, m);
    ChassisKey(groups, m, init);
    assert init.asic + Collected(groups, "ASIC") == Collected(groups, "ASIC");
    assert init.sib + Collected(groups, "SIB") == Collected(groups, "SIB");
  }

  /** No key other than those at m1 and m2 names a management card. */
  predicate ManagementOnlyAt(groups: seq<SensorGroup>, m1: nat, m2: nat) {
    forall j :: 0 <= j < |groups| && j != m1 && j != m2 ==> !Contains(groups[j].name, "MGMT")
  }

  /** The CS7500 topology with both cards: each card's key rereads the CPU sensor, the later
      card's reading winning when it has one, and appends every group's ASIC and SIB readings
      once more, so both lists hold every matching reading twice. */
  lemma {:induction false} TwoCardTopology(groups: seq<SensorGroup>, m1: nat, m2: nat)
    requires m1 < m2 < |groups|
    requires IsChassisKey(groups[m1].name) && IsChassisKey(groups[m2].name) && groups[m1].name != groups[m2].name
    requires ManagementOnlyAt(groups, m1, m2)
    ensures ScanUpTo(groups, |groups|)
         == Ok(Temperatures(LastReading(groups[m2].sensors, CpuSensor, LastReading(groups[m1].sensors, CpuSensor, None)),
                            Collected(groups, "ASIC") + Collected(groups, "ASIC"),
                            Collected(groups, "SIB") + Collected(groups, "SIB")))
  {
    var t2 := BothCardsScan(groups, m1, m2);
    ScanRestSkips(groups, m2 + 1, t2, m1, m2);
  }

  /** The scan up to and including the second card. */
  lemma BothCardsScan(groups: seq<SensorGroup>, m1: nat, m2: nat) returns (t2: Temperatures)
    requires m1 < m2 < |groups|
    requires IsChassisKey(groups[m1].name) && IsChassisKey(groups[m2].name) && groups[m1].name != groups[m2].name
    requires ManagementOnlyAt(groups, m1, m2)
    ensures t2 == Temperatures(LastReading(groups[m2].sensors, CpuSensor, LastReading(groups[m1].sensors, CpuSensor, None)),
                               Collected(groups, "ASIC") + Collected(groups, "ASIC"),
                               Collected(groups, "SIB") + Collected(groups, "SIB"))
    ensures ScanUpTo(groups, m2 + 1) == Ok(t2)
  {
    var t1 := FirstCardScan(groups, m1, m2);
    ChassisKeyIsOwn(groups, m2, m1);
    ChassisKeyStep(groups, m2, t1);
    t2 := Temperatures(LastReading(groups[m2].sensors, CpuSensor, t1.cpu), t1.asic + Collected(groups, "ASIC"), t1.sib + Collected(groups, "SIB"));
  }

  /** Past both cards the scan keeps what it has. */
  lemma ScanRestSkips(groups: seq<SensorGroup>, n: nat, t: Temperatures, m1: nat, m2: nat)
    requires m1 < n && m2 < n <= |groups| && ScanUpTo(groups, n) == Ok(t)
    requires ManagementOnlyAt(groups, m1, m2)
    ensures ScanUpTo(groups, |groups|) == Ok(t)
  {
    ScanSkips(groups, n, |groups|);
  }

  /** A chassis key's step as a step of the scan. */
  lemma ChassisKeyStep(groups: seq<SensorGroup>, m: nat, t: Temperatures)
    requires m < |groups| && IsChassisKey(groups[m].name) && ScanUpTo(groups, m) == Ok(t)
    requires forall j :: 0 <= j < |groups| && j != m ==> groups[j].name != groups[m].name
    ensures ScanUpTo(groups, m + 1)
         == Ok(Temperatures(LastReading(groups[m].sensors, CpuSensor, t.cpu), t.asic + Collected(groups, "ASIC"), t.sib + Collected(groups, "SIB")))
  {
    ScanStep(groups, m + 1);
    ChassisKey(groups, m, t);
  }

  /** Up to the second card, only the first card's key has acted. */
  lemma FirstCardScan(groups: seq<SensorGroup>, m1: nat, m2: nat) returns (t1: Temperatures)
    requires m1 < m2 < |groups|
    requires IsChassisKey(groups[m1].name) && IsChassisKey(groups[m2].name) && groups[m1].name != groups[m2].name
    requires ManagementOnlyAt(groups, m1, m2)
    ensures t1 == Temperatures(LastReading(groups[m1].sensors, CpuSensor, None), Collected(groups, "ASIC"), Collected(groups, "SIB"))
    ensures ScanUpTo(groups, m2) == Ok(t1)
  {
    var init := Temperatures(None, [], []);
    t1 := Temperatures(LastReading(groups[m1].sensors, CpuSensor, None), Collected(groups, "ASIC"), Collected(groups, "SIB"));
    ChassisKeyIsOwn(groups, m1, m2);
    ScanSkips(groups, 0, m1);
    ScanStep(groups, m1 + 1);
    ChassisKey(groups, m1, init);
    assert init.asic + Collected(groups, "ASIC") == t1.asic && init.sib + Collected(groups, "SIB") == t1.sib;
    ScanSkips(groups, m1 + 1, m2);
  }

  /** A chassis key is no other group's key when every other group but one, whose key differs,
      has no MGMT in its key. */
  lemma ChassisKeyIsOwn(groups: seq<SensorGroup>, m: nat, other: nat)
    requires m < |groups| && other < |groups| && IsChassisKey(groups[m].name)
    requires other == m || groups[other].name != groups[m].name
    requires ManagementOnlyAt(groups, m, other)
    ensures forall j :: 0 <= j < |groups| && j != m ==> groups[j].name != groups[m].name
  {
    assert Contains("MGMT1", "MGMT") && Contains("MGMT2", "MGMT") by {
      assert StartsWith("MGMT1", "MGMT") && StartsWith("MGMT2", "MGMT");
    }
  }

  /** What a chassis key does to any variables: the CPU reading from its own group, then
      every group's ASIC and SIB readings appended. */
  lemma ChassisKey(groups: seq<SensorGroup>, m: nat, t: Temperatures)
    requires m < |groups| && IsChassisKey(groups[m].name)
    requires forall j :: 0 <= j < |groups| && j != m ==> groups[j].name != groups[m].name
    ensures KeyStep(groups, groups[m].name, t)
         == Ok(Temperatures(LastReading(groups[m].sensors, CpuSensor, t.cpu), t.asic + Collected(groups, "ASIC"), t.sib + Collected(groups, "SIB")))
  {
    assert Contains("MGMT1", "MGMT1") && Contains("MGMT2", "MGMT2") by {
      assert StartsWith("MGMT1", "MGMT1") && StartsWith("MGMT2", "MGMT2");
    }
    NotContainsSameLength("MGMT2", "MGMT1");
    LookupFindsKey(groups, m);
  }

  /** With distinct keys, looking up the key of a group finds that group. */
  lemma {:induction false} LookupFindsKey(groups: seq<SensorGroup>, m: nat)
    requires m < |groups|
    requires forall j :: 0 <= j < |groups| && j != m ==> groups[j].name != groups[m].name
    ensures Lookup(groups, groups[m].name) == Ok(groups[m].sensors)
    decreases m
  {
    if m > 0 {
      LookupFindsKey(groups[1..], m - 1);
    }
  }

  /** The SB7800 topology: when the one key holding MGMT is `MGMT` itself, the CPU reading is
      the group's last CPU package sensor and each list is that group's last matching reading,
      or empty. */
  lemma SingleTopology(groups: seq<SensorGroup>, m: nat)
    requires m < |groups| && groups[m].name == "MGMT"
    requires forall j :: 0 <= j < |groups| && j != m ==> !Contains(groups[j].name, "MGMT")
    ensures ScanUpTo(groups, |groups|)
         == Ok(Temperatures(LastReading(groups[m].sensors, CpuSensor, None),
                            LastAsList(groups[m].sensors, "Ports AMB", []), LastAsList(groups[m].sensors, "SIB", [])))
  {
    OnlyKeyCounts(groups, m);
    SingleKey(groups, m);
  }

  lemma SingleKey(groups: seq<SensorGroup>, m: nat)
    requires m < |groups| && groups[m].name == "MGMT"
    requires forall j :: 0 <= j < |groups| && j != m ==> !Contains(groups[j].name, "MGMT")
    ensures KeyStep(groups, groups[m].name, Temperatures(None, [], []))
         == Ok(Temperatures(LastReading(groups[m].sensors, CpuSensor, None),
                            LastAsList(groups[m].sensors, "Ports AMB", []), LastAsList(groups[m].sensors, "SIB", [])))
  {
    assert Contains("MGMT", "MGMT") by {
      assert StartsWith("MGMT", "MGMT");
    }
    NotContainsLonger("MGMT", "MGMT1");
    NotContainsLonger("MGMT", "MGMT2");
    LookupFindsKey(groups, m);
  }

  lemma NotContainsLonger(s: string, p: string)
    requires |s| < |p|
    ensures !Contains(s, p)
  {
    if Contains(s, p) {
      ContainedOccurs(s, p);
    }
  }

  lemma NotContainsSameLength(s: string, p: string)
    requires |s| == |p| && s != p
    ensures !Contains(s, p)
  {
    if Contains(s, p) {
      ContainedOccurs(s, p);
    }
  }

  /** The maxima the probe reports: the CPU reading and the largest ASIC and SIB readings. */
  datatype Peaks = Peaks(cpu: Reading, asic: Reading, sib: Reading)

  /** Python's `max` over readings: the first of the largest; a ValueError on an empty list. */
  function MaxReading(xs: seq<Reading>, name: string): (r: Result<Reading>)
    ensures r.Err? <==> |xs| == 0
    ensures r.Err? ==> r.fault == EmptySequence(name)
    ensures r.Ok? ==> forall k :: 0 <= k < |xs| ==> xs[k].celsius <= r.value.celsius
    ensures r.Ok? ==> exists k :: 0 <= k < |xs| && xs[k] == r.value && forall j :: 0 <= j < k ==> xs[j].celsius < r.value.celsius
    decreases |xs|
  {
    if |xs| == 0 then Err(EmptySequence(name))
    else if |xs| == 1 then Ok(xs[0])
    else
      var init := xs[..|xs| - 1];
      var m := MaxReading(init, name).value;
      assert forall k :: 0 <= k < |init| ==> init[k] == xs[k];
      if xs[|xs| - 1].celsius > m.celsius then Ok(xs[|xs| - 1]) else Ok(m)
  }

  /** Lines 212-214: the ASIC maximum, then the SIB maximum, then the CPU reading, which is a
      NameError when no CPU package sensor was seen. */
  function Maxima(t: Temperatures): (r: Result<Peaks>)
    ensures r.Ok? <==> |t.asic| > 0 && |t.sib| > 0 && t.cpu.Some?
    ensures |t.asic| == 0 ==> r == Err(EmptySequence("asic_temps"))
    ensures |t.asic| > 0 && |t.sib| == 0 ==> r == Err(EmptySequence("sib_temps"))
    ensures |t.asic| > 0 && |t.sib| > 0 && t.cpu.None? ==> r == Err(Unassigned("cpu_temp"))
    ensures r.Ok? ==> r.value.cpu == t.cpu.value && r.value.asic in t.asic && r.value.sib in t.sib
  {
    var asic :- MaxReading(t.asic, "asic_temps");
    var sib :- MaxReading(t.sib, "sib_temps");
    if t.cpu.None? then Err(Unassigned("cpu_temp")) else Ok(Peaks(t.cpu.value, asic, sib))
  }
  /** The reading Python's `max` picks: no reading is warmer, and it is the first one this warm. */
  ghost predicate FirstMaximum(xs: seq<Reading>, r: Reading) {
    && (forall k :: 0 <= k < |xs| ==> xs[k].celsius <= r.celsius)
    && exists k :: 0 <= k < |xs| && xs[k] == r && forall j :: 0 <= j < k ==> xs[j].celsius < r.celsius
  }

  /** A list has one first maximum. */
  lemma FirstMaximumUnique(xs: seq<Reading>, r1: Reading, r2: Reading)
    requires FirstMaximum(xs, r1) && FirstMaximum(xs, r2)
    ensures r1 == r2
  {
    var k1 :| 0 <= k1 < |xs| && xs[k1] == r1 && forall j :: 0 <= j < k1 ==> xs[j].celsius < r1.celsius;
    var k2 :| 0 <= k2 < |xs| && xs[k2] == r2 && forall j :: 0 <= j < k2 ==> xs[j].celsius < r2.celsius;
    assert r1.celsius == r2.celsius;
    assert !(xs[k1].celsius < r2.celsius) && !(xs[k2].celsius < r1.celsius);
    assert k1 == k2;
  }

  /** Listing every reading twice, as a CS7500 with both cards does, leaves the maximum alone. */
  lemma MaxReadingDoubled(xs: seq<Reading>, name: string)
    ensures MaxReading(xs + xs, name) == MaxReading(xs, name)
  {
    if |xs| > 0 {
      var d := xs + xs;
      var a := MaxReading(xs, name).value;
      forall k | 0 <= k < |d| ensures d[k].celsius <= a.celsius {
        if k < |xs| { assert d[k] == xs[k]; } else { assert d[k] == xs[k - |xs|]; }
      }
      var w :| 0 <= w < |xs| && xs[w] == a && forall j :: 0 <= j < w ==> xs[j].celsius < a.celsius;
      assert d[w] == a;
      assert forall j :: 0 <= j < w ==> d[j] == xs[j];
      assert FirstMaximum(d, a);
      FirstMaximumUnique(d, a, MaxReading(d, name).value);
    }
  }

  /** Hence the peaks of a two-card scan are those of a one-card scan with the same CPU reading. */
  lemma MaximaOfDoubled(t: Temperatures)
    ensures Maxima(Temperatures(t.cpu, t.asic + t.asic, t.sib + t.sib)) == Maxima(t)
  {
    MaxReadingDoubled(t.asic, "asic_temps");
    MaxReadingDoubled(t.sib, "sib_temps");
  }
  /** On a CS7500 with both cards the peaks are those of every ASIC and SIB reading taken
      once, with the CPU reading of the later card when it has one. */
  lemma {:induction false} TwoCardPeaks(groups: seq<SensorGroup>, m1: nat, m2: nat)
    requires m1 < m2 < |groups|
    requires IsChassisKey(groups[m1].name) && IsChassisKey(groups[m2].name) && groups[m1].name != groups[m2].name
    requires ManagementOnlyAt(groups, m1, m2)
    ensures ScanUpTo(groups, |groups|).Ok?
    ensures Maxima(ScanUpTo(groups, |groups|).value)
         == Maxima(Temperatures(LastReading(groups[m2].sensors, CpuSensor, LastReading(groups[m1].sensors, CpuSensor, None)),
                                Collected(groups, "ASIC"), Collected(groups, "SIB")))
  {
    TwoCardTopology(groups, m1, m2);
    MaximaOfDoubled(Temperatures(LastReading(groups[m2].sensors, CpuSensor, LastReading(groups[m1].sensors, CpuSensor, None)),
                                 Collected(groups, "ASIC"), Collected(groups, "SIB")));
  }
}
