/** Nagios plugin states, their return codes, and the one line the probe prints before it
    exits, in plain mode and in CheckMK (local check) mode. The codes and the `text|perfdata`
    layout follow the Nagios Plugin Development Guidelines, sections "Plugin Return Codes"
    and "Performance data". */
module Nagios {
  import opened Failures
  import opened Text
  import opened Numerals

  datatype State = OK | WARNING | CRITICAL | UNKNOWN

  /** The state's name, as the keys of the EXIT table spell it. */
  function Name(s: State): string {
    match s
    case OK => "OK"
    case WARNING => "WARNING"
    case CRITICAL => "CRITICAL"
    case UNKNOWN => "UNKNOWN"
  }

  /** The state a return code stands for; codes above 3 stand for none. */
  function StateOfCode(code: int): (s: Option<State>)
    ensures s.Some? <==> 0 <= code <= 3
  {
    if code == 0 then Some(OK)
    else if code == 1 then Some(WARNING)
    else if code == 2 then Some(CRITICAL)
    else if code == 3 then Some(UNKNOWN)
    else None
  }

  /** The EXIT table: each state's return code, which identifies the state. */
  function ExitCode(s: State): (code: nat)
    ensures code <= 3
    ensures StateOfCode(code) == Some(s)
  {
    match s
    case OK => 0
    case WARNING => 1
    case CRITICAL => 2
    case UNKNOWN => 3
  }

  /** Python's slice `s[:n]`. */
  function Prefix(s: string, n: nat): (r: string)
    ensures |r| <= n && StartsWith(s, r)
    ensures |s| >= n ==> |r| == n
  {
    if |s| <= n then s else s[..n]
  }

  /** `State[:4]`, the abbreviation in a CheckMK line. */
  function Abbrev(s: State): string {
    Prefix(Name(s), 4)
  }

  /** The four abbreviations are distinct, so the abbreviation names the state. */
  lemma AbbrevIdentifies(s: State, t: State)
    ensures Abbrev(s) == Abbrev(t) <==> s == t
  {
    assert Abbrev(OK) == "OK";
    assert Abbrev(WARNING) == "WARN";
    assert Abbrev(CRITICAL) == "CRIT";
    assert Abbrev(UNKNOWN) == "UNKN";
  }

  /** What the probe prints and the status it exits with. */
  datatype Emission = Emission(line: string, exitCode: nat)

  /** The perf-data field of a CheckMK line: the entries joined by '|', or '-' when there are
      none. */
  function CheckMKPerf(perfData: seq<string>): string {
    if |perfData| == 0 then "-" else Join("|", perfData)
  }

  /** PrintAndExit: the printed line and the exit status `EXIT[State]`. `program` is the
      basename of the probe's own path. */
  function PrintAndExit(checkMK: bool, program: string, message: string, perfData: seq<string>, state: State): (e: Emission)
    ensures e.exitCode == ExitCode(state) && e.exitCode <= 3
    ensures !checkMK && |perfData| == 0 ==> e.line == message
    ensures !checkMK ==> StartsWith(e.line, message)
  {
    var code := ExitCode(state);
    if checkMK then
      Emission(IntToDecimal(code) + " " + program + " " + CheckMKPerf(perfData) + " " + Abbrev(state) + " - " + message, code)
    else if |perfData| > 0 then
      Emission(message + "|" + Join(" ", perfData), code)
    else
      Emission(message, code)
  }

  /** In plain mode a monitoring server splitting the line at '|' gets the message back, and
      the perf data joined by spaces when there is any. */
  lemma PlainLineParts(program: string, message: string, perfData: seq<string>, state: State)
    requires '|' !in message
    requires forall k :: 0 <= k < |perfData| ==> '|' !in perfData[k]
    ensures Split(PrintAndExit(false, program, message, perfData, state).line, '|')
         == if |perfData| == 0 then [message] else [message, Join(" ", perfData)]
  {
    if |perfData| == 0 {
      SplitWithoutSeparator(message, '|');
    } else {
      var perf := Join(" ", perfData);
      JoinAvoids(" ", perfData, '|');
      SplitAfter(message, perf, '|');
      SplitWithoutSeparator(perf, '|');
    }
  }

  /** In CheckMK mode the first four space-separated fields are the return code, the program
      name, the perf data and the abbreviated state, the fifth is '-', and the message
      follows: the first field reads back as the exit status, and the perf field splits at
      '|' back into the entries. */
  lemma CheckMKLineFields(program: string, message: string, perfData: seq<string>, state: State)
    requires ' ' !in program
    requires forall k :: 0 <= k < |perfData| ==> ' ' !in perfData[k] && '|' !in perfData[k]
    ensures var fields := Split(PrintAndExit(true, program, message, perfData, state).line, ' ');
      && |fields| >= 5
      && fields[..5] == [IntToDecimal(ExitCode(state)), program, CheckMKPerf(perfData), Abbrev(state), "-"]
      && fields[5..] == Split(message, ' ')
      && ParseInt(fields[0]) == Ok(ExitCode(state) as int)
    ensures |perfData| > 0 ==> Split(CheckMKPerf(perfData), '|') == perfData
  {
    var code := IntToDecimal(ExitCode(state));
    var perf := CheckMKPerf(perfData);
    var abbrev := Abbrev(state);
    DecimalHasNoSpace(ExitCode(state));
    assert ' ' !in code by {
      assert forall i :: 0 <= i < |code| ==> !IsSpace(code[i]);
    }
    if |perfData| > 0 {
      JoinAvoids("|", perfData, ' ');
      SplitJoin(perfData, '|');
    }
    assert ' ' !in abbrev by {
      assert Abbrev(OK) == "OK";
      assert Abbrev(WARNING) == "WARN";
      assert Abbrev(CRITICAL) == "CRIT";
      assert Abbrev(UNKNOWN) == "UNKN";
    }
    SplitFields(code, program, perf, abbrev, message);
    ParseIntOfDecimal(ExitCode(state));
  }

  /** Splitting at spaces a line of four space-free fields, a dash and a message. */
  lemma SplitFields(a: string, b: string, c: string, d: string, m: string)
    requires ' ' !in a && ' ' !in b && ' ' !in c && ' ' !in d
    ensures Split(a + " " + b + " " + c + " " + d + " - " + m, ' ') == [a, b, c, d, "-"] + Split(m, ' ')
  {
    var r4 := "-" + [' '] + m;
    var r3 := d + [' '] + r4;
    var r2 := c + [' '] + r3;
    var r1 := b + [' '] + r2;
    assert a + " " + b + " " + c + " " + d + " - " + m == a + [' '] + r1;
    SplitAfter("-", m, ' ');
    SplitAfter(d, r4, ' ');
    SplitAfter(c, r3, ' ');
    SplitAfter(b, r2, ' ');
    SplitAfter(a, r1, ' ');
  }

  /** Python's `name in status`, where `name` is WARNING or CRITICAL and `status` a state's
      name, holds only for equal states, so the probe's substring tests on its states are
      equality tests. */
  lemma NameContainsOnlyItself(s: State, t: State)
    requires t == WARNING || t == CRITICAL
    ensures Contains(Name(s), Name(t)) <==> s == t
  {
    if s == t {
      assert StartsWith(Name(s), Name(t));
    } else {
      NameNotContained(s, t);
    }
  }

  lemma NameNotContained(s: State, t: State)
    requires t == WARNING || t == CRITICAL
    requires s != t
    ensures !Contains(Name(s), Name(t))
  {
    if Contains(Name(s), Name(t)) {
      ContainedOccurs(Name(s), Name(t));
      PatternNeedsItsCharacters(Name(s), Name(t), 'W');
      PatternNeedsItsCharacters(Name(s), Name(t), 'A');
      PatternNeedsItsCharacters(Name(s), Name(t), 'C');
      PatternNeedsItsCharacters(Name(s), Name(t), 'L');
    }
  }
}
