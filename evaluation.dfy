/** The four per-dimension verdicts (memory, load, temperature, modules) and the fold that
    turns them into the probe's state. */
module Evaluation {
  import opened Failures
  import opened Text
  import opened Numerals
  import opened Nagios

  // ---------------------------------------------------------------------------------------
  // Memory
  // ---------------------------------------------------------------------------------------

  /** `(100 * Used) / Total` as exact division; a ZeroDivisionError when Total is 0. */
  function PercentUsed(used: int, total: int): (r: Result<real>)
    ensures r.Err? <==> total == 0
    ensures r.Err? ==> r.fault == DivisionByZero
    ensures r.Ok? ==> r.value * total as real == 100.0 * used as real
  {
    if total == 0 then Err(DivisionByZero) else Ok((100 * used) as real / total as real)
  }

  /** With a positive total, `PercentUsed >= t` compares without division. */
  lemma PercentThreshold(used: int, total: int, t: int)
    requires total > 0
    ensures PercentUsed(used, total).value >= t as real <==> 100 * used >= t * total
  {
    var p := PercentUsed(used, total).value;
    assert p * total as real == (100 * used) as real;
    if p >= t as real {
      assert p * total as real >= t as real * total as real;
    } else {
      assert p * total as real < t as real * total as real;
    }
  }

  /** Lines 232-237: CRITICAL from the critical percentage up, WARNING from the warning
      percentage up, OK below both; both bounds inclusive. */
  function MemoryVerdict(percent: real, warning: int, critical: int): (s: State)
    ensures s == CRITICAL <==> percent >= critical as real
    ensures s == WARNING <==> percent < critical as real && percent >= warning as real
    ensures s == OK <==> percent < critical as real && percent < warning as real
  {
    if percent >= critical as real then CRITICAL
    else if percent >= warning as real then WARNING
    else OK
  }

  /** More memory in use never gives a milder memory verdict. */
  lemma MemoryVerdictMonotone(used: int, used': int, total: int, warning: int, critical: int)
    requires total > 0 && used <= used'
    ensures ExitCode(MemoryVerdict(PercentUsed(used, total).value, warning, critical))
         <= ExitCode(MemoryVerdict(PercentUsed(used', total).value, warning, critical))
  {
    var p := PercentUsed(used, total).value;
    var p' := PercentUsed(used', total).value;
    assert p <= p' by {
      assert p * total as real <= p' * total as real;
    }
  }

  // ---------------------------------------------------------------------------------------
  // Load and temperature
  // ---------------------------------------------------------------------------------------

  /** A value the probe hands to `float()`: text (a load average) or a number from the JSON
      report (a temperature). */
  datatype Operand = Literal(text: string) | Number(value: real)

  /** Python's `float(x)`: a number is itself, text is parsed. */
  function FloatOf(x: Operand): (r: Result<real>)
    ensures x.Number? ==> r == Ok(x.value)
    ensures x.Literal? ==> r == ParseFloat(x.text)
  {
    match x
    case Number(v) => Ok(v)
    case Literal(s) => ParseFloat(s)
  }

  /** `float()` of each list entry. The conversions are pure, so the model computes them all
      up front; the evaluation below consults a conversion, and so raises its error, only
      where Python would call `float()`. */
  function Floats(ss: seq<string>): (r: seq<Result<real>>)
    ensures |r| == |ss| && forall k :: 0 <= k < |ss| ==> r[k] == ParseFloat(ss[k])
  {
    seq(|ss|, k requires 0 <= k < |ss| => ParseFloat(ss[k]))
  }

  /** `float(str(i)) == i`: a figure written as an integer converts back to that number. */
  lemma FloatOfDecimal(i: int)
    ensures FloatOf(Literal(IntToDecimal(i))) == Ok(i as real)
  {
    ParseFloatOfDecimal(i);
  }

  /** A threshold option of three integers, such as `"4,3,2"`, converts entry by entry back
      to those integers. */
  lemma FloatsOfDecimalList(a: int, b: int, c: int)
    ensures Floats(SplitList(IntToDecimal(a) + "," + IntToDecimal(b) + "," + IntToDecimal(c)))
         == [Ok(a as real), Ok(b as real), Ok(c as real)]
  {
    DecimalHasNoSpace(a);
    DecimalHasNoSpace(b);
    DecimalHasNoSpace(c);
    DecimalHasNoComma(a);
    DecimalHasNoComma(b);
    DecimalHasNoComma(c);
    SplitListOfThree(IntToDecimal(a), IntToDecimal(b), IntToDecimal(c));
    FloatOfDecimal(a);
    FloatOfDecimal(b);
    FloatOfDecimal(c);
  }

  /** `float(x) >= float(ts[k])` in Python's evaluation order, given the conversions: the
      reading is converted first, then the list is indexed, then the threshold is converted. */
  function AtOrAbove(x: Result<real>, ts: seq<Result<real>>, k: nat): Result<bool> {
    var v :- x;
    if k >= |ts| then Err(IndexOutOfRange("threshold list"))
    else
      var t :- ts[k];
      Ok(v >= t)
  }

  /** `float(xs[0]) >= float(ts[0]) or float(xs[1]) >= float(ts[1]) or ...` from position k
      on: the first comparison that holds ends the chain, and so does the first that raises. */
  function AnyFrom(xs: seq<Result<real>>, ts: seq<Result<real>>, k: nat): Result<bool>
    decreases |xs| - k
  {
    if k >= |xs| then Ok(false)
    else
      var b :- AtOrAbove(xs[k], ts, k);
      if b then Ok(true) else AnyFrom(xs, ts, k + 1)
  }

  /** Every reading and every threshold it is compared with converts, and each reading has
      a threshold. */
  predicate Comparable(xs: seq<Result<real>>, ts: seq<Result<real>>) {
    |xs| <= |ts| && forall k :: 0 <= k < |xs| ==> xs[k].Ok? && ts[k].Ok?
  }

  /** Some reading from position k on is at or above its threshold. */
  predicate SomeAtOrAbove(xs: seq<Result<real>>, ts: seq<Result<real>>, k: nat)
    requires Comparable(xs, ts)
  {
    exists j :: k <= j < |xs| && xs[j].value >= ts[j].value
  }

  /** When everything converts, the chain is the disjunction: true iff some reading is at or
      above its threshold (OR, not AND). */
  lemma {:induction false} AnyFromIsDisjunction(xs: seq<Result<real>>, ts: seq<Result<real>>, k: nat)
    requires Comparable(xs, ts)
    ensures AnyFrom(xs, ts, k) == Ok(SomeAtOrAbove(xs, ts, k))
    decreases |xs| - k
  {
    if k < |xs| {
      AnyFromIsDisjunction(xs, ts, k + 1);
      if xs[k].value >= ts[k].value {
        assert SomeAtOrAbove(xs, ts, k);
      } else {
        assert SomeAtOrAbove(xs, ts, k) == SomeAtOrAbove(xs, ts, k + 1);
      }
    }
  }

  /** Short circuit: once a comparison holds, nothing after it is converted or indexed, so a
      short threshold list or malformed later text cannot raise. */
  lemma {:induction false} AnyFromStopsAtFirstHit(xs: seq<Result<real>>, ts: seq<Result<real>>, k: nat, hit: nat)
    requires k <= hit < |xs|
    requires forall j :: k <= j < hit ==> AtOrAbove(xs[j], ts, j) == Ok(false)
    requires AtOrAbove(xs[hit], ts, hit) == Ok(true)
    ensures AnyFrom(xs, ts, k) == Ok(true)
    decreases hit - k
  {
    if k < hit {
      AnyFromStopsAtFirstHit(xs, ts, k + 1, hit);
    }
  }

  /** The first comparison that raises, before any that holds, is the chain's error. */
  lemma {:induction false} AnyFromRaisesFirstError(xs: seq<Result<real>>, ts: seq<Result<real>>, k: nat, bad: nat)
    requires k <= bad < |xs|
    requires forall j :: k <= j < bad ==> AtOrAbove(xs[j], ts, j) == Ok(false)
    requires AtOrAbove(xs[bad], ts, bad).Err?
    ensures AnyFrom(xs, ts, k) == Err(AtOrAbove(xs[bad], ts, bad).fault)
    decreases bad - k
  {
    if k < bad {
      AnyFromRaisesFirstError(xs, ts, k + 1, bad);
    }
  }

  /** Lines 240-245 and 248-253: CRITICAL when some reading reaches its critical threshold,
      else WARNING when some reading reaches its warning threshold, else OK; conversion and
      index errors stop the evaluation where Python would raise. */
  function ThreeWayVerdict(xs: seq<Result<real>>, warnings: seq<Result<real>>, criticals: seq<Result<real>>): (r: Result<State>)
    ensures r.Ok? ==> r.value != UNKNOWN
  {
    var critical :- AnyFrom(xs, criticals, 0);
    if critical then Ok(CRITICAL)
    else
      var warning :- AnyFrom(xs, warnings, 0);
      if warning then Ok(WARNING) else Ok(OK)
  }

  /** The verdict rule stated on values. */
  lemma ThreeWayRule(xs: seq<Result<real>>, warnings: seq<Result<real>>, criticals: seq<Result<real>>)
    requires Comparable(xs, warnings) && Comparable(xs, criticals)
    ensures ThreeWayVerdict(xs, warnings, criticals)
         == Ok(if SomeAtOrAbove(xs, criticals, 0) then CRITICAL
               else if SomeAtOrAbove(xs, warnings, 0) then WARNING
               else OK)
  {
    AnyFromIsDisjunction(xs, criticals, 0);
    AnyFromIsDisjunction(xs, warnings, 0);
  }

  /** A reading at or above its critical threshold makes the verdict CRITICAL whatever the
      warning list holds. */
  lemma CriticalIgnoresWarnings(xs: seq<Result<real>>, warnings: seq<Result<real>>, warnings': seq<Result<real>>, criticals: seq<Result<real>>)
    requires AnyFrom(xs, criticals, 0) == Ok(true)
    ensures ThreeWayVerdict(xs, warnings, criticals) == ThreeWayVerdict(xs, warnings', criticals) == Ok(CRITICAL)
  {
  }

  // ---------------------------------------------------------------------------------------
  // Modules
  // ---------------------------------------------------------------------------------------

  /** The message opening line for the module verdict. */
  function ModuleMessage(failed: seq<string>): string {
    if |failed| > 0 then "[FAILED] Found faulty Module(s): [" + Join(", ", failed) + "]\n"
    else "[PASSED] All Module(s) OK\n"
  }

  /** Lines 255-266. The branch on missing modules is kept as written: a length is never
      negative, so it never runs, and missing modules change neither state nor message. */
  method ModuleCheck(failed: seq<string>, missing: seq<string>) returns (message: string, state: State)
    ensures state == CRITICAL <==> |failed| > 0
    ensures state == OK <==> |failed| == 0
    ensures message == ModuleMessage(failed)
  {
    message := "[PASSED] All Module(s) OK\n";
    state := OK;
    if |failed| > 0 {
      message := "[FAILED] Found faulty Module(s): [" + Join(", ", failed) + "]\n";
      state := CRITICAL;
    }
    if |missing| < 0 {
      if state == CRITICAL {
        message := message + "[FAILED] - Found missing Module(s) - [" + Join(", ", missing) + "]\n";
      } else {
        message := "[FAILED] - Found missing Module(s): [" + Join(", ", missing) + "]\n";
      }
      state := CRITICAL;
    }
  }

  /** The module message names every failed module, and passes only when none failed. */
  lemma {:induction false} ModuleMessageNamesFailed(failed: seq<string>, k: nat)
    requires k < |failed|
    ensures Contains(ModuleMessage(failed), failed[k])
    ensures StartsWith(ModuleMessage(failed), "[FAILED]")
  {
    var head := "[FAILED] Found faulty Module(s): [";
    var list := Join(", ", failed);
    JoinContainsParts(", ", failed, k);
    ContainsWithin(head, list, "]\n", failed[k]);
    var m := ModuleMessage(failed);
    assert m == head + list + "]\n";
    assert m[..8] == head[..8];
  }

  // ---------------------------------------------------------------------------------------
  // Aggregation
  // ---------------------------------------------------------------------------------------

  /** The overall state: CRITICAL if any state is CRITICAL, else WARNING if any is WARNING,
      else OK. */
  function Worst(states: seq<State>): (s: State)
    ensures s != UNKNOWN
  {
    if CRITICAL in states then CRITICAL else if WARNING in states then WARNING else OK
  }

  /** Lines 268-274: walks the states, sets WARNING on a state whose name contains WARNING and
      CRITICAL (then stops) on one whose name contains CRITICAL. */
  method Aggregate(states: seq<State>) returns (s: State)
    ensures s == Worst(states)
  {
    s := OK;
    var i := 0;
    while i < |states|
      invariant 0 <= i <= |states|
      invariant CRITICAL !in states[..i]
      invariant s == (if WARNING in states[..i] then WARNING else OK)
    {
      var status := states[i];
      NameContainsOnlyItself(status, WARNING);
      NameContainsOnlyItself(status, CRITICAL);
      if Contains(Name(status), "WARNING") {
        s := WARNING;
      }
      if Contains(Name(status), "CRITICAL") {
        s := CRITICAL;
        assert states[i] == CRITICAL;
        return;
      }
      assert states[..i + 1] == states[..i] + [status];
      i := i + 1;
    }
    assert states[..i] == states;
  }

  /** The order of the states does not matter. */
  lemma WorstIgnoresOrder(a: seq<State>, b: seq<State>)
    requires multiset(a) == multiset(b)
    ensures Worst(a) == Worst(b)
  {
    assert CRITICAL in a <==> CRITICAL in multiset(a);
    assert CRITICAL in b <==> CRITICAL in multiset(b);
    assert WARNING in a <==> WARNING in multiset(a);
    assert WARNING in b <==> WARNING in multiset(b);
  }

  /** Without UNKNOWN among them, the overall state is the most severe of the states. */
  lemma WorstIsMostSevere(states: seq<State>)
    requires UNKNOWN !in states
    ensures forall k :: 0 <= k < |states| ==> ExitCode(states[k]) <= ExitCode(Worst(states))
    ensures |states| > 0 ==> Worst(states) in states
  {
    if |states| > 0 && Worst(states) == OK {
      assert states[0] == OK;
    }
  }
}
