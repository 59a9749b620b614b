/** The Python string operations the probe relies on: `p in s`, `str.replace(p, '')`,
    `str.split(c)`, `sep.join(parts)`, `str.strip()` and `re.split(r'\s*,\s*', s)`. */
module Text {

  /** Whitespace as Python 3's `str.strip()` and the regular-expression class `\s` on str
      patterns see it (the characters for which `str.isspace()` holds): tab to carriage
      return, the four ASCII separators 0x1C-0x1F, space, NEL, no-break space, and the Unicode
      space separators, line separator and paragraph separator. */
  predicate IsSpace(c: char) {
    c == ' ' || ('\t' <= c <= '\r') || ('\U{1c}' <= c <= '\U{1f}') || c == '\U{85}' || c == '\U{a0}'
    || c == '\U{1680}' || ('\U{2000}' <= c <= '\U{200a}') || c == '\U{2028}' || c == '\U{2029}'
    || c == '\U{202f}' || c == '\U{205f}' || c == '\U{3000}'
  }

  predicate StartsWith(s: string, p: string) {
    |p| <= |s| && s[..|p|] == p
  }

  /** p occurs in s starting at index i. */
  predicate OccursAt(s: string, p: string, i: int) {
    0 <= i && i + |p| <= |s| && s[i..i + |p|] == p
  }

  /** Python's `p in s` on two strings. */
  predicate Contains(s: string, p: string)
    decreases |s|
  {
    StartsWith(s, p) || (|s| > 0 && Contains(s[1..], p))
  }

  lemma {:induction false} OccurrenceIsContained(s: string, p: string, i: int)
    requires OccursAt(s, p, i)
    ensures Contains(s, p)
    decreases i
  {
    if i > 0 {
      assert s[1..][i - 1..i - 1 + |p|] == s[i..i + |p|];
      OccurrenceIsContained(s[1..], p, i - 1);
    }
  }

  lemma {:induction false} ContainedOccurs(s: string, p: string)
    requires Contains(s, p)
    ensures exists i :: OccursAt(s, p, i)
    decreases |s|
  {
    if StartsWith(s, p) {
      assert OccursAt(s, p, 0);
    } else {
      ContainedOccurs(s[1..], p);
      var i :| OccursAt(s[1..], p, i);
      assert s[i + 1..i + 1 + |p|] == s[1..][i..i + |p|];
      assert OccursAt(s, p, i + 1);
    }
  }

  lemma ContainsIffOccurs(s: string, p: string)
    ensures Contains(s, p) <==> exists i :: OccursAt(s, p, i)
  {
    if Contains(s, p) {
      ContainedOccurs(s, p);
    }
    forall i | OccursAt(s, p, i) ensures Contains(s, p) {
      OccurrenceIsContained(s, p, i);
    }
  }

  /** Every character of a pattern that occurs in s is a character of s. */
  lemma PatternNeedsItsCharacters(s: string, p: string, c: char)
    ensures Contains(s, p) && c in p ==> c in s
  {
    if Contains(s, p) && c in p {
      ContainedOccurs(s, p);
      var i :| OccursAt(s, p, i);
      var k :| 0 <= k < |p| && p[k] == c;
      assert s[i..i + |p|][k] == s[i + k];
    }
  }

  /** Text that contains a pattern contains every prefix of it. */
  lemma ContainsPatternPrefix(s: string, p: string, q: string)
    ensures Contains(s, p) && StartsWith(p, q) ==> Contains(s, q)
  {
    if Contains(s, p) && StartsWith(p, q) {
      ContainedOccurs(s, p);
      var i :| OccursAt(s, p, i);
      assert s[i..i + |q|] == s[i..i + |p|][..|q|];
      OccurrenceIsContained(s, q, i);
    }
  }

  /** Text around a piece that contains a pattern contains it too. */
  lemma ContainsWithin(x: string, a: string, y: string, p: string)
    requires Contains(a, p)
    ensures Contains(x + a + y, p)
  {
    ContainedOccurs(a, p);
    var i :| OccursAt(a, p, i);
    var s := x + a + y;
    assert s[|x| + i..|x| + i + |p|] == a[i..i + |p|];
    OccurrenceIsContained(s, p, |x| + i);
  }

  /** Python's `s.replace(p, '')`: the non-overlapping occurrences of p found scanning from
      the left are dropped. */
  function RemoveAll(s: string, p: string): (r: string)
    requires |p| > 0
    ensures |r| <= |s|
    decreases |s|
  {
    if |s| == 0 then ""
    else if StartsWith(s, p) then RemoveAll(s[|p|..], p)
    else [s[0]] + RemoveAll(s[1..], p)
  }

  /** Removing a single character removes every copy of it. */
  lemma {:induction false} RemoveCharLeavesNone(s: string, c: char)
    ensures c !in RemoveAll(s, [c])
    decreases |s|
  {
    if |s| > 0 {
      RemoveCharLeavesNone(s[|[c]|..], c);
      RemoveCharLeavesNone(s[1..], c);
      if !StartsWith(s, [c]) {
        assert s[..1] == [s[0]];
      }
    }
  }

  /** Text that does not contain the pattern is left as it is. */
  lemma {:induction false} RemoveAllAbsent(s: string, p: string)
    requires |p| > 0 && !Contains(s, p)
    ensures RemoveAll(s, p) == s
    decreases |s|
  {
    if |s| > 0 {
      RemoveAllAbsent(s[1..], p);
      assert [s[0]] + s[1..] == s;
    }
  }

  /** A prefix that never holds the pattern's first character survives untouched. */
  lemma {:induction false} RemoveAllKeepsPrefix(a: string, b: string, p: string)
    requires |p| > 0 && p[0] !in a
    ensures RemoveAll(a + b, p) == a + RemoveAll(b, p)
    decreases |a|
  {
    if |a| > 0 {
      assert (a + b)[0] == a[0];
      assert !StartsWith(a + b, p);
      assert (a + b)[1..] == a[1..] + b;
      RemoveAllKeepsPrefix(a[1..], b, p);
      assert [a[0]] + a[1..] == a;
    } else {
      assert a + b == b;
    }
  }

  /** Removing a single character works piecewise on a concatenation. */
  lemma {:induction false} RemoveCharOfConcat(a: string, b: string, c: char)
    ensures RemoveAll(a + b, [c]) == RemoveAll(a, [c]) + RemoveAll(b, [c])
    decreases |a|
  {
    if |a| > 0 {
      assert (a + b)[0] == a[0];
      assert (a + b)[1..] == a[1..] + b;
      RemoveCharOfConcat(a[1..], b, c);
      assert StartsWith(a + b, [c]) <==> StartsWith(a, [c]);
    } else {
      assert a + b == b;
    }
  }

  /** Removing a character from text made only of that character leaves nothing. */
  lemma {:induction false} RemoveCharOfCopies(s: string, c: char)
    requires forall i :: 0 <= i < |s| ==> s[i] == c
    ensures RemoveAll(s, [c]) == ""
    decreases |s|
  {
    if |s| > 0 {
      assert StartsWith(s, [c]);
      RemoveCharOfCopies(s[1..], c);
    }
  }

  /** An occurrence of the pattern at the front is dropped. */
  lemma RemovePatternInFront(p: string, b: string)
    requires |p| > 0
    ensures RemoveAll(p + b, p) == RemoveAll(b, p)
  {
    assert StartsWith(p + b, p);
    assert (p + b)[|p|..] == b;
  }

  lemma RemoveAllOfPattern(p: string)
    requires |p| > 0
    ensures RemoveAll(p, p) == ""
  {
    assert StartsWith(p, p);
    assert p[|p|..] == "";
  }

  /** Python's `s.split(sep)` for a one-character separator: the pieces between the
      separators, from left to right, and always at least one. */
  function Split(s: string, sep: char): (parts: seq<string>)
    ensures |parts| >= 1
    ensures forall k :: 0 <= k < |parts| ==> sep !in parts[k]
    decreases |s|
  {
    if |s| == 0 then [""]
    else
      var rest := Split(s[1..], sep);
      if s[0] == sep then [""] + rest
      else [[s[0]] + rest[0]] + rest[1..]
  }

  /** Python's `sep.join(parts)`. */
  function Join(sep: string, parts: seq<string>): string
    decreases |parts|
  {
    if |parts| == 0 then ""
    else if |parts| == 1 then parts[0]
    else parts[0] + sep + Join(sep, parts[1..])
  }

  /** Joining the pieces of a split with the separator gives back the original text. */
  lemma {:induction false} JoinSplit(s: string, sep: char)
    ensures Join([sep], Split(s, sep)) == s
    decreases |s|
  {
    if |s| > 0 {
      var rest := Split(s[1..], sep);
      JoinSplit(s[1..], sep);
      if s[0] == sep {
        assert Join([sep], [""] + rest) == "" + [sep] + Join([sep], rest);
      } else if |rest| == 1 {
        assert Split(s, sep) == [[s[0]] + rest[0]];
      } else {
        var parts := Split(s, sep);
        assert parts[1..] == rest[1..];
        assert Join([sep], rest) == rest[0] + [sep] + Join([sep], rest[1..]);
      }
    }
  }

  /** Text without the separator is one piece. */
  lemma {:induction false} SplitWithoutSeparator(s: string, sep: char)
    requires sep !in s
    ensures Split(s, sep) == [s]
    decreases |s|
  {
    if |s| > 0 {
      SplitWithoutSeparator(s[1..], sep);
      assert [s[0]] + s[1..] == s;
    }
  }

  /** A separator after a separator-free prefix ends the first piece there. */
  lemma {:induction false} SplitAfter(a: string, b: string, sep: char)
    requires sep !in a
    ensures Split(a + [sep] + b, sep) == [a] + Split(b, sep)
    decreases |a|
  {
    if |a| == 0 {
      assert a + [sep] + b == [sep] + b;
      assert ([sep] + b)[1..] == b;
    } else {
      var s := a + [sep] + b;
      assert s[0] == a[0];
      assert s[1..] == a[1..] + [sep] + b;
      SplitAfter(a[1..], b, sep);
      assert [a[0]] + a[1..] == a;
    }
  }

  /** Splitting a join of separator-free pieces gives back the pieces. */
  lemma {:induction false} SplitJoin(parts: seq<string>, sep: char)
    requires |parts| >= 1
    requires forall k :: 0 <= k < |parts| ==> sep !in parts[k]
    ensures Split(Join([sep], parts), sep) == parts
    decreases |parts|
  {
    if |parts| == 1 {
      SplitWithoutSeparator(parts[0], sep);
    } else {
      SplitJoin(parts[1..], sep);
      SplitAfter(parts[0], Join([sep], parts[1..]), sep);
      assert [parts[0]] + parts[1..] == parts;
    }
  }

  /** A character that is in no piece and not in the separator is not in the join. */
  lemma {:induction false} JoinAvoids(sep: string, parts: seq<string>, c: char)
    requires c !in sep
    requires forall k :: 0 <= k < |parts| ==> c !in parts[k]
    ensures c !in Join(sep, parts)
    decreases |parts|
  {
    if |parts| > 1 {
      JoinAvoids(sep, parts[1..], c);
    }
  }

  /** Every piece of a join occurs in it. */
  lemma {:induction false} JoinContainsParts(sep: string, parts: seq<string>, k: nat)
    requires k < |parts|
    ensures Contains(Join(sep, parts), parts[k])
    decreases |parts|
  {
    var j := Join(sep, parts);
    ContainsIffOccurs(j, parts[k]);
    if |parts| == 1 {
      assert OccursAt(j, parts[k], 0);
    } else if k == 0 {
      assert j[..|parts[0]|] == parts[0];
      assert OccursAt(j, parts[k], 0);
    } else {
      var rest := Join(sep, parts[1..]);
      JoinContainsParts(sep, parts[1..], k - 1);
      ContainsIffOccurs(rest, parts[k]);
      var i :| OccursAt(rest, parts[k], i);
      var off := |parts[0]| + |sep|;
      assert j == (parts[0] + sep) + rest;
      assert j[off + i..off + i + |parts[k]|] == rest[i..i + |parts[k]|];
      assert OccursAt(j, parts[k], off + i);
    }
  }

  /** Python's `s.lstrip()`. */
  function TrimLeft(s: string): (r: string)
    ensures |r| <= |s| && r == s[|s| - |r|..]
    ensures r == [] || !IsSpace(r[0])
    ensures forall i :: 0 <= i < |s| - |r| ==> IsSpace(s[i])
    ensures forall c :: c in r ==> c in s
    decreases |s|
  {
    if |s| > 0 && IsSpace(s[0]) then TrimLeft(s[1..]) else s
  }

  /** Python's `s.rstrip()`. */
  function TrimRight(s: string): (r: string)
    ensures |r| <= |s| && r == s[..|r|]
    ensures r == [] || !IsSpace(r[|r| - 1])
    ensures forall i :: |r| <= i < |s| ==> IsSpace(s[i])
    ensures forall c :: c in r ==> c in s
    decreases |s|
  {
    if |s| > 0 && IsSpace(s[|s| - 1]) then TrimRight(s[..|s| - 1]) else s
  }

  /** Python's `s.strip()`. */
  function Strip(s: string): string {
    TrimRight(TrimLeft(s))
  }

  predicate NoSpace(s: string) {
    forall i :: 0 <= i < |s| ==> !IsSpace(s[i])
  }

  lemma StripWithoutSpace(s: string)
    requires NoSpace(s)
    ensures Strip(s) == s
  {
    var l := TrimLeft(s);
    assert l == s;
    var r := TrimRight(l);
  }

  /** `r` is the slice `raw[i..j]` left once the whitespace before i and from j on is dropped:
      only the side next to a comma loses any, and there all of it. */
  predicate Trimmed(raw: string, r: string, i: int, j: int, afterComma: bool, beforeComma: bool) {
    0 <= i <= j <= |raw| && r == raw[i..j]
    && (forall x :: 0 <= x < i ==> IsSpace(raw[x]))
    && (forall x :: j <= x < |raw| ==> IsSpace(raw[x]))
    && (afterComma ==> r == [] || !IsSpace(r[0])) && (!afterComma ==> i == 0)
    && (beforeComma ==> r == [] || !IsSpace(r[|r| - 1])) && (!beforeComma ==> j == |raw|)
  }

  ghost predicate TrimmedFrom(raw: string, r: string, afterComma: bool, beforeComma: bool) {
    exists i, j :: Trimmed(raw, r, i, j, afterComma, beforeComma)
  }

  /** One field of `re.split(r'\s*,\s*', s)`: the whitespace a separator match swallows is
      the whitespace right after the preceding comma and right before the following one. */
  function TrimField(raw: string, afterComma: bool, beforeComma: bool): (r: string)
    ensures TrimmedFrom(raw, r, afterComma, beforeComma)
    ensures forall c :: c in r ==> c in raw
  {
    var l := if afterComma then TrimLeft(raw) else raw;
    var r := if beforeComma then TrimRight(l) else l;
    var i := |raw| - |l|;
    assert raw[i..][..|r|] == raw[i..i + |r|];
    assert Trimmed(raw, r, i, i + |r|, afterComma, beforeComma);
    r
  }

  /** Python's `re.split(r'\s*,\s*', s)`: the text cut at every comma, with the whitespace
      that touches a comma dropped; whitespace at the two outer ends is kept. */
  function SplitList(s: string): (fields: seq<string>)
    ensures |fields| == |Split(s, ',')|
    ensures forall k :: 0 <= k < |fields| ==> TrimmedFrom(Split(s, ',')[k], fields[k], k > 0, k < |fields| - 1)
    ensures forall k :: 0 <= k < |fields| ==> ',' !in fields[k]
    ensures forall k :: 0 < k < |fields| ==> fields[k] == [] || !IsSpace(fields[k][0])
    ensures forall k :: 0 <= k < |fields| - 1 ==> fields[k] == [] || !IsSpace(fields[k][|fields[k]| - 1])
  {
    var raw := Split(s, ',');
    seq(|raw|, k requires 0 <= k < |raw| => TrimField(raw[k], k > 0, k < |raw| - 1))
  }

  /** Without whitespace, the regular-expression split is the plain split at commas. */
  lemma SplitListWithoutSpace(s: string)
    requires NoSpace(s)
    ensures SplitList(s) == Split(s, ',')
  {
    var raw := Split(s, ',');
    JoinSplit(s, ',');
    forall k | 0 <= k < |raw| ensures NoSpace(raw[k]) {
      PiecesOfJoin([','], raw, k);
    }
    forall k | 0 <= k < |raw| ensures TrimField(raw[k], k > 0, k < |raw| - 1) == raw[k] {
      var t := raw[k];
      var l := TrimLeft(t);
      var r := TrimRight(t);
    }
  }

  /** Three comma-separated values without whitespace split back into the three. */
  lemma SplitListOfThree(a: string, b: string, c: string)
    requires NoSpace(a) && NoSpace(b) && NoSpace(c)
    requires ',' !in a && ',' !in b && ',' !in c
    ensures SplitList(a + "," + b + "," + c) == [a, b, c]
  {
    var s := a + "," + b + "," + c;
    var tail := b + [','] + c;
    assert s == a + [','] + tail;
    forall i | 0 <= i < |s| ensures !IsSpace(s[i]) {
      if i < |a| {
        assert s[i] == a[i];
      } else if i == |a| {
      } else if i < |a| + 1 + |b| {
        assert s[i] == b[i - |a| - 1];
      } else if i == |a| + 1 + |b| {
      } else {
        assert s[i] == c[i - |a| - 2 - |b|];
      }
    }
    SplitWithoutSeparator(c, ',');
    SplitAfter(b, c, ',');
    SplitAfter(a, tail, ',');
    SplitListWithoutSpace(s);
  }

  /** Whitespace after a word is all that `rstrip` removes from it. */
  lemma {:induction false} TrimRightOfPadded(a: string, pad: string)
    requires NoSpace(a)
    requires forall i :: 0 <= i < |pad| ==> IsSpace(pad[i])
    ensures TrimRight(a + pad) == a
    decreases |pad|
  {
    if |pad| == 0 {
      assert a + pad == a;
    } else {
      var shorter := pad[..|pad| - 1];
      assert (a + pad)[..|a + pad| - 1] == a + shorter;
      TrimRightOfPadded(a, shorter);
    }
  }

  /** Whitespace before a word is all that `lstrip` removes from it. */
  lemma {:induction false} TrimLeftOfPadded(pad: string, b: string)
    requires NoSpace(b)
    requires forall i :: 0 <= i < |pad| ==> IsSpace(pad[i])
    ensures TrimLeft(pad + b) == b
    decreases |pad|
  {
    if |pad| == 0 {
      assert pad + b == b;
    } else {
      assert (pad + b)[1..] == pad[1..] + b;
      TrimLeftOfPadded(pad[1..], b);
    }
  }

  /** The whitespace on both sides of the comma goes with the separator: `"4 , 3.5"` gives
      `["4", "3.5"]`. */
  lemma SplitListOfPadded(a: string, left: string, right: string, b: string)
    requires NoSpace(a) && NoSpace(b) && ',' !in a && ',' !in b
    requires forall i :: 0 <= i < |left| ==> IsSpace(left[i])
    requires forall i :: 0 <= i < |right| ==> IsSpace(right[i])
    ensures SplitList(a + left + "," + right + b) == [a, b]
  {
    var head := a + left;
    var tail := right + b;
    assert a + left + "," + right + b == head + [','] + tail;
    assert ',' !in head by {
      forall i | 0 <= i < |head| ensures head[i] != ',' {
        if i < |a| {
          assert head[i] == a[i];
        } else {
          assert head[i] == left[i - |a|];
        }
      }
    }
    assert ',' !in tail by {
      forall i | 0 <= i < |tail| ensures tail[i] != ',' {
        if i < |right| {
          assert tail[i] == right[i];
        } else {
          assert tail[i] == b[i - |right|];
        }
      }
    }
    SplitWithoutSeparator(tail, ',');
    SplitAfter(head, tail, ',');
    TrimRightOfPadded(a, left);
    TrimLeftOfPadded(right, b);
  }

  /** Every character of a piece is a character of the join. */
  lemma {:induction false} PiecesOfJoin(sep: string, parts: seq<string>, k: nat)
    requires k < |parts|
    ensures forall i :: 0 <= i < |parts[k]| ==> parts[k][i] in Join(sep, parts)
    decreases |parts|
  {
    if |parts| > 1 {
      if k > 0 {
        PiecesOfJoin(sep, parts[1..], k - 1);
      }
      var j := Join(sep, parts);
      assert j == parts[0] + (sep + Join(sep, parts[1..]));
    }
  }
}
