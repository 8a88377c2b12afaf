/** JavaScript string operations used on extracted page text: the `\s`
    character class, `replace(/\s\s+/g, ' ')`, `trim()` and `slice(0, n)`. */
module Text {
  import opened Types

  /** JavaScript's `\s` (and the set `trim()` strips): WhiteSpace and
      LineTerminator code points. */
  predicate IsSpace(c: char) {
    var n := c as int;
    n == 0x09 || n == 0x0A || n == 0x0B || n == 0x0C || n == 0x0D || n == 0x20
    || n == 0xA0 || n == 0x1680 || (0x2000 <= n <= 0x200A)
    || n == 0x2028 || n == 0x2029 || n == 0x202F || n == 0x205F || n == 0x3000 || n == 0xFEFF
  }

  predicate AllSpaces(s: string) {
    forall k :: 0 <= k < |s| ==> IsSpace(s[k])
  }

  /** No two adjacent whitespace characters. */
  predicate NoDoubleSpace(s: string) {
    forall k :: 0 <= k < |s| - 1 ==> !(IsSpace(s[k]) && IsSpace(s[k + 1]))
  }

  /** The non-whitespace characters of `s`, in order. */
  function NonSpace(s: string): string {
    if s == [] then [] else (if IsSpace(s[0]) then [] else [s[0]]) + NonSpace(s[1..])
  }

  lemma {:induction false} NonSpaceConcat(a: string, b: string)
    ensures NonSpace(a + b) == NonSpace(a) + NonSpace(b)
  {
    if a == [] {
      assert a + b == b;
    } else {
      var h := if IsSpace(a[0]) then [] else [a[0]];
      assert (a + b)[0] == a[0];
      assert (a + b)[1..] == a[1..] + b;
      NonSpaceConcat(a[1..], b);
      calc {
        NonSpace(a + b);
        h + NonSpace(a[1..] + b);
        h + (NonSpace(a[1..]) + NonSpace(b));
        (h + NonSpace(a[1..])) + NonSpace(b);
        NonSpace(a) + NonSpace(b);
      }
    }
  }

  lemma {:induction false} NonSpaceOfSpaces(s: string)
    requires AllSpaces(s)
    ensures NonSpace(s) == []
  {
    if s != [] {
      NonSpaceOfSpaces(s[1..]);
    }
  }

  /** Length of the run of whitespace starting at `k`. */
  function SpaceRun(s: string, k: nat): (n: nat)
    requires k <= |s|
    decreases |s| - k
    ensures k + n <= |s|
    ensures forall j :: k <= j < k + n ==> IsSpace(s[j])
    ensures k + n == |s| || !IsSpace(s[k + n])
  {
    if k < |s| && IsSpace(s[k]) then 1 + SpaceRun(s, k + 1) else 0
  }

  /** `s.replace(/\s\s+/g, ' ')`: the scan tries the pattern at each position
      from the left; where two whitespace characters start, it consumes the
      whole run (greedy `+`) and emits one space, otherwise it copies one
      character and moves on. */
  function Collapse(s: string): (r: string)
    decreases |s|
    ensures |r| <= |s|
    ensures s != [] ==> r != [] && (IsSpace(r[0]) <==> IsSpace(s[0]))
    ensures s != [] ==> (IsSpace(r[|r| - 1]) <==> IsSpace(s[|s| - 1]))
    ensures NoDoubleSpace(r)
  {
    if s == [] then []
    else if |s| >= 2 && IsSpace(s[0]) && IsSpace(s[1]) then
      var n := SpaceRun(s, 0);
      [' '] + Collapse(s[n..])
    else
      [s[0]] + Collapse(s[1..])
  }

  /** A whitespace run of length `m` starts at `k`: the run is exactly that long. */
  lemma SpaceRunIs(s: string, k: nat, m: nat)
    requires k + m <= |s|
    requires forall j :: k <= j < k + m ==> IsSpace(s[j])
    requires k + m == |s| || !IsSpace(s[k + m])
    ensures SpaceRun(s, k) == m
  {
  }

  /** No whitespace run crosses the junction of `a` and `b`. */
  predicate Junction(a: string, b: string) {
    a == [] || b == [] || !IsSpace(a[|a| - 1]) || !IsSpace(b[0])
  }

  /** A whitespace run at the start of `a + b` that does not cross the
      junction is the run at the start of `a`. */
  lemma RunSplit(a: string, b: string)
    requires a != [] && b != [] && Junction(a, b)
    requires |a + b| >= 2 && IsSpace((a + b)[0]) && IsSpace((a + b)[1])
    ensures var n := SpaceRun(a + b, 0);
            && 2 <= n <= |a| && SpaceRun(a, 0) == n && (a + b)[n..] == a[n..] + b
            && IsSpace(a[0]) && IsSpace(a[1])
  {
    var s := a + b;
    var n := SpaceRun(s, 0);
    assert !IsSpace(s[|a| - 1]) || !IsSpace(s[|a|]);
    assert n <= |a|;
    assert |a| >= 2 by {
      if |a| == 1 {
        assert IsSpace(s[0]) && IsSpace(s[1]);
      }
    }
    assert forall j :: 0 <= j <= n && j < |a| ==> a[j] == s[j];
    SpaceRunIs(a, 0, n);
  }

  /** Where no whitespace run crosses the junction, the two sides collapse
      independently: the replacement works run by run. */
  lemma {:induction false} CollapseSplit(a: string, b: string)
    requires Junction(a, b)
    ensures Collapse(a + b) == Collapse(a) + Collapse(b)
    decreases |a|
  {
    var s := a + b;
    if a == [] {
      assert s == b;
    } else if b == [] {
      assert s == a;
      assert Collapse(b) == [];
    } else if |s| >= 2 && IsSpace(s[0]) && IsSpace(s[1]) {
      var n := SpaceRun(s, 0);
      RunSplit(a, b);
      CollapseSplit(a[n..], b);
      assert Collapse(s) == [' '] + Collapse(s[n..]);
      assert Collapse(a) == [' '] + Collapse(a[n..]);
      AppendAssoc([' '], Collapse(a[n..]), Collapse(b));
    } else {
      assert !(|a| >= 2 && IsSpace(a[0]) && IsSpace(a[1]));
      assert s[1..] == a[1..] + b;
      CollapseSplit(a[1..], b);
      assert Collapse(s) == [a[0]] + Collapse(s[1..]);
      assert Collapse(a) == [a[0]] + Collapse(a[1..]);
      AppendAssoc([a[0]], Collapse(a[1..]), Collapse(b));
    }
  }

  /** A run of two or more whitespace characters becomes one space. */
  lemma CollapseOfRun(w: string)
    requires AllSpaces(w) && |w| >= 2
    ensures Collapse(w) == [' ']
  {
    SpaceRunIs(w, 0, |w|);
    assert w[|w|..] == [];
  }

  /** A lone character, whitespace or not, is copied. */
  lemma CollapseOfChar(c: char)
    ensures Collapse([c]) == [c]
  {
    assert [c][1..] == [];
  }

  /** `replace(/\s\s+/g, ' ')` on a run between text: the run becomes one
      space and the text on either side is collapsed on its own. */
  lemma CollapseRun(a: string, w: string, b: string)
    requires AllSpaces(w) && |w| >= 2
    requires a == [] || !IsSpace(a[|a| - 1])
    requires b == [] || !IsSpace(b[0])
    ensures Collapse(a + w + b) == Collapse(a) + [' '] + Collapse(b)
  {
    CollapseSplit(a, w);
    CollapseOfRun(w);
    CollapseSplit(a + w, b);
  }

  /** A single whitespace character between text is kept as it is. */
  lemma CollapseLoneSpace(a: string, c: char, b: string)
    requires a == [] || !IsSpace(a[|a| - 1])
    requires b == [] || !IsSpace(b[0])
    ensures Collapse(a + [c] + b) == Collapse(a) + [c] + Collapse(b)
  {
    CollapseSplit(a, [c]);
    CollapseOfChar(c);
    assert Junction(a + [c], b) by {
      if !IsSpace(c) {
        assert (a + [c])[|a + [c]| - 1] == c;
      }
    }
    CollapseSplit(a + [c], b);
  }

  /** Collapsing keeps every non-whitespace character, in order. */
  lemma {:induction false} CollapseKeepsText(s: string)
    ensures NonSpace(Collapse(s)) == NonSpace(s)
    decreases |s|
  {
    if s == [] {
    } else if |s| >= 2 && IsSpace(s[0]) && IsSpace(s[1]) {
      var n := SpaceRun(s, 0);
      CollapseKeepsText(s[n..]);
      assert s == s[..n] + s[n..];
      NonSpaceConcat(s[..n], s[n..]);
      NonSpaceOfSpaces(s[..n]);
      NonSpaceConcat([' '], Collapse(s[n..]));
    } else {
      CollapseKeepsText(s[1..]);
      NonSpaceConcat([s[0]], Collapse(s[1..]));
    }
  }

  /** A string without adjacent whitespace is left as it is. */
  lemma {:induction false} CollapseFixesSingleSpaced(s: string)
    requires NoDoubleSpace(s)
    ensures Collapse(s) == s
    decreases |s|
  {
    if s != [] {
      assert !(|s| >= 2 && IsSpace(s[0]) && IsSpace(s[1]));
      assert NoDoubleSpace(s[1..]) by {
        forall k | 0 <= k < |s[1..]| - 1
          ensures !(IsSpace(s[1..][k]) && IsSpace(s[1..][k + 1]))
        {
          assert s[1..][k] == s[k + 1] && s[1..][k + 1] == s[k + 2];
        }
      }
      CollapseFixesSingleSpaced(s[1..]);
    }
  }

  /** Collapsing twice is collapsing once. */
  lemma CollapseIdempotent(s: string)
    ensures Collapse(Collapse(s)) == Collapse(s)
  {
    CollapseFixesSingleSpaced(Collapse(s));
  }

  /** `trimStart()`: drops the leading whitespace. */
  function TrimStart(s: string): (r: string)
    decreases |s|
    ensures |r| <= |s| && r == s[|s| - |r|..]
    ensures AllSpaces(s[..|s| - |r|])
    ensures r != [] ==> !IsSpace(r[0])
  {
    if s != [] && IsSpace(s[0]) then
      var r := TrimStart(s[1..]);
      assert forall k :: 0 <= k < |s| - |r| ==> k == 0 || s[k] == s[1..][k - 1];
      r
    else s
  }

  /** `trimEnd()`: drops the trailing whitespace. */
  function TrimEnd(s: string): (r: string)
    decreases |s|
    ensures |r| <= |s| && r == s[..|r|]
    ensures AllSpaces(s[|r|..])
    ensures r != [] ==> !IsSpace(r[|r| - 1])
  {
    if s != [] && IsSpace(s[|s| - 1]) then
      var r := TrimEnd(s[..|s| - 1]);
      assert forall k :: |r| <= k < |s| ==> k == |s| - 1 || s[k] == s[..|s| - 1][k];
      r
    else s
  }

  /** `trim()`: a slice of the input with whitespace removed at both ends. */
  function Trim(s: string): (r: string)
    ensures r != [] ==> !IsSpace(r[0]) && !IsSpace(r[|r| - 1])
    ensures exists a, b :: 0 <= a <= b <= |s| && r == s[a..b]
                           && AllSpaces(s[..a]) && AllSpaces(s[b..])
  {
    var t := TrimStart(s);
    var r := TrimEnd(t);
    var a := |s| - |t|;
    assert r == s[a..a + |r|];
    assert s[a + |r|..] == t[|r|..];
    r
  }

  lemma NoDoubleSpaceSlice(s: string, a: nat, b: nat)
    requires a <= b <= |s| && NoDoubleSpace(s)
    ensures NoDoubleSpace(s[a..b])
  {
    var r := s[a..b];
    forall k | 0 <= k < |r| - 1 ensures !(IsSpace(r[k]) && IsSpace(r[k + 1])) {
      assert r[k] == s[a + k] && r[k + 1] == s[a + k + 1];
    }
  }

  /** A string that neither starts nor ends with whitespace is already trimmed. */
  lemma TrimFixesTrimmed(s: string)
    requires s != [] && !IsSpace(s[0]) && !IsSpace(s[|s| - 1])
    ensures Trim(s) == s
  {
    var r := Trim(s);
    var a, b :| 0 <= a <= b <= |s| && r == s[a..b] && AllSpaces(s[..a]) && AllSpaces(s[b..]);
    assert a == 0 && b == |s|;
  }

  /** Removing whitespace from both ends of a string keeps its text. */
  lemma NonSpaceOfInner(s: string, a: nat, b: nat)
    requires a <= b <= |s| && AllSpaces(s[..a]) && AllSpaces(s[b..])
    ensures NonSpace(s[a..b]) == NonSpace(s)
  {
    assert s == (s[..a] + s[a..b]) + s[b..];
    NonSpaceConcat(s[..a] + s[a..b], s[b..]);
    NonSpaceConcat(s[..a], s[a..b]);
    NonSpaceOfSpaces(s[..a]);
    NonSpaceOfSpaces(s[b..]);
  }

  /** A string whose first character is not whitespace has text. */
  lemma NonSpaceOfNonBlank(r: string)
    requires r != [] && !IsSpace(r[0])
    ensures NonSpace(r) != []
  {
    assert NonSpace(r) == [r[0]] + NonSpace(r[1..]);
  }

  /** Trimming drops only whitespace, and a trimmed slice of a string without
      adjacent whitespace has none either. */
  lemma TrimKeepsText(s: string)
    ensures NonSpace(Trim(s)) == NonSpace(s)
    ensures NoDoubleSpace(s) ==> NoDoubleSpace(Trim(s))
    ensures Trim(s) == [] <==> NonSpace(s) == []
  {
    var r := Trim(s);
    var a, b :| 0 <= a <= b <= |s| && r == s[a..b] && AllSpaces(s[..a]) && AllSpaces(s[b..]);
    NonSpaceOfInner(s, a, b);
    if NoDoubleSpace(s) {
      NoDoubleSpaceSlice(s, a, b);
    }
    if r != [] {
      NonSpaceOfNonBlank(r);
    }
  }

  /** `s.slice(0, n)` on a string of code points. */
  function Prefix(s: string, n: nat): (r: string)
    ensures |r| <= n && |r| <= |s|
    ensures r == s[..|r|]
    ensures |s| <= n ==> r == s
    ensures |s| > n ==> |r| == n
  {
    if |s| <= n then s else s[..n]
  }
}
