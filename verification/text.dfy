/** The JavaScript string operations the extension uses, written out over
    `seq<char>`: `trim`, `toLowerCase`, `includes`, `startsWith`, and the
    two regular-expression shapes that extract counts (`/(\d+)/` and
    `/(\d+)\s*(unit)/i`). */
module Text {
  import opened Seqs

  /** The characters JavaScript's `trim` and `\s` treat as white space:
      the WhiteSpace and LineTerminator productions of ECMAScript. */
  predicate IsSpace(c: char) {
    || c == ' ' || c == '\t' || c == '\n' || c == '\r' || c == '\U{B}' || c == '\U{C}'
    || c == '\U{A0}' || c == '\U{1680}' || ('\U{2000}' <= c <= '\U{200A}')
    || c == '\U{2028}' || c == '\U{2029}' || c == '\U{202F}' || c == '\U{205F}'
    || c == '\U{3000}' || c == '\U{FEFF}'
  }

  predicate AllSpace(s: string) {
    forall i :: 0 <= i < |s| ==> IsSpace(s[i])
  }

  /** `\d` in a JavaScript regular expression without the `u` flag. */
  predicate IsDigit(c: char) {
    '0' <= c <= '9'
  }

  predicate AllDigits(s: string) {
    forall i :: 0 <= i < |s| ==> IsDigit(s[i])
  }

  /** Case folding of one character (ASCII letters only). */
  function LowerChar(c: char): (d: char)
    ensures 'A' <= c <= 'Z' ==> d as int == c as int + 32
    ensures !('A' <= c <= 'Z') ==> d == c
  {
    if 'A' <= c <= 'Z' then (c as int + 32) as char else c
  }

  /** `s.toLowerCase()`. */
  function Lower(s: string): (r: string)
    ensures |r| == |s|
    ensures forall i :: 0 <= i < |s| ==> r[i] == LowerChar(s[i])
  {
    seq(|s|, i requires 0 <= i < |s| => LowerChar(s[i]))
  }

  /** The first index at or after `i` whose character is not white space,
      or `|s|` when there is none. */
  function SpaceRunEnd(s: string, i: nat): (j: nat)
    requires i <= |s|
    ensures i <= j <= |s|
    ensures forall k :: i <= k < j ==> IsSpace(s[k])
    ensures j == |s| || !IsSpace(s[j])
    decreases |s| - i
  {
    if i < |s| && IsSpace(s[i]) then SpaceRunEnd(s, i + 1) else i
  }

  /** Walking down from `j` but not below `lo`: the index just past the last
      character that is not white space, or `lo` when there is none. */
  function SpaceRunStart(s: string, lo: nat, j: nat): (r: nat)
    requires lo <= j <= |s|
    ensures lo <= r <= j
    ensures forall k :: r <= k < j ==> IsSpace(s[k])
    ensures r == lo || !IsSpace(s[r - 1])
    decreases j
  {
    if lo < j && IsSpace(s[j - 1]) then SpaceRunStart(s, lo, j - 1) else j
  }

  /** `s.trim()`: the part of `s` between its leading and its trailing
      white space. */
  function Trim(s: string): (r: string)
    ensures r == [] || (!IsSpace(r[0]) && !IsSpace(r[|r| - 1]))
  {
    var i := SpaceRunEnd(s, 0);
    s[i..SpaceRunStart(s, i, |s|)]
  }

  /** What `trim` keeps is a slice of `s`, and all it drops is white
      space. */
  lemma TrimIsSlice(s: string)
    ensures var i := SpaceRunEnd(s, 0);
      && i + |Trim(s)| <= |s| && Trim(s) == s[i..i + |Trim(s)|]
      && (forall k :: 0 <= k < i ==> IsSpace(s[k]))
      && (forall k :: i + |Trim(s)| <= k < |s| ==> IsSpace(s[k]))
  {
  }

  /** The converse: a slice with only white space outside it and none at its
      two ends is what `trim` returns. */
  lemma TrimIsOnlySuchSlice(s: string, i: nat, j: nat)
    requires i <= j <= |s|
    requires forall k :: 0 <= k < i ==> IsSpace(s[k])
    requires forall k :: j <= k < |s| ==> IsSpace(s[k])
    requires i < j ==> !IsSpace(s[i]) && !IsSpace(s[j - 1])
    ensures Trim(s) == s[i..j]
  {
    var a := SpaceRunEnd(s, 0);
    if i < j {
      assert a == i;
      assert SpaceRunStart(s, a, |s|) == j;
    } else {
      assert a == |s|;
    }
  }

  /** `sub` occurs in `s` at position `i`. */
  predicate OccursAt(s: string, sub: string, i: int) {
    0 <= i && i + |sub| <= |s| && s[i..i + |sub|] == sub
  }

  /** A slice of the tail is the slice of `s` one further along. */
  lemma SliceOfTail(s: string, i: nat, j: nat)
    requires i <= j < |s|
    ensures s[1..][i..j] == s[i + 1..j + 1]
  {
    assert forall m :: 0 <= m < j - i ==> s[1..][i..j][m] == s[i + 1 + m];
  }

  /** `s.includes(sub)`, written as the left-to-right search it performs. */
  function Includes(s: string, sub: string): (r: bool)
    ensures r <==> exists i :: OccursAt(s, sub, i)
    decreases |s|
  {
    if |sub| > |s| then false
    else if s[..|sub|] == sub then
      assert OccursAt(s, sub, 0);
      true
    else
      var rest := Includes(s[1..], sub);
      assert forall i :: 0 <= i ==> (OccursAt(s[1..], sub, i) <==> OccursAt(s, sub, i + 1)) by {
        forall i | 0 <= i && i + |sub| <= |s| - 1 ensures OccursAt(s[1..], sub, i) <==> OccursAt(s, sub, i + 1) {
          SliceOfTail(s, i, i + |sub|);
        }
      }
      assert !OccursAt(s, sub, 0);
      if rest then rest
      else
        assert forall i :: OccursAt(s, sub, i) ==> i > 0 && OccursAt(s[1..], sub, i - 1);
        rest
  }

  /** `parts.join('')`. */
  function Join(parts: seq<string>): (r: string)
    ensures |parts| == 0 ==> r == ""
  {
    if |parts| == 0 then "" else parts[0] + Join(parts[1..])
  }

  /** `s.startsWith(prefix)`. */
  predicate StartsWith(s: string, prefix: string) {
    prefix <= s
  }

  /** End of the run of digits that starts at `i`. */
  function DigitRunEnd(s: string, i: nat): (j: nat)
    requires i <= |s|
    ensures i <= j <= |s|
    ensures forall k :: i <= k < j ==> IsDigit(s[k])
    ensures j == |s| || !IsDigit(s[j])
    decreases |s| - i
  {
    if i < |s| && IsDigit(s[i]) then DigitRunEnd(s, i + 1) else i
  }

  /** `s.match(/(\d+)/)?.[1]`: the leftmost maximal run of digits. */
  function FirstDigitRun(s: string): (r: Option<string>)
    ensures r.None? <==> forall i :: 0 <= i < |s| ==> !IsDigit(s[i])
    ensures r.Some? ==> |r.value| > 0 && AllDigits(r.value)
    ensures r.Some? ==> exists i :: OccursAt(s, r.value, i)
  {
    DigitRunFrom(s, 0)
  }

  function DigitRunFrom(s: string, i: nat): (r: Option<string>)
    requires i <= |s|
    ensures r.None? <==> forall k :: i <= k < |s| ==> !IsDigit(s[k])
    ensures r.Some? ==> |r.value| > 0 && AllDigits(r.value)
    ensures r.Some? ==> exists k :: OccursAt(s, r.value, k)
    decreases |s| - i
  {
    if i == |s| then None
    else if IsDigit(s[i]) then
      var j := DigitRunEnd(s, i);
      assert OccursAt(s, s[i..j], i);
      Some(s[i..j])
    else DigitRunFrom(s, i + 1)
  }

  /** The unit word `u` (already lower case) follows position `k`,
      compared case-insensitively. */
  predicate UnitAt(s: string, k: nat, u: string) {
    k + |u| <= |s| && Lower(s[k..k + |u|]) == u
  }

  /** `s.match(/(\d+)\s*(u1|u2|...)/i)?.[1]`, for unit words that are lower
      case and start with neither a digit nor white space. The leftmost
      match is found by trying each start position in turn; since no unit
      word can begin with a digit or a space, only the maximal digit run
      and the maximal space run can be followed by a unit, so the greedy
      match below is the one the regular expression engine finds. */
  function CountBeforeUnit(s: string, units: seq<string>): (r: Option<string>)
    ensures r.Some? ==> |r.value| > 0 && AllDigits(r.value)
    ensures r.Some? ==> exists i :: OccursAt(s, r.value, i)
  {
    CountFrom(s, units, 0)
  }

  function CountFrom(s: string, units: seq<string>, i: nat): (r: Option<string>)
    requires i <= |s|
    ensures r.Some? ==> |r.value| > 0 && AllDigits(r.value)
    ensures r.Some? ==> exists k :: OccursAt(s, r.value, k)
    decreases |s| - i
  {
    if i == |s| then None
    else if IsDigit(s[i]) then
      var j := DigitRunEnd(s, i);
      var k := SpaceRunEnd(s, j);
      if Any(units, u => UnitAt(s, k, u)) then
        assert OccursAt(s, s[i..j], i);
        Some(s[i..j])
      else CountFrom(s, units, i + 1)
    else CountFrom(s, units, i + 1)
  }

  // ---------------------------------------------------------------------
  // Properties of case folding and trimming used by the phrase matcher.

  /** Case folding distributes over concatenation. */
  lemma LowerConcat(a: string, b: string)
    ensures Lower(a + b) == Lower(a) + Lower(b)
  {
  }

  /** Case folding leaves white space alone. */
  lemma LowerKeepsSpace(ws: string)
    requires AllSpace(ws)
    ensures Lower(ws) == ws
  {
  }

  /** Trimming twice is trimming once. */
  lemma TrimIdempotent(s: string)
    ensures Trim(Trim(s)) == Trim(s)
  {
    TrimIsOnlySuchSlice(Trim(s), 0, |Trim(s)|);
  }

  /** `trim` ignores any white space added around the text. */
  lemma TrimIgnoresPadding(ws1: string, t: string, ws2: string)
    requires AllSpace(ws1) && AllSpace(ws2)
    ensures Trim(ws1 + t + ws2) == Trim(t)
  {
    var s := ws1 + t + ws2;
    var n := |ws1|;
    assert s[n..n + |t|] == t;
    forall k | 0 <= k < n ensures IsSpace(s[k]) {
      assert s[k] == ws1[k];
    }
    forall k | n + |t| <= k < |s| ensures IsSpace(s[k]) {
      assert s[k] == ws2[k - n - |t|];
    }
    TrimOfPadded(s, n, t);
  }

  /** The general form: `t` sits at `n` in `s` with only white space around
      it. */
  lemma TrimOfPadded(s: string, n: nat, t: string)
    requires n + |t| <= |s| && s[n..n + |t|] == t
    requires forall k :: 0 <= k < n ==> IsSpace(s[k])
    requires forall k :: n + |t| <= k < |s| ==> IsSpace(s[k])
    ensures Trim(s) == Trim(t)
  {
    var a := SpaceRunEnd(t, 0);
    var b := SpaceRunStart(t, a, |t|);
    assert forall k :: 0 <= k < |t| ==> s[n + k] == t[k];
    forall k | 0 <= k < n + a ensures IsSpace(s[k]) {
      if k >= n { assert s[k] == t[k - n]; }
    }
    forall k | n + b <= k < |s| ensures IsSpace(s[k]) {
      if k < n + |t| { assert s[k] == t[k - n]; }
    }
    TrimIsOnlySuchSlice(s, n + a, n + b);
    assert s[n + a..n + b] == t[a..b];
  }
}
