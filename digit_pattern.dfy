/**
  `re.search` for the patterns the adapters use on cell ids: a captured run of decimal
  digits followed by a fixed sequence of character classes, such as `(\d+)S[O0]C`,
  `(\d+)[S0]OC`, `(\d+)Ah` and `(\d+)mAh`.

  Python's engine tries start positions from left to right and, at each start, lets
  `\d+` take as many digits as it can before giving them back one at a time. `Search`
  is written that way; its contract says the result is the leftmost start and, at that
  start, the longest digit group after which the classes match.
*/
module DigitPattern {
  import opened Wrappers

  /** One character class per pattern position after the group. */
  type Tail = seq<set<char>>

  predicate IsDigit(c: char) { '0' <= c <= '9' }

  predicate AllDigits(s: string, i: int, j: int)
    requires 0 <= i <= j <= |s|
  {
    forall k :: i <= k < j ==> IsDigit(s[k])
  }

  /** The classes of `tail` match `s` from position `j`. */
  predicate TailAt(s: string, tail: Tail, j: int) {
    0 <= j && j + |tail| <= |s| && forall k :: 0 <= k < |tail| ==> s[j + k] in tail[k]
  }

  /** The whole pattern matches at `i` with the group `s[i..j]`. */
  predicate GroupAt(s: string, tail: Tail, i: int, j: int) {
    0 <= i < j <= |s| && AllDigits(s, i, j) && TailAt(s, tail, j)
  }

  /** End of the run of digits that starts at `i`. */
  function RunEnd(s: string, i: nat): (e: nat)
    requires i <= |s|
    decreases |s| - i
    ensures i <= e <= |s| && AllDigits(s, i, e)
    ensures e < |s| ==> !IsDigit(s[e])
  {
    if i == |s| || !IsDigit(s[i]) then i else RunEnd(s, i + 1)
  }

  /** Give digits back, longest group first, until the classes match. */
  function Backtrack(s: string, tail: Tail, i: nat, j: nat): (r: Option<nat>)
    requires i < j <= |s| && AllDigits(s, i, j)
    decreases j
    ensures r.Some? ==> i < r.value <= j && GroupAt(s, tail, i, r.value)
    ensures r.Some? ==> forall b :: r.value < b <= j ==> !GroupAt(s, tail, i, b)
    ensures r.None? ==> forall b :: i < b <= j ==> !GroupAt(s, tail, i, b)
  {
    if TailAt(s, tail, j) then Some(j)
    else if j == i + 1 then None
    else Backtrack(s, tail, i, j - 1)
  }

  /** One attempt of the engine at start `i`: the end of the group, if any. */
  function MatchAt(s: string, tail: Tail, i: nat): (r: Option<nat>)
    requires i <= |s|
    ensures r.Some? ==> GroupAt(s, tail, i, r.value)
    ensures r.Some? ==> forall b :: r.value < b ==> !GroupAt(s, tail, i, b)
    ensures r.None? ==> forall b :: !GroupAt(s, tail, i, b)
  {
    var e := RunEnd(s, i);
    assert forall b :: GroupAt(s, tail, i, b) ==> b <= e;
    if e == i then None else Backtrack(s, tail, i, e)
  }

  /** The engine's scan from start `i` onwards: (start, end) of the group. */
  function SearchFrom(s: string, tail: Tail, i: nat): (r: Option<(nat, nat)>)
    requires i <= |s|
    decreases |s| - i
    ensures r.Some? ==> i <= r.value.0 && GroupAt(s, tail, r.value.0, r.value.1)
    ensures r.Some? ==> forall a, b :: i <= a < r.value.0 ==> !GroupAt(s, tail, a, b)
    ensures r.Some? ==> forall b :: r.value.1 < b ==> !GroupAt(s, tail, r.value.0, b)
    ensures r.None? ==> forall a, b :: i <= a ==> !GroupAt(s, tail, a, b)
  {
    var m := MatchAt(s, tail, i);
    if m.Some? then Some((i, m.value))
    else if i == |s| then None
    else SearchFrom(s, tail, i + 1)
  }

  /**
    The match `re.search` reports: the group `s[a..b]` starts at the leftmost position
    where the pattern matches, and is the longest group that matches there.
  */
  ghost predicate LeftmostGroup(s: string, tail: Tail, a: int, b: int) {
    && GroupAt(s, tail, a, b)
    && (forall a', b' :: 0 <= a' < a ==> !GroupAt(s, tail, a', b'))
    && (forall b' :: b < b' ==> !GroupAt(s, tail, a, b'))
  }

  /** There is at most one such match. */
  lemma LeftmostGroupUnique(s: string, tail: Tail, a: int, b: int, a': int, b': int)
    requires LeftmostGroup(s, tail, a, b) && LeftmostGroup(s, tail, a', b')
    ensures a == a' && b == b'
  {
  }

  /** `m.group(1)` of `re.search(r'(\d+)' + tail, s)`, or `None` when nothing matches. */
  function Search(s: string, tail: Tail): (r: Option<string>)
    ensures r.None? <==> forall a, b :: !GroupAt(s, tail, a, b)
    ensures r.Some? ==> exists a, b :: LeftmostGroup(s, tail, a, b) && r.value == s[a..b]
    ensures forall a, b :: LeftmostGroup(s, tail, a, b) ==> r == Some(s[a..b])
  {
    var m := SearchFrom(s, tail, 0);
    if m.Some? then
      assert LeftmostGroup(s, tail, m.value.0, m.value.1);
      forall a, b | LeftmostGroup(s, tail, a, b)
        ensures s[a..b] == s[m.value.0..m.value.1]
      {
        LeftmostGroupUnique(s, tail, a, b, m.value.0, m.value.1);
      }
      Some(s[m.value.0..m.value.1])
    else None
  }

  /** `int(d)` for a string of decimal digits. */
  function DigitsValue(d: string): (n: nat)
    requires forall k :: 0 <= k < |d| ==> IsDigit(d[k])
  {
    if d == [] then 0
    else
      assert IsDigit(d[|d| - 1]);
      10 * DigitsValue(d[..|d| - 1]) + (d[|d| - 1] as int - '0' as int)
  }

  /** `int(s[a..b])` for a run of decimal digits. */
  function GroupValue(s: string, a: int, b: int): nat
    requires 0 <= a <= b <= |s| && AllDigits(s, a, b)
  {
    var d := s[a..b];
    assert forall k :: 0 <= k < |d| ==> d[k] == s[a + k];
    DigitsValue(d)
  }

  /** The matched group is a non-empty string of digits. */
  lemma SearchDigits(s: string, tail: Tail)
    requires Search(s, tail).Some?
    ensures var d := Search(s, tail).value;
      d != [] && forall k :: 0 <= k < |d| ==> IsDigit(d[k])
  {
    var d := Search(s, tail).value;
    var a, b :| GroupAt(s, tail, a, b) && d == s[a..b];
    assert forall k :: 0 <= k < |d| ==> d[k] == s[a + k];
  }

  /**
    The group of the leftmost match is a whole run of digits: the character before it,
    if any, is not a digit.
  */
  lemma SearchWholeRun(s: string, tail: Tail, a: int, b: int)
    requires GroupAt(s, tail, a, b)
    requires forall a', b' :: 0 <= a' < a ==> !GroupAt(s, tail, a', b')
    ensures a == 0 || !IsDigit(s[a - 1])
  {
    if a > 0 && IsDigit(s[a - 1]) {
      assert GroupAt(s, tail, a - 1, b);
    }
  }
}
