/**
  String helpers the list page relies on: `toLowerCase` (restricted to ASCII),
  `String.prototype.includes` and `Array.prototype.join`.
*/
module Text {

  predicate IsUpper(c: char) { 'A' <= c <= 'Z' }

  /** ASCII `toLowerCase` of one character: upper-case letters move down by 32, all else is kept. */
  function LowerChar(c: char): (d: char)
    ensures !IsUpper(d)
    ensures IsUpper(c) ==> d as int == c as int + 32
    ensures !IsUpper(c) ==> d == c
  {
    if IsUpper(c) then (c as int + 32) as char else c
  }

  /**
    `s.toLowerCase()`, character by character: same length, no upper-case
    letter left, every other character kept in place.
  */
  function Lower(s: string): (r: string)
    ensures |r| == |s|
    ensures forall i :: 0 <= i < |r| ==> !IsUpper(r[i])
    ensures forall i :: 0 <= i < |s| && !IsUpper(s[i]) ==> r[i] == s[i]
    ensures forall i :: 0 <= i < |s| ==> r[i] == LowerChar(s[i])
  {
    seq(|s|, i requires 0 <= i < |s| => LowerChar(s[i]))
  }

  lemma LowerIdempotent(s: string)
    ensures Lower(Lower(s)) == Lower(s)
  {
  }

  lemma LowerSlice(s: string, i: nat, j: nat)
    requires i <= j <= |s|
    ensures Lower(s)[i..j] == Lower(s[i..j])
  {
  }

  /** `n` occurs in `h` starting at position `i`. */
  ghost predicate OccursAt(h: string, n: string, i: int)
  {
    0 <= i && i + |n| <= |h| && h[i..i + |n|] == n
  }

  /** The reference meaning of substring containment. */
  ghost predicate ContainsText(h: string, n: string)
  {
    exists i :: OccursAt(h, n, i)
  }

  lemma OccursShift(h: string, n: string, i: int)
    requires |h| > 0 && i >= 0
    ensures OccursAt(h[1..], n, i) <==> OccursAt(h, n, i + 1)
  {
    if 0 <= i && i + |n| <= |h| - 1 {
      assert h[1..][i..i + |n|] == h[i + 1..i + 1 + |n|];
    }
  }

  /**
    `h.includes(n)`: scans the start positions of `h` from left to right; the
    empty needle is found at position 0.
  */
  function Includes(h: string, n: string): (r: bool)
    ensures r <==> ContainsText(h, n)
    decreases |h|
  {
    if |n| > |h| then false
    else if h[..|n|] == n then
      assert OccursAt(h, n, 0);
      true
    else
      var r := Includes(h[1..], n);
      assert r <==> ContainsText(h, n) by {
        forall i | OccursAt(h, n, i) ensures i >= 1 && OccursAt(h[1..], n, i - 1) {
          assert i != 0 by { assert h[..|n|] == h[0..|n|]; }
          OccursShift(h, n, i - 1);
        }
        forall i | OccursAt(h[1..], n, i) ensures OccursAt(h, n, i + 1) {
          OccursShift(h, n, i);
        }
      }
      r
  }

  /** The summed lengths of the parts. */
  function TotalLength(parts: seq<string>): nat
  {
    if |parts| == 0 then 0 else |parts[0]| + TotalLength(parts[1..])
  }

  /**
    `parts.join(sep)`: the parts in order, separated by `sep`; no parts give
    the empty string, and n parts carry n - 1 separators.
  */
  function Join(parts: seq<string>, sep: string): (r: string)
    ensures |parts| == 0 ==> r == ""
    ensures |parts| > 0 ==> |r| == TotalLength(parts) + (|parts| - 1) * |sep|
    ensures |parts| > 0 ==> r[..|parts[0]|] == parts[0]
  {
    if |parts| == 0 then ""
    else if |parts| == 1 then parts[0]
    else parts[0] + sep + Join(parts[1..], sep)
  }

  /** Every part of a joined string occurs in it. */
  lemma {:induction false} JoinContainsPart(parts: seq<string>, sep: string, j: nat)
    requires j < |parts|
    ensures ContainsText(Join(parts, sep), parts[j])
  {
    var s := Join(parts, sep);
    if j == 0 {
      assert s[0..|parts[0]|] == parts[0];
      assert OccursAt(s, parts[0], 0);
    } else {
      JoinContainsPart(parts[1..], sep, j - 1);
      var rest := Join(parts[1..], sep);
      var i :| OccursAt(rest, parts[j], i);
      var off := |parts[0]| + |sep|;
      assert s == parts[0] + sep + rest;
      assert s[off + i..off + i + |parts[j]|] == rest[i..i + |parts[j]|];
      assert OccursAt(s, parts[j], off + i);
    }
  }

  /** Lower-casing both sides keeps an occurrence. */
  lemma LowerKeepsContains(h: string, n: string)
    requires ContainsText(h, n)
    ensures ContainsText(Lower(h), Lower(n))
  {
    var i :| OccursAt(h, n, i);
    LowerSlice(h, i, i + |n|);
    assert OccursAt(Lower(h), Lower(n), i);
  }

  /** Containment is transitive. */
  lemma ContainsTransitive(h: string, m: string, n: string)
    requires ContainsText(h, m) && ContainsText(m, n)
    ensures ContainsText(h, n)
  {
    var i :| OccursAt(h, m, i);
    var j :| OccursAt(m, n, j);
    forall k | 0 <= k < |n| ensures h[i + j + k] == n[k] {
      assert n[k] == m[j..j + |n|][k] == m[j + k];
      assert m[j + k] == h[i..i + |m|][j + k];
    }
    assert h[i + j..i + j + |n|] == n;
    assert OccursAt(h, n, i + j);
  }
}
