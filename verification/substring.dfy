/** Case-sensitive substring search, as JavaScript's `String.prototype.includes`. */
module Substring {

  /** `p` occurs in `s` starting at offset `i`. */
  ghost predicate OccursAt(p: string, s: string, i: int) {
    0 <= i && i + |p| <= |s| && s[i..i + |p|] == p
  }

  /** `p` occurs somewhere in `s`: the reference definition of containment. */
  ghost predicate Occurs(p: string, s: string) {
    exists i :: OccursAt(p, s, i)
  }

  predicate IsPrefix(p: string, s: string) {
    |p| <= |s| && s[..|p|] == p
  }

  /** Containment one offset at a time: `p` occurs in `s` when it is a prefix of `s`, or when
      `s` is non-empty and `p` occurs in its tail. */
  lemma OccursStep(p: string, s: string)
    ensures |s| == 0 ==> (Occurs(p, s) <==> IsPrefix(p, s))
    ensures |s| > 0 ==> (Occurs(p, s) <==> IsPrefix(p, s) || Occurs(p, s[1..]))
  {
    if IsPrefix(p, s) {
      assert OccursAt(p, s, 0);
    }
    if |s| > 0 && Occurs(p, s[1..]) {
      var i :| OccursAt(p, s[1..], i);
      assert s[1..][i..i + |p|] == s[i + 1..i + 1 + |p|];
      assert OccursAt(p, s, i + 1);
    }
    if |s| > 0 && Occurs(p, s) && !IsPrefix(p, s) {
      var i :| OccursAt(p, s, i);
      assert i != 0;
      assert s[1..][i - 1..i - 1 + |p|] == s[i..i + |p|];
      assert OccursAt(p, s[1..], i - 1);
    }
  }

  /** `s.includes(p)`: tries every start offset from left to right, and so finds `p` exactly
      when it occurs in `s` at some offset. */
  function Includes(s: string, p: string): (r: bool)
    ensures r <==> Occurs(p, s)
    decreases |s|
  {
    OccursStep(p, s);
    if IsPrefix(p, s) then true
    else if |s| == 0 then false
    else Includes(s[1..], p)
  }

  /** A prefix of `s` is found in `s`. */
  lemma PrefixIncluded(p: string, s: string)
    requires IsPrefix(p, s)
    ensures Includes(s, p)
  {
  }

  /** Containment is transitive: a pattern found in a pattern found in `s` is found in `s`. */
  lemma {:induction false} IncludesTransitive(s: string, q: string, p: string)
    requires Includes(s, q) && Includes(q, p)
    ensures Includes(s, p)
  {
    var a :| OccursAt(q, s, a);
    var b :| OccursAt(p, q, b);
    forall k | 0 <= k < |p|
      ensures s[a + b..a + b + |p|][k] == p[k]
    {
      assert s[a + b + k] == s[a..a + |q|][b + k] == q[b + k];
      assert q[b + k] == q[b..b + |p|][k];
    }
    assert OccursAt(p, s, a + b);
  }

  /** A pattern longer than the string is never found in it. */
  lemma {:induction false} LongerNotIncluded(s: string, p: string)
    requires |s| < |p|
    ensures !Includes(s, p)
    decreases |s|
  {
    if |s| > 0 {
      LongerNotIncluded(s[1..], p);
    }
  }
}
