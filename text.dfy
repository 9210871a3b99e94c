/**
 * The two string operations the command prompt relies on: `str.lower()`
 * and Python's substring test `a in b`.
 */
module Text {

  /** ASCII lower-casing of one character. */
  function LowerChar(c: char): char
  {
    if 'A' <= c <= 'Z' then (c as int + 32) as char else c
  }

  predicate IsLowerChar(c: char)
  {
    !('A' <= c <= 'Z')
  }

  /** `s.lower()` as MicroPython has it: only ASCII letters change. */
  function Lower(s: string): (r: string)
    ensures |r| == |s|
    ensures forall i :: 0 <= i < |s| ==> r[i] == LowerChar(s[i]) && IsLowerChar(r[i])
  {
    if s == [] then [] else [LowerChar(s[0])] + Lower(s[1..])
  }

  /** Lower-casing a string twice changes nothing more than once. */
  lemma LowerIdempotent(s: string)
    ensures Lower(Lower(s)) == Lower(s)
  {
  }

  predicate IsPrefix(a: string, b: string)
  {
    |a| <= |b| && b[..|a|] == a
  }

  /** Python's `a in b` on strings: `a` occurs in `b` at some position. */
  predicate IsSubstring(a: string, b: string)
    decreases |b|
  {
    IsPrefix(a, b) || (|b| > 0 && IsSubstring(a, b[1..]))
  }

  /** `a` occurs in `b` starting at index `i`. */
  predicate OccursAt(a: string, b: string, i: nat)
  {
    i + |a| <= |b| && b[i..i + |a|] == a
  }

  /** A substring occurs at some position of `b`. */
  lemma {:induction false} SubstringHasPosition(a: string, b: string) returns (i: nat)
    requires IsSubstring(a, b)
    ensures OccursAt(a, b, i)
    decreases |b|
  {
    if IsPrefix(a, b) {
      i := 0;
    } else {
      var k := SubstringHasPosition(a, b[1..]);
      assert b[1..][k..k + |a|] == b[k + 1..k + 1 + |a|];
      i := k + 1;
    }
  }

  /** Whatever occurs at some position of `b` is a substring of `b`. */
  lemma {:induction false} PositionIsSubstring(a: string, b: string, i: nat)
    requires OccursAt(a, b, i)
    ensures IsSubstring(a, b)
    decreases i
  {
    if i > 0 {
      assert b[1..][i - 1..i - 1 + |a|] == b[i..i + |a|];
      PositionIsSubstring(a, b[1..], i - 1);
    }
  }

  /** The recursive test agrees with "`a` occurs at some position of `b`". */
  lemma {:induction false} SubstringIsSlice(a: string, b: string)
    ensures IsSubstring(a, b) <==> exists i: nat :: OccursAt(a, b, i)
  {
    if IsSubstring(a, b) {
      var i := SubstringHasPosition(a, b);
    }
    if exists i: nat :: OccursAt(a, b, i) {
      var i: nat :| OccursAt(a, b, i);
      PositionIsSubstring(a, b, i);
    }
  }

  /** Every substring of a one-character string `[c]`: the empty one and `[c]`. */
  lemma {:induction false} SubstringsOfOne(a: string, c: char)
    ensures IsSubstring(a, [c]) <==> a == [] || a == [c]
  {
    assert [c][1..] == [];
    if |a| == 1 && IsPrefix(a, [c]) {
      assert a == [c][..1] == [c];
    }
    if a == [] {
      assert IsPrefix(a, [c]);
    }
  }

  /** Every substring of a two-character string `[c, d]`. */
  lemma {:induction false} SubstringsOfTwo(a: string, c: char, d: char)
    ensures IsSubstring(a, [c, d]) <==> a == [] || a == [c] || a == [d] || a == [c, d]
  {
    assert [c, d][1..] == [d];
    SubstringsOfOne(a, d);
    if a == [c] {
      assert [c, d][..1] == [c];
    }
    if a == [c, d] {
      assert [c, d][..2] == [c, d];
    }
    if IsPrefix(a, [c, d]) {
      assert |a| == 0 || |a| == 1 || |a| == 2;
      if |a| == 1 {
        assert a == [c, d][..1] == [c];
      } else if |a| == 2 {
        assert a == [c, d][..2] == [c, d];
      }
    }
  }
}
