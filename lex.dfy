/**
 Lexicographic comparison of strings by character code.

 The itinerary store compares ISO dates (`YYYY-MM-DD`) and times (`HH:MM`)
 as strings, with JavaScript's `<` and `>` in the validation chain and with
 `localeCompare` in the sort comparator. On fixed-width ASCII digit strings
 both agree with plain character-by-character order, which `Compare` models.
 */
module Lex {

  /** Three-way comparison: -1 when `a` sorts before `b`, 0 when equal, 1 after. */
  function Compare(a: string, b: string): (r: int)
    ensures -1 <= r <= 1
    decreases |a|
  {
    if a == [] then (if b == [] then 0 else -1)
    else if b == [] then 1
    else if a[0] < b[0] then -1
    else if b[0] < a[0] then 1
    else Compare(a[1..], b[1..])
  }

  /** Only equal strings compare equal. */
  lemma {:induction false} CompareZero(a: string, b: string)
    ensures Compare(a, b) == 0 <==> a == b
    decreases |a|
  {
    if a != [] && b != [] && a[0] == b[0] {
      CompareZero(a[1..], b[1..]);
      assert a == [a[0]] + a[1..] && b == [b[0]] + b[1..];
    }
  }

  /** Reference definition of lexicographic order: a proper prefix, or the first
      differing character is smaller. */
  ghost predicate LexLess(a: string, b: string) {
    (|a| < |b| && a == b[..|a|]) ||
    exists k :: 0 <= k < |a| && k < |b| && a[..k] == b[..k] && a[k] < b[k]
  }

  /** `Compare` orders strings exactly as the reference definition does. */
  lemma {:induction false} CompareIsLexicographic(a: string, b: string)
    ensures Compare(a, b) < 0 <==> LexLess(a, b)
    decreases |a|
  {
    if a == [] {
      if b != [] {
        assert a == b[..0];
      }
    } else if b == [] {
    } else if a[0] < b[0] {
      assert a[..0] == b[..0];
    } else if b[0] < a[0] {
      forall k | 0 < k < |a| && k < |b| && a[..k] == b[..k]
        ensures a[0] == b[0]
      {
        assert a[..k][0] == b[..k][0];
      }
    } else {
      var a', b' := a[1..], b[1..];
      CompareIsLexicographic(a', b');
      if LexLess(a', b') {
        if |a'| < |b'| && a' == b'[..|a'|] {
          assert a == [a[0]] + a' && b[..|a|] == [b[0]] + b'[..|a'|];
        } else {
          var k :| 0 <= k < |a'| && k < |b'| && a'[..k] == b'[..k] && a'[k] < b'[k];
          assert a[..k+1] == [a[0]] + a'[..k] && b[..k+1] == [b[0]] + b'[..k];
          assert a[k+1] == a'[k] && b[k+1] == b'[k];
        }
      }
      if LexLess(a, b) {
        if |a| < |b| && a == b[..|a|] {
          assert a' == b'[..|a'|];
        } else {
          var k :| 0 <= k < |a| && k < |b| && a[..k] == b[..k] && a[k] < b[k];
          assert k != 0;
          assert a'[..k-1] == a[..k][1..] && b'[..k-1] == b[..k][1..];
          assert a'[k-1] == a[k] && b'[k-1] == b[k];
        }
      }
    }
  }

  /** Swapping the arguments negates the comparison. */
  lemma {:induction false} CompareFlip(a: string, b: string)
    ensures Compare(b, a) == -Compare(a, b)
    decreases |a|
  {
    if a != [] && b != [] && a[0] == b[0] {
      CompareFlip(a[1..], b[1..]);
    }
  }

  /** Non-strict order is transitive, and strict when either step is strict. */
  lemma {:induction false} CompareTrans(a: string, b: string, c: string)
    requires Compare(a, b) <= 0 && Compare(b, c) <= 0
    ensures Compare(a, c) <= 0
    ensures Compare(a, b) < 0 || Compare(b, c) < 0 ==> Compare(a, c) < 0
    decreases |a|
  {
    if a != [] && b != [] && c != [] && a[0] == b[0] == c[0] {
      CompareTrans(a[1..], b[1..], c[1..]);
    }
    CompareZero(a, c);
    if a == c {
      CompareFlip(a, b);
    }
  }

  /** JavaScript's `a < b` on strings: lexicographic order by character code. */
  predicate Less(a: string, b: string): (r: bool)
    ensures r <==> LexLess(a, b)
  {
    CompareIsLexicographic(a, b);
    Compare(a, b) < 0
  }
}
