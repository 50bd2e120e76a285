/** Values shared by every component: optional values, Go map reads, the byte order
    on strings and Go's truncating division. */
module Basics {

  datatype Option<+T> = None | Some(value: T)

  /** A Go map read: a missing key yields the zero value. */
  function Label(labels: map<string, string>, key: string): string {
    if key in labels then labels[key] else ""
  }

  function Quantity(m: map<string, int>, key: string): int {
    if key in m then m[key] else 0
  }

  function Max(a: int, b: int): int {
    if a > b then a else b
  }

  function Min(a: int, b: int): int {
    if a < b then a else b
  }

  /** Go's integer division, which truncates toward zero. */
  function GoDiv(a: int, b: int): int
    requires b != 0
  {
    if a >= 0 then a / b else -((-a) / b)
  }

  /** The quotient drops the fraction: the remainder is smaller than the divisor and has the
      sign of the dividend. */
  lemma GoDivExactly(a: int, b: int)
    requires b > 0
    ensures a >= 0 ==> 0 <= a - GoDiv(a, b) * b < b
    ensures a < 0 ==> -b < a - GoDiv(a, b) * b <= 0
  {
  }

  /** Go's `<` on strings (Dafny's own `<` on sequences is the prefix order). */
  predicate LexLess(a: string, b: string) {
    if b == [] then false
    else if a == [] then true
    else a[0] < b[0] || (a[0] == b[0] && LexLess(a[1..], b[1..]))
  }

  lemma SameStart(a: string, b: string, k: nat)
    requires k <= |a| && k <= |b| && a[..k] == b[..k]
    ensures k > 0 ==> a[0] == b[0]
  {
    if k > 0 {
      assert a[..k][0] == b[..k][0];
    }
  }

  /** One string precedes another exactly when it is a proper prefix of it, or has the lesser
      character at the first place where they differ. */
  lemma {:induction false} LexExactly(a: string, b: string)
    ensures LexLess(a, b)
            <==> exists k :: 0 <= k <= |a| && k < |b| && a[..k] == b[..k] && (k < |a| ==> a[k] < b[k])
  {
    if a == [] || b == [] {
      if b != [] {
        assert a[..0] == b[..0];
      }
    } else {
      LexExactly(a[1..], b[1..]);
      if a[0] == b[0] {
        if k :| 0 <= k <= |a[1..]| && k < |b[1..]| && a[1..][..k] == b[1..][..k] && (k < |a[1..]| ==> a[1..][k] < b[1..][k]) {
          assert a[..k + 1] == [a[0]] + a[1..][..k] && b[..k + 1] == [b[0]] + b[1..][..k];
        }
        if k :| 0 <= k <= |a| && k < |b| && a[..k] == b[..k] && (k < |a| ==> a[k] < b[k]) {
          assert k > 0;
          assert a[1..][..k - 1] == a[..k][1..] && b[1..][..k - 1] == b[..k][1..];
        }
      } else {
        assert a[..0] == b[..0];
        if k :| 0 <= k <= |a| && k < |b| && a[..k] == b[..k] && (k < |a| ==> a[k] < b[k]) {
          SameStart(a, b, k);
        }
      }
    }
  }

  lemma {:induction false} LexIrreflexive(a: string)
    ensures !LexLess(a, a)
  {
    if a == [] {
    } else {
      LexIrreflexive(a[1..]);
    }
  }

  lemma {:induction false} LexTransitive(a: string, b: string, c: string)
    requires LexLess(a, b) && LexLess(b, c)
    ensures LexLess(a, c)
  {
    if a != [] && a[0] == b[0] && b[0] == c[0] {
      LexTransitive(a[1..], b[1..], c[1..]);
    }
  }

  lemma {:induction false} LexTotal(a: string, b: string)
    ensures a == b || LexLess(a, b) || LexLess(b, a)
  {
    if a != [] && b != [] && a[0] == b[0] {
      LexTotal(a[1..], b[1..]);
      if a[1..] == b[1..] {
        assert a == [a[0]] + a[1..];
        assert b == [b[0]] + b[1..];
      }
    }
  }

  /** Whether no two positions of `s` hold the same value. */
  ghost predicate Distinct<T>(s: seq<T>) {
    forall i, j :: 0 <= i < j < |s| ==> s[i] != s[j]
  }

  /** `s` followed by every element of `extra` it does not yet hold, in order of first
      appearance: the "seen" map idiom. */
  function AddNew(s: seq<string>, extra: seq<string>): (r: seq<string>)
    ensures forall x :: x in r <==> x in s || x in extra
    ensures Distinct(s) ==> Distinct(r)
  {
    if extra == [] then s
    else
      var prev := AddNew(s, extra[..|extra| - 1]);
      var last := extra[|extra| - 1];
      assert extra == extra[..|extra| - 1] + [last];
      if last in prev then prev else prev + [last]
  }
}
