/** The string order that sorting and tie-breaks rely on, and decimal rendering. */
module Strings {

  predicate Less(a: string, b: string) {
    if b == "" then false
    else if a == "" then true
    else a[0] < b[0] || (a[0] == b[0] && Less(a[1..], b[1..]))
  }

  lemma LessIrreflexive(a: string)
    ensures !Less(a, a)
  {
  }

  lemma {:induction false} LessTotal(a: string, b: string)
    ensures Less(a, b) || Less(b, a) || a == b
  {
    if a != "" && b != "" {
      LessTotal(a[1..], b[1..]);
      assert a == [a[0]] + a[1..] && b == [b[0]] + b[1..];
    }
  }

  lemma {:induction false} LessTransitive(a: string, b: string, c: string)
    requires Less(a, b) && Less(b, c)
    ensures Less(a, c)
  {
    if a != "" && a[0] == b[0] && b[0] == c[0] {
      LessTransitive(a[1..], b[1..], c[1..]);
    }
  }

  /** The smallest element of a non-empty set. */
  lemma {:induction false} HasLeast(s: set<string>) returns (least: string)
    requires s != {}
    ensures least in s && forall x :: x in s && x != least ==> Less(least, x)
    decreases s
  {
    var a :| a in s;
    if s == {a} {
      least := a;
    } else {
      var rest := s - {a};
      assert rest != {} && s == rest + {a};
      var b := HasLeast(rest);
      LessTotal(a, b);
      if Less(a, b) {
        least := a;
        forall x | x in s && x != a ensures Less(a, x) {
          if x != b {
            LessTransitive(a, b, x);
          }
        }
      } else {
        least := b;
      }
    }
  }

  ghost predicate Ascending(keys: seq<string>) {
    forall i, j :: 0 <= i < j < |keys| ==> Less(keys[i], keys[j])
  }

  /** The elements of a set in ascending order. */
  ghost function Sorted(s: set<string>): (keys: seq<string>)
    ensures Ascending(keys)
    ensures forall k :: k in keys <==> k in s
    decreases s
  {
    if s == {} then []
    else
      assert exists m :: IsLeast(s, m) by {
        var m := HasLeast(s);
        assert IsLeast(s, m);
      }
      var least :| IsLeast(s, least);
      [least] + Sorted(s - {least})
  }

  ghost predicate IsLeast(s: set<string>, m: string) {
    m in s && forall x :: x in s && x != m ==> Less(m, x)
  }

  /** An ascending enumeration of a set is its sorted sequence. */
  lemma {:induction false} AscendingIsSorted(keys: seq<string>, s: set<string>)
    requires Ascending(keys) && forall k :: k in keys <==> k in s
    ensures keys == Sorted(s)
    decreases |keys|
  {
    if keys == [] {
      assert forall k :: k !in s;
    } else {
      var sorted := Sorted(s);
      assert keys[0] in keys;
      assert sorted[0] in sorted;
      if keys[0] != sorted[0] {
        var i :| 0 <= i < |keys| && keys[i] == sorted[0];
        var j :| 0 <= j < |sorted| && sorted[j] == keys[0];
        LessTransitive(keys[0], sorted[0], keys[0]);
        LessIrreflexive(keys[0]);
        assert false;
      }
      forall k ensures k in keys[1..] <==> k in s - {keys[0]} {
        LessIrreflexive(keys[0]);
        assert k in keys <==> k == keys[0] || k in keys[1..];
      }
      AscendingIsSorted(keys[1..], s - {keys[0]});
    }
  }

  function Digit(d: nat): char
    requires d < 10
  {
    '0' + d as char
  }

  /** The decimal digits of a number. */
  function Decimal(n: nat): string {
    if n < 10 then [Digit(n)] else Decimal(n / 10) + [Digit(n % 10)]
  }

  lemma {:induction false} DecimalInjective(a: nat, b: nat)
    requires Decimal(a) == Decimal(b)
    ensures a == b
  {
    var x, y := Decimal(a), Decimal(b);
    assert x[|x| - 1] == Digit(a % 10) && y[|y| - 1] == Digit(b % 10);
    if a < 10 || b < 10 {
      DecimalLength(a);
      DecimalLength(b);
    } else {
      assert x[..|x| - 1] == Decimal(a / 10) && y[..|y| - 1] == Decimal(b / 10);
      DecimalInjective(a / 10, b / 10);
    }
  }

  lemma DecimalLength(n: nat)
    ensures |Decimal(n)| >= 1
    ensures |Decimal(n)| == 1 <==> n < 10
  {
  }

  // ----- pieces

  function Concat<T>(chunks: seq<seq<T>>): seq<T> {
    if chunks == [] then [] else chunks[0] + Concat(chunks[1..])
  }

  lemma ConcatCons<T>(c: seq<T>, chunks: seq<seq<T>>)
    ensures Concat([c] + chunks) == c + Concat(chunks)
  {
    assert ([c] + chunks)[1..] == chunks;
  }

  lemma MovePiece<T>(done: seq<seq<T>>, piece: seq<T>, rest: seq<seq<T>>)
    ensures done + ([piece] + rest) == (done + [piece]) + rest
  {
  }
}
