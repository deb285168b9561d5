/** Shared vocabulary: options, bytes, instants and the string order that Go's `<` gives. */
module Basics {

  datatype Option<+T> = None | Some(value: T)

  newtype byte = x: int | 0 <= x < 256

  type Bytes = seq<byte>

  /** Nanoseconds since Go's zero time, so `t == 0` is `t.IsZero()`. */
  type Time = nat

  const SECOND: nat := 1_000_000_000
  const MINUTE: nat := 60 * SECOND
}

/** The lexicographic order on strings, and the sorted listing of a finite set of strings. */
module Order {

  predicate Less(a: string, b: string) {
    b != [] && (a == [] || a[0] < b[0] || (a[0] == b[0] && Less(a[1..], b[1..])))
  }

  /** The first place where two strings differ decides, and a string goes after its proper prefixes. */
  lemma {:induction false} LessMeaning(common: string, a: string, b: string)
    requires a != [] && b != [] ==> a[0] != b[0]
    ensures Less(common + a, common + b) <==> b != [] && (a == [] || a[0] < b[0])
  {
    if common == [] {
      assert common + a == a && common + b == b;
    } else {
      LessMeaning(common[1..], a, b);
      assert (common + a)[1..] == common[1..] + a && (common + b)[1..] == common[1..] + b;
    }
  }

  /** Exactly one of `a < b`, `a == b`, `b < a`. */
  lemma {:induction false} Trichotomy(a: string, b: string)
    ensures Less(a, b) || a == b || Less(b, a)
    ensures !(Less(a, b) && Less(b, a)) && !Less(a, a)
  {
    if a == [] {
    } else if b == [] {
      Trichotomy(a[1..], a[1..]);
    } else {
      Trichotomy(a[1..], b[1..]);
      Trichotomy(a[1..], a[1..]);
      assert a == [a[0]] + a[1..] && b == [b[0]] + b[1..];
    }
  }

  lemma {:induction false} Transitive(a: string, b: string, c: string)
    requires Less(a, b) && Less(b, c)
    ensures Less(a, c)
  {
    if a == [] {
    } else if a[0] == b[0] && b[0] == c[0] {
      Transitive(a[1..], b[1..], c[1..]);
    }
  }

  ghost predicate IsLeast(m: string, s: set<string>) {
    m in s && forall x :: x in s && x != m ==> Less(m, x)
  }

  lemma {:induction false} LeastExists(s: set<string>)
    requires s != {}
    ensures exists m :: IsLeast(m, s)
    decreases |s|
  {
    var x :| x in s;
    if y :| y in s && y != x {
      var rest := s - {x};
      assert y in rest;
      LeastExists(rest);
      var m :| IsLeast(m, rest);
      Trichotomy(m, x);
      if Less(m, x) {
        assert IsLeast(m, s);
      } else {
        forall z | z in s && z != x ensures Less(x, z) {
          if z != m { Transitive(x, m, z); }
        }
        assert IsLeast(x, s);
      }
    } else {
      assert IsLeast(x, s);
    }
  }

  ghost predicate Increasing(q: seq<string>) {
    forall i, j :: 0 <= i < j < |q| ==> Less(q[i], q[j])
  }

  ghost function Elements(q: seq<string>): set<string> {
    set x | x in q
  }

  lemma PrependLeast(m: string, s: set<string>, rest: seq<string>)
    requires IsLeast(m, s) && Increasing(rest) && Elements(rest) == s - {m}
    ensures Increasing([m] + rest) && Elements([m] + rest) == s
  {
    var q := [m] + rest;
    forall i | 0 <= i < |rest| ensures Less(m, rest[i]) { assert rest[i] in Elements(rest); }
    assert Elements(q) == {m} + Elements(rest);
  }

  /** The elements of `s` in increasing order. */
  ghost function Sorted(s: set<string>): (q: seq<string>)
    ensures Increasing(q) && Elements(q) == s
    decreases |s|
  {
    if s == {} then []
    else
      LeastExists(s);
      var m :| IsLeast(m, s);
      var rest := Sorted(s - {m});
      PrependLeast(m, s, rest);
      [m] + rest
  }

  /** A strictly increasing sequence is determined by its elements. */
  lemma {:induction false} IncreasingUnique(p: seq<string>, q: seq<string>)
    requires Increasing(p) && Increasing(q) && Elements(p) == Elements(q)
    ensures p == q
  {
    OnlyEmptyHasNone(p);
    OnlyEmptyHasNone(q);
    if p != [] {
      assert p[0] in Elements(p) && q[0] in Elements(q);
      var i :| 0 <= i < |q| && q[i] == p[0];
      var j :| 0 <= j < |p| && p[j] == q[0];
      Trichotomy(p[0], q[0]);
      HeadNotInTail(p);
      HeadNotInTail(q);
      assert Elements(p[1..]) == Elements(p) - {p[0]};
      assert Elements(q[1..]) == Elements(q) - {q[0]};
      IncreasingUnique(p[1..], q[1..]);
      assert p == [p[0]] + p[1..] && q == [q[0]] + q[1..];
    }
  }

  lemma OnlyEmptyHasNone(q: seq<string>)
    ensures Elements(q) == {} ==> q == []
  {
    if q != [] { assert q[0] in Elements(q); }
  }

  lemma HeadNotInTail(q: seq<string>)
    requires q != [] && Increasing(q)
    ensures q[0] !in q[1..]
  {
    forall i | 1 <= i < |q| ensures q[i] != q[0] { Trichotomy(q[0], q[i]); }
  }
}
