/** Orders used to enumerate the keys of the ordered maps (`BTreeMap`) the source iterates over. */
module Order {

  /** Lexicographic order on strings by code point: the order of Rust's `String`
      (byte-wise UTF-8 comparison agrees with code-point comparison). */
  predicate StrLt(a: string, b: string)
  {
    if |a| == 0 then |b| > 0
    else if |b| == 0 then false
    else if a[0] == b[0] then StrLt(a[1..], b[1..])
    else a[0] < b[0]
  }

  lemma {:induction false} StrLtIrreflexive(a: string)
    ensures !StrLt(a, a)
  {
    if |a| > 0 { StrLtIrreflexive(a[1..]); }
  }

  lemma {:induction false} StrLtTransitive(a: string, b: string, c: string)
    requires StrLt(a, b) && StrLt(b, c)
    ensures StrLt(a, c)
  {
    if |a| > 0 && |b| > 0 && |c| > 0 && a[0] == b[0] && b[0] == c[0] {
      StrLtTransitive(a[1..], b[1..], c[1..]);
    }
  }

  lemma {:induction false} StrLtTotal(a: string, b: string)
    requires a != b
    ensures StrLt(a, b) || StrLt(b, a)
  {
    if |a| > 0 && |b| > 0 && a[0] == b[0] {
      assert a == [a[0]] + a[1..] && b == [b[0]] + b[1..];
      StrLtTotal(a[1..], b[1..]);
    }
  }

  /** Every finite non-empty set of strings has a least element: a `BTreeMap<String, _>`
      can always yield its next key. */
  lemma {:induction false} StrMinExists(s: set<string>)
    requires s != {}
    ensures exists m :: m in s && forall x :: x in s && x != m ==> StrLt(m, x)
    decreases |s|
  {
    var x :| x in s;
    if s == {x} {
      assert forall y :: y in s ==> y == x;
    } else {
      var rest := s - {x};
      StrMinExists(rest);
      var m :| m in rest && forall y :: y in rest && y != m ==> StrLt(m, y);
      if StrLt(x, m) {
        forall y | y in s && y != x
          ensures StrLt(x, y)
        {
          if y != m { StrLtTransitive(x, m, y); }
        }
      } else {
        StrLtTotal(x, m);
        assert m in s && forall y :: y in s && y != m ==> StrLt(m, y);
      }
    }
  }

  lemma IntSetInhabited(s: set<int>)
    requires s != {}
    ensures exists x :: x in s
  {
    if forall x :: x !in s { assert false; }
  }

  ghost function PickInt(s: set<int>): (x: int)
    requires s != {}
    ensures x in s
  {
    IntSetInhabited(s);
    var x :| x in s; x
  }

  /** Every finite non-empty set of integers has a least element. */
  lemma {:induction false} IntMinExists(s: set<int>)
    requires s != {}
    ensures exists m :: m in s && forall x :: x in s ==> m <= x
    decreases |s|
  {
    var x := PickInt(s);
    if s == {x} {
      assert forall y :: y in s ==> y == x;
    } else {
      var rest := s - {x};
      assert |rest| == |s| - 1;
      IntMinExists(rest);
      var m :| m in rest && forall y :: y in rest ==> m <= y;
      assert s == rest + {x};
      MinOfAdd(rest, x, m);
    }
  }

  lemma MinOfAdd(rest: set<int>, x: int, m: int)
    requires m in rest && forall y :: y in rest ==> m <= y
    ensures var least := if x < m then x else m;
      least in rest + {x} && forall y :: y in rest + {x} ==> least <= y
  {
  }

  ghost function IntMin(s: set<int>): (m: int)
    requires s != {}
    ensures m in s && forall x :: x in s ==> m <= x
  {
    IntMinExists(s);
    var m :| m in s && forall x :: x in s ==> m <= x; m
  }

  /** The elements of `s` in ascending order: the order in which a `BTreeMap<_, _>` with
      integer-like keys is traversed. */
  ghost function Ascending(s: set<int>): (r: seq<int>)
    decreases |s|
  {
    if s == {} then []
    else
      var m := IntMin(s);
      [m] + Ascending(s - {m})
  }

  /** `Ascending(s)` lists every element of `s` exactly once, in strictly increasing order. */
  lemma AscendingSpec(s: set<int>)
    ensures |Ascending(s)| == |s|
    ensures forall i :: 0 <= i < |Ascending(s)| ==> Ascending(s)[i] in s
    ensures forall x :: x in s ==> x in Ascending(s)
    ensures forall i, j :: 0 <= i < j < |Ascending(s)| ==> Ascending(s)[i] < Ascending(s)[j]
  {
    AscendingMembers(s);
    AscendingIncreasing(s);
  }

  lemma {:induction false} AscendingMembers(s: set<int>)
    ensures |Ascending(s)| == |s|
    ensures forall x :: x in Ascending(s) <==> x in s
    decreases |s|
  {
    if s != {} {
      var m := IntMin(s);
      var rest := s - {m};
      AscendingMembers(rest);
      assert Ascending(s) == [m] + Ascending(rest);
    }
  }

  lemma {:induction false} AscendingIncreasing(s: set<int>)
    ensures forall i, j :: 0 <= i < j < |Ascending(s)| ==> Ascending(s)[i] < Ascending(s)[j]
    decreases |s|
  {
    if s != {} {
      var m := IntMin(s);
      var rest := s - {m};
      AscendingIncreasing(rest);
      AscendingMembers(rest);
      var r, t := Ascending(s), Ascending(rest);
      assert r == [m] + t;
      forall i, j | 0 <= i < j < |r| ensures r[i] < r[j] {
        assert r[j] == t[j - 1] && r[j] in rest;
        if i > 0 {
          assert r[i] == t[i - 1];
        }
      }
    }
  }
}
