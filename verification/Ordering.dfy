// The order of Go strings (bytewise, which on valid UTF-8 is the order of the code
// points) and the sorted keys of a finite set of strings.
module Ordering {

  /** a sorts strictly before b. */
  predicate Less(a: string, b: string) {
    b != [] && (a == [] || a[0] < b[0] || (a[0] == b[0] && Less(a[1..], b[1..])))
  }

  lemma {:induction false} LessIrreflexive(a: string)
    ensures !Less(a, a)
  {
    if a != [] { LessIrreflexive(a[1..]); }
  }

  lemma {:induction false} LessTransitive(a: string, b: string, c: string)
    requires Less(a, b) && Less(b, c)
    ensures Less(a, c)
  {
    if a != [] && a[0] == b[0] && b[0] == c[0] {
      LessTransitive(a[1..], b[1..], c[1..]);
    }
  }

  lemma {:induction false} LessTotal(a: string, b: string)
    ensures a == b || Less(a, b) || Less(b, a)
  {
    if a != [] && b != [] && a[0] == b[0] {
      LessTotal(a[1..], b[1..]);
      assert a == [a[0]] + a[1..] && b == [b[0]] + b[1..];
    }
  }

  /** m sorts before every other element of s. */
  predicate IsLeast(m: string, s: set<string>) {
    m in s && forall k :: k in s && k != m ==> Less(m, k)
  }

  lemma {:induction false} LeastExists(s: set<string>)
    requires s != {}
    ensures exists m :: IsLeast(m, s)
    decreases s
  {
    var x :| x in s;
    var rest := s - {x};
    if rest == {} {
      assert s == {x};
      assert IsLeast(x, s);
    } else {
      LeastExists(rest);
      var m :| IsLeast(m, rest);
      LessTotal(x, m);
      if Less(x, m) {
        forall k | k in s && k != x
          ensures Less(x, k)
        {
          if k != m { LessTransitive(x, m, k); }
        }
        assert IsLeast(x, s);
      } else {
        assert IsLeast(m, s);
      }
    }
  }

  lemma LeastUnique(a: string, b: string, s: set<string>)
    requires IsLeast(a, s) && IsLeast(b, s)
    ensures a == b
  {
    if a != b {
      LessTransitive(a, b, a);
      LessIrreflexive(a);
    }
  }

  /** The elements of s in increasing order. */
  function SortedKeys(s: set<string>): (keys: seq<string>)
    ensures forall k :: k in keys <==> k in s
    decreases s
  {
    if s == {} then []
    else
      LeastExists(s);
      assert forall a, b :: IsLeast(a, s) && IsLeast(b, s) ==> a == b by {
        forall a, b | IsLeast(a, s) && IsLeast(b, s) ensures a == b { LeastUnique(a, b, s); }
      }
      var m :| IsLeast(m, s);
      [m] + SortedKeys(s - {m})
  }

  /** Strictly increasing sequences of strings. */
  predicate Increasing(keys: seq<string>) {
    forall i, j :: 0 <= i < j < |keys| ==> Less(keys[i], keys[j])
  }

  lemma {:induction false} SortedKeysIncreasing(s: set<string>)
    ensures Increasing(SortedKeys(s))
    ensures |SortedKeys(s)| == |s|
    decreases s
  {
    if s != {} {
      LeastExists(s);
      var m := SortedKeys(s)[0];
      assert SortedKeys(s) == [m] + SortedKeys(s - {m});
      SortedKeysIncreasing(s - {m});
      var rest := SortedKeys(s - {m});
      forall i, j | 0 <= i < j < |SortedKeys(s)|
        ensures Less(SortedKeys(s)[i], SortedKeys(s)[j])
      {
        if i == 0 {
          assert rest[j - 1] in rest;
        } else {
          assert Less(rest[i - 1], rest[j - 1]);
        }
      }
    }
  }

  lemma IncreasingDistinct(keys: seq<string>, i: nat, j: nat)
    requires Increasing(keys) && i < j < |keys|
    ensures keys[i] != keys[j]
  {
    LessIrreflexive(keys[i]);
  }

  lemma IncreasingPrefix(keys: seq<string>)
    requires Increasing(keys) && keys != []
    ensures Increasing(keys[..|keys| - 1])
    ensures keys[|keys| - 1] !in keys[..|keys| - 1]
  {
    forall i | 0 <= i < |keys| - 1
      ensures keys[i] != keys[|keys| - 1]
    {
      IncreasingDistinct(keys, i, |keys| - 1);
    }
  }
}
