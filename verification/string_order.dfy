/**
 The key order of `std::map<std::string, ...>`: `std::string`'s `operator<`,
 which compares character by character and puts a proper prefix first.
 Iterating such a map visits its keys in this order.
 */
module StringOrder {

  /** Lexicographic strict order on strings. */
  predicate Less(a: string, b: string)
    decreases |a|
  {
    |b| > 0 && (|a| == 0 || a[0] < b[0] || (a[0] == b[0] && Less(a[1..], b[1..])))
  }

  lemma {:induction false} LessIrreflexive(a: string)
    ensures !Less(a, a)
    decreases |a|
  {
    if |a| > 0 {
      LessIrreflexive(a[1..]);
    }
  }

  lemma {:induction false} LessTransitive(a: string, b: string, c: string)
    requires Less(a, b) && Less(b, c)
    ensures Less(a, c)
    decreases |a|
  {
    if |a| > 0 && a[0] == b[0] && b[0] == c[0] {
      LessTransitive(a[1..], b[1..], c[1..]);
    }
  }

  /** Any two distinct strings are ordered one way or the other. */
  lemma {:induction false} LessTotal(a: string, b: string)
    ensures a == b || Less(a, b) || Less(b, a)
    decreases |a|
  {
    if |a| > 0 && |b| > 0 && a[0] == b[0] {
      LessTotal(a[1..], b[1..]);
      if a[1..] == b[1..] {
        assert a == [a[0]] + a[1..] && b == [b[0]] + b[1..];
      }
    }
  }

  lemma LessAsymmetric(a: string, b: string)
    requires Less(a, b)
    ensures !Less(b, a)
  {
    if Less(b, a) {
      LessTransitive(a, b, a);
      LessIrreflexive(a);
    }
  }

  /** Every element of `s` comes strictly before every later one. */
  ghost predicate StrictlyAscending(s: seq<string>)
  {
    forall i, j :: 0 <= i < j < |s| ==> Less(s[i], s[j])
  }

  /** `m` is the least element of `keys`. */
  predicate IsLeast(m: string, keys: set<string>)
  {
    m in keys && forall y :: y in keys && y != m ==> Less(m, y)
  }

  lemma {:induction false} LeastExists(keys: set<string>)
    requires keys != {}
    ensures exists m :: IsLeast(m, keys)
    decreases |keys|
  {
    var x :| x in keys;
    var rest := keys - {x};
    if rest == {} {
      assert keys == {x};
      assert IsLeast(x, keys);
    } else {
      LeastExists(rest);
      var m :| IsLeast(m, rest);
      LessTotal(x, m);
      if Less(x, m) {
        forall y | y in keys && y != x
          ensures Less(x, y)
        {
          if y != m {
            LessTransitive(x, m, y);
          }
        }
        assert IsLeast(x, keys);
      } else {
        assert IsLeast(m, keys);
      }
    }
  }

  /**
   The keys of a string-keyed map in the order `std::map` iterates them:
   every key exactly once, ascending.
   */
  method SortedKeys<V>(m: map<string, V>) returns (r: seq<string>)
    ensures StrictlyAscending(r)
    ensures forall k :: k in m <==> k in r
    ensures |r| == |m|
  {
    r := [];
    var rest := m.Keys;
    while rest != {}
      invariant StrictlyAscending(r)
      invariant forall k :: k in m <==> k in r || k in rest
      invariant forall i :: 0 <= i < |r| ==> r[i] !in rest
      invariant forall i, y :: 0 <= i < |r| && y in rest ==> Less(r[i], y)
      invariant |r| + |rest| == |m|
      decreases |rest|
    {
      LeastExists(rest);
      var k :| IsLeast(k, rest);
      r := r + [k];
      rest := rest - {k};
    }
  }

  /** Two strictly ascending sequences of equal length holding the same strings are equal. */
  lemma {:induction false} AscendingUnique(a: seq<string>, b: seq<string>)
    requires StrictlyAscending(a) && StrictlyAscending(b)
    requires |a| == |b|
    requires forall k :: k in a <==> k in b
    ensures a == b
    decreases |a|
  {
    if |a| > 0 {
      assert a[0] in a && b[0] in b;
      if a[0] != b[0] {
        var i :| 0 <= i < |a| && a[i] == b[0];
        var j :| 0 <= j < |b| && b[j] == a[0];
        assert Less(a[0], b[0]) by { assert i > 0; }
        assert Less(b[0], a[0]) by { assert j > 0; }
        LessAsymmetric(a[0], b[0]);
      }
      forall k
        ensures k in a[1..] <==> k in b[1..]
      {
        if k in a[1..] {
          var i :| 1 <= i < |a| && a[i] == k;
          LessIrreflexive(k);
          assert k != a[0];
          assert k in b;
        }
        if k in b[1..] {
          var j :| 1 <= j < |b| && b[j] == k;
          LessIrreflexive(k);
          assert k != b[0];
          assert k in a;
        }
      }
      AscendingUnique(a[1..], b[1..]);
      assert a == [a[0]] + a[1..] && b == [b[0]] + b[1..];
    }
  }
}
