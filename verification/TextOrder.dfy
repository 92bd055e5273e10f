/** Python's ordering of strings, and `sorted` over a set of them. */
module TextOrder {
  import opened Sequences

  /** Strict lexicographic order by code point. */
  predicate Below(a: string, b: string) {
    b != "" && (a == "" || a[0] < b[0] || (a[0] == b[0] && Below(a[1..], b[1..])))
  }

  predicate Ascending(s: seq<string>) {
    forall i, j :: 0 <= i < j < |s| ==> Below(s[i], s[j])
  }

  /** The first difference is at position `k`, where `a` has the smaller character. */
  ghost predicate DiffersAt(a: string, b: string, k: int) {
    0 <= k < |a| && k < |b| && a[..k] == b[..k] && a[k] < b[k]
  }

  /** A proper prefix, or a smaller character at the first difference. */
  lemma {:induction false} BelowIff(a: string, b: string)
    ensures Below(a, b) <==>
            a < b || exists k :: DiffersAt(a, b, k)
  {
    if a == "" || b == "" {
    } else if a[0] != b[0] {
      assert DiffersAt(a, b, 0) <==> a[0] < b[0];
      assert !(a < b);
    } else {
      BelowIff(a[1..], b[1..]);
      SameStart(a, b);
    }
  }

  /** Where two texts with the same first character differ. */
  lemma SameStart(a: string, b: string)
    requires a != "" && b != "" && a[0] == b[0]
    ensures a < b <==> a[1..] < b[1..]
    ensures (exists k :: DiffersAt(a, b, k)) <==> exists k :: DiffersAt(a[1..], b[1..], k)
  {
    assert a == [a[0]] + a[1..] && b == [b[0]] + b[1..];
    forall k: int
      ensures k != 0 ==> (DiffersAt(a, b, k) <==> DiffersAt(a[1..], b[1..], k - 1))
    {
      if 0 < k <= |a| && k <= |b| {
        assert a[..k] == [a[0]] + a[1..][..k - 1] && b[..k] == [b[0]] + b[1..][..k - 1];
      }
    }
    if k :| DiffersAt(a[1..], b[1..], k) {
      assert DiffersAt(a, b, k + 1);
    }
  }

  lemma {:induction false} BelowIrreflexive(a: string)
    ensures !Below(a, a)
  {
    if a == "" {
    } else {
      BelowIrreflexive(a[1..]);
    }
  }

  lemma {:induction false} BelowTransitive(a: string, b: string, c: string)
    requires Below(a, b) && Below(b, c)
    ensures Below(a, c)
  {
    if a == "" || !(a[0] == b[0] == c[0]) {
    } else {
      BelowTransitive(a[1..], b[1..], c[1..]);
    }
  }

  lemma {:induction false} BelowTotal(a: string, b: string)
    ensures a == b || Below(a, b) || Below(b, a)
  {
    if a == "" || b == "" || a[0] != b[0] {
    } else {
      BelowTotal(a[1..], b[1..]);
      assert a == [a[0]] + a[1..] && b == [b[0]] + b[1..];
    }
  }

  function Insert(x: string, s: seq<string>): (r: seq<string>)
    requires Ascending(s) && x !in s
    ensures Elements(r) == Elements(s) + {x} && Ascending(r)
  {
    if s == [] then [x]
    else if Below(x, s[0]) then
      assert Ascending([x] + s) by {
        forall j | 0 < j < |s| ensures Below(x, s[j]) { BelowTransitive(x, s[0], s[j]); }
      }
      [x] + s
    else
      var r := Insert(x, s[1..]);
      assert Ascending([s[0]] + r) by {
        BelowTotal(x, s[0]);
        forall y | y in r ensures Below(s[0], y) {
          assert y in Elements(r);
        }
      }
      assert Elements([s[0]] + r) == Elements(s) + {x} by {
        assert forall y :: y in [s[0]] + r <==> y == s[0] || y in Elements(r);
      }
      [s[0]] + r
  }

  /** `sorted(list(s))`: the ascending list of exactly the members of `s`. */
  method Sorted(s: set<string>) returns (r: seq<string>)
    ensures Ascending(r) && Elements(r) == s
  {
    r := [];
    var left := s;
    while left != {}
      invariant left <= s && Ascending(r) && Elements(r) == s - left
      decreases left
    {
      var x :| x in left;
      assert x !in Elements(r);
      r := Insert(x, r);
      left := left - {x};
    }
  }

  /** An ascending list has no repetition and is determined by its members. */
  lemma {:induction false} AscendingUnique(a: seq<string>, b: seq<string>)
    requires Ascending(a) && Ascending(b) && Elements(a) == Elements(b)
    ensures a == b && NoDup(a)
  {
    forall i, j | 0 <= i < j < |a|
      ensures a[i] != a[j]
    {
      BelowIrreflexive(a[i]);
    }
    assert a != [] ==> a[0] in Elements(b);
    assert b != [] ==> b[0] in Elements(a);
    if a == [] {
    } else {
      assert a[0] in Elements(b) && b[0] in Elements(a);
      var i :| 0 <= i < |a| && a[i] == b[0];
      var j :| 0 <= j < |b| && b[j] == a[0];
      if i > 0 && j > 0 {
        BelowTransitive(a[0], b[0], a[0]);
        BelowIrreflexive(a[0]);
      }
      assert a[0] == b[0];
      BelowIrreflexive(a[0]);
      assert Elements(a[1..]) == Elements(a) - {a[0]};
      assert Elements(b[1..]) == Elements(b) - {b[0]};
      AscendingUnique(a[1..], b[1..]);
    }
  }
}
