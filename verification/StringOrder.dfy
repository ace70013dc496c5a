/** The order of `sort.Strings`, and what a sorted list without repetitions says about its elements. */
module StringOrder {

  predicate Before(a: string, b: string) {
    b != "" && (a == "" || a[0] < b[0] || (a[0] == b[0] && Before(a[1..], b[1..])))
  }

  lemma {:induction false} BeforeTotal(a: string, b: string)
    ensures a == b || Before(a, b) || Before(b, a)
    ensures !(Before(a, b) && Before(b, a)) && !Before(a, a)
  {
    if a != "" && b != "" {
      BeforeTotal(a[1..], b[1..]);
      assert a == [a[0]] + a[1..] && b == [b[0]] + b[1..];
    } else if a != "" {
      BeforeTotal(a[1..], a[1..]);
    }
  }

  lemma {:induction false} BeforeTransitive(a: string, b: string, c: string)
    requires Before(a, b) && Before(b, c)
    ensures Before(a, c)
  {
    if a != "" && a[0] == b[0] == c[0] {
      BeforeTransitive(a[1..], b[1..], c[1..]);
    }
  }

  /** Sorted and free of repetitions. */
  ghost predicate Ascending(s: seq<string>) {
    forall i, j | 0 <= i < j < |s| :: Before(s[i], s[j])
  }

  function Elements(s: seq<string>): set<string> {
    set x | x in s
  }

  lemma ElementsUpTo(s: seq<string>, n: nat)
    requires n < |s|
    ensures Elements(s[..n + 1]) == Elements(s[..n]) + {s[n]}
  {
    assert s[..n + 1] == s[..n] + [s[n]];
  }

  lemma PrependAscending(x: string, s: seq<string>)
    requires Ascending(s) && forall y | y in Elements(s) :: Before(x, y)
    ensures Ascending([x] + s) && Elements([x] + s) == Elements(s) + {x}
  {
    assert forall i | 0 <= i < |s| :: s[i] in Elements(s);
  }

  lemma FirstIsLeast(s: seq<string>, x: string, y: string)
    requires Ascending(s) && s != [] && Before(x, s[0]) && y in Elements(s)
    ensures Before(x, y)
  {
    var i :| 0 <= i < |s| && s[i] == y;
    if i > 0 {
      BeforeTransitive(x, s[0], s[i]);
    }
  }

  /** `sort.Strings` on a list without repetitions, one element at a time. */
  function Insert(s: seq<string>, x: string): (r: seq<string>)
    requires Ascending(s) && x !in s
    ensures Ascending(r) && Elements(r) == Elements(s) + {x}
  {
    if s == [] then [x]
    else if Before(x, s[0]) then
      assert Ascending([x] + s) && Elements([x] + s) == Elements(s) + {x} by {
        forall y | y in Elements(s) ensures Before(x, y) { FirstIsLeast(s, x, y); }
        PrependAscending(x, s);
      }
      [x] + s
    else
      var r := Insert(s[1..], x);
      assert Ascending([s[0]] + r) && Elements([s[0]] + r) == Elements(s) + {x} by {
        BeforeTotal(s[0], x);
        assert s == [s[0]] + s[1..];
        PrependAscending(s[0], r);
      }
      [s[0]] + r
  }

  lemma SortedListExists(keys: set<string>)
    ensures exists s :: Ascending(s) && Elements(s) == keys
  {
    if keys == {} {
      assert Ascending([]) && Elements([]) == keys;
    } else {
      var k :| k in keys;
      SortedListExists(keys - {k});
      var s :| Ascending(s) && Elements(s) == keys - {k};
      assert Ascending(Insert(s, k)) && Elements(Insert(s, k)) == keys;
    }
  }

  ghost function Sorted(keys: set<string>): (s: seq<string>)
    ensures Ascending(s) && Elements(s) == keys
  {
    SortedListExists(keys);
    var s :| Ascending(s) && Elements(s) == keys;
    s
  }

  /** An ascending list is determined by its elements. */
  lemma {:induction false} AscendingUnique(a: seq<string>, b: seq<string>)
    requires Ascending(a) && Ascending(b) && Elements(a) == Elements(b)
    ensures a == b
    decreases |a|
  {
    assert b != [] ==> b[0] in Elements(b);
    if a != [] {
      assert a[0] in Elements(b) && b != [];
      assert b[0] in Elements(a);
      SameHead(a, b);
      RestElements(a);
      RestElements(b);
      AscendingUnique(a[1..], b[1..]);
      assert a == [a[0]] + a[1..] && b == [b[0]] + b[1..];
    }
  }

  lemma SameHead(a: seq<string>, b: seq<string>)
    requires Ascending(a) && Ascending(b) && a != [] && b != [] && a[0] in b && b[0] in a
    ensures a[0] == b[0]
  {
    var i :| 0 <= i < |b| && b[i] == a[0];
    var j :| 0 <= j < |a| && a[j] == b[0];
    BeforeTotal(a[0], b[0]);
  }

  lemma RestElements(a: seq<string>)
    requires Ascending(a) && a != []
    ensures Elements(a[1..]) == Elements(a) - {a[0]}
  {
    forall i | 1 <= i < |a|
      ensures a[i] != a[0]
    {
      BeforeTotal(a[0], a[i]);
    }
    assert a == [a[0]] + a[1..];
  }
}
