/** Sorting strings by code unit, as Array.prototype.sort does by default. */
module StringSort {
  predicate Less(a: string, b: string) {
    b != [] && (a == [] || a[0] < b[0] || (a[0] == b[0] && Less(a[1..], b[1..])))
  }

  lemma {:induction false} LessTotal(a: string, b: string)
    ensures Less(a, b) || a == b || Less(b, a)
    ensures !(Less(a, b) && Less(b, a))
  {
    if a != [] && b != [] {
      LessTotal(a[1..], b[1..]);
      assert a == [a[0]] + a[1..] && b == [b[0]] + b[1..];
    }
  }

  lemma {:induction false} LessTransitive(a: string, b: string, c: string)
    requires Less(a, b) && Less(b, c)
    ensures Less(a, c)
  {
    if a != [] && a[0] == b[0] == c[0] {
      LessTransitive(a[1..], b[1..], c[1..]);
    }
  }

  function Insert(x: string, s: seq<string>): seq<string> {
    if s == [] || !Less(s[0], x) then [x] + s else [s[0]] + Insert(x, s[1..])
  }

  function Sort(s: seq<string>): seq<string> {
    if s == [] then [] else Insert(s[0], Sort(s[1..]))
  }

  lemma {:induction false} InsertCommutes(x: string, y: string, s: seq<string>)
    ensures Insert(x, Insert(y, s)) == Insert(y, Insert(x, s))
  {
    LessTotal(x, y);
    if s != [] {
      LessTotal(s[0], x);
      LessTotal(s[0], y);
      if Less(s[0], x) && Less(s[0], y) {
        InsertCommutes(x, y, s[1..]);
      } else if Less(s[0], x) && Less(x, y) {
        LessTransitive(s[0], x, y);
        assert false;
      } else if Less(s[0], y) && Less(y, x) {
        LessTransitive(s[0], y, x);
        assert false;
      }
    }
  }

  /** The element sorted in first may be any one. */
  lemma {:induction false} SortFrom(s: seq<string>, k: nat)
    requires k < |s|
    ensures Sort(s) == Insert(s[k], Sort(s[..k] + s[k + 1..]))
  {
    if k == 0 {
      assert s[..0] + s[1..] == s[1..];
    } else {
      var rest := s[..k] + s[k + 1..];
      SortFrom(s[1..], k - 1);
      assert s[1..][..k - 1] + s[1..][k..] == rest[1..];
      InsertCommutes(s[0], s[k], Sort(rest[1..]));
    }
  }

  lemma {:induction false} InsertKeeps(x: string, s: seq<string>)
    ensures multiset(Insert(x, s)) == multiset(s) + multiset{x}
  {
    if s != [] && Less(s[0], x) {
      InsertKeeps(x, s[1..]);
      assert s == [s[0]] + s[1..];
    }
  }

  lemma {:induction false} SortKeeps(s: seq<string>)
    ensures multiset(Sort(s)) == multiset(s)
  {
    if s != [] {
      SortKeeps(s[1..]);
      InsertKeeps(s[0], Sort(s[1..]));
      assert s == [s[0]] + s[1..];
    }
  }

  lemma Without(s: seq<string>, k: nat)
    requires k < |s|
    ensures multiset(s[..k] + s[k + 1..]) == multiset(s) - multiset{s[k]}
  {
    assert s == s[..k] + [s[k]] + s[k + 1..];
  }

  lemma {:induction false} SameElementsSameSort(a: seq<string>, b: seq<string>)
    requires multiset(a) == multiset(b)
    ensures Sort(a) == Sort(b)
  {
    assert |multiset(a)| == |multiset(b)|;
    if a != [] {
      hide Sort, Insert;
      assert a[0] in multiset(b);
      var k :| 0 <= k < |b| && b[k] == a[0];
      Without(b, k);
      Without(a, 0);
      assert a[..0] + a[1..] == a[1..];
      SameElementsSameSort(a[1..], b[..k] + b[k + 1..]);
      SortFrom(a, 0);
      SortFrom(b, k);
    }
  }

  /** Two lists sort to the same list exactly when they hold the same strings equally often. */
  lemma SortedEqualIff(a: seq<string>, b: seq<string>)
    ensures Sort(a) == Sort(b) <==> multiset(a) == multiset(b)
  {
    SortKeeps(a);
    SortKeeps(b);
    if multiset(a) == multiset(b) { SameElementsSameSort(a, b); }
  }
}
