/** Sorted listings of names, as sort.Strings orders them. */
module Names {
  import opened Sequences

  /** Lexicographic order. */
  predicate Before(a: string, b: string) {
    b != "" && (a == "" || a[0] < b[0] || (a[0] == b[0] && Before(a[1..], b[1..])))
  }

  lemma {:induction false} BeforeTotal(a: string, b: string)
    ensures Before(a, b) || Before(b, a) || a == b
    ensures !(Before(a, b) && Before(b, a))
    ensures !Before(a, a)
  {
    if a != "" && b != "" {
      BeforeTotal(a[1..], b[1..]);
      assert a == [a[0]] + a[1..] && b == [b[0]] + b[1..];
    }
    if a != "" {
      BeforeTotal(a[1..], a[1..]);
    }
  }

  lemma {:induction false} BeforeTransitive(a: string, b: string, c: string)
    requires Before(a, b) && Before(b, c)
    ensures Before(a, c)
  {
    if a != "" && a[0] == b[0] == c[0] {
      BeforeTransitive(a[1..], b[1..], c[1..]);
    }
  }

  predicate FirstDifference(a: string, b: string, i: int) {
    0 <= i < |a| && i < |b| && a[i] != b[i] && a[..i] == b[..i]
  }

  lemma DifferenceShifts(c: char, a: string, b: string, i: nat)
    ensures FirstDifference([c] + a, [c] + b, i + 1) <==> FirstDifference(a, b, i)
  {
    if i < |a| && i < |b| {
      assert ([c] + a)[..i + 1] == [c] + a[..i] && ([c] + b)[..i + 1] == [c] + b[..i];
      assert ([c] + a[..i])[1..] == a[..i] && ([c] + b[..i])[1..] == b[..i];
    }
  }

  /** `a` differs from `b` first at `i`, and is the smaller there. */
  ghost predicate SmallerAt(a: string, b: string, i: int) { FirstDifference(a, b, i) && a[i] < b[i] }

  /** Shorter before longer when one begins the other, and else the smaller at the first place where they differ. */
  lemma {:induction false} BeforeIff(a: string, b: string)
    ensures Before(a, b) <==> a < b || exists i :: SmallerAt(a, b, i)
  {
    if a != "" && b != "" {
      if a[0] == b[0] {
        hide FirstDifference;
        BeforeIff(a[1..], b[1..]);
        assert a == [a[0]] + a[1..] && b == [b[0]] + b[1..];
        NotAtZero(a, b);
        forall i: nat ensures SmallerAt(a, b, i + 1) <==> SmallerAt(a[1..], b[1..], i) {
          DifferenceShifts(a[0], a[1..], b[1..], i);
          InBoth(a[1..], b[1..], i);
        }
        if i :| SmallerAt(a[1..], b[1..], i) {
          InBoth(a[1..], b[1..], i);
          assert SmallerAt(a, b, i + 1);
        }
        if i :| SmallerAt(a, b, i) {
          InBoth(a, b, i);
          assert SmallerAt(a[1..], b[1..], i - 1);
        }
      } else {
        assert FirstDifference(a, b, 0);
        assert a[0] < b[0] ==> SmallerAt(a, b, 0);
      }
    }
  }

  lemma NotAtZero(a: string, b: string)
    requires a != "" && b != "" && a[0] == b[0]
    ensures !FirstDifference(a, b, 0)
  {
  }

  lemma InBoth(a: string, b: string, i: int)
    ensures FirstDifference(a, b, i) ==> 0 <= i < |a| && i < |b|
  {
  }

  /** Strictly increasing, so without repetition. */
  ghost predicate Increasing(names: seq<string>) {
    forall i, j :: 0 <= i < j < |names| ==> Before(names[i], names[j])
  }

  /** The listing of a set: its members, once each, in order. */
  ghost predicate Lists(names: seq<string>, s: set<string>) {
    Increasing(names) && forall x :: x in names <==> x in s
  }

  lemma {:induction false} ListingUnique(a: seq<string>, b: seq<string>, s: set<string>)
    requires Lists(a, s) && Lists(b, s)
    ensures a == b
    decreases |a|
  {
    EmptyListing(a, s);
    EmptyListing(b, s);
    if a != [] {
      FirstIsLeast(a, s);
      FirstIsLeast(b, s);
      BeforeTotal(a[0], b[0]);
      RestLists(a, s);
      RestLists(b, s);
      ListingUnique(a[1..], b[1..], s - {a[0]});
      assert a == [a[0]] + a[1..] && b == [b[0]] + b[1..];
    }
  }

  lemma EmptyListing(a: seq<string>, s: set<string>)
    requires Lists(a, s)
    ensures a == [] <==> s == {}
  {
    if a != [] {
      assert a[0] in s;
    }
  }

  lemma FirstIsLeast(a: seq<string>, s: set<string>)
    requires Lists(a, s) && a != []
    ensures a[0] in s && forall x :: x in s ==> x == a[0] || Before(a[0], x)
  {
  }

  lemma RestLists(a: seq<string>, s: set<string>)
    requires Lists(a, s) && a != []
    ensures Lists(a[1..], s - {a[0]})
  {
    BeforeTotal(a[0], a[0]);
    forall x ensures x in a[1..] <==> x in s - {a[0]} {
      assert a == [a[0]] + a[1..];
    }
  }

  // ----- sorting -----

  lemma {:induction false} PutLists(names: seq<string>, s: set<string>, x: string)
    requires Lists(names, s) && x !in s
    ensures Lists(Put(Before, names, x), s + {x})
  {
    if names == [] {
    } else if Before(x, names[0]) {
      forall i | 0 <= i < |names| ensures Before(x, names[i]) {
        if i > 0 {
          BeforeTransitive(x, names[0], names[i]);
        }
      }
      assert forall y :: y in Put(Before, names, x) <==> y in names || y == x;
    } else {
      RestLists(names, s);
      BeforeTotal(names[0], x);
      var rest := Put(Before, names[1..], x);
      PutLists(names[1..], s - {names[0]}, x);
      FirstIsLeast(names, s);
      forall i | 0 <= i < |rest| ensures Before(names[0], rest[i]) {
        assert rest[i] in rest;
        BeforeTotal(names[0], names[0]);
      }
      assert forall y :: y in Put(Before, names, x) <==> y == names[0] || y in rest;
    }
  }

  lemma {:induction false} SortLists(names: seq<string>, s: set<string>)
    requires forall i, j :: 0 <= i < j < |names| ==> names[i] != names[j]
    requires forall x :: x in names <==> x in s
    ensures Lists(Sort(Before, names), s)
  {
    if names != [] {
      var rest := names[1..];
      forall x ensures x in rest <==> x in s - {names[0]} {
        assert names == [names[0]] + rest;
      }
      SortLists(rest, s - {names[0]});
      assert names[0] in s;
      PutLists(Sort(Before, rest), s - {names[0]}, names[0]);
      assert s - {names[0]} + {names[0]} == s;
    }
  }

  /** The members of a set, copied out in any order and sorted. */
  method SortedNames(names: set<string>) returns (out: seq<string>)
    ensures Lists(out, names)
  {
    out := [];
    var rest := names;
    while rest != {}
      invariant rest <= names
      invariant forall x :: x in out <==> x in names && x !in rest
      invariant forall i, j :: 0 <= i < j < |out| ==> out[i] != out[j]
      decreases |rest|
    {
      var name :| name in rest;
      assert forall x :: x in out + [name] <==> x in out || x == name;
      out := out + [name];
      rest := rest - {name};
    }
    SortLists(out, names);
    out := Sort(Before, out);
  }

  /** The listing of a finite set. */
  ghost function Listing(s: set<string>): (names: seq<string>)
    ensures Lists(names, s)
  {
    if s == {} then []
    else
      var x :| x in s;
      assert s - {x} + {x} == s;
      PutLists(Listing(s - {x}), s - {x}, x);
      Put(Before, Listing(s - {x}), x)
  }

  lemma IsListing(names: seq<string>, s: set<string>)
    requires Lists(names, s)
    ensures names == Listing(s)
    ensures forall x :: x in names <==> x in s
  {
    ListingUnique(names, Listing(s), s);
  }
}
