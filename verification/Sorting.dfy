/** Sorting by a string key, as Go's sort package does it, and lists without repetition. */
module Sorting {
  import opened Text

  predicate NoRepeats<T(==)>(l: seq<T>) {
    forall i, j :: 0 <= i < j < |l| ==> l[i] != l[j]
  }

  predicate SortedBy<T>(l: seq<T>, key: T -> string) {
    forall i, j :: 0 <= i < j < |l| ==> StrLessEq(key(l[i]), key(l[j]))
  }

  function InsertBy<T>(x: T, l: seq<T>, key: T -> string): seq<T> {
    if l == [] || StrLess(key(x), key(l[0])) then [x] + l else [l[0]] + InsertBy(x, l[1..], key)
  }

  /** One of the orders sort.Slice may leave items of equal keys in. */
  function SortBy<T>(l: seq<T>, key: T -> string): seq<T> {
    if l == [] then [] else InsertBy(l[|l| - 1], SortBy(l[..|l| - 1], key), key)
  }

  lemma FirstThenSorted<T>(x: T, l: seq<T>, key: T -> string)
    requires SortedBy(l, key) && forall i :: 0 <= i < |l| ==> StrLessEq(key(x), key(l[i]))
    ensures SortedBy([x] + l, key)
  {
    hide StrLessEq;
  }

  lemma SortedRest<T>(l: seq<T>, key: T -> string)
    requires SortedBy(l, key) && l != []
    ensures SortedBy(l[1..], key) && forall i :: 0 <= i < |l| ==> StrLessEq(key(l[0]), key(l[i]))
  {
    StrLessTotal(key(l[0]), key(l[0]));
  }

  lemma {:induction false} InsertByKeeps<T>(x: T, l: seq<T>, key: T -> string)
    requires SortedBy(l, key)
    ensures SortedBy(InsertBy(x, l, key), key) && multiset(InsertBy(x, l, key)) == multiset(l) + multiset{x}
  {
    hide SortedBy, StrLess;
    if l == [] {
      FirstThenSorted(x, l, key);
    } else if StrLess(key(x), key(l[0])) {
      SortedRest(l, key);
      StrLessTotal(key(x), key(l[0]));
      forall i | 0 <= i < |l| ensures StrLessEq(key(x), key(l[i])) {
        StrLessEqTransitive(key(x), key(l[0]), key(l[i]));
      }
      FirstThenSorted(x, l, key);
    } else {
      SortedRest(l, key);
      InsertByKeeps(x, l[1..], key);
      var t := InsertBy(x, l[1..], key);
      assert l == [l[0]] + l[1..];
      forall i | 0 <= i < |t| ensures StrLessEq(key(l[0]), key(t[i])) {
        assert t[i] in multiset(t);
      }
      FirstThenSorted(l[0], t, key);
    }
  }

  lemma {:induction false} SortBySorts<T>(l: seq<T>, key: T -> string)
    ensures SortedBy(SortBy(l, key), key) && multiset(SortBy(l, key)) == multiset(l)
  {
    hide SortedBy, StrLess;
    if l == [] {
      NothingSorted(key);
    } else {
      SortBySorts(l[..|l| - 1], key);
      InsertByKeeps(l[|l| - 1], SortBy(l[..|l| - 1], key), key);
      assert l == l[..|l| - 1] + [l[|l| - 1]];
    }
  }

  lemma NothingSorted<T>(key: T -> string)
    ensures SortedBy<T>([], key)
  {
  }

  lemma SortByMembers<T>(l: seq<T>, key: T -> string, x: T)
    ensures x in SortBy(l, key) <==> x in l
  {
    hide SortedBy;
    SortBySorts(l, key);
    assert x in SortBy(l, key) <==> x in multiset(l);
  }

  lemma SameLeast<T>(a: seq<T>, b: seq<T>, key: T -> string)
    requires SortedBy(a, key) && SortedBy(b, key) && multiset(a) == multiset(b) && a != [] && b != []
    requires forall x, y :: x in a && y in a && key(x) == key(y) ==> x == y
    ensures a[0] == b[0]
  {
    hide StrLess, SortedBy;
    SortedRest(a, key);
    SortedRest(b, key);
    assert a[0] in multiset(b) && b[0] in multiset(a);
    StrLessTotal(key(a[0]), key(b[0]));
  }

  lemma SameRest<T>(a: seq<T>, b: seq<T>)
    requires multiset(a) == multiset(b) && a != [] && b != [] && a[0] == b[0]
    ensures multiset(a[1..]) == multiset(b[1..])
  {
    assert a == [a[0]] + a[1..] && b == [b[0]] + b[1..];
    assert multiset(a[1..]) == multiset(a) - multiset{a[0]};
    assert multiset(b[1..]) == multiset(b) - multiset{b[0]};
  }

  /** A list sorted by a key that tells its items apart is determined by them. */
  lemma {:induction false} SortedIsUnique<T>(a: seq<T>, b: seq<T>, key: T -> string)
    requires SortedBy(a, key) && SortedBy(b, key) && multiset(a) == multiset(b)
    requires forall x, y :: x in a && y in a && key(x) == key(y) ==> x == y
    ensures a == b
  {
    hide SortedBy;
    assert |a| == |multiset(a)| && |b| == |multiset(b)|;
    if a == [] {
      assert b == [];
    } else {
      SortedRest(a, key);
      SortedRest(b, key);
      SameLeast(a, b, key);
      SameRest(a, b);
      SortedIsUnique(a[1..], b[1..], key);
      assert a == [a[0]] + a[1..] && b == [b[0]] + b[1..];
    }
  }

  // ---------------------------------------------------------------------------------------------
  // Strings by themselves

  function Itself(s: string): string {
    s
  }

  predicate Sorted(l: seq<string>) {
    SortedBy(l, Itself)
  }

  /** sort.Strings. */
  function Sort(l: seq<string>): seq<string> {
    SortBy(l, Itself)
  }

  lemma SortSorts(l: seq<string>)
    ensures Sorted(Sort(l)) && multiset(Sort(l)) == multiset(l)
  {
    hide SortedBy;
    SortBySorts(l, Itself);
  }

  lemma SortedStringsAreUnique(a: seq<string>, b: seq<string>)
    requires Sorted(a) && Sorted(b) && multiset(a) == multiset(b)
    ensures a == b
  {
    hide SortedBy;
    SortedIsUnique(a, b, Itself);
  }

  // ---------------------------------------------------------------------------------------------
  // The keys of a map in order

  ghost function AnyOrder(s: set<string>): seq<string> {
    if s == {} then [] else var x :| x in s; [x] + AnyOrder(s - {x})
  }

  /** The members of a set in order. */
  ghost function Ordered(s: set<string>): seq<string> {
    Sort(AnyOrder(s))
  }

  lemma {:induction false} AnyOrderItems(s: set<string>)
    ensures multiset(AnyOrder(s)) == multiset(s)
  {
    if s != {} {
      var x :| x in s && AnyOrder(s) == [x] + AnyOrder(s - {x});
      AnyOrderItems(s - {x});
      assert multiset(s) == multiset(s - {x}) + multiset{x};
    }
  }

  lemma OrderedItems(s: set<string>)
    ensures Sorted(Ordered(s)) && multiset(Ordered(s)) == multiset(s)
    ensures forall n :: n in Ordered(s) <==> n in s
    ensures NoRepeats(Ordered(s))
  {
    AnyOrderItems(s);
    SortSorts(AnyOrder(s));
    var l := Ordered(s);
    forall n ensures n in l <==> n in s {
      assert n in l <==> n in multiset(l);
    }
    SetHasNoRepeats(l, s);
  }

  lemma SetHasNoRepeats(l: seq<string>, s: set<string>)
    requires multiset(l) == multiset(s)
    ensures NoRepeats(l)
  {
    forall i, j | 0 <= i < j < |l| ensures l[i] != l[j] {
      if l[i] == l[j] {
        CountsTwice(l, i, j);
      }
    }
  }

  lemma CountsTwice(l: seq<string>, i: nat, j: nat)
    requires i < j < |l| && l[i] == l[j]
    ensures multiset(l)[l[i]] >= 2
  {
    assert l == l[..i] + [l[i]] + l[i + 1..j] + [l[j]] + l[j + 1..];
  }

  method SortSet(t: set<string>) returns (names: seq<string>)
    ensures names == Ordered(t)
  {
    var todo := t;
    names := [];
    while todo != {}
      invariant todo <= t && multiset(names) == multiset(t - todo)
      decreases |todo|
    {
      var x :| x in todo;
      assert t - (todo - {x}) == (t - todo) + {x};
      todo, names := todo - {x}, names + [x];
    }
    assert t - todo == t;
    SortSorts(names);
    OrderedItems(t);
    SortedStringsAreUnique(Sort(names), Ordered(t));
    names := Sort(names);
  }
}
