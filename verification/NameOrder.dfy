/** Sorting names the way Python's `sorted` does: by an integer key first and then by code points. */
module NameOrder {

  /** The order of strings by code points. */
  predicate Less(a: string, b: string) {
    b != "" && (a == "" || a[0] < b[0] || (a[0] == b[0] && Less(a[1..], b[1..])))
  }

  lemma {:induction false} LessIrreflexive(a: string)
    ensures !Less(a, a)
  {
    if a != "" {
      LessIrreflexive(a[1..]);
    }
  }

  lemma {:induction false} LessTransitive(a: string, b: string, c: string)
    requires Less(a, b) && Less(b, c)
    ensures Less(a, c)
  {
    if a != "" && a[0] == b[0] && b[0] == c[0] {
      LessTransitive(a[1..], b[1..], c[1..]);
    }
  }

  lemma {:induction false} LessTotal(a: string, b: string)
    ensures a == b || Less(a, b) || Less(b, a)
  {
    if a != "" && b != "" && a[0] == b[0] {
      LessTotal(a[1..], b[1..]);
      assert a == [a[0]] + a[1..] && b == [b[0]] + b[1..];
    }
  }

  /** What is sorted by: a rank, an order within the rank, and a name. */
  datatype Key = Key(rank: int, order: int, name: string)

  predicate KeyLess(a: Key, b: Key) {
    || a.rank < b.rank
    || (a.rank == b.rank && (a.order < b.order || (a.order == b.order && Less(a.name, b.name))))
  }

  lemma KeyLessIrreflexive(a: Key)
    ensures !KeyLess(a, a)
  {
    LessIrreflexive(a.name);
  }

  lemma KeyLessTransitive(a: Key, b: Key, c: Key)
    requires KeyLess(a, b) && KeyLess(b, c)
    ensures KeyLess(a, c)
  {
    if a.rank == c.rank && a.order == c.order {
      LessTransitive(a.name, b.name, c.name);
    }
  }

  lemma KeyLessTotal(a: Key, b: Key)
    ensures a == b || KeyLess(a, b) || KeyLess(b, a)
  {
    LessTotal(a.name, b.name);
  }

  ghost predicate Ascending<T(!new)>(s: seq<T>, key: T -> Key) {
    forall i, j :: 0 <= i < j < |s| ==> KeyLess(key(s[i]), key(s[j]))
  }

  /** Two ascending lists with the same elements are the same list. */
  lemma {:induction false} AscendingUnique<T(!new)>(a: seq<T>, b: seq<T>, key: T -> Key)
    requires Ascending(a, key) && Ascending(b, key) && forall x :: x in a <==> x in b
    ensures a == b
  {
    assert |a| > 0 ==> a[0] in a;
    assert |b| > 0 ==> b[0] in b;
    if a != [] {
      FirstIsSame(a, b, key);
      forall x ensures x in a[1..] <==> x in b[1..] {
        RestElements(a, key, x);
        RestElements(b, key, x);
      }
      AscendingUnique(a[1..], b[1..], key);
      assert a == [a[0]] + a[1..] && b == [b[0]] + b[1..];
    }
  }

  lemma FirstIsSame<T(!new)>(a: seq<T>, b: seq<T>, key: T -> Key)
    requires Ascending(a, key) && Ascending(b, key) && a != [] && b != [] && a[0] in b && b[0] in a
    ensures a[0] == b[0]
  {
    var i :| 0 <= i < |a| && a[i] == b[0];
    var j :| 0 <= j < |b| && b[j] == a[0];
    if i > 0 && j > 0 {
      KeyLessTransitive(key(a[0]), key(b[0]), key(a[0]));
      KeyLessIrreflexive(key(a[0]));
    }
  }

  lemma RestElements<T(!new)>(a: seq<T>, key: T -> Key, x: T)
    requires Ascending(a, key) && a != []
    ensures x in a[1..] <==> x in a && x != a[0]
  {
    if x in a[1..] {
      var i :| 1 <= i < |a| && a[i] == x;
      KeyLessIrreflexive(key(a[0]));
    }
  }

  // ----- sorting -------------------------------------------------------------------------------

  function NameKey(order: string -> int): string -> Key { n => Key(0, order(n), n) }

  /** The name that comes first. */
  method FirstName(names: set<string>, order: string -> int) returns (first: string)
    requires names != {}
    ensures first in names
    ensures forall n :: n in names && n != first ==> KeyLess(NameKey(order)(first), NameKey(order)(n))
  {
    first :| first in names;
    var todo := names - {first};
    while todo != {}
      invariant todo <= names && first in names && first !in todo
      invariant forall n :: n in names && n !in todo && n != first ==> KeyLess(NameKey(order)(first), NameKey(order)(n))
      decreases todo
    {
      var n :| n in todo;
      todo := todo - {n};
      KeyLessTotal(NameKey(order)(first), NameKey(order)(n));
      if KeyLess(Key(0, order(n), n), Key(0, order(first), first)) {
        forall m | m in names && m !in todo && m != n ensures KeyLess(NameKey(order)(n), NameKey(order)(m)) {
          if m != first {
            KeyLessTransitive(NameKey(order)(n), NameKey(order)(first), NameKey(order)(m));
          }
        }
        first := n;
      }
    }
  }

  /** `sorted` of a set with the key (order, name). */
  method SortNames(names: set<string>, order: string -> int) returns (s: seq<string>)
    ensures forall n :: n in s <==> n in names
    ensures Ascending(s, NameKey(order))
  {
    s := [];
    var todo := names;
    while todo != {}
      invariant todo <= names && forall n :: n in s <==> n in names - todo
      invariant Ascending(s, NameKey(order))
      invariant forall m, n :: m in s && n in todo ==> KeyLess(NameKey(order)(m), NameKey(order)(n))
      decreases todo
    {
      var first := FirstName(todo, order);
      s := s + [first];
      todo := todo - {first};
    }
  }
}
