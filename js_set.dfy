/**
 * A JavaScript `Set` as the I18n manager uses it for its subscribers: its
 * elements in insertion order, without repetition.
 */
module InsertionOrderedSet {

  predicate NoDuplicates<T(==)>(s: seq<T>) {
    forall i, j :: 0 <= i < j < |s| ==> s[i] != s[j]
  }

  /** `set.add(x)`: a new element goes last, an element already present stays where it is. */
  function Add<T(==,!new)>(s: seq<T>, x: T): (r: seq<T>)
    ensures NoDuplicates(s) ==> NoDuplicates(r)
    ensures forall y :: y in r <==> y in s || y == x
  {
    if x in s then s else s + [x]
  }

  /** `set.delete(x)`: removes `x` and keeps the other elements in their order. */
  function Delete<T(==,!new)>(s: seq<T>, x: T): (r: seq<T>)
    ensures forall y :: y in r <==> y in s && y != x
    ensures NoDuplicates(s) ==> NoDuplicates(r)
    ensures x !in s ==> r == s
  {
    if s == [] then []
    else if s[0] == x then Delete(s[1..], x)
    else
      var rest := Delete(s[1..], x);
      assert NoDuplicates(s) ==> s[0] !in rest;
      [s[0]] + rest
  }

  /** Adding an element that is present changes nothing; adding twice is adding once. */
  lemma AddIdempotent<T(!new)>(s: seq<T>, x: T)
    ensures x in s ==> Add(s, x) == s
    ensures Add(Add(s, x), x) == Add(s, x)
  {
  }

  /** A new subscriber is notified after all the earlier ones. */
  lemma AddGoesLast<T(!new)>(s: seq<T>, x: T)
    requires x !in s
    ensures Add(s, x) == s + [x] && Add(s, x)[|s|] == x
  {
  }

  /** Deleting an element that is absent changes nothing; deleting twice is deleting once. */
  lemma DeleteIdempotent<T(!new)>(s: seq<T>, x: T)
    ensures Delete(Delete(s, x), x) == Delete(s, x)
  {
  }

  /** Deleting an element removes exactly it: the elements before and after it are kept in order. */
  lemma {:induction false} DeleteOnlyThat<T(!new)>(a: seq<T>, x: T, b: seq<T>)
    requires x !in a && x !in b
    ensures Delete(a + [x] + b, x) == a + b
  {
    if a == [] {
      assert a + [x] + b == [x] + b;
      assert ([x] + b)[1..] == b;
    } else {
      assert (a + [x] + b)[1..] == a[1..] + [x] + b;
      DeleteOnlyThat(a[1..], x, b);
      assert [a[0]] + (a[1..] + b) == a + b;
    }
  }

  /** Deleting what was just added restores the set. */
  lemma DeleteUndoesAdd<T(!new)>(s: seq<T>, x: T)
    requires x !in s
    ensures Delete(Add(s, x), x) == s
  {
    DeleteOnlyThat(s, x, []);
    assert s + [x] + [] == s + [x];
    assert s + [] == s;
  }
}
