/** Sequences of addresses as seen through `next` and `prev` links. */
module Sequences {

  /** The null pointer; addresses are not negative. */
  const NULL: int := -1

  function At(l: seq<int>, i: int): int {
    if 0 <= i < |l| then l[i] else NULL
  }

  ghost predicate Distinct<T>(s: seq<T>) {
    forall i, j :: 0 <= i < j < |s| ==> s[i] != s[j]
  }

  function RemoveAt<T>(s: seq<T>, i: nat): seq<T>
    requires i < |s|
  {
    s[..i] + s[i + 1..]
  }

  function InsertAt<T>(s: seq<T>, i: nat, x: T): seq<T>
    requires i <= |s|
  {
    s[..i] + [x] + s[i..]
  }

  lemma AppendIsInsert<T>(l: seq<T>, i: nat, x: T)
    requires i == |l|
    ensures InsertAt(l, i, x) == l + [x]
  {
  }

  lemma RemoveAtElements<T>(l: seq<T>, i: nat)
    requires Distinct(l) && i < |l|
    ensures Distinct(RemoveAt(l, i))
    ensures forall o :: o in RemoveAt(l, i) <==> o in l && o != l[i]
  {
  }

  lemma NotInBoth<T>(l: seq<T>, i: nat, x: T)
    requires Distinct(l) && i <= |l|
    ensures !(x in l[..i] && x in l[i..])
  {
  }

  lemma AtNull(l: seq<int>, i: int)
    requires NULL !in l
    ensures At(l, i) == NULL <==> !(0 <= i < |l|)
  {
  }

  lemma InsertAtElements<T>(l: seq<T>, i: nat, x: T)
    requires Distinct(l) && i <= |l| && x !in l
    ensures Distinct(InsertAt(l, i, x))
    ensures forall o :: o in InsertAt(l, i, x) <==> o in l || o == x
  {
  }

  /** Neighbours in a list from which position `i` was removed. */
  lemma AtRemoved(l: seq<int>, i: nat, j: nat)
    requires i < |l| && j + 1 < |l|
    ensures var l' := RemoveAt(l, i);
            var k := if j < i then j else j + 1;
            && l'[j] == l[k]
            && At(l', j + 1) == (if k + 1 == i then At(l, i + 1) else At(l, k + 1))
            && At(l', j - 1) == (if k == i + 1 then At(l, i - 1) else At(l, k - 1))
  {
  }

  /** Neighbours in a list into which `x` was inserted at position `i`. */
  lemma AtInserted(l: seq<int>, i: nat, x: int, j: nat)
    requires i <= |l| && j <= |l|
    ensures var l' := InsertAt(l, i, x);
            && (j == i ==> l'[j] == x && At(l', j + 1) == At(l, i) && At(l', j - 1) == At(l, i - 1))
            && (j != i ==>
                  var k := if j < i then j else j - 1;
                  && l'[j] == l[k]
                  && At(l', j + 1) == (if k + 1 == i then x else At(l, k + 1))
                  && At(l', j - 1) == (if k == i then x else At(l, k - 1)))
  {
  }
}
