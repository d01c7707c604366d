/**
 * The completion ledger: the keys of the tasks the user has explicitly marked
 * done.  The application keeps them in a JavaScript `Set`, which iterates in
 * insertion order; the model keeps that order as a duplicate-free sequence.
 */
module Ledger {
  import opened Types
  import opened Seqs

  type Ledger = seq<TaskKey>

  predicate NoDup(l: Ledger)
  {
    forall i, j :: 0 <= i < j < |l| ==> l[i] != l[j]
  }

  /** `Set.prototype.has`. */
  predicate Has(l: Ledger, k: TaskKey)
  {
    k in l
  }

  /** `Set.prototype.add`: a new key goes to the end, a present key changes nothing. */
  function Add(l: Ledger, k: TaskKey): (r: Ledger)
    ensures forall x :: x in r <==> x in l || x == k
    ensures NoDup(l) ==> NoDup(r)
    ensures |l| <= |r| && r[..|l|] == l
  {
    if k in l then l else l + [k]
  }

  /** `Set.prototype.delete`: the key is gone and the others keep their order. */
  function Delete(l: Ledger, k: TaskKey): (r: Ledger)
    ensures forall x :: x in r <==> x in l && x != k
    ensures IsSubsequence(r, l)
    ensures NoDup(l) ==> NoDup(r)
    ensures !Has(l, k) ==> r == l
  {
    if l == [] then []
    else
      var rest := Delete(l[1..], k);
      NoDupTail(l);
      if l[0] == k then rest
      else
        NoDupCons(l[0], rest);
        assert l == [l[0]] + l[1..] && ([l[0]] + rest)[1..] == rest;
        [l[0]] + rest
  }

  /** The tail of a duplicate-free ledger is duplicate-free and lacks the head. */
  lemma NoDupTail(l: Ledger)
    requires l != []
    ensures NoDup(l) ==> NoDup(l[1..]) && l[0] !in l[1..]
  {
    if NoDup(l) {
      forall j | 0 <= j < |l| - 1 ensures l[1..][j] != l[0] {
        assert l[1..][j] == l[j + 1];
      }
    }
  }

  /** A key put in front of a duplicate-free ledger that lacks it keeps it duplicate-free. */
  lemma NoDupCons(k: TaskKey, l: Ledger)
    ensures k !in l && NoDup(l) ==> NoDup([k] + l)
  {
    if k !in l && NoDup(l) {
      forall i, j | 0 <= i < j < |l| + 1 ensures ([k] + l)[i] != ([k] + l)[j] {
        assert ([k] + l)[j] == l[j - 1];
        if i > 0 {
          assert ([k] + l)[i] == l[i - 1];
        }
      }
    }
  }

  /** Deleting a key that was just added undoes the addition exactly. */
  lemma DeleteUndoesAdd(l: Ledger, k: TaskKey)
    requires NoDup(l) && !Has(l, k)
    ensures Delete(Add(l, k), k) == l
  {
    DeleteLast(l, k);
  }

  lemma {:induction false} DeleteLast(l: Ledger, k: TaskKey)
    requires !Has(l, k)
    ensures Delete(l + [k], k) == l
  {
    if l != [] {
      assert (l + [k])[1..] == l[1..] + [k];
      DeleteLast(l[1..], k);
    }
  }

  /**
   * `new Set(array)`: the distinct keys of an array.  The contract does not
   * fix their order; `FromArrayRoundTrip` gives it for a duplicate-free array.
   */
  function FromArray(a: seq<TaskKey>): (r: Ledger)
    ensures NoDup(r)
    ensures forall x :: x in r <==> x in a
  {
    AddAll([], a)
  }

  function AddAll(acc: Ledger, a: seq<TaskKey>): (r: Ledger)
    requires NoDup(acc)
    ensures NoDup(r)
    ensures forall x :: x in r <==> x in acc || x in a
    decreases |a|
  {
    if a == [] then acc else AddAll(Add(acc, a[0]), a[1..])
  }

  /** Writing a ledger out as an array and reading it back gives the same ledger. */
  lemma FromArrayRoundTrip(l: Ledger)
    requires NoDup(l)
    ensures FromArray(l) == l
  {
    assert [] + l == l;
    AddAllFresh([], l);
  }

  lemma {:induction false} AddAllFresh(acc: Ledger, a: seq<TaskKey>)
    requires NoDup(acc + a)
    ensures NoDup(acc) && AddAll(acc, a) == acc + a
    decreases |a|
  {
    assert NoDup(acc) by {
      forall i, j | 0 <= i < j < |acc| ensures acc[i] != acc[j] {
        assert acc[i] == (acc + a)[i] && acc[j] == (acc + a)[j];
      }
    }
    if a != [] {
      assert !Has(acc, a[0]) by {
        forall i | 0 <= i < |acc| ensures acc[i] != a[0] {
          assert acc[i] == (acc + a)[i] && a[0] == (acc + a)[|acc|];
        }
      }
      assert Add(acc, a[0]) + a[1..] == acc + a;
      AddAllFresh(Add(acc, a[0]), a[1..]);
    }
  }
}
