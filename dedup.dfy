/**
  The change detection of one poll cycle, on values: the seen-listing store
  is a set of identifiers, a snapshot is the ordered sequence of identifiers
  the fetch produced, and each identifier is looked up (and, when absent,
  inserted) before the next one is considered.
*/
module Dedup {

  /** No value occurs twice. */
  predicate Distinct(s: seq<int>) {
    forall i, j | 0 <= i < j < |s| :: s[i] != s[j]
  }

  /** The store after every identifier of `ids` was inserted into `seen`. */
  function Absorb(seen: set<int>, ids: seq<int>): set<int> {
    seen + set x | x in ids
  }

  /**
    The identifiers one cycle marks as new, in the order the loop meets
    them: the lookup of each identifier sees the inserts of the earlier ones.
  */
  function NewIds(seen: set<int>, ids: seq<int>): seq<int>
    decreases |ids|
  {
    if ids == [] then []
    else if ids[0] in seen then NewIds(seen, ids[1..])
    else [ids[0]] + NewIds(seen + {ids[0]}, ids[1..])
  }

  /**
    Reference definition by position: the identifier at position k is
    reported when it is neither in the store nor earlier in the snapshot.
  */
  function FirstSightings(seen: set<int>, ids: seq<int>): seq<int>
  {
    if ids == [] then []
    else
      var init, x := ids[..|ids| - 1], ids[|ids| - 1];
      FirstSightings(seen, init) + (if x in seen || x in init then [] else [x])
  }

  /** The new identifiers are exactly the snapshot's identifiers absent from the store. */
  lemma {:induction false} NewIdsMembers(seen: set<int>, ids: seq<int>)
    ensures forall x :: x in NewIds(seen, ids) <==> x in ids && x !in seen
    decreases |ids|
  {
    if ids != [] {
      if ids[0] in seen {
        NewIdsMembers(seen, ids[1..]);
      } else {
        NewIdsMembers(seen + {ids[0]}, ids[1..]);
      }
      assert ids == [ids[0]] + ids[1..];
    }
  }

  /** A cycle reports each identifier at most once, and never one already stored. */
  lemma {:induction false} NewIdsDistinct(seen: set<int>, ids: seq<int>)
    ensures Distinct(NewIds(seen, ids))
    ensures forall x :: x in NewIds(seen, ids) ==> x !in seen
    decreases |ids|
  {
    NewIdsMembers(seen, ids);
    if ids != [] && ids[0] !in seen {
      var grown := seen + {ids[0]};
      var rest := NewIds(grown, ids[1..]);
      NewIdsDistinct(grown, ids[1..]);
      NewIdsMembers(grown, ids[1..]);
      assert forall x :: x in rest ==> x !in grown;
      assert ids[0] in grown;
      assert ids[0] !in rest;
      assert NewIds(seen, ids) == [ids[0]] + rest;
    } else if ids != [] {
      NewIdsDistinct(seen, ids[1..]);
    }
  }

  /** Appending one identifier to the snapshot appends it to the report iff it is unseen so far. */
  lemma {:induction false} NewIdsSnoc(seen: set<int>, ids: seq<int>, x: int)
    ensures NewIds(seen, ids + [x]) == NewIds(seen, ids) + (if x in seen || x in ids then [] else [x])
    decreases |ids|
  {
    if ids == [] {
      assert ids + [x] == [x];
    } else {
      assert (ids + [x])[0] == ids[0];
      assert (ids + [x])[1..] == ids[1..] + [x];
      if ids[0] in seen {
        NewIdsSnoc(seen, ids[1..], x);
      } else {
        NewIdsSnoc(seen + {ids[0]}, ids[1..], x);
      }
      assert ids == [ids[0]] + ids[1..];
    }
  }

  /** The loop's report agrees with the positional reference: snapshot order, first occurrences. */
  lemma {:induction false} NewIdsAreFirstSightings(seen: set<int>, ids: seq<int>)
    ensures NewIds(seen, ids) == FirstSightings(seen, ids)
    decreases |ids|
  {
    if ids != [] {
      var init, x := ids[..|ids| - 1], ids[|ids| - 1];
      NewIdsAreFirstSightings(seen, init);
      NewIdsSnoc(seen, init, x);
      assert init + [x] == ids;
    }
  }

  /** A snapshot whose identifiers are all stored already reports nothing. */
  lemma {:induction false} NewIdsOfStored(seen: set<int>, ids: seq<int>)
    requires forall i | 0 <= i < |ids| :: ids[i] in seen
    ensures NewIds(seen, ids) == []
    decreases |ids|
  {
    if ids != [] {
      NewIdsOfStored(seen, ids[1..]);
    }
  }

  /** Running the same snapshot again right after reports nothing. */
  lemma SecondRunReportsNothing(seen: set<int>, ids: seq<int>)
    ensures NewIds(Absorb(seen, ids), ids) == []
    ensures Absorb(Absorb(seen, ids), ids) == Absorb(seen, ids)
  {
    var after := Absorb(seen, ids);
    assert forall i | 0 <= i < |ids| :: ids[i] in after;
    NewIdsOfStored(after, ids);
  }

  /** The identifiers reported over a sequence of cycles, each starting from the store the previous one left. */
  function Notified(seen: set<int>, cycles: seq<seq<int>>): seq<int>
    decreases |cycles|
  {
    if cycles == [] then []
    else NewIds(seen, cycles[0]) + Notified(Absorb(seen, cycles[0]), cycles[1..])
  }

  /** Over any number of cycles, no identifier is reported twice, nor one stored beforehand. */
  lemma {:induction false} NotifiedAtMostOnce(seen: set<int>, cycles: seq<seq<int>>)
    ensures Distinct(Notified(seen, cycles))
    ensures forall x :: x in Notified(seen, cycles) ==> x !in seen
    decreases |cycles|
  {
    if cycles != [] {
      var after := Absorb(seen, cycles[0]);
      var first, later := NewIds(seen, cycles[0]), Notified(after, cycles[1..]);
      NewIdsDistinct(seen, cycles[0]);
      NewIdsMembers(seen, cycles[0]);
      NotifiedAtMostOnce(after, cycles[1..]);
      assert forall x :: x in first ==> x in after;
      forall i, j | 0 <= i < j < |first + later|
        ensures (first + later)[i] != (first + later)[j]
      {
        if j >= |first| && i < |first| {
          assert (first + later)[i] in first;
          assert (first + later)[j] in later;
        }
      }
    }
  }
}
