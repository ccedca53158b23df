/**
  The part of the listing provider's answer that the worker reads: a result
  object holding a list of properties, each with an integer identifier.
  Deserialisation can yield null at three levels (the whole document, its
  `properties` list, an element of that list); each is an `Option` here.
*/
module Feed {
  import opened Wrappers

  /** A C# `int`: listing identifiers are 32-bit. */
  type Int32 = x: int | -0x8000_0000 <= x < 0x8000_0000

  datatype Property = Property(identifier: Int32)

  datatype RightMoveResult = RightMoveResult(properties: Option<seq<Option<Property>>>)

  /**
    The identifiers the poll loop actually reaches when it enumerates `ps`:
    the selection `p => p.Identifier` is evaluated lazily, so the first null
    element throws and ends the enumeration there.
  */
  function IdsBeforeNull(ps: seq<Option<Property>>): (ids: seq<int>)
    ensures |ids| <= |ps|
    ensures forall k | 0 <= k < |ids| :: ps[k].Some? && ps[k].value.identifier == ids[k]
    ensures |ids| < |ps| ==> ps[|ids|].None?
    ensures Complete(ps) ==> |ids| == |ps|
  {
    if ps == [] || ps[0].None? then [] else [ps[0].value.identifier] + IdsBeforeNull(ps[1..])
  }

  /** No element of the list is null: the enumeration runs to its end. */
  predicate Complete(ps: seq<Option<Property>>) {
    forall k | 0 <= k < |ps| :: ps[k].Some?
  }

  /**
    The identifiers one fetch hands to the dedup loop. `None` stands for a
    fetch that threw (network, status or JSON failure) or that deserialised
    to null; both are caught before the loop starts, as is a null list.
  */
  function SnapshotIds(fetched: Option<RightMoveResult>): (ids: seq<int>)
    ensures fetched.None? ==> ids == []
    ensures fetched.Some? && fetched.value.properties.None? ==> ids == []
  {
    match fetched
    case None => []
    case Some(result) =>
      match result.properties
      case None => []
      case Some(ps) => IdsBeforeNull(ps)
  }
}
