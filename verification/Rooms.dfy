/** The shared rooms of the mess hall: fixed arrays of slots, each empty or holding one item. */
module Rooms {
  const FOOD_KIND := 3

  /** Soup, main course and desert, in the order of the source's enumeration. */
  type Kind = k: nat | k < FOOD_KIND

  const EMPTY := 3

  /** A room without plates. */
  function Vacant(size: nat): (room: seq<int>)
    ensures |room| == size && forall i :: 0 <= i < size ==> room[i] == EMPTY
  {
    seq(size, _ => EMPTY)
  }

  /** The first slot holding `item`, or -1. */
  function Next(room: seq<int>, item: int): (slot: int)
    ensures -1 <= slot < |room|
    ensures slot == -1 <==> item !in room
    ensures slot >= 0 ==> room[slot] == item && item !in room[..slot]
  {
    if room == [] then -1
    else if room[0] == item then 0
    else
      var rest := Next(room[1..], item);
      assert room == [room[0]] + room[1..];
      assert rest >= 0 ==> room[..rest + 1] == [room[0]] + room[1..][..rest];
      if rest == -1 then -1 else rest + 1
  }
}
