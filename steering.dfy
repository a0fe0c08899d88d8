/** The turn rule of the game loop: each direction key pressed during a tick
    is tested against the snake's current heading, which earlier keys of the
    same tick may already have changed. */
module Steering {
  import opened Geometry

  /** One key request, written as the game loop's chain of tests: a key is
      taken unless the snake currently heads the opposite way. */
  function Turn(current: Direction, requested: Direction): (d: Direction)
    ensures d == requested <==> requested != Opposite(current)
    ensures d != requested ==> d == current
  {
    match requested
    case Left => if current != Right then Left else current
    case Right => if current != Left then Right else current
    case Up => if current != Down then Up else current
    case Down => if current != Up then Down else current
  }

  /** The requests of one tick, applied in the order they arrived. */
  function TurnAll(current: Direction, requests: seq<Direction>): Direction
    decreases |requests|
  {
    if requests == [] then current
    else TurnAll(Turn(current, requests[0]), requests[1..])
  }

  /** Applying one more request after a batch is the same as applying it as
      the last element of the batch. */
  lemma {:induction false} TurnAllSnoc(current: Direction, requests: seq<Direction>, r: Direction)
    ensures TurnAll(current, requests + [r]) == Turn(TurnAll(current, requests), r)
    decreases |requests|
  {
    if requests == [] {
      assert [] + [r] == [r];
      assert [r][1..] == [];
    } else {
      assert (requests + [r])[0] == requests[0];
      assert (requests + [r])[1..] == requests[1..] + [r];
      TurnAllSnoc(Turn(current, requests[0]), requests[1..], r);
    }
  }

  /** After a batch the heading is the old one or one of the requests. */
  lemma {:induction false} TurnAllChoosesRequest(current: Direction, requests: seq<Direction>)
    ensures TurnAll(current, requests) == current || TurnAll(current, requests) in requests
    decreases |requests|
  {
    if requests != [] {
      var next := Turn(current, requests[0]);
      TurnAllChoosesRequest(next, requests[1..]);
      assert forall r :: r in requests[1..] ==> r in requests;
    }
  }

  /** A single request per tick never reverses the snake. */
  lemma SingleRequestNeverReverses(current: Direction, r: Direction)
    ensures TurnAll(current, [r]) != Opposite(current)
  {
    assert [r][1..] == [];
  }

  /** Two requests in one tick can reverse the snake: heading right, `up`
      then `left` leaves it heading left. */
  lemma TwoRequestsCanReverse()
    ensures TurnAll(Right, [Up, Left]) == Opposite(Right)
  {
    assert [Up, Left][1..] == [Left];
    assert [Left][1..] == [];
  }
}
