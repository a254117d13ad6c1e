/** The snake's body as a head-first sequence of segments, and what each
    snake operation does to that sequence. Both snake classes are specified by
    these functions; the lemmas here are the properties of the body model:
    the shift-register behaviour of `advance`, the effect of `grow` and of a
    head turn, and the chain invariant that every operation keeps. */
module Parts {
  import opened Geometry

  /** The cells of a body, head first (`parts.iter().map(|p| p.position)`). */
  function Positions(ps: seq<Part>): (r: seq<Position>)
    ensures |r| == |ps|
    ensures forall i :: 0 <= i < |ps| ==> r[i] == ps[i].position
  {
    if ps == [] then [] else [ps[0].position] + Positions(ps[1..])
  }

  /** The chain invariant: every segment behind the head sits one step short
      of the segment ahead of it, along its own heading, so that its next
      move lands on the cell the segment ahead is leaving. */
  ghost predicate Connected(ps: seq<Part>)
  {
    forall i :: 0 < i < |ps| ==> ps[i].position.Advanced(ps[i].direction) == ps[i - 1].position
  }

  /** The shift register behind `advance`: every segment steps along its own
      heading and takes over `lead`, the heading the segment ahead held. */
  function Follow(ps: seq<Part>, lead: Direction): (r: seq<Part>)
    ensures |r| == |ps|
    ensures ps != [] ==> r[0] == Part(ps[0].position.Advanced(ps[0].direction), lead)
  {
    if ps == [] then []
    else [Part(ps[0].position.Advanced(ps[0].direction), lead)] + Follow(ps[1..], ps[0].direction)
  }

  /** The body after `advance`: the head keeps its own heading. */
  function AfterAdvance(ps: seq<Part>): (r: seq<Part>)
    requires |ps| > 0
    ensures |r| == |ps|
    ensures r[0] == Part(ps[0].position.Advanced(ps[0].direction), ps[0].direction)
  {
    Follow(ps, ps[0].direction)
  }

  /** The body after `grow`: a new head one step ahead of the old one, with
      the old head's heading, in front of the unchanged body. */
  function AfterGrow(ps: seq<Part>): (r: seq<Part>)
    requires |ps| > 0
    ensures |r| == |ps| + 1
    ensures r[0] == Part(ps[0].position.Advanced(ps[0].direction), ps[0].direction)
    ensures forall i :: 0 <= i < |ps| ==> r[i + 1] == ps[i]
  {
    [Part(ps[0].position.Advanced(ps[0].direction), ps[0].direction)] + ps
  }

  /** The body after snake.rs's `change_head_direction(d)`: a turn onto the
      current heading or its reverse is ignored; any other turn replaces the
      head's heading and leaves everything else as it was. */
  function AfterSteer(ps: seq<Part>, d: Direction): (r: seq<Part>)
    requires |ps| > 0
    ensures |r| == |ps| && r[0].position == ps[0].position && r[1..] == ps[1..]
    ensures (d == ps[0].direction || d == ps[0].direction.Opposite()) <==> r == ps
    ensures r[0].direction == (if d == ps[0].direction.Opposite() then ps[0].direction else d)
  {
    var heading := ps[0].direction;
    if heading == d || d == heading.Opposite() then ps
    else [Part(ps[0].position, d)] + ps[1..]
  }

  /** `k` successive advances. */
  function Advances(ps: seq<Part>, k: nat): (r: seq<Part>)
    requires |ps| > 0
    ensures |r| == |ps|
  {
    if k == 0 then ps else AfterAdvance(Advances(ps, k - 1))
  }

  /** Segment `i` of `Follow(ps, lead)`. */
  lemma {:induction false} FollowAt(ps: seq<Part>, lead: Direction, i: nat)
    requires i < |ps|
    ensures Follow(ps, lead)[i]
         == Part(ps[i].position.Advanced(ps[i].direction), if i == 0 then lead else ps[i - 1].direction)
  {
    if i > 0 {
      FollowAt(ps[1..], ps[0].direction, i - 1);
    }
  }

  /** What `advance` does to segment `i`: it moves one step along its own
      heading, and takes the heading that segment `i - 1` had before the move
      (the head keeps its own). */
  lemma AfterAdvanceAt(ps: seq<Part>, i: nat)
    requires i < |ps|
    ensures |AfterAdvance(ps)| == |ps|
    ensures AfterAdvance(ps)[i].position == ps[i].position.Advanced(ps[i].direction)
    ensures AfterAdvance(ps)[i].direction == if i == 0 then ps[0].direction else ps[i - 1].direction
  {
    FollowAt(ps, ps[0].direction, i);
  }

  /** `advance` keeps the chain invariant. */
  lemma AdvancePreservesConnected(ps: seq<Part>)
    requires |ps| > 0 && Connected(ps)
    ensures Connected(AfterAdvance(ps))
  {
    var r := AfterAdvance(ps);
    forall i | 0 < i < |r|
      ensures r[i].position.Advanced(r[i].direction) == r[i - 1].position
    {
      AfterAdvanceAt(ps, i);
      AfterAdvanceAt(ps, i - 1);
    }
  }

  /** `grow` keeps the chain invariant. */
  lemma GrowPreservesConnected(ps: seq<Part>)
    requires |ps| > 0 && Connected(ps)
    ensures Connected(AfterGrow(ps))
  {
    var r := AfterGrow(ps);
    forall i | 0 < i < |r|
      ensures r[i].position.Advanced(r[i].direction) == r[i - 1].position
    {
      if i > 1 {
        assert r[i] == ps[i - 1] && r[i - 1] == ps[i - 2];
      }
    }
  }

  /** Replacing the head's heading in place (either snake's turn) keeps the
      chain invariant: the link from the second segment to the head does not
      depend on the head's heading. */
  lemma HeadTurnPreservesConnected(ps: seq<Part>, d: Direction)
    requires |ps| > 0 && Connected(ps)
    ensures Connected([Part(ps[0].position, d)] + ps[1..])
  {
    var r := [Part(ps[0].position, d)] + ps[1..];
    forall i | 0 < i < |r|
      ensures r[i].position.Advanced(r[i].direction) == r[i - 1].position
    {
      assert r[i] == ps[i];
    }
  }

  /** snake.rs's turn keeps the chain invariant. */
  lemma SteerPreservesConnected(ps: seq<Part>, d: Direction)
    requires |ps| > 0 && Connected(ps)
    ensures Connected(AfterSteer(ps, d))
  {
    if AfterSteer(ps, d) != ps {
      HeadTurnPreservesConnected(ps, d);
      assert AfterSteer(ps, d) == [Part(ps[0].position, d)] + ps[1..];
    }
  }

  /** On a connected body, every segment behind the head moves into the
      place, and takes over the heading, of the segment ahead of it. */
  lemma AdvanceFollowsAhead(ps: seq<Part>, i: nat)
    requires Connected(ps) && 0 < i < |ps|
    ensures AfterAdvance(ps)[i] == ps[i - 1]
  {
    AfterAdvanceAt(ps, i);
  }

  /** On a connected body, `advance` is `grow` followed by dropping the tail,
      so the body follows the head's path. */
  lemma AdvanceIsGrowWithoutTail(ps: seq<Part>)
    requires |ps| > 0 && Connected(ps)
    ensures AfterAdvance(ps) == AfterGrow(ps)[..|ps|]
  {
    var a, g := AfterAdvance(ps), AfterGrow(ps)[..|ps|];
    forall i | 0 <= i < |ps|
      ensures a[i] == g[i]
    {
      if i == 0 {
        AfterAdvanceAt(ps, 0);
      } else {
        AdvanceFollowsAhead(ps, i);
      }
    }
  }

  /** Repeated advances keep the chain invariant. */
  lemma {:induction false} AdvancesConnected(ps: seq<Part>, k: nat)
    requires |ps| > 0 && Connected(ps)
    ensures Connected(Advances(ps, k))
  {
    if k > 0 {
      AdvancesConnected(ps, k - 1);
      AdvancePreservesConnected(Advances(ps, k - 1));
    }
  }

  /** After `k` advances without a turn, segment `i` (for `i >= k`) is exactly
      where segment `i - k` was, with its heading: each segment reaches a
      cell, and takes a heading, `k` ticks after the segment `k` places ahead. */
  lemma {:induction false} AdvancesShift(ps: seq<Part>, k: nat, i: nat)
    requires |ps| > 0 && Connected(ps)
    requires k <= i < |ps|
    ensures Advances(ps, k)[i] == ps[i - k]
  {
    if k > 0 {
      var before := Advances(ps, k - 1);
      AdvancesConnected(ps, k - 1);
      AdvanceFollowsAhead(before, i);
      AdvancesShift(ps, k - 1, i - 1);
    }
  }

  /** Once a turn onto `d` has been taken or refused, a turn onto the reverse
      of `d` is refused: the head can never be turned back onto the second segment. */
  lemma ReversalRefused(ps: seq<Part>, d: Direction)
    requires |ps| > 0
    ensures AfterSteer(AfterSteer(ps, d), d.Opposite()) == AfterSteer(ps, d)
  {
    OppositeInvolution(d);
    OppositeInvolution(ps[0].direction);
  }

  /** A one-segment body at the origin facing North grows three times and
      then advances once: four segments, head at (0,4), and the original
      segment (now the tail) at (0,1). */
  lemma GrowThriceThenAdvance()
    ensures var s := AfterAdvance(AfterGrow(AfterGrow(AfterGrow([Part(Position(0, 0), North)]))));
            |s| == 4 && s[0].position == Position(0, 4) && s[3].position == Position(0, 1)
  {
    var g := AfterGrow(AfterGrow(AfterGrow([Part(Position(0, 0), North)])));
    AfterAdvanceAt(g, 0);
    AfterAdvanceAt(g, 3);
  }
}
