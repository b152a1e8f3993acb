// The vertical positions of the spawn lanes over the road sprite.
//
// Both GameService drafts carry an identical private GetYPositionsForLines;
// the model defines it once. The background's height and centre come from
// the road sprite's renderer bounds, so they are parameters here.
module Lanes {
  import opened MathHelper

  /** The tolerance both drafts subtract from the top edge for the last
      lane (a quarter of the body sprite's height). */
  const LaneTolerance: real := 0.66825

  /** The number of lanes the game lays out. */
  const GameLaneCount: int32 := 3

  function BottomEdge(backgroundHeight: real, backgroundY: real): real
  {
    backgroundY - backgroundHeight / 2.0
  }

  function TopEdge(backgroundHeight: real, backgroundY: real): real
  {
    backgroundY + backgroundHeight / 2.0
  }

  /** The height of lane i of n: the last lane sits `tolerance` below the
      top edge; every other lane i sits (i + 1) / (n + 1) of the way up
      from the bottom edge. */
  function LaneHeight(numberOfLines: int, backgroundHeight: real, backgroundY: real,
                      tolerance: real, i: int): real
    requires 0 <= i < numberOfLines
  {
    if i == numberOfLines - 1 then
      TopEdge(backgroundHeight, backgroundY) - tolerance
    else
      BottomEdge(backgroundHeight, backgroundY) +
        backgroundHeight / ((numberOfLines + 1) as real) * ((i + 1) as real)
  }

  /** All lane heights, bottom lane first. */
  function LaneHeights(numberOfLines: int, backgroundHeight: real, backgroundY: real, tolerance: real)
    : (heights: seq<real>)
    requires numberOfLines >= 0
    ensures |heights| == numberOfLines
    ensures forall i :: 0 <= i < numberOfLines ==>
              heights[i] == LaneHeight(numberOfLines, backgroundHeight, backgroundY, tolerance, i)
  {
    seq(numberOfLines, i requires 0 <= i < numberOfLines =>
      LaneHeight(numberOfLines, backgroundHeight, backgroundY, tolerance, i))
  }

  /** Fills a new array with one height per lane. */
  method GetYPositionsForLines(numberOfLines: int32, backgroundHeight: real, backgroundY: real,
                               tolerance: real) returns (yPositions: array<real>)
    requires numberOfLines >= 0
    ensures fresh(yPositions)
    ensures yPositions.Length == numberOfLines as int
    ensures forall i :: 0 <= i < yPositions.Length ==>
              yPositions[i] == LaneHeight(numberOfLines as int, backgroundHeight, backgroundY, tolerance, i)
    ensures yPositions[..] == LaneHeights(numberOfLines as int, backgroundHeight, backgroundY, tolerance)
  {
    yPositions := new real[numberOfLines];
    var bottomEdge := backgroundY - backgroundHeight / 2.0;
    var topEdge := backgroundY + backgroundHeight / 2.0;
    for i := 0 to numberOfLines
      invariant forall j :: 0 <= j < i ==>
                  yPositions[j] == LaneHeight(numberOfLines as int, backgroundHeight, backgroundY, tolerance, j)
    {
      if i == numberOfLines - 1 {
        yPositions[i] := topEdge - tolerance;
      } else {
        yPositions[i] := bottomEdge + backgroundHeight / ((numberOfLines + 1) as real) * ((i + 1) as real);
      }
    }
  }

  /** With a positive background height, every lane but the last lies
      strictly inside the background (for any number of lanes, even 2). */
  lemma LaneInside(numberOfLines: int, backgroundHeight: real, backgroundY: real,
                   tolerance: real, i: int)
    requires backgroundHeight > 0.0
    requires 0 <= i < numberOfLines - 1
    ensures BottomEdge(backgroundHeight, backgroundY)
              < LaneHeight(numberOfLines, backgroundHeight, backgroundY, tolerance, i)
              < TopEdge(backgroundHeight, backgroundY)
  {
    var n1 := (numberOfLines + 1) as real;
    var step := backgroundHeight / n1;
    assert step > 0.0;
    assert step * n1 == backgroundHeight;
    assert step * ((i + 1) as real) < step * n1;
  }

  /** With a positive background height, the lanes other than the last
      climb strictly. */
  lemma LanesClimb(numberOfLines: int, backgroundHeight: real, backgroundY: real,
                   tolerance: real, i: int, j: int)
    requires backgroundHeight > 0.0
    requires 0 <= i < j < numberOfLines - 1
    ensures LaneHeight(numberOfLines, backgroundHeight, backgroundY, tolerance, i)
              < LaneHeight(numberOfLines, backgroundHeight, backgroundY, tolerance, j)
  {
    var step := backgroundHeight / ((numberOfLines + 1) as real);
    assert step > 0.0;
    assert step * ((i + 1) as real) < step * ((j + 1) as real);
  }

  /** The game's own call (three lanes, the fixed tolerance): the lanes sit
      a quarter of the way up, at the centre, and the tolerance below the
      top; they climb strictly when the background is taller than twice
      the tolerance. */
  lemma GameLanes(backgroundHeight: real, backgroundY: real)
    ensures LaneHeight(GameLaneCount as int, backgroundHeight, backgroundY, LaneTolerance, 0)
              == backgroundY - backgroundHeight / 4.0
    ensures LaneHeight(GameLaneCount as int, backgroundHeight, backgroundY, LaneTolerance, 1) == backgroundY
    ensures LaneHeight(GameLaneCount as int, backgroundHeight, backgroundY, LaneTolerance, 2)
              == backgroundY + backgroundHeight / 2.0 - LaneTolerance
    ensures backgroundHeight > 2.0 * LaneTolerance ==>
              LaneHeight(GameLaneCount as int, backgroundHeight, backgroundY, LaneTolerance, 0)
                < LaneHeight(GameLaneCount as int, backgroundHeight, backgroundY, LaneTolerance, 1)
                < LaneHeight(GameLaneCount as int, backgroundHeight, backgroundY, LaneTolerance, 2)
  {
  }
}
