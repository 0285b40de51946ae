/**
 * The random stream behind bomb placement.
 *
 * The game draws `Math.floor(Math.random() * gridSize)` until its bomb set
 * holds `count` distinct cells. Here the stream of draws is a finite
 * sequence supplied by the caller; `Fill` is the rejection loop run on that
 * sequence, and `DrawsSuffice` says the sequence is long enough for the
 * loop to stop before it runs dry.
 */
module RandomDraws {

  /** The distinct values occurring in a stream of draws. */
  function Elems(draws: seq<int>): (elems: set<int>)
  {
    set d | d in draws
  }

  /** The cell indices 0 .. gridSize-1 of a grid: exactly `gridSize` of them. */
  function Cells(gridSize: nat): (cells: set<int>)
    ensures forall i :: i in cells <==> 0 <= i < gridSize
    ensures |cells| == gridSize
  {
    if gridSize == 0 then {} else Cells(gridSize - 1) + {gridSize - 1}
  }

  /** Every index of `s` names a cell of a grid with `gridSize` cells. */
  predicate InGrid(s: set<int>, gridSize: int)
  {
    forall i | i in s :: 0 <= i < gridSize
  }

  /**
   * Every draw is a cell index (what `Math.floor(Math.random() * gridSize)`
   * yields) and the stream holds at least `count` distinct cells, so the
   * rejection loop reaches `count` bombs on it.
   */
  predicate DrawsSuffice(draws: seq<int>, gridSize: int, count: nat)
  {
    (forall k | 0 <= k < |draws| :: 0 <= draws[k] < gridSize)
    && count <= |Elems(draws)|
  }

  /**
   * The rejection loop: starting from `acc`, add the next draw until the set
   * holds `count` cells (a draw already present changes nothing). It keeps
   * its start, adds only drawn cells, never passes `count` when started
   * below it, and stops short of `count` only when the draws run out.
   */
  function Fill(acc: set<int>, draws: seq<int>, count: nat): (filled: set<int>)
    ensures acc <= filled
    ensures forall x | x in filled :: x in acc || x in draws
    ensures |acc| <= count ==> |filled| <= count
    ensures |filled| < count ==> forall x | x in draws :: x in filled
    decreases |draws|
  {
    if |acc| >= count || draws == [] then acc
    else Fill(acc + {draws[0]}, draws[1..], count)
  }

  /**
   * The bomb set the loop builds from an empty set: at most `count` drawn
   * cells, and all of the drawn cells when it holds fewer than `count`.
   */
  function Placement(draws: seq<int>, count: nat): (bombs: set<int>)
    ensures forall x | x in bombs :: x in draws
    ensures |bombs| <= count
    ensures |bombs| < count ==> bombs == Elems(draws)
  {
    Fill({}, draws, count)
  }

  lemma ElemsCons(draws: seq<int>)
    requires draws != []
    ensures Elems(draws) == {draws[0]} + Elems(draws[1..])
  {
  }

  /**
   * Run from an in-grid set of at most `count` cells on draws that can still
   * supply enough new cells, the loop stops with exactly `count` cells, all
   * in the grid, keeps what it started with and adds only drawn cells.
   */
  lemma {:induction false} FillLayout(acc: set<int>, draws: seq<int>, gridSize: int, count: nat)
    requires InGrid(acc, gridSize) && |acc| <= count
    requires forall k | 0 <= k < |draws| :: 0 <= draws[k] < gridSize
    requires count <= |acc + Elems(draws)|
    ensures |Fill(acc, draws, count)| == count
    ensures InGrid(Fill(acc, draws, count), gridSize)
    ensures acc <= Fill(acc, draws, count) <= acc + Elems(draws)
    decreases |draws|
  {
    if |acc| < count && draws != [] {
      ElemsCons(draws);
      assert acc + Elems(draws) == (acc + {draws[0]}) + Elems(draws[1..]);
      FillLayout(acc + {draws[0]}, draws[1..], gridSize, count);
    }
  }

  /** On a sufficient stream the bombs are exactly `count` distinct drawn cells of the grid. */
  lemma PlacementLayout(draws: seq<int>, gridSize: int, count: nat)
    requires DrawsSuffice(draws, gridSize, count)
    ensures |Placement(draws, count)| == count
    ensures InGrid(Placement(draws, count), gridSize)
    ensures Placement(draws, count) <= Elems(draws)
  {
    // follows from the contract of Placement and the distinct-cell bound
  }

  /** A set of cells of a grid is no larger than the grid. */
  lemma InGridBound(s: set<int>, gridSize: nat)
    requires InGrid(s, gridSize)
    ensures |s| <= gridSize
  {
    assert s <= Cells(gridSize);
    assert Cells(gridSize) == s + (Cells(gridSize) - s);
  }

  /** Only `count <= gridSize` can be met by a stream of draws. */
  lemma SufficeFits(draws: seq<int>, gridSize: nat, count: nat)
    requires DrawsSuffice(draws, gridSize, count)
    ensures count <= gridSize
  {
    assert InGrid(Elems(draws), gridSize);
    InGridBound(Elems(draws), gridSize);
  }

  /** The stream that draws every cell once in order. */
  function Enumeration(gridSize: nat): (draws: seq<int>)
  {
    seq(gridSize, i => i)
  }

  /** For every `count <= gridSize` some stream of draws is sufficient. */
  lemma EnumerationSuffices(gridSize: nat, count: nat)
    requires count <= gridSize
    ensures DrawsSuffice(Enumeration(gridSize), gridSize, count)
  {
    var draws := Enumeration(gridSize);
    assert Elems(draws) == Cells(gridSize) by {
      forall i | i in Cells(gridSize) ensures i in Elems(draws) {
        assert draws[i] == i;
      }
    }
  }
}
