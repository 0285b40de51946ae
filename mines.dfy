/**
 * The game-state engine of the shrinking-grid minesweeper: three levels on an
 * n-by-n grid holding n bombs; three distinct safe reveals clear a level, the
 * next level has a side one shorter (never below 2), and a bomb reveal is a
 * loss.
 *
 * `Game` is a snapshot of the engine's state and the functions over it say
 * what each event does to it; `MinesGame` is the engine itself, whose fields
 * its methods update step by step and whose every method is proved to agree
 * with the corresponding function.
 */
module Mines {
  import opened RandomDraws

  /** The last level: clearing it wins the game. */
  const MaxLevel := 3
  /** Safe reveals needed to clear a level. */
  const RequiredPresses := 3
  /** Grid side of the first level. */
  const FirstSide := 5
  /** The grid side never shrinks below this. */
  const MinSide := 2

  function Max(a: int, b: int): (m: int)
    ensures m >= a && m >= b && (m == a || m == b)
  {
    if a >= b then a else b
  }

  /** Grid side of the level after one with side `n`: one shorter, but at least 2. */
  function NextSide(n: int): (side: int)
    ensures MinSide <= side
    ensures n > MinSide ==> side == n - 1
    ensures n <= MinSide ==> side == MinSide
  {
    Max(MinSide, n - 1)
  }

  /** One snapshot of the engine's state. */
  datatype Game = Game(
    level: int,
    n: int,
    gridSize: int,
    successPresses: int,
    bombs: set<int>,
    revealed: set<int>)
  {
    /** The revealed cells that are not bombs. */
    function RevealedSafe(): set<int>
    {
      revealed - bombs
    }

    /**
     * What the engine keeps true between events: the grid is n-by-n with
     * n >= 2, it holds n bombs, every bomb and every revealed cell is a cell
     * of the grid, and the success counter counts the revealed safe cells.
     * The bombs then never fill the grid: some cell is always safe.
     */
    predicate Valid()
      ensures Valid() ==> n < gridSize
    {
      1 <= level && MinSide <= n && gridSize == n * n
      && |bombs| == n && InGrid(bombs, gridSize)
      && InGrid(revealed, gridSize)
      && successPresses == |RevealedSafe()|
    }
  }

  /** What a safe reveal leads to. */
  datatype Progress =
    | KeepPlaying     // fewer than three safe reveals so far
    | AdvancePending  // level cleared: the next level is started by `Advance`
    | GameWon         // last level cleared

  /** What a click reports. */
  datatype Outcome =
    | AlreadyRevealed
    | BombHit(index: int)
    | SafeReveal(remaining: int, progress: Progress)

  datatype ClickResult = ClickResult(outcome: Outcome, after: Game)

  /**
   * A fresh level with the given number and side: nothing revealed, counter
   * zero, and n bombs drawn from the stream.
   */
  function LevelStart(level: int, n: int, draws: seq<int>): (g: Game)
    requires 1 <= level && MinSide <= n && DrawsSuffice(draws, n * n, n)
    ensures g.Valid()
    ensures g.level == level && g.n == n && g.gridSize == n * n
    ensures g.successPresses == 0 && g.revealed == {}
    ensures |g.bombs| == n && g.bombs <= Elems(draws)
  {
    PlacementLayout(draws, n * n, n);
    Game(level, n, n * n, 0, Placement(draws, n), {})
  }

  /** A new game: level 1 on a 5-by-5 grid with 5 bombs. */
  function NewGame(draws: seq<int>): (g: Game)
    requires DrawsSuffice(draws, FirstSide * FirstSide, FirstSide)
    ensures g.Valid()
    ensures g.level == 1 && g.n == 5 && g.gridSize == 25 && |g.bombs| == 5
    ensures g.successPresses == 0 && g.revealed == {}
  {
    LevelStart(1, FirstSide, draws)
  }

  /**
   * The deferred advance: the next level, with a side one shorter but at
   * least 2, and a fresh layout of that many bombs.
   */
  function AdvanceStep(g: Game, draws: seq<int>): (r: Game)
    requires g.Valid()
    requires DrawsSuffice(draws, NextSide(g.n) * NextSide(g.n), NextSide(g.n))
    ensures r.Valid()
    ensures r.level == g.level + 1
    ensures r.n == (if g.n > MinSide then g.n - 1 else MinSide)
    ensures r.gridSize == r.n * r.n && |r.bombs| == r.n && r.bombs <= Elems(draws)
    ensures r.successPresses == 0 && r.revealed == {}
  {
    LevelStart(g.level + 1, NextSide(g.n), draws)
  }

  /** "Reset this level": same level and side, a fresh layout. */
  function ResetStep(g: Game, draws: seq<int>): (r: Game)
    requires g.Valid()
    requires DrawsSuffice(draws, g.gridSize, g.n)
    ensures r.Valid()
    ensures r.level == g.level && r.n == g.n && r.gridSize == g.gridSize
    ensures |r.bombs| == g.n && r.bombs <= Elems(draws)
    ensures r.successPresses == 0 && r.revealed == {}
  {
    LevelStart(g.level, g.n, draws)
  }

  /** A new safe cell raises the number of revealed safe cells by one. */
  lemma SafeRevealCount(revealed: set<int>, bombs: set<int>, idx: int)
    requires idx !in revealed && idx !in bombs
    ensures |(revealed + {idx}) - bombs| == |revealed - bombs| + 1
  {
    assert (revealed + {idx}) - bombs == (revealed - bombs) + {idx};
  }

  /**
   * A click on cell `idx`. An already revealed cell changes nothing;
   * otherwise the cell is revealed. A bomb is reported as a loss carrying the
   * cell; a safe cell raises the counter by one and reports how many safe
   * reveals remain and whether the level, or the game, is now done. Nothing
   * refuses clicks after a loss or a win.
   */
  function ClickStep(g: Game, idx: int): (r: ClickResult)
    requires g.Valid() && 0 <= idx < g.gridSize
    ensures r.after.Valid()
    ensures r.after.level == g.level && r.after.n == g.n
    ensures r.after.gridSize == g.gridSize && r.after.bombs == g.bombs
    ensures r.after.revealed == g.revealed + {idx}
    ensures r.outcome == AlreadyRevealed <==> idx in g.revealed
    ensures idx in g.revealed ==> r.after == g
    ensures r.outcome.BombHit? <==> idx !in g.revealed && idx in g.bombs
    ensures r.outcome.BombHit? ==> r.outcome.index == idx && r.after.successPresses == g.successPresses
    ensures r.outcome.SafeReveal? <==> idx !in g.revealed && idx !in g.bombs
    ensures r.outcome.SafeReveal? ==>
      && r.after.successPresses == g.successPresses + 1
      && r.outcome.remaining == Max(0, RequiredPresses - |r.after.RevealedSafe()|)
      && r.outcome.progress ==
           if |r.after.RevealedSafe()| < RequiredPresses then KeepPlaying
           else if g.level >= MaxLevel then GameWon
           else AdvancePending
  {
    if idx in g.revealed then ClickResult(AlreadyRevealed, g)
    else
      var shown := g.revealed + {idx};
      if idx in g.bombs then
        assert shown - g.bombs == g.RevealedSafe();
        ClickResult(BombHit(idx), g.(revealed := shown))
      else
        SafeRevealCount(g.revealed, g.bombs, idx);
        var presses := g.successPresses + 1;
        var progress :=
          if presses < RequiredPresses then KeepPlaying
          else if g.level >= MaxLevel then GameWon
          else AdvancePending;
        ClickResult(SafeReveal(Max(0, RequiredPresses - presses), progress),
                    g.(revealed := shown, successPresses := presses))
  }

  /** The state after clicking the cells of `idxs` in order. */
  function Clicks(g: Game, idxs: seq<int>): (r: Game)
    requires g.Valid()
    requires forall k | 0 <= k < |idxs| :: 0 <= idxs[k] < g.gridSize
    ensures r.Valid()
    ensures r.level == g.level && r.n == g.n && r.gridSize == g.gridSize && r.bombs == g.bombs
    ensures r.revealed == g.revealed + Elems(idxs)
    decreases |idxs|
  {
    if idxs == [] then g
    else
      ElemsCons(idxs);
      Clicks(ClickStep(g, idxs[0]).after, idxs[1..])
  }

  /**
   * Over any run of clicks the counter rises by the number of distinct safe
   * cells newly revealed: re-clicks and bombs add nothing.
   */
  lemma ClicksSafeCount(g: Game, idxs: seq<int>)
    requires g.Valid()
    requires forall k | 0 <= k < |idxs| :: 0 <= idxs[k] < g.gridSize
    ensures Clicks(g, idxs).successPresses
            == g.successPresses + |Elems(idxs) - g.revealed - g.bombs|
  {
    var r := Clicks(g, idxs);
    var newSafe := Elems(idxs) - g.revealed - g.bombs;
    assert r.RevealedSafe() == g.RevealedSafe() + newSafe;
    assert g.RevealedSafe() * newSafe == {};
  }

  /** A valid state has room for its bombs and at most gridSize - n safe reveals. */
  lemma ValidBounds(g: Game)
    requires g.Valid()
    ensures g.n <= g.gridSize
    ensures 0 <= g.successPresses <= g.gridSize - g.n
  {
    InGridBound(g.bombs, g.gridSize);
    var safeCells := Cells(g.gridSize) - g.bombs;
    assert g.bombs <= Cells(g.gridSize);
    assert Cells(g.gridSize) == g.bombs + safeCells;
    assert g.RevealedSafe() <= safeCells;
    assert safeCells == g.RevealedSafe() + (safeCells - g.RevealedSafe());
  }

  /**
   * Three distinct safe clicks on a fresh level report 2 and 1 remaining and
   * then finish the level: the game is won on the last level and an advance
   * is pending before it.
   */
  lemma ThreeSafeClicksFinishLevel(g: Game, a: int, b: int, c: int)
    requires g.Valid() && g.revealed == {} && g.successPresses == 0
    requires 0 <= a < g.gridSize && 0 <= b < g.gridSize && 0 <= c < g.gridSize
    requires a !in g.bombs && b !in g.bombs && c !in g.bombs
    requires a != b && b != c && a != c
    ensures ClickStep(g, a).outcome == SafeReveal(2, KeepPlaying)
    ensures ClickStep(ClickStep(g, a).after, b).outcome == SafeReveal(1, KeepPlaying)
    ensures ClickStep(ClickStep(ClickStep(g, a).after, b).after, c).outcome
            == SafeReveal(0, if g.level >= MaxLevel then GameWon else AdvancePending)
  {
  }

  /** A second click on the same cell reports AlreadyRevealed and changes nothing. */
  lemma ClickTwice(g: Game, idx: int)
    requires g.Valid() && 0 <= idx < g.gridSize
    ensures ClickStep(ClickStep(g, idx).after, idx)
            == ClickResult(AlreadyRevealed, ClickStep(g, idx).after)
  {
  }

  /**
   * A bomb hit does not stop the game: a later click on an unrevealed safe
   * cell is still a safe reveal.
   */
  lemma PlayContinuesAfterBomb(g: Game, bomb: int, idx: int)
    requires g.Valid() && 0 <= bomb < g.gridSize && 0 <= idx < g.gridSize
    requires ClickStep(g, bomb).outcome.BombHit?
    requires idx !in g.revealed && idx !in g.bombs
    ensures ClickStep(ClickStep(g, bomb).after, idx).outcome.SafeReveal?
  {
  }

  /**
   * Nothing marks a level as finished: once three safe cells are revealed,
   * every further safe click reports the level done again, so before the
   * last level each one asks for another advance.
   */
  lemma FinishedLevelReportsAgain(g: Game, idx: int)
    requires g.Valid() && 0 <= idx < g.gridSize
    requires |g.RevealedSafe()| >= RequiredPresses
    requires idx !in g.revealed && idx !in g.bombs
    ensures ClickStep(g, idx).outcome
            == SafeReveal(0, if g.level >= MaxLevel then GameWon else AdvancePending)
  {
  }

  /** From any valid state the next side is at least 2 and no larger. */
  lemma SideSchedule(g: Game)
    requires g.Valid()
    ensures MinSide <= NextSide(g.n) <= g.n
  {
  }

  /**
   * The level schedule of a game: a new game is level 1 on 5-by-5, and the
   * first two advances give level 2 on 4-by-4 and level 3 on 3-by-3, each
   * with as many bombs as its side.
   */
  lemma LevelScheduleFromNewGame(d1: seq<int>, d2: seq<int>, d3: seq<int>)
    requires DrawsSuffice(d1, 25, 5) && DrawsSuffice(d2, 16, 4) && DrawsSuffice(d3, 9, 3)
    ensures NewGame(d1).level == 1 && NewGame(d1).gridSize == 25
    ensures AdvanceStep(NewGame(d1), d2).level == 2
    ensures AdvanceStep(NewGame(d1), d2).gridSize == 16
    ensures |AdvanceStep(NewGame(d1), d2).bombs| == 4
    ensures AdvanceStep(AdvanceStep(NewGame(d1), d2), d3).level == MaxLevel
    ensures AdvanceStep(AdvanceStep(NewGame(d1), d2), d3).gridSize == 9
    ensures |AdvanceStep(AdvanceStep(NewGame(d1), d2), d3).bombs| == 3
  {
  }

  /** The engine, with the state the source keeps in module-level variables. */
  class MinesGame {
    var level: int
    var n: int
    var gridSize: int
    var successPresses: int
    var bombs: set<int>
    var revealed: set<int>

    function State(): Game
      reads this
    {
      Game(level, n, gridSize, successPresses, bombs, revealed)
    }

    predicate Valid()
      reads this
    {
      State().Valid()
    }

    /** Script start-up: the initial variable values, then a new game. */
    constructor (draws: seq<int>)
      requires DrawsSuffice(draws, FirstSide * FirstSide, FirstSide)
      ensures Valid() && State() == NewGame(draws)
    {
      level := 1;
      n := FirstSide;
      successPresses := 0;
      bombs := {};
      revealed := {};
      gridSize := 0;
      new;
      StartNewGame(draws);
    }

    method StartNewGame(draws: seq<int>)
      requires DrawsSuffice(draws, FirstSide * FirstSide, FirstSide)
      modifies this
      ensures Valid() && State() == NewGame(draws)
    {
      level := 1;
      n := FirstSide;
      StartLevel(draws);
    }

    method StartLevel(draws: seq<int>)
      requires 1 <= level && MinSide <= n && DrawsSuffice(draws, n * n, n)
      modifies this
      ensures Valid() && State() == LevelStart(old(level), old(n), draws)
    {
      successPresses := 0;
      revealed := {};
      bombs := {};
      gridSize := n * n;
      PlaceBombs(n, draws);
    }

    /**
     * The rejection loop: discard the old bombs, then add draws until there
     * are `count` distinct bombs.
     */
    method PlaceBombs(count: nat, draws: seq<int>)
      requires DrawsSuffice(draws, gridSize, count)
      modifies this`bombs
      ensures bombs == Placement(draws, count)
      ensures |bombs| == count && InGrid(bombs, gridSize) && bombs <= Elems(draws)
    {
      PlacementLayout(draws, gridSize, count);
      bombs := {};
      var k := 0;
      assert draws[k..] == draws;
      while |bombs| < count
        invariant 0 <= k <= |draws|
        invariant Fill(bombs, draws[k..], count) == Placement(draws, count)
        decreases |draws| - k
      {
        assert draws[k..] == [draws[k]] + draws[k + 1..];
        bombs := bombs + {draws[k]};
        k := k + 1;
      }
    }

    /** The state logic of a cell click. */
    method Click(idx: int) returns (outcome: Outcome)
      requires Valid() && 0 <= idx < gridSize
      modifies this
      ensures Valid()
      ensures ClickResult(outcome, State()) == ClickStep(old(State()), idx)
    {
      if idx in revealed {
        return AlreadyRevealed;
      }
      revealed := revealed + {idx};
      if idx in bombs {
        assert revealed - bombs == old(revealed) - bombs;
        return BombHit(idx);
      }
      SafeRevealCount(old(revealed), bombs, idx);
      successPresses := successPresses + 1;
      var remaining := Max(0, RequiredPresses - successPresses);
      if successPresses >= RequiredPresses {
        if level >= MaxLevel {
          outcome := SafeReveal(remaining, GameWon);
        } else {
          outcome := SafeReveal(remaining, AdvancePending);
        }
      } else {
        outcome := SafeReveal(remaining, KeepPlaying);
      }
    }

    /** The deferred callback that moves to the next level. */
    method Advance(draws: seq<int>)
      requires Valid()
      requires DrawsSuffice(draws, NextSide(n) * NextSide(n), NextSide(n))
      modifies this
      ensures Valid() && State() == AdvanceStep(old(State()), draws)
    {
      level := level + 1;
      n := Max(MinSide, n - 1);
      StartLevel(draws);
    }

    /** The "reset this level" action. */
    method ResetLevel(draws: seq<int>)
      requires Valid() && DrawsSuffice(draws, gridSize, n)
      modifies this
      ensures Valid() && State() == ResetStep(old(State()), draws)
    {
      StartLevel(draws);
    }
  }
}
