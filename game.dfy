/** The round and score state machine of the `Game` component: the board,
    whose turn it is, the score tally and the once-per-round scoring latch.
    Each handler is given as a pure step on a `RoundState` snapshot, and the
    class `Game` holds the same four fields and updates them in place. The
    scoring effect, which the UI framework runs after every render, is the
    explicit step `SettleStep` / method `Settle`, run after every change. */
module GameComponent {
  import opened GameLogic

  /** The score tally: wins of X, wins of O and draws. */
  datatype Scores = Scores(x: nat, o: nat, draws: nat)

  /** A snapshot of the component's state; `scored` is the latch. */
  datatype RoundState = RoundState(squares: Board, xIsNext: bool, scores: Scores, scored: bool)

  function Total(s: Scores): nat {
    s.x + s.o + s.draws
  }

  /** A fresh board of nine empty cells. */
  function EmptyBoard(): (b: Board)
    ensures forall i :: 0 <= i < 9 ==> b[i] == Empty
  {
    [Empty, Empty, Empty, Empty, Empty, Empty, Empty, Empty, Empty]
  }

  function NextPlayer(xIsNext: bool): (m: Mark)
    ensures m == X <==> xIsNext
  {
    if xIsNext then X else O
  }

  /** The status the component derives from its board and the player to
      move (`useMemo` over `getGameStatus`). */
  function StatusOf(s: RoundState): (r: Status)
    ensures r.kind == Turn <==> !HasWinningLine(s.squares) && !IsFull(s.squares)
    ensures r.kind == Turn ==> r.text == "Turn: " + MarkName(NextPlayer(s.xIsNext))
  {
    GetGameStatus(s.squares, NextPlayer(s.xIsNext))
  }

  /** `gameOver`: the status is a win or a draw. */
  predicate GameOver(s: RoundState) {
    StatusOf(s).kind != Turn
  }

  /** The round is over exactly when some line is complete or the board is
      full; who is to move makes no difference. */
  lemma GameOverMeansWonOrFull(s: RoundState)
    ensures GameOver(s) <==> HasWinningLine(s.squares) || IsFull(s.squares)
    ensures GameOver(s) == GameOver(s.(xIsNext := !s.xIsNext))
  {
  }

  /** The latch agrees with the status, as it does after every settle. */
  predicate Latched(s: RoundState) {
    s.scored == GameOver(s)
  }

  /** `handlePlay(index)`: ignored once the round is over; otherwise the
      current player's mark goes into an empty cell (an occupied cell keeps
      its mark), and the turn passes to the other player in both cases. */
  function PlayStep(s: RoundState, index: nat): (r: RoundState)
    requires index < 9
    ensures GameOver(s) ==> r == s
    ensures !GameOver(s) ==>
      r.xIsNext == !s.xIsNext && r.scores == s.scores && r.scored == s.scored
    ensures !GameOver(s) && s.squares[index] == Empty ==>
      r.squares[index] == Filled(NextPlayer(s.xIsNext))
    ensures s.squares[index] != Empty ==> r.squares == s.squares
    ensures forall j :: 0 <= j < 9 && j != index ==> r.squares[j] == s.squares[j]
  {
    if GameOver(s) then s
    else
      var board :=
        if s.squares[index] != Empty then s.squares
        else s.squares[index := Filled(NextPlayer(s.xIsNext))];
      s.(squares := board, xIsNext := !s.xIsNext)
  }

  /** The updater given to `setScores`: one more win for the winner, or one
      more draw; any other status leaves the tally alone. */
  function Credit(scores: Scores, status: Status): (r: Scores)
    ensures r.x == scores.x + (if status.kind == Win && status.winner == Some(X) then 1 else 0)
    ensures r.o == scores.o + (if status.kind == Win && status.winner == Some(O) then 1 else 0)
    ensures r.draws == scores.draws + (if status.kind == Draw then 1 else 0)
  {
    if status.kind == Win && status.winner.Some? then
      match status.winner.value
      case X => scores.(x := scores.x + 1)
      case O => scores.(o := scores.o + 1)
    else if status.kind == Draw then scores.(draws := scores.draws + 1)
    else scores
  }

  /** The scoring effect: while the round is in progress it clears the
      latch; the first time it sees the round over it credits the result
      exactly once and sets the latch; after that it does nothing. */
  function SettleStep(s: RoundState): (r: RoundState)
    ensures r.squares == s.squares && r.xIsNext == s.xIsNext
    ensures Latched(r)
    ensures Latched(s) ==> r == s
    ensures !GameOver(s) || s.scored ==> r.scores == s.scores
    ensures r.scores.x >= s.scores.x && r.scores.o >= s.scores.o && r.scores.draws >= s.scores.draws
    ensures GameOver(s) && !s.scored ==>
      r.scores == Credit(s.scores, StatusOf(s)) && Total(r.scores) == Total(s.scores) + 1
  {
    if !GameOver(s) then s.(scored := false)
    else if s.scored then s
    else s.(scored := true, scores := Credit(s.scores, StatusOf(s)))
  }

  /** `restartRound`: an empty board with X to move; the tally is kept. */
  function RestartStep(s: RoundState): (r: RoundState)
    ensures forall i :: 0 <= i < 9 ==> r.squares[i] == Empty
    ensures r.xIsNext && r.scores == s.scores && r.scored == s.scored
    ensures !GameOver(r)
  {
    s.(squares := EmptyBoard(), xIsNext := true)
  }

  /** `resetScores`: as `restartRound`, and every counter back to zero. */
  function ResetStep(s: RoundState): (r: RoundState)
    ensures forall i :: 0 <= i < 9 ==> r.squares[i] == Empty
    ensures r.xIsNext && r.scores == Scores(0, 0, 0) && r.scored == s.scored
    ensures !GameOver(r)
  {
    s.(squares := EmptyBoard(), xIsNext := true, scores := Scores(0, 0, 0))
  }

  /** What can happen to the component: a click on a cell, one of the two
      control buttons, or a re-render that runs the scoring effect again. */
  datatype Event = Click(index: nat) | RestartClick | ResetClick | Rerender

  predicate ClicksOnBoard(es: seq<Event>) {
    forall k :: 0 <= k < |es| ==> es[k].Click? ==> es[k].index < 9
  }

  /** No control button is pressed: only clicks and re-renders. */
  predicate PlayOnly(es: seq<Event>) {
    forall k :: 0 <= k < |es| ==> es[k].Click? || es[k].Rerender?
  }

  predicate NoReset(es: seq<Event>) {
    forall k :: 0 <= k < |es| ==> !es[k].ResetClick?
  }

  /** One event, followed by the scoring effect. */
  function Apply(s: RoundState, e: Event): RoundState
    requires e.Click? ==> e.index < 9
  {
    match e
    case Click(i) => SettleStep(PlayStep(s, i))
    case RestartClick => SettleStep(RestartStep(s))
    case ResetClick => SettleStep(ResetStep(s))
    case Rerender => SettleStep(s)
  }

  function Run(s: RoundState, es: seq<Event>): RoundState
    requires ClicksOnBoard(es)
    decreases |es|
  {
    if es == [] then s else Run(Apply(s, es[0]), es[1..])
  }

  /** A click on an occupied cell while the round goes on leaves the board,
      the tally and the latch as they were, and still passes the turn. */
  lemma OccupiedClickOnlyPassesTurn(s: RoundState, i: nat)
    requires Latched(s) && !GameOver(s)
    requires i < 9 && s.squares[i] != Empty
    ensures Apply(s, Click(i)) == s.(xIsNext := !s.xIsNext)
  {
    StatusIgnoresNextPlayer(s.squares, NextPlayer(s.xIsNext), NextPlayer(!s.xIsNext));
  }

  /** Once a round is over and scored, clicks and re-renders change nothing. */
  lemma {:induction false} OverRoundIsFrozen(s: RoundState, es: seq<Event>)
    requires Latched(s) && GameOver(s)
    requires ClicksOnBoard(es) && PlayOnly(es)
    ensures Run(s, es) == s
    decreases |es|
  {
    if es != [] {
      var rest := es[1..];
      assert ClicksOnBoard(rest) && PlayOnly(rest) by {
        forall k | 0 <= k < |rest| ensures rest[k] == es[k + 1] { }
      }
      assert Apply(s, es[0]) == s;
      assert Run(s, es) == Run(s, rest);
      OverRoundIsFrozen(s, rest);
    }
  }

  /** One click or re-render on a settled, unfinished round keeps the
      state settled and credits the result exactly when it ends the round. */
  lemma PlayEventScoresOnEdge(s: RoundState, e: Event)
    requires Latched(s) && !GameOver(s)
    requires e.Click? ==> e.index < 9
    requires e.Click? || e.Rerender?
    ensures Latched(Apply(s, e))
    ensures var t := Apply(s, e);
      t.scores == (if GameOver(t) then Credit(s.scores, StatusOf(t)) else s.scores)
    ensures Total(Apply(s, e).scores) == Total(s.scores) + (if GameOver(Apply(s, e)) then 1 else 0)
  {
    match e
    case Click(i) =>
      var p := PlayStep(s, i);
      assert Apply(s, e) == SettleStep(p) && !p.scored;
      assert GameOver(Apply(s, e)) == GameOver(p);
    case _ =>
  }

  /** Scoring fires once per round: from a settled state with the round in
      progress, any clicks and re-renders credit the final result to the
      tally exactly once if they end the round, and change nothing in the
      tally otherwise. */
  lemma {:induction false} RoundScoredOnce(s: RoundState, es: seq<Event>)
    requires Latched(s) && !GameOver(s)
    requires ClicksOnBoard(es) && PlayOnly(es)
    ensures var t := Run(s, es);
      t.scores == (if GameOver(t) then Credit(s.scores, StatusOf(t)) else s.scores)
    ensures Total(Run(s, es).scores) == Total(s.scores) + (if GameOver(Run(s, es)) then 1 else 0)
    decreases |es|
  {
    if es != [] {
      var t := Apply(s, es[0]);
      var rest := es[1..];
      assert ClicksOnBoard(rest) && PlayOnly(rest) by {
        forall k | 0 <= k < |rest| ensures rest[k] == es[k + 1] { }
      }
      assert Run(s, es) == Run(t, rest);
      PlayEventScoresOnEdge(s, es[0]);
      if GameOver(t) {
        OverRoundIsFrozen(t, rest);
      } else {
        RoundScoredOnce(t, rest);
      }
    }
  }

  /** Any event but a reset keeps every counter or raises it. */
  lemma EventKeepsCounters(s: RoundState, e: Event)
    requires e.Click? ==> e.index < 9
    requires !e.ResetClick?
    ensures Apply(s, e).scores.x >= s.scores.x
    ensures Apply(s, e).scores.o >= s.scores.o
    ensures Apply(s, e).scores.draws >= s.scores.draws
  {
    var p := match e
      case Click(i) => PlayStep(s, i)
      case RestartClick => RestartStep(s)
      case _ => s;
    assert p.scores == s.scores;
    assert Apply(s, e) == SettleStep(p);
  }

  /** Only a reset lowers a counter. */
  lemma {:induction false} CountersNeverDecrease(s: RoundState, es: seq<Event>)
    requires ClicksOnBoard(es) && NoReset(es)
    ensures Run(s, es).scores.x >= s.scores.x
    ensures Run(s, es).scores.o >= s.scores.o
    ensures Run(s, es).scores.draws >= s.scores.draws
    decreases |es|
  {
    if es != [] {
      var t := Apply(s, es[0]);
      var rest := es[1..];
      assert ClicksOnBoard(rest) && NoReset(rest) by {
        forall k | 0 <= k < |rest| ensures rest[k] == es[k + 1] { }
      }
      assert Run(s, es) == Run(t, rest);
      EventKeepsCounters(s, es[0]);
      CountersNeverDecrease(t, rest);
    }
  }

  /** The component: the state its hooks hold, updated in place by the
      click and button handlers, each of which is followed by the scoring
      effect. Between calls the latch agrees with the status (`Valid`). */
  class Game {
    var squares: Board
    var xIsNext: bool
    var scores: Scores
    var scored: bool

    function State(): RoundState
      reads this
    {
      RoundState(squares, xIsNext, scores, scored)
    }

    predicate Valid()
      reads this
    {
      Latched(State())
    }

    /** The status the component renders, derived from the board and the
        player to move; it is the status of the current snapshot. */
    function CurrentStatus(): (r: Status)
      reads this
      ensures r == StatusOf(State())
    {
      GetGameStatus(squares, NextPlayer(xIsNext))
    }

    /** A new game: nine empty cells, X to move, no points, latch clear. */
    constructor ()
      ensures forall i :: 0 <= i < 9 ==> squares[i] == Empty
      ensures xIsNext && scores == Scores(0, 0, 0) && !scored
      ensures CurrentStatus().kind == Turn
      ensures Valid()
    {
      squares := EmptyBoard();
      xIsNext := true;
      scores := Scores(0, 0, 0);
      scored := false;
    }

    /** The scoring effect. `gameOver` is tested on the rendered status as
        the component does; on snapshots the same test is `GameOver`. */
    method Settle()
      modifies this
      ensures State() == SettleStep(old(State()))
      ensures Valid()
    {
      var status := CurrentStatus();
      var gameOver := status.kind == Win || status.kind == Draw;
      if !gameOver {
        scored := false;
        return;
      }
      if scored {
        return;
      }
      scored := true;
      scores := Credit(scores, status);
    }

    /** A click on cell `index`, then the scoring effect. On a finished
        round the handler returns at once and changes nothing, so no effect
        runs. */
    method HandlePlay(index: nat)
      requires Valid() && index < 9
      modifies this
      ensures State() == SettleStep(PlayStep(old(State()), index))
      ensures Valid()
    {
      var status := CurrentStatus();
      var gameOver := status.kind == Win || status.kind == Draw;
      if gameOver {
        return;
      }
      ghost var before := State();
      if squares[index] == Empty {
        squares := squares[index := Filled(NextPlayer(xIsNext))];
      }
      xIsNext := !xIsNext;
      assert State() == PlayStep(before, index);
      Settle();
    }

    /** The "restart round" button, then the scoring effect. */
    method RestartRound()
      modifies this
      ensures State() == SettleStep(RestartStep(old(State())))
      ensures Valid()
    {
      squares := EmptyBoard();
      xIsNext := true;
      Settle();
    }

    /** The "reset scores" button, then the scoring effect. */
    method ResetScores()
      modifies this
      ensures State() == SettleStep(ResetStep(old(State())))
      ensures Valid()
    {
      squares := EmptyBoard();
      xIsNext := true;
      scores := Scores(0, 0, 0);
      Settle();
    }
  }
}
