/** TurnBasedGameEngine: starts a game on the model and asks each player in
    turn for a move until the game is over. The calls it makes on the model
    and on the players are recorded in the ghost log `events`, which the
    methods prove equal to the functions of EngineRules. */
module TurnEngine {
  import opened Common
  import opened Moves
  import opened MnkRules
  import opened MnkBoard
  import opened EngineRules

  class TurnBasedGameEngine {
    const model: MnkBoardGameModel
    const players: seq<Seat>
    const minimumTimeBeforeComputerMoveInMilliseconds: int

    /** The calls made so far on the model and on the players. */
    ghost var events: seq<Event>

    /** The Java constructor: a model must be given (None stands for null),
        at least one player, and a minimum time that is not negative. */
    static method Create(model: Option<MnkBoardGameModel>, players: seq<Seat>, minimumTimeBeforeComputerMoveInMilliseconds: int)
      returns (r: Result<TurnBasedGameEngine>)
      ensures model.None? ==> r == Failure(IllegalArgument("model == null"))
      ensures model.Some? && |players| == 0 ==> r == Failure(IllegalArgument("players is empty"))
      ensures model.Some? && |players| > 0 && minimumTimeBeforeComputerMoveInMilliseconds < 0 ==>
        r == Failure(IllegalArgument("minimumTimeBeforeComputerMoveInMilliseconds < 0"))
      ensures r.Success? ==>
        && fresh(r.value)
        && Some(r.value.model) == model && r.value.players == players
        && r.value.minimumTimeBeforeComputerMoveInMilliseconds == minimumTimeBeforeComputerMoveInMilliseconds
        && r.value.events == []
    {
      if model.None? { return Failure(IllegalArgument("model == null")); }
      if |players| <= 0 { return Failure(IllegalArgument("players is empty")); }
      if minimumTimeBeforeComputerMoveInMilliseconds < 0 {
        return Failure(IllegalArgument("minimumTimeBeforeComputerMoveInMilliseconds < 0"));
      }
      var engine := new TurnBasedGameEngine(model.value, players, minimumTimeBeforeComputerMoveInMilliseconds);
      return Success(engine);
    }

    constructor (model: MnkBoardGameModel, players: seq<Seat>, minimumTimeBeforeComputerMoveInMilliseconds: int)
      requires |players| > 0 && minimumTimeBeforeComputerMoveInMilliseconds >= 0
      ensures this.model == model && this.players == players
      ensures this.minimumTimeBeforeComputerMoveInMilliseconds == minimumTimeBeforeComputerMoveInMilliseconds
      ensures events == []
    {
      this.model := model;
      this.players := players;
      this.minimumTimeBeforeComputerMoveInMilliseconds := minimumTimeBeforeComputerMoveInMilliseconds;
      events := [];
    }

    /** Resets the model, then tells every player, in order, that a new game
        starts. */
    method NewGame()
      requires model.Shaped()
      modifies model, model.board, this`events
      ensures model.Valid() && model.Snapshot() == ResetState(model.Cfg())
      ensures events == old(events) + NewGameEvents(|players|)
    {
      model.Reset();
      events := events + [ResetCalled];
      for i := 0 to |players|
        modifies this`events
        invariant events == old(events) + [ResetCalled] + seq(i, (j: nat) => NotifiedNewGame(j))
      {
        events := events + [NotifiedNewGame(i)];
      }
    }

    /** The retry loop of one turn of player p: the player calculates moves
        until one is legal or maxTries candidates have been offered; each
        illegal one is reported back to the player. */
    method RetryUntilLegal(p: nat, turn: nat, strategy: Strategy) returns (c: Choice)
      requires model.Shaped() && model.Tied() && !model.gameOver && p < |players|
      modifies this`events
      ensures c == ChoiceFor(model.Cfg(), model.cells, strategy, p, turn, MaxTries(players[p].isHuman))
      ensures events == old(events) + AttemptEvents(model.Cfg(), model.cells, strategy, p, turn, c.tries)
    {
      ghost var cfg := model.Cfg();
      ghost var g := model.cells;
      var last := Candidate(SquareMove(0, 0), 0, None);  // not yet calculated
      var thinkingTime := 0;
      var legalMove := false;
      var maxTries := if players[p].isHuman then HumanMaxTries else ComputerMaxTries;
      var tries := 0;
      while !legalMove && tries < maxTries
        invariant 0 <= tries <= maxTries
        invariant tries > 0 ==> last == strategy(p, turn, tries - 1)
        invariant legalMove <==> tries > 0 && LegalAttempt(cfg, g, strategy, p, turn, tries - 1)
        invariant forall j :: 0 <= j < tries - 1 ==> !LegalAttempt(cfg, g, strategy, p, turn, j)
        invariant thinkingTime == ThinkingTime(strategy, p, turn, tries)
        invariant events == old(events) + AttemptEvents(cfg, g, strategy, p, turn, tries)
        decreases maxTries - tries
      {
        last, legalMove := Attempt(p, turn, strategy, tries);
        AppendShift(events, old(events), AttemptEvents(cfg, g, strategy, p, turn, tries), AttemptCalls(cfg, g, strategy, p, turn, tries));
        thinkingTime := thinkingTime + last.thinkingTime;
        tries := tries + 1;
      }
      TriesFromUnique(cfg, g, strategy, p, turn, 0, maxTries, tries);
      c := Choice(tries, last.move, thinkingTime, last.probabilities);
    }

    /** One pass of the retry loop: attempt i of player p, reported back to
        the player when illegal. */
    method Attempt(p: nat, turn: nat, strategy: Strategy, i: nat) returns (candidate: Candidate, legal: bool)
      requires model.Shaped() && model.Tied() && !model.gameOver
      modifies this`events
      ensures candidate == strategy(p, turn, i)
      ensures legal == LegalAttempt(model.Cfg(), model.cells, strategy, p, turn, i)
      ensures events == old(events) + AttemptCalls(model.Cfg(), model.cells, strategy, p, turn, i)
    {
      candidate := strategy(p, turn, i);
      events := events + [CalculatedMove(p)];
      var r := model.IsLegalMove(candidate.move);
      legal := r.value;
      if !legal {
        events := events + [NotifiedTriedIllegalMove(p)];
      }
    }

    /** Tells each player how the game ended: the illegal mover and the
        others, or the winner and the losers, or everybody of a draw. */
    method NotifyPlayersOfGameEndStatus()
      requires model.Valid() && |players| == |model.playerNames|
      modifies this`events
      ensures events == old(events) + EndEvents(|players|, model.indexOfPlayerThatMadeAnIllegalMove, model.indexOfWinner)
    {
      var indexOfPlayerThatMadeAnIllegalMove := model.GetIndexOfPlayerThatMadeAnIllegalMove();
      var indexOfWinner := model.GetIndexOfWinner();

      if indexOfPlayerThatMadeAnIllegalMove != -1 {
        events := events + [NotifiedEnd(indexOfPlayerThatMadeAnIllegalMove, MadeIllegalMove)];
        ghost var before := events;
        for i := 0 to |players|
          invariant events == before + Others(i, indexOfPlayerThatMadeAnIllegalMove, OtherPlayerMadeIllegalMove)
        {
          if i != indexOfPlayerThatMadeAnIllegalMove {
            events := events + [NotifiedEnd(i, OtherPlayerMadeIllegalMove)];
          }
        }
      } else if indexOfWinner != -1 {
        events := events + [NotifiedEnd(indexOfWinner, Won)];
        ghost var before := events;
        for i := 0 to |players|
          invariant events == before + Others(i, indexOfWinner, Lost)
        {
          if i != indexOfWinner {
            events := events + [NotifiedEnd(i, Lost)];
          }
        }
      } else {
        for i := 0 to |players|
          invariant events == old(events) + Others(i, -1, Draw)
        {
          events := events + [NotifiedEnd(i, Draw)];
        }
      }
    }

    /** Plays the game to its end: each iteration asks the player to move for
        a legal move, waits for computer players, makes the move and, once the
        game is over, tells the players how it ended. The turn counter is the
        strategy's index of the turn. */
    method PlayGame(strategy: Strategy)
      requires model.Valid() && |players| == |model.playerNames|
      modifies model, model.board, this`events
      ensures model.Valid() && model.gameOver
      ensures var r := PlayFrom(model.Cfg(), players, minimumTimeBeforeComputerMoveInMilliseconds, strategy, old(model.Snapshot()), 0);
        model.Snapshot() == r.next && events == old(events) + r.events
    {
      ghost var cfg := model.Cfg();
      ghost var play := PlayFrom(cfg, players, minimumTimeBeforeComputerMoveInMilliseconds, strategy, model.Snapshot(), 0);
      var turn: nat := 0;
      var gameOver := model.IsGameOver();
      while !gameOver
        invariant model.Valid() && model.Cfg() == cfg && gameOver == model.gameOver
        invariant var rest := PlayFrom(cfg, players, minimumTimeBeforeComputerMoveInMilliseconds, strategy, model.Snapshot(), turn);
          play.next == rest.next && old(events) + play.events == events + rest.events
        decreases Measure(model.Snapshot())
      {
        ghost var s := model.Snapshot();
        ghost var before := events;
        gameOver := PlayTurn(strategy, turn);
        PlayAdvance(cfg, players, minimumTimeBeforeComputerMoveInMilliseconds, strategy, s, turn, play, old(events), before, model.Snapshot(), events);
        turn := turn + 1;
      }
    }

    /** One iteration of playGame's outer loop. */
    method PlayTurn(strategy: Strategy, turn: nat) returns (gameOver: bool)
      requires model.Valid() && !model.gameOver && |players| == |model.playerNames|
      modifies model, model.board, this`events
      ensures model.Valid() && gameOver == model.gameOver
      ensures var c := ChoiceIn(model.Cfg(), players, strategy, old(model.Snapshot()), turn);
        model.Snapshot() == TryMoveState(model.Cfg(), old(model.Snapshot()), c.move, c.probabilities).value
      ensures events == old(events) + TurnEvents(model.Cfg(), players, minimumTimeBeforeComputerMoveInMilliseconds, strategy, old(model.Snapshot()), turn)
                        + EndEventsIn(model.Cfg(), model.Snapshot())
    {
      ghost var cfg := model.Cfg();
      ghost var s := model.Snapshot();
      var choice := ChooseMove(strategy, turn);
      var _ := model.TryMove(choice.move, choice.probabilities);
      events := events + [TriedMove(choice.move)];
      AppendShift(events, old(events), ChoiceEvents(cfg, players, minimumTimeBeforeComputerMoveInMilliseconds, strategy, s, turn), [TriedMove(choice.move)]);
      gameOver := model.IsGameOver();
      if gameOver {
        NotifyPlayersOfGameEndStatus();
      }
    }

    /** The first part of an outer iteration: the player to move settles on
        a candidate, and a computer player is paced. The model is not
        changed. */
    method ChooseMove(strategy: Strategy, turn: nat) returns (choice: Choice)
      requires model.Valid() && !model.gameOver && |players| == |model.playerNames|
      modifies this`events
      ensures choice == ChoiceIn(model.Cfg(), players, strategy, model.Snapshot(), turn)
      ensures events == old(events) + ChoiceEvents(model.Cfg(), players, minimumTimeBeforeComputerMoveInMilliseconds, strategy, model.Snapshot(), turn)
    {
      var current := model.GetIndexOfCurrentPlayer();
      var p := current.value;
      choice := RetryUntilLegal(p, turn, strategy);
      if !players[p].isHuman {
        var waitingTime := WaitingTime(minimumTimeBeforeComputerMoveInMilliseconds, choice.thinkingTime);
        events := events + [Waited(waitingTime)];
      }
    }
  }
}
