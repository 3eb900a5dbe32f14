/** RandomLegalMovePlayer: a computer player that picks one of the model's
    legal moves uniformly at random. The random generator is a parameter:
    nextInt(bound) is some number in [0, bound), as java.util.Random promises. */
module RandomPlayer {
  import opened Common
  import opened Moves
  import opened MnkRules
  import opened MnkBoard
  import EngineRules

  const NoLegalMoves: Error := IllegalState("No legal moves available.")
  const NotCalculated: Error := IllegalState("nextMove not initialized. First call calculateMove().")
  const TriedIllegalMove: Error := IllegalState("RandomLegalMovePlayer tried an illegal move.")
  const MadeIllegalMove: Error := IllegalState("RandomLegalMovePlayer made an illegal move.")

  /** What a generator of random indices promises. */
  ghost predicate IsIndexGenerator(nextInt: nat -> nat) {
    forall bound: nat :: bound > 0 ==> nextInt(bound) < bound
  }

  /** The move drawn from the given legal moves. */
  function Draw(legalMoves: seq<SquareMove>, nextInt: nat -> nat): (m: SquareMove)
    requires |legalMoves| > 0 && IsIndexGenerator(nextInt)
    ensures m in legalMoves
  {
    legalMoves[nextInt(|legalMoves|)]
  }

  /** A drawn move is legal on the board it was drawn from. */
  lemma DrawIsLegal(cfg: Config, g: Grid, nextInt: nat -> nat)
    requires Fits(cfg, g) && |LegalMoves(g)| > 0 && IsIndexGenerator(nextInt)
    ensures IsLegal(cfg, g, Draw(LegalMoves(g), nextInt))
  {
    LegalMovesAreLegal(cfg, g, Draw(LegalMoves(g), nextInt));
  }

  /** Seen from the engine: when the first candidate of a turn is drawn from
      the board's legal moves, as calculateMove does, the retry loop stops
      after that one attempt and the player is never told of an illegal
      move, so notifyTriedIllegalMove, which this player rejects, is not
      called in that turn. */
  lemma DrawnCandidateNeedsNoRetry(cfg: Config, g: Grid, strategy: EngineRules.Strategy, p: nat, turn: nat, cap: nat,
                                   nextInt: nat -> nat)
    requires Fits(cfg, g) && |LegalMoves(g)| > 0 && IsIndexGenerator(nextInt) && cap > 0
    requires strategy(p, turn, 0).move == Draw(LegalMoves(g), nextInt)
    ensures var c := EngineRules.ChoiceFor(cfg, g, strategy, p, turn, cap);
      && c.tries == 1 && c.move == Draw(LegalMoves(g), nextInt) && IsLegal(cfg, g, c.move)
      && EngineRules.Occurrences(EngineRules.AttemptEvents(cfg, g, strategy, p, turn, c.tries),
                                 EngineRules.NotifiedTriedIllegalMove(p)) == 0
  {
    DrawIsLegal(cfg, g, nextInt);
    EngineRules.TriesFromUnique(cfg, g, strategy, p, turn, 0, cap, 1);
    EngineRules.TriedIllegalMoveOncePerIllegalCandidate(cfg, g, strategy, p, turn, cap);
  }

  class RandomLegalMovePlayer {
    const name: string
    /** The move calculated last; None stands for null. */
    var nextMove: Option<SquareMove>

    /** The Java constructor: a name must be given (None stands for null). */
    static method Create(name: Option<string>) returns (r: Result<RandomLegalMovePlayer>)
      ensures name.None? ==> r == Failure(IllegalArgument("name == null"))
      ensures name.Some? ==> r.Success? && fresh(r.value) && r.value.name == name.value && r.value.nextMove == None
    {
      if name.None? { return Failure(IllegalArgument("name == null")); }
      var player := new RandomLegalMovePlayer(name.value);
      return Success(player);
    }

    constructor (name: string)
      ensures this.name == name && nextMove == None
    {
      this.name := name;
      nextMove := None;
    }

    /** Picks a random legal move of the model. The model is only read. */
    method CalculateMove(model: Option<MnkBoardGameModel>, nextInt: nat -> nat) returns (r: Outcome)
      requires model.Some? ==> model.value.Shaped() && model.value.Tied()
      requires IsIndexGenerator(nextInt)
      modifies this`nextMove
      ensures model.None? ==> r == Fail(IllegalArgument("model == null")) && nextMove == old(nextMove)
      ensures model.Some? && model.value.gameOver ==> r == Fail(GameAlreadyOver) && nextMove == old(nextMove)
      ensures model.Some? && !model.value.gameOver && |LegalMoves(model.value.cells)| == 0 ==>
        r == Fail(NoLegalMoves) && nextMove == old(nextMove)
      ensures model.Some? && !model.value.gameOver && |LegalMoves(model.value.cells)| > 0 ==>
        && r == Pass
        && nextMove == Some(Draw(LegalMoves(model.value.cells), nextInt))
        && IsLegal(model.value.Cfg(), model.value.cells, nextMove.value)
    {
      if model.None? { return Fail(IllegalArgument("model == null")); }
      var legalMoves := model.value.GetLegalMoves();
      if legalMoves.Failure? { return Fail(legalMoves.error); }
      if |legalMoves.value| <= 0 { return Fail(NoLegalMoves); }
      nextMove := Some(legalMoves.value[nextInt(|legalMoves.value|)]);
      DrawIsLegal(model.value.Cfg(), model.value.cells, nextInt);
      return Pass;
    }

    /** The move calculated last; an error before the first calculateMove
        and after notifyNewGame. */
    function GetCalculatedMove(): (r: Result<SquareMove>)
      reads this
      ensures r.Success? <==> nextMove.Some?
      ensures r.Success? ==> Some(r.value) == nextMove
      ensures r.Failure? ==> r.error == NotCalculated
    {
      if nextMove.None? then Failure(NotCalculated) else Success(nextMove.value)
    }

    /** This player reports no move probabilities (null). */
    function GetCalculatedMoveProbabilities(): (p: Option<Probabilities>)
      ensures p.None?
    {
      None
    }

    /** A new game forgets the calculated move. */
    method NotifyNewGame()
      modifies this`nextMove
      ensures nextMove == None
    {
      nextMove := None;
    }

    /** This player only proposes legal moves, so being told otherwise is an
        error. */
    function NotifyTriedIllegalMove(): (r: Outcome)
      ensures r.Fail? && r.error.IllegalState?
      ensures r.error == TriedIllegalMove
    {
      Fail(TriedIllegalMove)
    }

    function NotifyMadeIllegalMove(): (r: Outcome)
      ensures r.Fail? && r.error.IllegalState?
      ensures r.error == MadeIllegalMove
    {
      Fail(MadeIllegalMove)
    }

    function GetName(): (n: string)
      ensures n == name
    {
      name
    }

    function IsHumanPlayer(): (human: bool)
      ensures !human
    {
      false
    }
  }
}
