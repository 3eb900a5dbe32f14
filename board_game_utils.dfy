/** BoardGameUtils: the player types offered to the user with their display
    names, the default player names, and the creation of the players of a
    game from chosen types and names. */
module BoardGameUtils {
  import opened Common
  import opened Decimal
  import opened SquaresPanel
  import opened EngineRules
  import opened RandomPlayer

  datatype PlayerType = Human | ComputerRandomMove | ComputerBruteForce | ComputerNeuralNetwork

  /** PlayerType.toString: the name shown to the user. */
  function DisplayName(t: PlayerType): (s: string)
    ensures |s| > 0
  {
    match t
    case Human => "Human"
    case ComputerRandomMove => "Computer Random Move"
    case ComputerBruteForce => "Computer Brute Force"
    case ComputerNeuralNetwork => "Computer Neural Network"
  }

  /** The display names tell the player types apart. */
  lemma DisplayNamesDistinct(t: PlayerType, u: PlayerType)
    ensures DisplayName(t) == DisplayName(u) <==> t == u
  {
    if t != u {
      // the names already differ in length, or from the tenth character on
      assert DisplayName(t) != DisplayName(u) by {
        var s, s' := DisplayName(t), DisplayName(u);
        if |s| == |s'| { assert s[9] != s'[9]; }
      }
    }
  }

  // ---------------------------------------------------------------------------
  // Player names

  const PlayerNamePrefix: string := "Player "

  /** The default name of the player with zero-based index n. */
  function PlayerName(n: nat): string {
    PlayerNamePrefix + NatToString(n + 1)
  }

  /** createPlayerNames: "Player 1", "Player 2", ... one per player. */
  method CreatePlayerNames(playerCount: int) returns (r: Result<seq<string>>)
    ensures playerCount < 0 <==> r.Failure?
    ensures r.Failure? ==> r.error == NegativeArraySize(playerCount)
    ensures r.Success? ==> |r.value| == playerCount
    ensures r.Success? ==> forall n :: 0 <= n < playerCount ==> r.value[n] == PlayerName(n)
  {
    if playerCount < 0 { return Failure(NegativeArraySize(playerCount)); }
    var playerNames := new string[playerCount];
    for n := 0 to playerCount
      invariant forall j :: 0 <= j < n ==> playerNames[j] == PlayerName(j)
    {
      playerNames[n] := PlayerNamePrefix + NatToString(n + 1);
    }
    return Success(playerNames[..]);
  }

  /** A default name is the prefix followed by the one-based player number. */
  lemma PlayerNameParses(n: nat)
    ensures |PlayerName(n)| > |PlayerNamePrefix|
    ensures PlayerName(n)[..|PlayerNamePrefix|] == PlayerNamePrefix
    ensures var digits := PlayerName(n)[|PlayerNamePrefix|..];
      (forall i :: 0 <= i < |digits| ==> IsDigit(digits[i])) && StringToNat(digits) == n + 1
  {
    assert PlayerName(n)[|PlayerNamePrefix|..] == NatToString(n + 1);
    StringToNatOfNatToString(n + 1);
  }

  /** No two players get the same default name. */
  lemma PlayerNamesDistinct(m: nat, n: nat)
    ensures PlayerName(m) == PlayerName(n) <==> m == n
  {
    if PlayerName(m) == PlayerName(n) {
      PlayerNameParses(m);
      PlayerNameParses(n);
    }
  }

  // ---------------------------------------------------------------------------
  // Creating the players

  /** A created player: a human one (its mouse handling is not part of this
      model) or a random legal move player. */
  datatype Player = HumanPlayer(name: string) | RandomMovePlayer(player: RandomLegalMovePlayer)
  {
    /** What the engine uses of a player: its name and whether it is human. */
    function AsSeat(): Seat {
      match this
      case HumanPlayer(name) => Seat(name, true)
      case RandomMovePlayer(p) => Seat(p.GetName(), p.IsHumanPlayer())
    }
  }

  /** What creating player n of type t gives: its name is read first, then
      the type is dispatched; a human player needs a view. */
  function CreateOne(t: PlayerType, playerNames: seq<string>, view: Option<SquaresPanelView>, n: nat): (r: Result<Seat>)
    ensures n >= |playerNames| ==> r == Failure(ArrayIndexOutOfBounds(n))
    ensures r.Success? <==> n < |playerNames| && (t == Human || t == ComputerRandomMove) && (t == Human ==> view.Some?)
    ensures r.Success? ==> r.value == Seat(playerNames[n], t == Human)
    ensures n < |playerNames| && (t == ComputerBruteForce || t == ComputerNeuralNetwork) ==>
      r == Failure(UnsupportedOperation(DisplayName(t) + " not supported yet."))
  {
    if n >= |playerNames| then Failure(ArrayIndexOutOfBounds(n))
    else
      var name := playerNames[n];
      match t
      case Human => if view.None? then Failure(IllegalArgument("view == null")) else Success(Seat(name, true))
      case ComputerRandomMove => Success(Seat(name, false))
      case ComputerBruteForce => Failure(UnsupportedOperation(DisplayName(t) + " not supported yet."))
      case ComputerNeuralNetwork => Failure(UnsupportedOperation(DisplayName(t) + " not supported yet."))
  }

  /** createPlayers: one player per type, in order, named by the name at the
      same index; the first player that cannot be created aborts with its
      exception. */
  method CreatePlayers(playerTypes: seq<PlayerType>, playerNames: seq<string>, view: Option<SquaresPanelView>)
    returns (r: Result<seq<Player>>)
    ensures r.Success? <==> forall n :: 0 <= n < |playerTypes| ==> CreateOne(playerTypes[n], playerNames, view, n).Success?
    ensures r.Failure? ==>
      exists n :: && 0 <= n < |playerTypes|
                  && (forall j :: 0 <= j < n ==> CreateOne(playerTypes[j], playerNames, view, j).Success?)
                  && CreateOne(playerTypes[n], playerNames, view, n) == Failure(r.error)
    ensures r.Success? ==> |r.value| == |playerTypes|
    ensures r.Success? ==> forall n :: 0 <= n < |playerTypes| ==> r.value[n].AsSeat() == CreateOne(playerTypes[n], playerNames, view, n).value
    ensures r.Success? ==> forall n :: 0 <= n < |playerTypes| && r.value[n].RandomMovePlayer? ==>
      fresh(r.value[n].player) && r.value[n].player.nextMove == None
  {
    var players: seq<Player> := [];
    for n := 0 to |playerTypes|
      invariant |players| == n
      invariant forall j :: 0 <= j < n ==> CreateOne(playerTypes[j], playerNames, view, j).Success?
      invariant forall j :: 0 <= j < n ==> players[j].AsSeat() == CreateOne(playerTypes[j], playerNames, view, j).value
      invariant forall j :: 0 <= j < n && players[j].RandomMovePlayer? ==> fresh(players[j].player) && players[j].player.nextMove == None
    {
      if n >= |playerNames| {
        assert CreateOne(playerTypes[n], playerNames, view, n) == Failure(ArrayIndexOutOfBounds(n));
        return Failure(ArrayIndexOutOfBounds(n));
      }
      var playerType := playerTypes[n];
      var playerName := playerNames[n];
      var player: Player;
      match playerType {
        case Human =>
          if view.None? { return Failure(IllegalArgument("view == null")); }
          player := HumanPlayer(playerName);
        case ComputerRandomMove =>
          var random := new RandomLegalMovePlayer(playerName);
          player := RandomMovePlayer(random);
        case ComputerBruteForce =>
          return Failure(UnsupportedOperation(DisplayName(playerType) + " not supported yet."));
        case ComputerNeuralNetwork =>
          return Failure(UnsupportedOperation(DisplayName(playerType) + " not supported yet."));
      }
      players := players + [player];
    }
    return Success(players);
  }
}
