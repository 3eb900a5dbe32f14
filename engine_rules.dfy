/** What the turn-based game engine does, as functions on values: the retry
    loop of one turn, the pacing wait, the end-of-game notifications and the
    whole game as a sequence of recorded calls. The class
    TurnEngine.TurnBasedGameEngine is proved to follow these functions. */
module EngineRules {
  import opened Common
  import opened Moves
  import opened MnkRules

  /** A player as the engine sees it: its name and whether it is human. */
  datatype Seat = Seat(name: string, isHuman: bool)

  /** What a player offers after one calculateMove call: the move, the
      milliseconds the call took and the move probabilities it reports. */
  datatype Candidate = Candidate(move: SquareMove, thinkingTime: int, probabilities: Option<Probabilities>)

  /** The candidate that player p calculates on the given turn of a game at
      the given attempt of that turn. Any run of any players is described by
      some such function. */
  type Strategy = (nat, nat, nat) -> Candidate

  /** The five end-of-game notifications of a player. */
  datatype EndKind = Won | Lost | Draw | MadeIllegalMove | OtherPlayerMadeIllegalMove

  /** The calls the engine makes on the model and on the players, in order. */
  datatype Event =
    | ResetCalled
    | NotifiedNewGame(player: nat)
    | CalculatedMove(player: nat)
    | NotifiedTriedIllegalMove(player: nat)
    | Waited(milliseconds: int)
    | TriedMove(move: SquareMove)
    | NotifiedEnd(player: nat, kind: EndKind)

  const HumanMaxTries: nat := 2147483647  // Integer.MAX_VALUE
  const ComputerMaxTries: nat := 1000

  /** How many candidates a player may offer in one turn. */
  function MaxTries(isHuman: bool): (cap: nat)
    ensures cap > 0
    ensures isHuman ==> cap == 2147483647
    ensures !isHuman ==> cap == 1000
  {
    if isHuman then HumanMaxTries else ComputerMaxTries
  }

  // ---------------------------------------------------------------------------
  // One turn: the retry loop

  predicate LegalAttempt(cfg: Config, g: Grid, strategy: Strategy, p: nat, turn: nat, i: nat)
    requires Fits(cfg, g)
  {
    IsLegal(cfg, g, strategy(p, turn, i).move)
  }

  /** The number of attempts made from attempt `from` on: up to and including
      the first legal candidate, and never more than cap. */
  function TriesFrom(cfg: Config, g: Grid, strategy: Strategy, p: nat, turn: nat, from: nat, cap: nat): (n: nat)
    requires Fits(cfg, g) && from < cap
    ensures from < n <= cap
    ensures forall j :: from <= j < n - 1 ==> !LegalAttempt(cfg, g, strategy, p, turn, j)
    ensures LegalAttempt(cfg, g, strategy, p, turn, n - 1) || n == cap
    decreases cap - from
  {
    if LegalAttempt(cfg, g, strategy, p, turn, from) || from + 1 == cap then from + 1
    else TriesFrom(cfg, g, strategy, p, turn, from + 1, cap)
  }

  /** TriesFrom is the only count with those properties. */
  lemma {:induction false} TriesFromUnique(cfg: Config, g: Grid, strategy: Strategy, p: nat, turn: nat, from: nat, cap: nat, n: nat)
    requires Fits(cfg, g) && from < n <= cap
    requires forall j :: from <= j < n - 1 ==> !LegalAttempt(cfg, g, strategy, p, turn, j)
    requires LegalAttempt(cfg, g, strategy, p, turn, n - 1) || n == cap
    ensures TriesFrom(cfg, g, strategy, p, turn, from, cap) == n
    decreases cap - from
  {
    if from + 1 < n {
      TriesFromUnique(cfg, g, strategy, p, turn, from + 1, cap, n);
    }
  }

  /** The total thinking time of the first n attempts. */
  function ThinkingTime(strategy: Strategy, p: nat, turn: nat, n: nat): int {
    if n == 0 then 0 else ThinkingTime(strategy, p, turn, n - 1) + strategy(p, turn, n - 1).thinkingTime
  }

  /** The player calls of the first n attempts: each attempt calculates a
      move, and an illegal one is reported back to the player. */
  function AttemptEvents(cfg: Config, g: Grid, strategy: Strategy, p: nat, turn: nat, n: nat): seq<Event>
    requires Fits(cfg, g)
  {
    if n == 0 then [] else AttemptEvents(cfg, g, strategy, p, turn, n - 1) + AttemptCalls(cfg, g, strategy, p, turn, n - 1)
  }

  /** The player calls of attempt i alone. */
  function AttemptCalls(cfg: Config, g: Grid, strategy: Strategy, p: nat, turn: nat, i: nat): seq<Event>
    requires Fits(cfg, g)
  {
    [CalculatedMove(p)] + (if LegalAttempt(cfg, g, strategy, p, turn, i) then [] else [NotifiedTriedIllegalMove(p)])
  }

  /** The number of illegal candidates among the first n attempts. */
  function IllegalAttempts(cfg: Config, g: Grid, strategy: Strategy, p: nat, turn: nat, n: nat): nat
    requires Fits(cfg, g)
  {
    if n == 0 then 0
    else IllegalAttempts(cfg, g, strategy, p, turn, n - 1) + (if LegalAttempt(cfg, g, strategy, p, turn, n - 1) then 0 else 1)
  }

  /** The result of the retry loop: attempts made, the move kept (the last
      one calculated), the summed thinking time and the probabilities the
      player reports afterwards. */
  datatype Choice = Choice(tries: nat, move: SquareMove, thinkingTime: int, probabilities: Option<Probabilities>)

  function ChoiceFor(cfg: Config, g: Grid, strategy: Strategy, p: nat, turn: nat, cap: nat): (c: Choice)
    requires Fits(cfg, g) && cap > 0
    ensures 1 <= c.tries <= cap
  {
    var n := TriesFrom(cfg, g, strategy, p, turn, 0, cap);
    var last := strategy(p, turn, n - 1);
    Choice(n, last.move, ThinkingTime(strategy, p, turn, n), last.probabilities)
  }

  /** The loop stops at the first legal candidate: every earlier attempt was
      illegal, and the kept move is legal unless all cap attempts were used. */
  lemma ChoiceIsFirstLegal(cfg: Config, g: Grid, strategy: Strategy, p: nat, turn: nat, cap: nat)
    requires Fits(cfg, g) && cap > 0
    ensures var c := ChoiceFor(cfg, g, strategy, p, turn, cap);
      && (forall j :: 0 <= j < c.tries - 1 ==> !LegalAttempt(cfg, g, strategy, p, turn, j))
      && c.move == strategy(p, turn, c.tries - 1).move
      && (IsLegal(cfg, g, c.move) || c.tries == cap)
      && (IsLegal(cfg, g, c.move) <==> LegalAttempt(cfg, g, strategy, p, turn, c.tries - 1))
  {
  }

  /** How many times e occurs in es. */
  function Occurrences(es: seq<Event>, e: Event): nat {
    if es == [] then 0 else Occurrences(es[..|es| - 1], e) + (if es[|es| - 1] == e then 1 else 0)
  }

  lemma {:induction false} OccurrencesAppend(a: seq<Event>, b: seq<Event>, e: Event)
    ensures Occurrences(a + b, e) == Occurrences(a, e) + Occurrences(b, e)
    decreases |b|
  {
    if b == [] {
      assert a + b == a;
    } else {
      assert (a + b)[..|a + b| - 1] == a + b[..|b| - 1];
      OccurrencesAppend(a, b[..|b| - 1], e);
    }
  }

  /** Each attempt calculates one move, and notifyTriedIllegalMove is sent
      once for each illegal candidate. */
  lemma {:induction false} AttemptEventCounts(cfg: Config, g: Grid, strategy: Strategy, p: nat, turn: nat, n: nat)
    requires Fits(cfg, g)
    ensures Occurrences(AttemptEvents(cfg, g, strategy, p, turn, n), CalculatedMove(p)) == n
    ensures Occurrences(AttemptEvents(cfg, g, strategy, p, turn, n), NotifiedTriedIllegalMove(p))
         == IllegalAttempts(cfg, g, strategy, p, turn, n)
  {
    if n > 0 {
      AttemptEventCounts(cfg, g, strategy, p, turn, n - 1);
      var prev := AttemptEvents(cfg, g, strategy, p, turn, n - 1);
      var tail := if LegalAttempt(cfg, g, strategy, p, turn, n - 1) then [] else [NotifiedTriedIllegalMove(p)];
      assert AttemptEvents(cfg, g, strategy, p, turn, n) == prev + ([CalculatedMove(p)] + tail);
      OccurrencesAppend(prev, [CalculatedMove(p)] + tail, CalculatedMove(p));
      OccurrencesAppend(prev, [CalculatedMove(p)] + tail, NotifiedTriedIllegalMove(p));
      OccurrencesAppend([CalculatedMove(p)], tail, CalculatedMove(p));
      OccurrencesAppend([CalculatedMove(p)], tail, NotifiedTriedIllegalMove(p));
      assert [CalculatedMove(p)][..0] == [];
      if tail != [] {
        assert tail[..0] == [];
      }
    }
  }

  lemma {:induction false} IllegalAttemptsAllBefore(cfg: Config, g: Grid, strategy: Strategy, p: nat, turn: nat, n: nat)
    requires Fits(cfg, g)
    requires forall j :: 0 <= j < n ==> !LegalAttempt(cfg, g, strategy, p, turn, j)
    ensures IllegalAttempts(cfg, g, strategy, p, turn, n) == n
  {
    if n > 0 {
      IllegalAttemptsAllBefore(cfg, g, strategy, p, turn, n - 1);
    }
  }

  /** In one turn notifyTriedIllegalMove is sent exactly once per illegal
      candidate and never for the accepted legal one. */
  lemma TriedIllegalMoveOncePerIllegalCandidate(cfg: Config, g: Grid, strategy: Strategy, p: nat, turn: nat, cap: nat)
    requires Fits(cfg, g) && cap > 0
    ensures var c := ChoiceFor(cfg, g, strategy, p, turn, cap);
      var es := AttemptEvents(cfg, g, strategy, p, turn, c.tries);
      && Occurrences(es, CalculatedMove(p)) == c.tries
      && Occurrences(es, NotifiedTriedIllegalMove(p)) == (if IsLegal(cfg, g, c.move) then c.tries - 1 else c.tries)
  {
    var c := ChoiceFor(cfg, g, strategy, p, turn, cap);
    ChoiceIsFirstLegal(cfg, g, strategy, p, turn, cap);
    AttemptEventCounts(cfg, g, strategy, p, turn, c.tries);
    IllegalAttemptsAllBefore(cfg, g, strategy, p, turn, c.tries - 1);
  }

  // ---------------------------------------------------------------------------
  // Pacing

  /** How long the engine waits before a computer player's move. */
  function WaitingTime(minimum: int, thinkingTime: int): (w: int)
    ensures w >= 0 && w >= minimum - thinkingTime
    ensures w == 0 || w == minimum - thinkingTime
    ensures thinkingTime >= minimum ==> w == 0
  {
    if minimum - thinkingTime > 0 then minimum - thinkingTime else 0
  }

  /** The engine waits only for computer players. */
  function PacingEvents(seat: Seat, minimum: int, thinkingTime: int): (es: seq<Event>)
    ensures seat.isHuman <==> es == []
    ensures !seat.isHuman ==> es == [Waited(WaitingTime(minimum, thinkingTime))]
  {
    if seat.isHuman then [] else [Waited(WaitingTime(minimum, thinkingTime))]
  }

  // ---------------------------------------------------------------------------
  // End of the game

  /** The notification kind `kind` for every player below n except `except`,
      in array order. */
  function Others(n: nat, except: int, kind: EndKind): seq<Event> {
    if n == 0 then [] else Others(n - 1, except, kind) + (if n - 1 == except then [] else [NotifiedEnd(n - 1, kind)])
  }

  /** notifyPlayersOfGameEndStatus: an illegal mover takes priority over a
      winner, and with neither the game is a draw. */
  function EndEvents(playerCount: nat, illegalMover: int, winner: int): seq<Event>
    requires -1 <= illegalMover < playerCount && -1 <= winner < playerCount
  {
    if illegalMover != -1 then
      [NotifiedEnd(illegalMover, MadeIllegalMove)] + Others(playerCount, illegalMover, OtherPlayerMadeIllegalMove)
    else if winner != -1 then
      [NotifiedEnd(winner, Won)] + Others(playerCount, winner, Lost)
    else
      Others(playerCount, -1, Draw)
  }

  /** The one end notification player p gets. */
  function ExpectedEnd(illegalMover: int, winner: int, p: nat): EndKind {
    if illegalMover != -1 then (if p == illegalMover then MadeIllegalMove else OtherPlayerMadeIllegalMove)
    else if winner != -1 then (if p == winner then Won else Lost)
    else Draw
  }

  lemma {:induction false} OthersCount(n: nat, except: int, kind: EndKind, p: nat, k: EndKind)
    ensures Occurrences(Others(n, except, kind), NotifiedEnd(p, k)) == if p < n && p != except && k == kind then 1 else 0
  {
    if n > 0 {
      OthersCount(n - 1, except, kind, p, k);
      var tail := if n - 1 == except then [] else [NotifiedEnd(n - 1, kind)];
      OccurrencesAppend(Others(n - 1, except, kind), tail, NotifiedEnd(p, k));
      if tail != [] {
        assert tail[..0] == [];
      }
    }
  }

  lemma {:induction false} OthersOnlyEnd(n: nat, except: int, kind: EndKind)
    ensures forall e :: e in Others(n, except, kind) ==> e.NotifiedEnd? && e.player < n
  {
    if n > 0 {
      OthersOnlyEnd(n - 1, except, kind);
    }
  }

  /** Every player gets exactly one end notification, of the kind its role
      asks for, and no other call is made. */
  lemma EachPlayerNotifiedOnce(playerCount: nat, illegalMover: int, winner: int, p: nat, k: EndKind)
    requires -1 <= illegalMover < playerCount && -1 <= winner < playerCount
    requires p < playerCount
    ensures Occurrences(EndEvents(playerCount, illegalMover, winner), NotifiedEnd(p, k))
         == if k == ExpectedEnd(illegalMover, winner, p) then 1 else 0
    ensures forall e :: e in EndEvents(playerCount, illegalMover, winner) ==> e.NotifiedEnd? && e.player < playerCount
    ensures |EndEvents(playerCount, illegalMover, winner)| == playerCount
  {
    OthersOnlyEnd(playerCount, illegalMover, OtherPlayerMadeIllegalMove);
    OthersOnlyEnd(playerCount, winner, Lost);
    OthersOnlyEnd(playerCount, -1, Draw);
    if illegalMover != -1 {
      OthersCount(playerCount, illegalMover, OtherPlayerMadeIllegalMove, p, k);
      OccurrencesAppend([NotifiedEnd(illegalMover, MadeIllegalMove)], Others(playerCount, illegalMover, OtherPlayerMadeIllegalMove), NotifiedEnd(p, k));
      assert [NotifiedEnd(illegalMover, MadeIllegalMove)][..0] == [];
    } else if winner != -1 {
      OthersCount(playerCount, winner, Lost, p, k);
      OccurrencesAppend([NotifiedEnd(winner, Won)], Others(playerCount, winner, Lost), NotifiedEnd(p, k));
      assert [NotifiedEnd(winner, Won)][..0] == [];
    } else {
      OthersCount(playerCount, -1, Draw, p, k);
    }
    OthersLength(playerCount, if illegalMover != -1 then illegalMover else winner,
                 if illegalMover != -1 then OtherPlayerMadeIllegalMove else if winner != -1 then Lost else Draw);
    OthersLength(playerCount, -1, Draw);
  }

  lemma {:induction false} OthersLength(n: nat, except: int, kind: EndKind)
    ensures |Others(n, except, kind)| == if 0 <= except < n then n - 1 else n
  {
    if n > 0 {
      OthersLength(n - 1, except, kind);
    }
  }

  // ---------------------------------------------------------------------------
  // Whole games

  /** Calls recorded by newGame: reset first, then every player in order. */
  function NewGameEvents(playerCount: nat): (es: seq<Event>)
    ensures |es| == playerCount + 1 && es[0] == ResetCalled
    ensures forall i :: 0 <= i < playerCount ==> es[i + 1] == NotifiedNewGame(i)
  {
    [ResetCalled] + seq(playerCount, (i: nat) => NotifiedNewGame(i))
  }

  /** The state after one turn and the calls made during it. */
  datatype Step = Step(next: State, events: seq<Event>)

  predicate Seated(cfg: Config, seats: seq<Seat>) {
    |seats| == cfg.playerCount
  }

  /** The candidate the player to move settles on in state s. */
  function ChoiceIn(cfg: Config, seats: seq<Seat>, strategy: Strategy, s: State, turn: nat): Choice
    requires Fits(cfg, s.board) && Seated(cfg, seats) && 1 <= s.numberOfPlayerToMoveNext <= cfg.playerCount
  {
    var p := s.numberOfPlayerToMoveNext - 1;
    ChoiceFor(cfg, s.board, strategy, p, turn, MaxTries(seats[p].isHuman))
  }

  /** The calls of one outer iteration before tryMove: the retry loop and
      the pacing of a computer player. */
  function ChoiceEvents(cfg: Config, seats: seq<Seat>, minimum: int, strategy: Strategy, s: State, turn: nat): seq<Event>
    requires Fits(cfg, s.board) && Seated(cfg, seats) && 1 <= s.numberOfPlayerToMoveNext <= cfg.playerCount
  {
    var p := s.numberOfPlayerToMoveNext - 1;
    var c := ChoiceIn(cfg, seats, strategy, s, turn);
    AttemptEvents(cfg, s.board, strategy, p, turn, c.tries) + PacingEvents(seats[p], minimum, c.thinkingTime)
  }

  /** The calls of one outer iteration up to and including tryMove. */
  function TurnEvents(cfg: Config, seats: seq<Seat>, minimum: int, strategy: Strategy, s: State, turn: nat): seq<Event>
    requires Fits(cfg, s.board) && Seated(cfg, seats) && 1 <= s.numberOfPlayerToMoveNext <= cfg.playerCount
  {
    ChoiceEvents(cfg, seats, minimum, strategy, s, turn) + [TriedMove(ChoiceIn(cfg, seats, strategy, s, turn).move)]
  }

  /** The end notifications due in state s, none while the game goes on. */
  function EndEventsIn(cfg: Config, s: State): seq<Event>
    requires -1 <= s.indexOfPlayerThatMadeAnIllegalMove < cfg.playerCount && -1 <= s.indexOfWinner < cfg.playerCount
  {
    if s.gameOver then EndEvents(cfg.playerCount, s.indexOfPlayerThatMadeAnIllegalMove, s.indexOfWinner) else []
  }

  /** One iteration of playGame's outer loop on an ongoing game. */
  ghost function TakeTurn(cfg: Config, seats: seq<Seat>, minimum: int, strategy: Strategy, s: State, turn: nat): (t: Step)
    requires Invariant(cfg, s) && !s.gameOver && Seated(cfg, seats)
    ensures Invariant(cfg, t.next)
    ensures Measure(t.next) < Measure(s)
  {
    var c := ChoiceIn(cfg, seats, strategy, s, turn);
    TryMovePreservesInvariant(cfg, s, c.move, c.probabilities);
    TryMoveProgress(cfg, s, c.move, c.probabilities);
    var s' := TryMoveState(cfg, s, c.move, c.probabilities).value;
    Step(s', TurnEvents(cfg, seats, minimum, strategy, s, turn) + EndEventsIn(cfg, s'))
  }

  /** One outer iteration calls tryMove once and sends no end notification
      before it. */
  lemma TurnEventsShape(cfg: Config, seats: seq<Seat>, minimum: int, strategy: Strategy, s: State, turn: nat)
    requires Fits(cfg, s.board) && Seated(cfg, seats) && 1 <= s.numberOfPlayerToMoveNext <= cfg.playerCount
    ensures MoveCount(TurnEvents(cfg, seats, minimum, strategy, s, turn)) == 1
    ensures NoEndEvents(TurnEvents(cfg, seats, minimum, strategy, s, turn))
    ensures TurnEvents(cfg, seats, minimum, strategy, s, turn)[|TurnEvents(cfg, seats, minimum, strategy, s, turn)| - 1]
         == TriedMove(ChoiceIn(cfg, seats, strategy, s, turn).move)
  {
    var p := s.numberOfPlayerToMoveNext - 1;
    var c := ChoiceIn(cfg, seats, strategy, s, turn);
    var a := AttemptEvents(cfg, s.board, strategy, p, turn, c.tries);
    var w := PacingEvents(seats[p], minimum, c.thinkingTime);
    AttemptEventsNotMoves(cfg, s.board, strategy, p, turn, c.tries);
    assert ChoiceEvents(cfg, seats, minimum, strategy, s, turn) == a + w;
    MoveCountNone(a + w);
    MoveCountAppend(a + w, [TriedMove(c.move)]);
    assert MoveCount([TriedMove(c.move)]) == 1 by {
      assert [TriedMove(c.move)][..0] == [];
    }
  }

  /** The end notifications contain no tryMove. */
  lemma EndEventsInNoMoves(cfg: Config, s: State)
    requires -1 <= s.indexOfPlayerThatMadeAnIllegalMove < cfg.playerCount && -1 <= s.indexOfWinner < cfg.playerCount
    ensures MoveCount(EndEventsIn(cfg, s)) == 0
  {
    if s.gameOver && cfg.playerCount > 0 {
      EachPlayerNotifiedOnce(cfg.playerCount, s.indexOfPlayerThatMadeAnIllegalMove, s.indexOfWinner, 0, Won);
    }
    if s.gameOver {
      OthersOnlyEnd(cfg.playerCount, s.indexOfPlayerThatMadeAnIllegalMove, OtherPlayerMadeIllegalMove);
      OthersOnlyEnd(cfg.playerCount, s.indexOfWinner, Lost);
      OthersOnlyEnd(cfg.playerCount, -1, Draw);
    }
    MoveCountNone(EndEventsIn(cfg, s));
  }

  /** The final state and the calls of playGame started in state s. */
  ghost function PlayFrom(cfg: Config, seats: seq<Seat>, minimum: int, strategy: Strategy, s: State, turn: nat): (r: Step)
    requires Invariant(cfg, s) && Seated(cfg, seats)
    ensures Invariant(cfg, r.next) && r.next.gameOver
    ensures s.gameOver ==> r.events == []
    // the end notifications come last, once, and nowhere else
    ensures !s.gameOver ==> EndsWithEndEvents(cfg, r)
    decreases Measure(s)
  {
    if s.gameOver then Step(s, [])
    else
      var t := TakeTurn(cfg, seats, minimum, strategy, s, turn);
      var rest := PlayFrom(cfg, seats, minimum, strategy, t.next, turn + 1);
      TakeTurnEvents(cfg, seats, minimum, strategy, s, turn);
      TurnEventsShape(cfg, seats, minimum, strategy, s, turn);
      JoinEnd(cfg, t, TurnEvents(cfg, seats, minimum, strategy, s, turn), rest);
      Step(rest.next, t.events + rest.events)
  }

  predicate IndicesInRange(cfg: Config, s: State) {
    -1 <= s.indexOfPlayerThatMadeAnIllegalMove < cfg.playerCount && -1 <= s.indexOfWinner < cfg.playerCount
  }

  /** The calls of a finished game: some calls without end notification and
      then the end notifications of the final state. */
  predicate EndsWithEndEvents(cfg: Config, r: Step)
    requires IndicesInRange(cfg, r.next)
  {
    var e := EndEventsIn(cfg, r.next);
    && |e| <= |r.events|
    && r.events[|r.events| - |e|..] == e
    && NoEndEvents(r.events[..|r.events| - |e|])
  }

  lemma JoinEnd(cfg: Config, t: Step, body: seq<Event>, rest: Step)
    requires IndicesInRange(cfg, t.next) && IndicesInRange(cfg, rest.next)
    requires t.events == body + EndEventsIn(cfg, t.next) && NoEndEvents(body)
    requires t.next.gameOver ==> rest == Step(t.next, [])
    requires !t.next.gameOver ==> EndsWithEndEvents(cfg, rest)
    ensures EndsWithEndEvents(cfg, Step(rest.next, t.events + rest.events))
  {
    var all := t.events + rest.events;
    var e := EndEventsIn(cfg, rest.next);
    if t.next.gameOver {
      assert all == body + e;
      assert all[..|all| - |e|] == body;
    } else {
      var body' := rest.events[..|rest.events| - |e|];
      assert rest.events == body' + e;
      assert all == (body + body') + e;
      assert all[..|all| - |e|] == body + body';
    }
    assert all[|all| - |e|..] == e;
  }

  /** The number of tryMove calls among the events. */
  function MoveCount(es: seq<Event>): nat {
    if es == [] then 0 else MoveCount(es[..|es| - 1]) + (if es[|es| - 1].TriedMove? then 1 else 0)
  }

  lemma {:induction false} MoveCountAppend(a: seq<Event>, b: seq<Event>)
    ensures MoveCount(a + b) == MoveCount(a) + MoveCount(b)
    decreases |b|
  {
    if b == [] {
      assert a + b == a;
    } else {
      assert (a + b)[..|a + b| - 1] == a + b[..|b| - 1];
      MoveCountAppend(a, b[..|b| - 1]);
    }
  }

  lemma {:induction false} MoveCountNone(es: seq<Event>)
    requires forall e :: e in es ==> !e.TriedMove?
    ensures MoveCount(es) == 0
    decreases |es|
  {
    if es != [] {
      MoveCountNone(es[..|es| - 1]);
    }
  }

  lemma {:induction false} AttemptEventsNotMoves(cfg: Config, g: Grid, strategy: Strategy, p: nat, turn: nat, n: nat)
    requires Fits(cfg, g)
    ensures forall e :: e in AttemptEvents(cfg, g, strategy, p, turn, n) ==> e == CalculatedMove(p) || e == NotifiedTriedIllegalMove(p)
  {
    if n > 0 {
      AttemptEventsNotMoves(cfg, g, strategy, p, turn, n - 1);
    }
  }

  /** Each outer iteration makes exactly one tryMove. */
  lemma OneMovePerTurn(cfg: Config, seats: seq<Seat>, minimum: int, strategy: Strategy, s: State, turn: nat)
    requires Invariant(cfg, s) && !s.gameOver && Seated(cfg, seats)
    ensures MoveCount(TakeTurn(cfg, seats, minimum, strategy, s, turn).events) == 1
  {
    var t := TakeTurn(cfg, seats, minimum, strategy, s, turn);
    TurnEventsShape(cfg, seats, minimum, strategy, s, turn);
    EndEventsInNoMoves(cfg, t.next);
    MoveCountAppend(TurnEvents(cfg, seats, minimum, strategy, s, turn), EndEventsIn(cfg, t.next));
  }

  /** A game played from state s makes at most as many tryMove calls as there
      are empty squares: each legal move fills one, an illegal move ends the
      game, and so does the last empty square. */
  lemma {:induction false} PlayFromMoveBound(cfg: Config, seats: seq<Seat>, minimum: int, strategy: Strategy, s: State, turn: nat)
    requires Invariant(cfg, s) && Seated(cfg, seats)
    ensures MoveCount(PlayFrom(cfg, seats, minimum, strategy, s, turn).events) <= |LegalMoves(s.board)|
    decreases Measure(s)
  {
    if !s.gameOver {
      var t := TakeTurn(cfg, seats, minimum, strategy, s, turn);
      OneMovePerTurn(cfg, seats, minimum, strategy, s, turn);
      PlayFromMoveBound(cfg, seats, minimum, strategy, t.next, turn + 1);
      MoveCountAppend(t.events, PlayFrom(cfg, seats, minimum, strategy, t.next, turn + 1).events);
    }
  }

  /** A game played from the freshly reset state makes at most m*n moves. */
  lemma GameFromResetMoveBound(cfg: Config, seats: seq<Seat>, minimum: int, strategy: Strategy)
    requires cfg.Valid() && Seated(cfg, seats)
    ensures Invariant(cfg, ResetState(cfg))
    ensures MoveCount(PlayFrom(cfg, seats, minimum, strategy, ResetState(cfg), 0).events) <= cfg.rowCount * cfg.columnCount
  {
    ResetEstablishesInvariant(cfg);
    PlayFromMoveBound(cfg, seats, minimum, strategy, ResetState(cfg), 0);
  }

  predicate NoEndEvents(es: seq<Event>) {
    forall e :: e in es ==> !e.NotifiedEnd?
  }

  /** One unfolding of PlayFrom on an ongoing game. */
  lemma PlayFromStep(cfg: Config, seats: seq<Seat>, minimum: int, strategy: Strategy, s: State, turn: nat)
    requires Invariant(cfg, s) && Seated(cfg, seats) && !s.gameOver
    ensures var t := TakeTurn(cfg, seats, minimum, strategy, s, turn);
      var rest := PlayFrom(cfg, seats, minimum, strategy, t.next, turn + 1);
      PlayFrom(cfg, seats, minimum, strategy, s, turn) == Step(rest.next, t.events + rest.events)
  {
  }

  /** The calls of one turn: the choice, the pacing and tryMove, then the
      end notifications if that move ended the game. */
  lemma TakeTurnEvents(cfg: Config, seats: seq<Seat>, minimum: int, strategy: Strategy, s: State, turn: nat)
    requires Invariant(cfg, s) && Seated(cfg, seats) && !s.gameOver
    ensures var t := TakeTurn(cfg, seats, minimum, strategy, s, turn);
      t.events == TurnEvents(cfg, seats, minimum, strategy, s, turn) + EndEventsIn(cfg, t.next)
  {
  }

  /** playGame's loop invariant carried over one turn: what is left to play
      from the state after the turn, with the turn's calls made. */
  lemma PlayAdvance(cfg: Config, seats: seq<Seat>, minimum: int, strategy: Strategy, s: State, turn: nat,
                    play: Step, older: seq<Event>, before: seq<Event>, s2: State, now: seq<Event>)
    requires Invariant(cfg, s) && Seated(cfg, seats) && !s.gameOver
    requires var rest := PlayFrom(cfg, seats, minimum, strategy, s, turn);
      play.next == rest.next && older + play.events == before + rest.events
    requires var c := ChoiceIn(cfg, seats, strategy, s, turn);
      s2 == TryMoveState(cfg, s, c.move, c.probabilities).value
    requires IndicesInRange(cfg, s2)
    requires now == before + TurnEvents(cfg, seats, minimum, strategy, s, turn) + EndEventsIn(cfg, s2)
    ensures Invariant(cfg, s2)
    ensures var rest := PlayFrom(cfg, seats, minimum, strategy, s2, turn + 1);
      play.next == rest.next && older + play.events == now + rest.events
  {
    TakeTurnNext(cfg, seats, minimum, strategy, s, turn);
    TakeTurnEvents(cfg, seats, minimum, strategy, s, turn);
    AppendShift(now, before, TurnEvents(cfg, seats, minimum, strategy, s, turn), EndEventsIn(cfg, s2));
    PlayAdvanceTurn(cfg, seats, minimum, strategy, s, turn, play, older, before, s2, now);
  }

  lemma PlayAdvanceTurn(cfg: Config, seats: seq<Seat>, minimum: int, strategy: Strategy, s: State, turn: nat,
                        play: Step, older: seq<Event>, before: seq<Event>, s2: State, now: seq<Event>)
    requires Invariant(cfg, s) && Seated(cfg, seats) && !s.gameOver
    requires var rest := PlayFrom(cfg, seats, minimum, strategy, s, turn);
      play.next == rest.next && older + play.events == before + rest.events
    requires var t := TakeTurn(cfg, seats, minimum, strategy, s, turn);
      s2 == t.next && now == before + t.events
    ensures Invariant(cfg, s2)
    ensures var rest := PlayFrom(cfg, seats, minimum, strategy, s2, turn + 1);
      play.next == rest.next && older + play.events == now + rest.events
  {
    PlayFromStep(cfg, seats, minimum, strategy, s, turn);
    var t := TakeTurn(cfg, seats, minimum, strategy, s, turn);
    var rest := PlayFrom(cfg, seats, minimum, strategy, s2, turn + 1);
    AppendShift(older + play.events, before, t.events, rest.events);
  }


  /** The state after one turn: tryMove of the chosen candidate. */
  lemma TakeTurnNext(cfg: Config, seats: seq<Seat>, minimum: int, strategy: Strategy, s: State, turn: nat)
    requires Invariant(cfg, s) && Seated(cfg, seats) && !s.gameOver
    ensures var c := ChoiceIn(cfg, seats, strategy, s, turn);
      TakeTurn(cfg, seats, minimum, strategy, s, turn).next == TryMoveState(cfg, s, c.move, c.probabilities).value
  {
  }

  /** Concatenation regrouped: lets the engine's methods move between the
      log written as one appended block and as two, after each loop pass. */
  lemma AppendShift(all: seq<Event>, before: seq<Event>, mid: seq<Event>, after: seq<Event>)
    requires all == before + (mid + after) || all == (before + mid) + after
    ensures all == before + (mid + after) && all == (before + mid) + after
  {
  }
}
