/**
  The round logic of the rock-paper-scissors game: the computer's move drawn
  from an injected random index, the winner of a round, and the two score
  counters that a round updates and a reset clears.
 */
module Game {

  /** A move. The order Rock, Paper, Scissors is the order of the game's
      `choices` array, from which the computer's move is drawn by index. */
  datatype Choice = Rock | Paper | Scissors

  /** The result of one round, from the player's point of view. */
  datatype Outcome = Tie | PlayerWins | ComputerWins

  /** The value `Math.floor(Math.random() * 3)` can take. */
  type RandomIndex = i: int | 0 <= i < 3

  /** Position of a move in the `choices` array. */
  function Index(c: Choice): RandomIndex
  {
    match c
    case Rock => 0
    case Paper => 1
    case Scissors => 2
  }

  /** The computer's move: the entry of `choices` at the drawn index. */
  function ComputerChoice(randomIndex: RandomIndex): (c: Choice)
    ensures Index(c) == randomIndex
  {
    if randomIndex == 0 then Rock
    else if randomIndex == 1 then Paper
    else Scissors
  }

  /** Every move is drawn by exactly one index. */
  lemma ComputerChoiceCoversEveryMove(c: Choice)
    ensures ComputerChoice(Index(c)) == c
    ensures forall i: RandomIndex :: ComputerChoice(i) == c ==> i == Index(c)
  {
  }

  /** Reference definition of the game's precedence, independent of the
      round evaluator: on the cycle Rock, Paper, Scissors each move beats the
      move just before it (Paper beats Rock, Scissors beat Paper, and Rock
      beats Scissors by wrapping around). */
  predicate Beats(a: Choice, b: Choice)
  {
    (Index(a) - Index(b)) % 3 == 1
  }

  /** The round evaluator. The three player-winning pairs are listed
      explicitly, exactly as the game lists them. */
  function DetermineWinner(player: Choice, computer: Choice): (r: Outcome)
    ensures r == Tie <==> player == computer
    ensures r == PlayerWins <==> Beats(player, computer)
    ensures r == ComputerWins <==> Beats(computer, player)
  {
    if player == computer then
      Tie
    else if
      || (player == Rock && computer == Scissors)
      || (player == Paper && computer == Rock)
      || (player == Scissors && computer == Paper)
    then
      PlayerWins
    else
      ComputerWins
  }

  /** The same round seen from the other side. */
  function Swap(o: Outcome): Outcome
  {
    match o
    case Tie => Tie
    case PlayerWins => ComputerWins
    case ComputerWins => PlayerWins
  }

  /** Exchanging the two moves exchanges the winner. */
  lemma DetermineWinnerAntisymmetric(player: Choice, computer: Choice)
    ensures DetermineWinner(computer, player) == Swap(DetermineWinner(player, computer))
  {
  }

  /** The two score counters. */
  datatype GameState = GameState(player: nat, computer: nat)

  /** Both counters start at zero when the page loads. */
  const Initial := GameState(0, 0)

  /** The score part of the display update: a tie changes nothing, otherwise
      exactly the winner's counter goes up by one. */
  function Record(s: GameState, result: Outcome): (r: GameState)
    ensures result == Tie ==> r == s
    ensures result == PlayerWins ==> r.player == s.player + 1 && r.computer == s.computer
    ensures result == ComputerWins ==> r.player == s.player && r.computer == s.computer + 1
    ensures r.player == s.player || r.computer == s.computer
  {
    match result
    case Tie => s
    case PlayerWins => s.(player := s.player + 1)
    case ComputerWins => s.(computer := s.computer + 1)
  }

  /** Clearing the score: both counters go back to zero whatever they held. */
  function Reset(s: GameState): (r: GameState)
    ensures r == Initial
  {
    GameState(0, 0)
  }

  /** Everything one round produces: both moves, the outcome and the score
      after it. */
  datatype Round = Round(player: Choice, computer: Choice, outcome: Outcome, after: GameState)

  /** One round: draw the computer's move, decide the winner, record it. */
  function PlayRound(s: GameState, player: Choice, randomIndex: RandomIndex): (r: Round)
    ensures r.player == player && Index(r.computer) == randomIndex
    ensures r.outcome == Tie <==> player == r.computer
    ensures r.outcome == PlayerWins <==> Beats(player, r.computer)
    ensures r.after.player == s.player + (if r.outcome == PlayerWins then 1 else 0)
    ensures r.after.computer == s.computer + (if r.outcome == ComputerWins then 1 else 0)
  {
    var computer := ComputerChoice(randomIndex);
    var result := DetermineWinner(player, computer);
    Round(player, computer, result, Record(s, result))
  }

  /** A player move together with the index drawn for the computer. */
  datatype Move = Move(player: Choice, randomIndex: RandomIndex)

  /** The outcome a move produces. */
  function MoveOutcome(m: Move): Outcome
  {
    DetermineWinner(m.player, ComputerChoice(m.randomIndex))
  }

  /** A sequence of rounds played one after the other: scores never go
      down, and each round adds at most one point in all. */
  function PlaySession(s: GameState, moves: seq<Move>): (r: GameState)
    ensures s.player <= r.player && s.computer <= r.computer
    ensures r.player + r.computer <= s.player + s.computer + |moves|
    decreases |moves|
  {
    if |moves| == 0 then s
    else PlaySession(PlayRound(s, moves[0].player, moves[0].randomIndex).after, moves[1..])
  }

  /** Number of moves in `moves` whose outcome is `o`. */
  function CountOutcome(moves: seq<Move>, o: Outcome): (n: nat)
    ensures n <= |moves|
    decreases |moves|
  {
    if |moves| == 0 then 0
    else (if MoveOutcome(moves[0]) == o then 1 else 0) + CountOutcome(moves[1..], o)
  }

  /** After a session each counter has grown by exactly the number of rounds
      its side won; ties leave no trace. */
  lemma {:induction false} SessionScores(s: GameState, moves: seq<Move>)
    ensures PlaySession(s, moves).player == s.player + CountOutcome(moves, PlayerWins)
    ensures PlaySession(s, moves).computer == s.computer + CountOutcome(moves, ComputerWins)
    decreases |moves|
  {
    if |moves| > 0 {
      SessionScores(PlayRound(s, moves[0].player, moves[0].randomIndex).after, moves[1..]);
    }
  }

  /** After a reset the score is exactly the tally of the rounds played since. */
  lemma SessionAfterReset(s: GameState, moves: seq<Move>)
    ensures PlaySession(Reset(s), moves) == GameState(CountOutcome(moves, PlayerWins), CountOutcome(moves, ComputerWins))
  {
    SessionScores(Reset(s), moves);
  }
}
