/**
 * The tallies of `get_analysis` (src/main.py) over the player-choice table:
 * per-player wins and games played with the win rate, per-player counts of
 * each move, and the "counter the last move" prediction.
 */
module Analytics {
  import opened Wrappers
  import opened Moves
  import opened Rounds

  /** How often a player chose each move (`choice_patterns[name]`). */
  datatype Pattern = Pattern(rock: nat, paper: nat, scissors: nat)

  /** The three maps of the analysis response, keyed by player name. */
  datatype Analysis = Analysis(
    winRates: map<string, real>,
    choicePatterns: map<string, Pattern>,
    predictions: map<string, string>)

  /** Rows of `name` flagged as won. */
  function Wins(rows: seq<ChoiceRow>, name: string): nat
  {
    if rows == [] then 0
    else (if rows[0].playerName == name && rows[0].isWinner then 1 else 0) + Wins(rows[1..], name)
  }

  /** Rows of `name`. */
  function Played(rows: seq<ChoiceRow>, name: string): nat
  {
    if rows == [] then 0
    else (if rows[0].playerName == name then 1 else 0) + Played(rows[1..], name)
  }

  /** Rows of `name` whose choice is the string `choice`. */
  function CountChoice(rows: seq<ChoiceRow>, name: string, choice: string): nat
  {
    if rows == [] then 0
    else (if rows[0].playerName == name && rows[0].choice == choice then 1 else 0) + CountChoice(rows[1..], name, choice)
  }

  /** The win rate in percent; zero for a player with no rows. */
  function WinRate(wins: nat, played: nat): real
  {
    if played > 0 then (wins as real / played as real) * 100.0 else 0.0
  }

  function PatternOf(rows: seq<ChoiceRow>, name: string): Pattern
  {
    Pattern(CountChoice(rows, name, "rock"), CountChoice(rows, name, "paper"), CountChoice(rows, name, "scissors"))
  }

  /**
   * The row of `name` with the highest game id (the first query result when
   * ordered by descending game id); of rows sharing that id, the first in table order.
   */
  function Latest(rows: seq<ChoiceRow>, name: string): (r: Option<ChoiceRow>)
    ensures r.None? <==> forall x :: x in rows ==> x.playerName != name
    ensures r.Some? ==> r.value in rows && r.value.playerName == name
    ensures r.Some? ==> forall x :: x in rows && x.playerName == name ==> x.gameId <= r.value.gameId
  {
    if rows == [] then None
    else
      var rest := Latest(rows[1..], name);
      if rows[0].playerName != name then rest
      else if rest.Some? && rest.value.gameId > rows[0].gameId then rest
      else Some(rows[0])
  }

  /** rock -> paper, paper -> scissors, anything else (and no choice at all) -> rock. */
  function Predict(last: Option<string>): string
  {
    match last
    case Some(c) => if c == "rock" then "paper" else if c == "paper" then "scissors" else "rock"
    case None => "rock"
  }

  function PredictionFor(rows: seq<ChoiceRow>, name: string): string
  {
    match Latest(rows, name)
    case Some(row) => Predict(Some(row.choice))
    case None => Predict(None)
  }

  /** A player's wins are among the player's rows. */
  lemma {:induction false} WinsAtMostPlayed(rows: seq<ChoiceRow>, name: string)
    ensures Wins(rows, name) <= Played(rows, name)
    ensures Played(rows, name) <= |rows|
  {
    if rows != [] {
      WinsAtMostPlayed(rows[1..], name);
    }
  }

  /** The win rate of a player is a percentage, and zero before the first game. */
  lemma WinRateBounds(rows: seq<ChoiceRow>, name: string)
    ensures 0.0 <= WinRate(Wins(rows, name), Played(rows, name)) <= 100.0
    ensures Played(rows, name) == 0 ==> WinRate(Wins(rows, name), Played(rows, name)) == 0.0
  {
    var wins, played := Wins(rows, name), Played(rows, name);
    WinsAtMostPlayed(rows, name);
    if played > 0 {
      assert wins as real <= played as real;
      assert wins as real / played as real <= 1.0;
    }
  }

  /**
   * A player's move counts never exceed the player's rows, and add up to them
   * when every one of those rows holds a move.
   */
  lemma {:induction false} PatternAccountsForRows(rows: seq<ChoiceRow>, name: string)
    ensures var p := PatternOf(rows, name); p.rock + p.paper + p.scissors <= Played(rows, name)
    ensures (forall x :: x in rows && x.playerName == name ==> Parse(x.choice).Some?) ==>
      var p := PatternOf(rows, name); p.rock + p.paper + p.scissors == Played(rows, name)
  {
    if rows != [] {
      PatternAccountsForRows(rows[1..], name);
      assert forall x :: x in rows[1..] ==> x in rows;
    }
  }

  /** The prediction answers the latest move with the move that beats it; rock when there is none. */
  lemma PredictionCountersLatest(rows: seq<ChoiceRow>, name: string)
    ensures Played(rows, name) == 0 ==> PredictionFor(rows, name) == "rock"
    ensures Latest(rows, name).Some? && Parse(Latest(rows, name).value.choice).Some? ==>
      Parse(PredictionFor(rows, name)) == Some(Counter(Parse(Latest(rows, name).value.choice).value))
    ensures Latest(rows, name).Some? && Parse(Latest(rows, name).value.choice).None? ==>
      PredictionFor(rows, name) == "rock"
  {
    if Played(rows, name) == 0 {
      PlayedCountsRows(rows, name);
    }
  }

  lemma {:induction false} PlayedCountsRows(rows: seq<ChoiceRow>, name: string)
    ensures Played(rows, name) == 0 <==> forall x :: x in rows ==> x.playerName != name
  {
    if rows != [] {
      PlayedCountsRows(rows[1..], name);
      assert rows == [rows[0]] + rows[1..];
    }
  }

  /**
   * `get_analysis` over `totalGames` games, the players table `players` and
   * the choice rows: empty maps when there are no games, otherwise one entry
   * per player in each map.
   */
  method GetAnalysis(totalGames: nat, players: seq<string>, rows: seq<ChoiceRow>) returns (a: Analysis)
    ensures totalGames == 0 ==> a == Analysis(map[], map[], map[])
    ensures totalGames > 0 ==>
      && (forall p :: p in a.winRates <==> p in players)
      && (forall p :: p in a.choicePatterns <==> p in players)
      && (forall p :: p in a.predictions <==> p in players)
    ensures forall p :: p in a.winRates ==> a.winRates[p] == WinRate(Wins(rows, p), Played(rows, p))
    ensures forall p :: p in a.choicePatterns ==> a.choicePatterns[p] == PatternOf(rows, p)
    ensures forall p :: p in a.predictions ==> a.predictions[p] == PredictionFor(rows, p)
  {
    if totalGames == 0 {
      return Analysis(map[], map[], map[]);
    }
    var winRates: map<string, real> := map[];
    for i := 0 to |players|
      invariant forall p :: p in winRates <==> p in players[..i]
      invariant forall p :: p in winRates ==> winRates[p] == WinRate(Wins(rows, p), Played(rows, p))
    {
      var wins := Wins(rows, players[i]);
      var gamesPlayed := Played(rows, players[i]);
      winRates := winRates[players[i] := WinRate(wins, gamesPlayed)];
      assert players[..i + 1] == players[..i] + [players[i]];
    }
    var choicePatterns: map<string, Pattern> := map[];
    for i := 0 to |players|
      invariant forall p :: p in choicePatterns <==> p in players[..i]
      invariant forall p :: p in choicePatterns ==> choicePatterns[p] == PatternOf(rows, p)
    {
      choicePatterns := choicePatterns[players[i] := PatternOf(rows, players[i])];
      assert players[..i + 1] == players[..i] + [players[i]];
    }
    var predictions: map<string, string> := map[];
    for i := 0 to |players|
      invariant forall p :: p in predictions <==> p in players[..i]
      invariant forall p :: p in predictions ==> predictions[p] == PredictionFor(rows, p)
    {
      var last := Latest(rows, players[i]);
      var predicted := if last.Some? then Predict(Some(last.value.choice)) else Predict(None);
      predictions := predictions[players[i] := predicted];
      assert players[..i + 1] == players[..i] + [players[i]];
    }
    assert players[..|players|] == players;
    a := Analysis(winRates, choicePatterns, predictions);
  }
}
