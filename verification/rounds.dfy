/**
 * Round adjudication in `create_game` (src/main.py): the set of distinct
 * submitted choice strings decides a winning choice, and every submission is
 * flagged a winner exactly when its choice equals it.
 */
module Rounds {
  import opened Wrappers
  import opened Moves

  /** One `(player_name, choice)` pair of a submitted round; the choice is a free string. */
  datatype Submission = Submission(playerName: string, choice: string)

  /** One row of the player-choice table. */
  datatype ChoiceRow = ChoiceRow(gameId: int, playerName: string, choice: string, isWinner: bool)

  /** The distinct choices of a round (`set(submitted_choices)`). */
  function Choices(subs: seq<Submission>): set<string>
  {
    set i | 0 <= i < |subs| :: subs[i].choice
  }

  /**
   * The winning choice: only when exactly two distinct choices were made and
   * they are one of the pairs rock/scissors, scissors/paper, paper/rock.
   */
  function WinningChoice(unique: set<string>): Option<string>
  {
    if |unique| == 2 then
      if "rock" in unique && "scissors" in unique then Some("rock")
      else if "scissors" in unique && "paper" in unique then Some("scissors")
      else if "paper" in unique && "rock" in unique then Some("paper")
      else None
    else None
  }

  /** `is_winner` of one submission; a winning choice is never the empty string. */
  predicate IsWinner(choice: string, winning: Option<string>)
  {
    match winning
    case Some(w) => choice == w
    case None => false
  }

  function Row(gameId: int, s: Submission, winning: Option<string>): ChoiceRow
  {
    ChoiceRow(gameId, s.playerName, s.choice, IsWinner(s.choice, winning))
  }

  /** The rows `create_game` adds for a round stored under `gameId`, in submission order. */
  function RoundRows(gameId: int, subs: seq<Submission>): (rows: seq<ChoiceRow>)
    ensures |rows| == |subs|
    ensures forall k :: 0 <= k < |subs| ==>
      rows[k].gameId == gameId && rows[k].playerName == subs[k].playerName && rows[k].choice == subs[k].choice
  {
    var winning := WinningChoice(Choices(subs));
    seq(|subs|, k requires 0 <= k < |subs| => Row(gameId, subs[k], winning))
  }

  /** The dominance rule over move names: `unique` is a pair of moves of which `w` names the one that wins. */
  ghost predicate Dominates(unique: set<string>, w: string)
  {
    exists a: Move, b: Move :: Beats(a, b) && unique == {Name(a), Name(b)} && w == Name(a)
  }

  lemma PairFills(unique: set<string>, x: string, y: string)
    requires |unique| == 2 && x in unique && y in unique && x != y
    ensures unique == {x, y}
  {
    var rest := unique - {x, y};
    assert unique == rest + {x, y};
    assert |rest| == 0;
  }

  /** A winning choice is chosen exactly when the distinct choices are two moves, one beating the other, and it is that one. */
  lemma {:induction false} WinningChoiceIsDominant(unique: set<string>, w: string)
    ensures WinningChoice(unique) == Some(w) <==> Dominates(unique, w)
  {
    if WinningChoice(unique) == Some(w) {
      if "rock" in unique && "scissors" in unique {
        PairFills(unique, "rock", "scissors");
        assert Beats(Rock, Scissors) && unique == {Name(Rock), Name(Scissors)};
      } else if "scissors" in unique && "paper" in unique {
        PairFills(unique, "scissors", "paper");
        assert Beats(Scissors, Paper) && unique == {Name(Scissors), Name(Paper)};
      } else {
        PairFills(unique, "paper", "rock");
        assert Beats(Paper, Rock) && unique == {Name(Paper), Name(Rock)};
      }
    }
    if Dominates(unique, w) {
      var a: Move, b: Move :| Beats(a, b) && unique == {Name(a), Name(b)} && w == Name(a);
      assert |unique| == 2;
    }
  }

  /** With exactly two distinct moves the dominant one wins (rock > scissors > paper > rock). */
  lemma TwoDistinctMoves(a: Move, b: Move)
    requires a != b
    ensures WinningChoice({Name(a), Name(b)}) == Some(Name(if Beats(a, b) then a else b))
  {
  }

  /** A choice string that is not a move never lets anyone win. */
  lemma UnknownChoiceNeverWins(unique: set<string>, c: string)
    requires c in unique && Parse(c) == None
    ensures WinningChoice(unique) == None
  {
    if WinningChoice(unique).Some? {
      WinningChoiceIsDominant(unique, WinningChoice(unique).value);
    }
  }

  /**
   * The flags of a round: a submission wins exactly when its choice is the winning
   * choice; with other than two distinct choices nobody wins; when somebody wins,
   * somebody else loses.
   */
  lemma RoundOutcome(gameId: int, subs: seq<Submission>)
    ensures var rows := RoundRows(gameId, subs);
      forall k :: 0 <= k < |subs| ==> (rows[k].isWinner <==> WinningChoice(Choices(subs)) == Some(subs[k].choice))
    ensures |Choices(subs)| != 2 ==> forall k :: 0 <= k < |subs| ==> !RoundRows(gameId, subs)[k].isWinner
    ensures WinningChoice(Choices(subs)).Some? ==>
      && (exists k :: 0 <= k < |subs| && RoundRows(gameId, subs)[k].isWinner)
      && (exists k :: 0 <= k < |subs| && !RoundRows(gameId, subs)[k].isWinner)
  {
  }

  /** Reordering the submissions changes neither the distinct choices nor the flag that goes with each choice. */
  lemma PermutationInvariant(gameId: int, subs: seq<Submission>, reordered: seq<Submission>)
    requires multiset(subs) == multiset(reordered)
    ensures Choices(subs) == Choices(reordered)
    ensures forall i, j :: 0 <= i < |subs| && 0 <= j < |reordered| && subs[i].choice == reordered[j].choice ==>
      RoundRows(gameId, subs)[i].isWinner == RoundRows(gameId, reordered)[j].isWinner
  {
    forall c | c in Choices(subs) ensures c in Choices(reordered) {
      var i :| 0 <= i < |subs| && subs[i].choice == c;
      assert subs[i] in multiset(reordered);
      var j :| 0 <= j < |reordered| && reordered[j] == subs[i];
    }
    forall c | c in Choices(reordered) ensures c in Choices(subs) {
      var j :| 0 <= j < |reordered| && reordered[j].choice == c;
      assert reordered[j] in multiset(subs);
      var i :| 0 <= i < |subs| && subs[i] == reordered[j];
    }
  }
}
