/**
 * The three moves of rock-paper-scissors, the strings that stand for them
 * (the values of the `Choice` enum in src/database/models.py), and the
 * dominance relation rock > scissors > paper > rock.
 */
module Moves {
  import opened Wrappers

  datatype Move = Rock | Paper | Scissors

  /** The string the application stores for a move. */
  function Name(m: Move): string
  {
    match m
    case Rock => "rock"
    case Paper => "paper"
    case Scissors => "scissors"
  }

  /** The move a submitted string stands for; any other string is not a move. */
  function Parse(s: string): (r: Option<Move>)
    ensures r.Some? ==> Name(r.value) == s
    ensures r.None? ==> forall m: Move :: Name(m) != s
  {
    if s == "rock" then Some(Rock)
    else if s == "paper" then Some(Paper)
    else if s == "scissors" then Some(Scissors)
    else None
  }

  /** Distinct moves have distinct names, so a move round-trips through its name. */
  lemma NameInjective(a: Move, b: Move)
    ensures Name(a) == Name(b) <==> a == b
    ensures Parse(Name(a)) == Some(a)
  {
  }

  predicate Beats(a: Move, b: Move)
  {
    || (a == Rock && b == Scissors)
    || (a == Scissors && b == Paper)
    || (a == Paper && b == Rock)
  }

  /** Of two different moves exactly one beats the other; no move beats itself. */
  lemma DominanceDecides(a: Move, b: Move)
    ensures !Beats(a, a)
    ensures a != b ==> (Beats(a, b) <==> !Beats(b, a))
  {
  }

  /** The move that beats `m`. */
  function Counter(m: Move): (r: Move)
    ensures Beats(r, m)
    ensures forall x: Move :: Beats(x, m) ==> x == r
  {
    match m
    case Rock => Paper
    case Paper => Scissors
    case Scissors => Rock
  }
}
