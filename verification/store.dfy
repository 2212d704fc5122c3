/**
 * The two tables behind the game endpoints of src/main.py, the games table
 * (game ids only: the timestamps are left out) and the player-choice table,
 * with the effects of `create_game`, `get_games`, `delete_game` and
 * `delete_all_games` on them.
 */
module Store {
  import opened Wrappers
  import opened Rounds

  datatype StoreError = GameNotFound

  /** One entry of the `get_games` listing: a game and its choice rows. */
  datatype GameView = GameView(id: int, players: seq<ChoiceRow>)

  predicate Increasing(s: seq<int>)
  {
    forall i, j :: 0 <= i < j < |s| ==> s[i] < s[j]
  }

  /** The choice rows of one game, in table order. */
  function RowsOfGame(rows: seq<ChoiceRow>, id: int): (r: seq<ChoiceRow>)
    ensures forall x :: x in r <==> x in rows && x.gameId == id
  {
    if rows == [] then []
    else (if rows[0].gameId == id then [rows[0]] else []) + RowsOfGame(rows[1..], id)
  }

  /** The choice rows that remain after deleting those of game `id`, in table order. */
  function RowsOutside(rows: seq<ChoiceRow>, id: int): (r: seq<ChoiceRow>)
    ensures forall x :: x in r <==> x in rows && x.gameId != id
    ensures |r| <= |rows|
  {
    if rows == [] then []
    else (if rows[0].gameId == id then [] else [rows[0]]) + RowsOutside(rows[1..], id)
  }

  /** The game ids that remain after deleting game `id`; an increasing list stays increasing. */
  function Without(games: seq<int>, id: int): (r: seq<int>)
    ensures forall g :: g in r <==> g in games && g != id
    ensures Increasing(games) ==> Increasing(r)
  {
    if games == [] then []
    else
      var rest := Without(games[1..], id);
      if games[0] == id then rest
      else
        assert Increasing(games) ==> Increasing([games[0]] + rest) by {
          if Increasing(games) {
            assert Increasing(games[1..]);
            forall g | g in rest ensures games[0] < g {
              var k :| 0 <= k < |games[1..]| && games[1..][k] == g;
            }
            IncreasingCons(games[0], rest);
          }
        }
        [games[0]] + rest
  }

  lemma IncreasingCons(head: int, rest: seq<int>)
    requires Increasing(rest)
    requires forall g :: g in rest ==> head < g
    ensures Increasing([head] + rest)
  {
    var s := [head] + rest;
    forall i, j | 0 <= i < j < |s| ensures s[i] < s[j] {
      assert s[j] == rest[j - 1] && rest[j - 1] in rest;
      if i > 0 {
        assert s[i] == rest[i - 1];
      }
    }
  }

  lemma IncreasingSnoc(init: seq<int>, last: int)
    requires Increasing(init)
    requires forall g :: g in init ==> g < last
    ensures Increasing(init + [last])
  {
    var s := init + [last];
    forall i, j | 0 <= i < j < |s| ensures s[i] < s[j] {
      assert s[i] == init[i] && init[i] in init;
    }
  }

  /** Deleting game `id`'s rows leaves every other game's rows exactly as they were, in order. */
  lemma {:induction false} DeleteKeepsOtherGames(rows: seq<ChoiceRow>, id: int, other: int)
    requires other != id
    ensures RowsOfGame(RowsOutside(rows, id), other) == RowsOfGame(rows, other)
    ensures RowsOfGame(RowsOutside(rows, id), id) == []
  {
    if rows != [] {
      DeleteKeepsOtherGames(rows[1..], id, other);
      var head: seq<ChoiceRow> := if rows[0].gameId == id then [] else [rows[0]];
      assert RowsOutside(rows, id) == head + RowsOutside(rows[1..], id);
      RowsOfGameAppend(head, RowsOutside(rows[1..], id), other);
      RowsOfGameAppend(head, RowsOutside(rows[1..], id), id);
    }
  }

  lemma {:induction false} RowsOfGameAppend(a: seq<ChoiceRow>, b: seq<ChoiceRow>, id: int)
    ensures RowsOfGame(a + b, id) == RowsOfGame(a, id) + RowsOfGame(b, id)
  {
    if a != [] {
      assert (a + b)[0] == a[0];
      assert (a + b)[1..] == a[1..] + b;
      RowsOfGameAppend(a[1..], b, id);
    } else {
      assert a + b == b;
    }
  }

  /** Splitting the rows by one game id loses no row and duplicates none: the two parts make up the table. */
  lemma {:induction false} RowsPartition(rows: seq<ChoiceRow>, id: int)
    ensures multiset(RowsOfGame(rows, id)) + multiset(RowsOutside(rows, id)) == multiset(rows)
  {
    if rows != [] {
      var t := rows[1..];
      RowsPartition(t, id);
      assert rows == [rows[0]] + t;
      if rows[0].gameId == id {
        assert RowsOfGame(rows, id) == [rows[0]] + RowsOfGame(t, id);
        assert RowsOutside(rows, id) == RowsOutside(t, id);
      } else {
        assert RowsOfGame(rows, id) == RowsOfGame(t, id);
        assert RowsOutside(rows, id) == [rows[0]] + RowsOutside(t, id);
      }
    }
  }

  /** Each game of `gs` with its rows from `cs`, back to front. */
  function Listing(gs: seq<int>, cs: seq<ChoiceRow>): (r: seq<GameView>)
    ensures |r| == |gs|
    ensures forall i :: 0 <= i < |r| ==> r[i].id == gs[|gs| - 1 - i]
    ensures forall i :: 0 <= i < |r| ==> r[i].players == RowsOfGame(cs, r[i].id)
  {
    if gs == [] then []
    else [GameView(gs[|gs| - 1], RowsOfGame(cs, gs[|gs| - 1]))] + Listing(gs[..|gs| - 1], cs)
  }

  /** Listing increasing ids back to front puts them in descending order. */
  lemma ListingDescends(gs: seq<int>, cs: seq<ChoiceRow>, r: seq<GameView>)
    requires Increasing(gs) && r == Listing(gs, cs)
    ensures forall i, j :: 0 <= i < j < |r| ==> r[i].id > r[j].id
  {
    forall i, j | 0 <= i < j < |r| ensures r[i].id > r[j].id {
      assert r[i].id == gs[|gs| - 1 - i] && r[j].id == gs[|gs| - 1 - j];
    }
  }

  /** The listing holds exactly the stored ids. */
  lemma ListingMembers(gs: seq<int>, cs: seq<ChoiceRow>, r: seq<GameView>)
    requires r == Listing(gs, cs)
    ensures forall g :: g in gs <==> exists i :: 0 <= i < |r| && r[i].id == g
  {
    forall g ensures g in gs <==> exists i :: 0 <= i < |r| && r[i].id == g {
      if g in gs {
        var k :| 0 <= k < |gs| && gs[k] == g;
        assert r[|gs| - 1 - k].id == g;
      }
      if exists i :: 0 <= i < |r| && r[i].id == g {
        var i :| 0 <= i < |r| && r[i].id == g;
        assert gs[|gs| - 1 - i] == g;
      }
    }
  }

  class GameStore {
    /** The ids of the games table, in insertion order. */
    var games: seq<int>
    /** The player-choice table, in insertion order. */
    var choices: seq<ChoiceRow>
    /** The id the database assigns to the next game. */
    var nextId: int

    /** Ids are positive, increasing and below `nextId`; every choice row belongs to a stored game. */
    ghost predicate Valid()
      reads this
    {
      && Increasing(games)
      && 0 < nextId
      && (forall g :: g in games ==> 0 < g < nextId)
      && (forall r :: r in choices ==> r.gameId in games)
    }

    constructor ()
      ensures Valid()
      ensures games == [] && choices == [] && nextId == 1
    {
      games := [];
      choices := [];
      nextId := 1;
    }

    /** Stores a new game and one adjudicated choice row per submission, in submission order. */
    method CreateGame(subs: seq<Submission>) returns (id: int)
      requires Valid()
      modifies this
      ensures Valid()
      ensures id == old(nextId) && id !in old(games) && nextId == id + 1
      ensures games == old(games) + [id]
      ensures choices == old(choices) + RoundRows(id, subs)
    {
      id := nextId;
      nextId := nextId + 1;
      IncreasingSnoc(games, id);
      games := games + [id];
      var winning := WinningChoice(Choices(subs));
      var i := 0;
      while i < |subs|
        invariant 0 <= i <= |subs|
        invariant games == old(games) + [id] && nextId == id + 1
        invariant choices == old(choices) + seq(i, k requires 0 <= k < i => Row(id, subs[k], winning))
      {
        choices := choices + [Row(id, subs[i], winning)];
        i := i + 1;
      }
      assert seq(i, k requires 0 <= k < i => Row(id, subs[k], winning)) == RoundRows(id, subs);
    }

    /** The games newest first (by descending id), each with its choice rows. */
    function GamesNewestFirst(): (r: seq<GameView>)
      reads this
      requires Valid()
      ensures |r| == |games|
      ensures forall i, j :: 0 <= i < j < |r| ==> r[i].id > r[j].id
      ensures forall g :: g in games <==> exists i :: 0 <= i < |r| && r[i].id == g
      ensures forall i :: 0 <= i < |r| ==> r[i].players == RowsOfGame(choices, r[i].id)
    {
      var r := Listing(games, choices);
      ListingDescends(games, choices, r);
      ListingMembers(games, choices, r);
      r
    }

    /** Deletes a game and exactly its choice rows; an unknown id is reported and changes nothing. */
    method DeleteGame(id: int) returns (r: Outcome<StoreError>)
      requires Valid()
      modifies this
      ensures Valid()
      ensures id !in old(games) ==> r == Fail(GameNotFound) && games == old(games) && choices == old(choices)
      ensures id in old(games) ==>
        && r == Pass
        && games == Without(old(games), id)
        && choices == RowsOutside(old(choices), id)
      ensures nextId == old(nextId)
    {
      if id !in games {
        return Fail(GameNotFound);
      }
      choices := RowsOutside(choices, id);
      games := Without(games, id);
      r := Pass;
    }

    /** Empties both tables. */
    method DeleteAllGames()
      requires Valid()
      modifies this
      ensures Valid()
      ensures games == [] && choices == [] && nextId == old(nextId)
    {
      choices := [];
      games := [];
    }
  }
}
