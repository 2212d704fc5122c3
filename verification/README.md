# Rock-paper-scissors game rules and bookkeeping, in Dafny

This project models the rule and bookkeeping logic of a small rock-paper-scissors
web application. Players submit rounds, the server adjudicates each round, and the
results are stored in two tables: games and player choices. On top of that the
application serves win-rate, choice-pattern and next-move analytics, and it has a
per-player predictor that keeps a bounded history of each player's choices and
trains a classifier on sliding windows of it.

Modules, one per concern:

- `Moves` (moves.dfy): the three moves, their stored names, the dominance relation
  rock > scissors > paper > rock, and the move that counters a move.
- `Rounds` (rounds.dfy): round adjudication in `create_game`. The distinct submitted
  choice strings decide a winning choice, and each row's `is_winner` flag is set from it.
- `Store` (store.dfy): the games and player-choice tables as a class `GameStore`,
  with `create_game`, `get_games`, `delete_game` and `delete_all_games`.
  Its invariant: game ids are positive and increasing, and every choice row
  belongs to a stored game.
- `Analytics` (analytics.dfy): the tallies of `get_analysis` and a method that
  fills its three maps player by player.
- `Predictor` (predictor.dfy): the class `RpsPredictor`. It covers the choice
  encoding maps, `_prepare_sequence`, the bounded history of `update_model`, the
  input window of `predict_next_choice`, and the counts of `get_player_stats`.
- `Database` (database.dfy): the `DATABASE_URL` default, the `postgres://` to
  `postgresql://` rewrite, and the `connect_args` choice.
- `Wrappers` (wrappers.dfy): `Option`, `Result` and `Outcome`.

Choices are free strings in the request schema (`src/schemas.py:14`), and the
code compares strings. The model therefore keeps choices as strings and relates
them to the `Move` datatype through `Moves.Parse` and `Moves.Name`.

`create_game` does no validation (src/main.py:51-82). It stores every submission,
whatever the number of entries, repeated players or unknown strings. A round
containing an unknown string has no winner, and so does a round with one or three
distinct choices (src/main.py:63).

## Model

| member | source | states |
|---|---|---|
| `Moves.Parse` | src/database/models.py:9-12 | a string is a move exactly when it is that move's stored name (`rock`, `paper`, `scissors`); any other string is no move |
| `Moves.NameInjective` | src/database/models.py:9-12 | distinct moves have distinct names, so every move round-trips through its name |
| `Moves.DominanceDecides` | src/main.py:56-62 | no move beats itself; of two different moves exactly one beats the other |
| `Moves.Counter` | src/main.py:209-214 | the countering move beats the given move, and it is the only move that does |
| `Rounds.Choices` | src/main.py:52-53 | definition without a contract: the set of submitted choice strings; `Rounds.PermutationInvariant` states that it ignores the order of the submissions |
| `Rounds.WinningChoice` | src/main.py:53-63 | definition without a contract, the if-chain of the adjudication rule written as the source writes it; `Rounds.WinningChoiceIsDominant`, `Rounds.TwoDistinctMoves` and `Rounds.UnknownChoiceNeverWins` state what it decides |
| `Rounds.IsWinner` | src/main.py:74 | definition without a contract: a submission wins exactly when there is a winning choice and its choice equals it; `Rounds.RoundOutcome` states the resulting flags |
| `Rounds.RoundRows` | src/main.py:66-82 | one row per submission, in submission order, carrying the game id, player name and choice of that submission |
| `Rounds.WinningChoiceIsDominant` | src/main.py:53-63 | a winning choice exists exactly when the distinct choices are two moves, one beating the other, and the winning choice is the name of the one that wins (both directions) |
| `Rounds.TwoDistinctMoves` | src/main.py:56-62 | with exactly two different moves submitted, the dominant one wins |
| `Rounds.UnknownChoiceNeverWins` | src/main.py:56-63 | if any distinct choice is not a move name, there is no winning choice |
| `Rounds.RoundOutcome` | src/main.py:52-74 | a row is a winner exactly when its choice equals the winning choice; with one, three or more distinct choices (or none) nobody wins; when somebody wins, somebody else loses |
| `Rounds.PermutationInvariant` | src/main.py:52-53 | reordering the submissions keeps the set of distinct choices, and every submission with the same choice gets the same flag |
| `Store.RowsOfGame` | src/main.py:122-128 | the rows listed under a game are exactly the choice rows carrying its id; `Store.RowsPartition` states that every copy of a repeated row is kept |
| `Store.RowsOutside` | src/main.py:141 | after the bulk delete, the remaining rows are exactly those of other games; `Store.RowsPartition` states that every copy of a repeated row is kept |
| `Store.RowsPartition` | src/main.py:122-141 | the rows of a game and the rows outside it together make up the whole table, every row counted as often as it occurs (no row lost, none duplicated) |
| `Store.Without` | src/main.py:142 | removing a game leaves exactly the other ids, and the ids stay increasing |
| `Store.DeleteKeepsOtherGames` | src/main.py:141-142 | deleting one game's rows leaves every other game's rows unchanged and in order, and none of the deleted game's rows |
| `Store.GameStore.constructor` | src/database/models.py:25-28 | a new store has empty games and choice tables, the first integer primary key to assign is 1, and the store invariant holds |
| `Store.GameStore.CreateGame` | src/main.py:47-82 | appends a fresh game id that was not in use, then appends exactly the adjudicated rows of the round, keeping the store invariant |
| `Store.Listing` | src/main.py:115-132 | the listing has one entry per stored id, the ids in reverse storage order, each entry carrying exactly the rows of its game |
| `Store.ListingDescends` | src/main.py:115 | over increasing ids, the listing is in strictly descending id order (newest first) |
| `Store.ListingMembers` | src/main.py:115-131 | an id appears in the listing exactly when it is a stored game |
| `Store.GameStore.GamesNewestFirst` | src/main.py:113-132 | lists every stored game once, by strictly descending id, each with exactly its choice rows |
| `Store.GameStore.DeleteGame` | src/main.py:135-145 | an absent id fails with not-found and changes nothing; otherwise it removes that game and exactly its rows, and keeps the invariant |
| `Store.GameStore.DeleteAllGames` | src/main.py:148-153 | both tables are empty afterwards |
| `Analytics.Wins` | src/main.py:169-172 | definition without a contract: the number of the player's rows flagged as winners; `Analytics.WinsAtMostPlayed` bounds it |
| `Analytics.Played` | src/main.py:173-175 | definition without a contract: the number of the player's rows; `Analytics.PlayedCountsRows` states that it is zero exactly when the player has no rows |
| `Analytics.WinRate` | src/main.py:177 | definition without a contract: wins over games played times 100, or 0 with no games played; `Analytics.WinRateBounds` states its range |
| `Analytics.CountChoice` | src/main.py:188-195 | definition without a contract: the number of the player's rows holding one choice string; `Analytics.PatternAccountsForRows` states how the counts add up |
| `Analytics.PatternOf` | src/main.py:192-196 | definition without a contract: the rock, paper and scissors counts of a player; `Analytics.PatternAccountsForRows` states how they add up |
| `Analytics.Predict` | src/main.py:206-216 | definition without a contract: the counter of the latest choice, rock by default; `Analytics.PredictionCountersLatest` states it |
| `Analytics.PredictionFor` | src/main.py:202-216 | definition without a contract: `Analytics.Predict` of the player's latest row; `Analytics.PredictionCountersLatest` states it |
| `Analytics.Latest` | src/main.py:202-208 | a player with rows gets one of their rows whose game id is the highest among their rows; a player without rows gets none |
| `Analytics.WinsAtMostPlayed` | src/main.py:169-175 | a player's counted wins never exceed the player's counted rows, which never exceed the table |
| `Analytics.WinRateBounds` | src/main.py:177 | the win rate lies between 0 and 100 percent, and is 0 for a player with no rows |
| `Analytics.PatternAccountsForRows` | src/main.py:188-196 | the rock, paper and scissors counts add up to at most the player's rows, and exactly to them when every row holds a move |
| `Analytics.PredictionCountersLatest` | src/main.py:202-216 | the prediction is the move that beats the player's latest move; it is rock when the player has no rows or the latest choice is not a move |
| `Analytics.GetAnalysis` | src/main.py:158-222 | with no games all three maps are empty; otherwise each map has exactly one entry per player, holding that player's win rate, move counts and prediction |
| `Predictor.Windows` | src/models/predictor.py:22-27 | definition without a contract: the sliding windows and labels of a fully known history; `Predictor.SequencesShape` states their shape and contents |
| `Predictor.Sequences` | src/models/predictor.py:14-29 | definition without a contract, the specification of `_prepare_sequence`; `Predictor.SequencesShape` states what it returns and `Predictor.RpsPredictor.PrepareSequence` is proved equal to it |
| `Predictor.Push` | src/models/predictor.py:34-38 | appending to a deque of at most 100 choices leaves at most 100; `Predictor.PushKeepsLast` states which choices remain |
| `Predictor.LastN` | src/models/predictor.py:34 | the last n elements have length n, or the whole sequence when it is shorter; `Predictor.PushKeepsLast` relates it to the deque |
| `Predictor.PyTail` | src/models/predictor.py:58 | definition without a contract: `history[-L:]`, the whole history when L is 0; `Predictor.RpsPredictor.PredictionInput` states its use |
| `Predictor.Occurrences` | src/models/predictor.py:75 | definition without a contract: how often a choice occurs in a history; `Predictor.ValueCountsEntries` pairs each distinct choice with it |
| `Predictor.Distinct` | src/models/predictor.py:75 | the distinct choices of a history: exactly the choices that occur in it, each listed once |
| `Predictor.ValueCounts` | src/models/predictor.py:75 | definition without a contract: each distinct choice with its count; `Predictor.ValueCountsEntries` and `Predictor.ValueCountsTotal` state its properties |
| `Predictor.ValueCountsEntries` | src/models/predictor.py:75-83 | every choice of the history is listed exactly once, each with the number of times it occurs |
| `Predictor.ChoiceMapsInverse` | src/models/predictor.py:11-12 | the two maps are mutually inverse bijections between the three move names and 0, 1, 2 |
| `Predictor.FirstUnknown` | src/models/predictor.py:22-27 | finds the first choice the encoding map lacks; every choice before it is known |
| `Predictor.Encode` | src/models/predictor.py:26 | encoding succeeds exactly when every choice is known, giving each choice's code in place; otherwise it raises a KeyError for an unknown choice preceded only by known ones |
| `Predictor.SequencesShape` | src/models/predictor.py:16-29 | `None` exactly for a history shorter than the sequence length L; a KeyError exactly when some choice is unknown and the history is longer than L, carrying the first unknown choice of the history; otherwise `len - L` samples of L codes each, where sample i decodes to choices i..i+L-1 and its label decodes to choice i+L |
| `Predictor.PushKeepsLast` | src/models/predictor.py:34-38 | appending to the 100-slot deque holding the last 100 choices gives the last 100 choices of the extended stream |
| `Predictor.ValueCountsTotal` | src/models/predictor.py:75-76 | the per-choice counts of a history add up to its length |
| `Predictor.RpsPredictor.constructor` | src/models/predictor.py:7-12 | a new predictor has the given sequence length, no models and no histories |
| `Predictor.RpsPredictor.Default` | src/models/predictor.py:7-12 | a predictor built without a sequence length gets the default 5, no models and no histories |
| `Predictor.RpsPredictor.PrepareSequence` | src/models/predictor.py:14-29 | the loop returns exactly the samples (or the KeyError of the first unknown choice, or `None`) that the specification `Sequences` gives for the history |
| `Predictor.RpsPredictor.UpdateModel` | src/models/predictor.py:31-46 | the player's history becomes the last 100 of old history plus new choices; a model is fitted on the prepared samples only when the history is longer than L, and an unknown choice raises a KeyError after the history was updated; every other player's history and model are unchanged |
| `Predictor.RpsPredictor.PredictionInput` | src/models/predictor.py:48-59 | falls back (no input) exactly when the player has no model, no history or fewer than L choices; otherwise a KeyError exactly when one of the last L choices (`history[-L:]`) is unknown, carrying the first unknown one of them, and else exactly the codes of those choices |
| `Predictor.RpsPredictor.PlayerStats` | src/models/predictor.py:65-84 | `None` exactly for an unknown player or an empty history; otherwise `total_games` is the history length, each distinct choice of the history is listed exactly once with its number of occurrences, nothing else is listed, and the counts add up to `total_games` |
| `Database.ConfiguredUrl` | src/database/database.py:7 | definition without a contract: the `DATABASE_URL` environment value, or the local SQLite file when it is unset; `Database.DefaultIsLocalSqlite` states the default |
| `Database.IndexOf` | src/database/database.py:12 | finds the first occurrence of a pattern, or reports that it does not occur |
| `Database.ReplaceFirst` | src/database/database.py:12 | definition without a contract: `str.replace(..., 1)`, built on `Database.IndexOf`; `Database.RewritesScheme` and `Database.KeepsLaterOccurrences` state its effect |
| `Database.NormalizeUrl` | src/database/database.py:11-12 | definition without a contract: the `postgres://` rewrite; `Database.RewritesScheme` and `Database.NormalizeIdempotent` state its effect |
| `Database.ConnectArgs` | src/database/database.py:16 | definition without a contract: `check_same_thread=False` for a `sqlite` URL, no arguments otherwise; `Database.SqliteArgs` states it |
| `Database.EngineConfig` | src/database/database.py:7-17 | definition without a contract: the URL and connect arguments the engine is created with; `Database.DefaultIsLocalSqlite` and `Database.SqliteArgs` state them |
| `Database.DefaultIsLocalSqlite` | src/database/database.py:7-16 | without an environment value the engine uses `sqlite:///./rps_game.db` with `check_same_thread=False` |
| `Database.RewritesScheme` | src/database/database.py:11-12 | a URL starting with `postgres://` becomes `postgresql://` followed by the unchanged remainder |
| `Database.KeepsLaterOccurrences` | src/database/database.py:12 | later occurrences of `postgres://` survive the rewrite, shifted by the two added characters |
| `Database.NormalizeIdempotent` | src/database/database.py:11-12 | a URL not starting with `postgres://` is unchanged, and rewriting twice equals rewriting once |
| `Database.SqliteArgs` | src/database/database.py:14-17 | `check_same_thread=False` is passed exactly when the final URL starts with `sqlite`, otherwise no connect args; the rewrite never changes that |

## Left out

- The browser client (src/static/script.js): a UI with `fetch` calls, some to endpoints that src/main.py does not define.
- HTTP routing, session lifecycle (`SessionLocal`, `get_db`, `flush`, `commit`, `refresh`, `close`), debug printing, template rendering and the response dictionaries. These are I/O over libraries outside the model.
- Wall-clock time: `get_korean_time`, `time.time()`, `game_date` and `created_at` timestamps. A game is modelled by its id only.
- Floating point: the win rate is exact `real` arithmetic, so float rounding is not modelled. `get_player_stats` keeps integer counts where the source divides them by `total_games`.
- The classifier (`RandomForestClassifier` fit and predict), the `np.random.choice` fallbacks, and the decoding of the classifier's output. A model is recorded only by the samples it was last fitted on. Fit failures are not modelled; with sequence length 0, for example, the rows have zero features.
- `get_players` and the players table. `get_analysis` takes the player names and the number of games as parameters. Players that `create_game` auto-creates are not modelled: that is a persistence side effect with no bearing on adjudication.
- src/database/models.py, except the move names of its `Choice` enum. Its table mapping disagrees with the fields src/main.py uses, and the model follows src/main.py. src/database/init_data.py (startup seeding) and src/schemas.py (request/response shapes) carry no behaviour.
- Game ids come from a counter that never reuses an id, like a PostgreSQL sequence. SQLite may reuse the largest id after that game is deleted. Its rows are deleted with it. The stated properties of the tables (a fresh id, the rows, the listing) hold either way; `nextId` is the model's counter.
- Analytics.Latest: when several of a player's rows share the highest game id, the order of the query result is unspecified. The model takes the first such row in table order, and the contract only promises some row with the highest id. `limit(5)` is not modelled because only the first result is used.
- Predictor.RpsPredictor.PlayerStats: the order of the `value_counts` entries (by descending count in pandas) is not modelled. The model lists choices in order of first appearance.
- The classifier's per-player objects are not separate heap objects. `models` and `histories` are maps held in fields, and each deque is a sequence value.
