/**
 * Engine configuration of src/database/database.py: the `DATABASE_URL`
 * default, the rewrite of a `postgres://` scheme to `postgresql://`, and the
 * `connect_args` chosen for SQLite.
 */
module Database {
  import opened Wrappers

  const DEFAULT_URL: string := "sqlite:///./rps_game.db"
  const POSTGRES: string := "postgres://"
  const POSTGRESQL: string := "postgresql://"
  const SQLITE: string := "sqlite"

  predicate StartsWith(s: string, prefix: string)
  {
    |prefix| <= |s| && s[..|prefix|] == prefix
  }

  predicate OccursAt(s: string, pat: string, k: nat)
  {
    k + |pat| <= |s| && s[k..k + |pat|] == pat
  }

  /** `os.getenv("DATABASE_URL", DEFAULT_URL)`, with the environment value as a parameter. */
  function ConfiguredUrl(env: Option<string>): string
  {
    match env
    case Some(url) => url
    case None => DEFAULT_URL
  }

  /** The index of the first occurrence of `pat` in `s`. */
  function IndexOf(s: string, pat: string): (r: Option<nat>)
    ensures r.Some? ==> OccursAt(s, pat, r.value) && forall j :: 0 <= j < r.value ==> !OccursAt(s, pat, j)
    ensures r.None? ==> forall j :: 0 <= j ==> !OccursAt(s, pat, j)
    decreases |s|
  {
    if |s| < |pat| then None
    else if s[..|pat|] == pat then Some(0)
    else
      match IndexOf(s[1..], pat)
      case None =>
        assert forall j :: 1 <= j ==> (OccursAt(s, pat, j) ==> OccursAt(s[1..], pat, j - 1));
        None
      case Some(k) =>
        assert forall j :: 1 <= j ==> (OccursAt(s, pat, j) ==> OccursAt(s[1..], pat, j - 1));
        assert s[1..][k..k + |pat|] == s[k + 1..k + 1 + |pat|];
        Some(k + 1)
  }

  /** `s.replace(target, replacement, 1)`: only the first occurrence is replaced. */
  function ReplaceFirst(s: string, target: string, replacement: string): string
  {
    match IndexOf(s, target)
    case None => s
    case Some(k) => s[..k] + replacement + s[k + |target|..]
  }

  /** The URL handed to `create_engine`: a `postgres://` scheme is renamed to `postgresql://`. */
  function NormalizeUrl(url: string): string
  {
    if StartsWith(url, POSTGRES) then ReplaceFirst(url, POSTGRES, POSTGRESQL) else url
  }

  /** `connect_args`: `check_same_thread=False` for SQLite, nothing otherwise. */
  function ConnectArgs(url: string): map<string, bool>
  {
    if StartsWith(url, SQLITE) then map["check_same_thread" := false] else map[]
  }

  /** The URL and connect arguments the engine is created with. */
  function EngineConfig(env: Option<string>): (string, map<string, bool>)
  {
    var url := NormalizeUrl(ConfiguredUrl(env));
    (url, ConnectArgs(url))
  }

  /** Without an environment value the engine uses the local SQLite file, with `check_same_thread=False`. */
  lemma DefaultIsLocalSqlite()
    ensures EngineConfig(None) == (DEFAULT_URL, map["check_same_thread" := false])
  {
    assert !StartsWith(DEFAULT_URL, POSTGRES) by {
      assert DEFAULT_URL[0] != POSTGRES[0];
    }
    assert DEFAULT_URL[..|SQLITE|] == SQLITE;
  }

  /** A `postgres://` URL becomes `postgresql://` followed by the rest of it, unchanged. */
  lemma RewritesScheme(url: string)
    requires StartsWith(url, POSTGRES)
    ensures NormalizeUrl(url) == POSTGRESQL + url[|POSTGRES|..]
  {
  }

  /** Every later occurrence of `postgres://` survives the rewrite, two characters further on. */
  lemma KeepsLaterOccurrences(url: string, j: nat)
    requires StartsWith(url, POSTGRES)
    requires j >= |POSTGRES| && OccursAt(url, POSTGRES, j)
    ensures OccursAt(NormalizeUrl(url), POSTGRES, j + |POSTGRESQL| - |POSTGRES|)
  {
  }

  /** A URL without the `postgres://` scheme is left alone; rewriting twice is rewriting once. */
  lemma NormalizeIdempotent(url: string)
    ensures !StartsWith(url, POSTGRES) ==> NormalizeUrl(url) == url
    ensures NormalizeUrl(NormalizeUrl(url)) == NormalizeUrl(url)
  {
    if StartsWith(url, POSTGRES) {
      RewritesScheme(url);
      var r := NormalizeUrl(url);
      assert r[8] == 'q' && POSTGRES[8] == ':';
    }
  }

  /** `check_same_thread=False` is passed exactly when the final URL is a SQLite one, and the rewrite never changes that. */
  lemma SqliteArgs(env: Option<string>)
    ensures var (url, args) := EngineConfig(env);
      && ("check_same_thread" in args <==> StartsWith(url, SQLITE))
      && (args != map[] ==> args == map["check_same_thread" := false])
      && (StartsWith(url, SQLITE) <==> StartsWith(ConfiguredUrl(env), SQLITE))
  {
  }
}
