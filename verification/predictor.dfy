/**
 * The bookkeeping of `RPSPredictor` (src/models/predictor.py): the
 * move <-> integer encoding, the per-player bounded histories, the sliding
 * windows the classifier is trained on and predicts from, and the counts of
 * `get_player_stats`. The classifier itself is opaque: a model is recorded
 * by the samples it was last fitted on.
 */
module Predictor {
  import opened Wrappers
  import opened Moves

  /** `deque(maxlen=100)`: a history keeps the most recent 100 choices. */
  const MAX_HISTORY: nat := 100

  /** The sequence length a predictor gets when none is given. */
  const DEFAULT_SEQUENCE_LENGTH: nat := 5

  const CHOICE_MAP: map<string, int> := map["rock" := 0, "paper" := 1, "scissors" := 2]
  const REVERSE_CHOICE_MAP: map<int, string> := map[0 := "rock", 1 := "paper", 2 := "scissors"]

  /** The error of looking up a choice that `CHOICE_MAP` does not hold. */
  datatype KeyError = KeyError(key: string)

  /** Training rows: `x[i]` is a window of encoded choices, `y[i]` the encoded choice after it. */
  datatype Samples = Samples(x: seq<seq<int>>, y: seq<int>)

  /** A fitted classifier, known only by what it was fitted on. */
  datatype Model = Fitted(trainedOn: Samples)

  /** Per-player statistics: the number of stored choices and each distinct choice with its count. */
  datatype Stats = Stats(totalGames: nat, choiceCounts: seq<(string, nat)>)

  /** The two maps are inverse bijections between the three move names and 0, 1, 2. */
  lemma ChoiceMapsInverse()
    ensures CHOICE_MAP.Keys == set m: Move :: Name(m)
    ensures REVERSE_CHOICE_MAP.Keys == {0, 1, 2}
    ensures forall c :: c in CHOICE_MAP ==> CHOICE_MAP[c] in REVERSE_CHOICE_MAP && REVERSE_CHOICE_MAP[CHOICE_MAP[c]] == c
    ensures forall n :: n in REVERSE_CHOICE_MAP ==> REVERSE_CHOICE_MAP[n] in CHOICE_MAP && CHOICE_MAP[REVERSE_CHOICE_MAP[n]] == n
  {
    assert Name(Rock) == "rock" && Name(Paper) == "paper" && Name(Scissors) == "scissors";
  }

  // ----- encoding -----

  predicate Known(s: seq<string>)
  {
    forall i :: 0 <= i < |s| ==> s[i] in CHOICE_MAP
  }

  function Codes(s: seq<string>): seq<int>
    requires Known(s)
  {
    seq(|s|, i requires 0 <= i < |s| => CHOICE_MAP[s[i]])
  }

  /** The index of the first choice `CHOICE_MAP` does not hold, or `|s|` when there is none. */
  function FirstUnknown(s: seq<string>): (k: nat)
    ensures k <= |s|
    ensures forall i :: 0 <= i < k ==> s[i] in CHOICE_MAP
    ensures k < |s| ==> s[k] !in CHOICE_MAP
  {
    if s == [] then 0
    else if s[0] !in CHOICE_MAP then 0
    else 1 + FirstUnknown(s[1..])
  }

  /** `[choice_map[c] for c in s]`: fails on the first choice that is not a key. */
  function Encode(s: seq<string>): (r: Result<seq<int>, KeyError>)
    ensures r.Success? <==> Known(s)
    ensures r.Success? ==> |r.value| == |s| && forall i :: 0 <= i < |s| ==> r.value[i] == CHOICE_MAP[s[i]]
    ensures r.Failure? ==> exists k :: 0 <= k < |s| && r.error.key == s[k] && r.error.key !in CHOICE_MAP && Known(s[..k])
  {
    var k := FirstUnknown(s);
    if k < |s| then
      assert Known(s[..k]);
      Failure(KeyError(s[k]))
    else Success(Codes(s))
  }

  // ----- _prepare_sequence -----

  /** Window `i` of `h` paired with the choice after it, for every `i < |h| - L`. */
  function Windows(h: seq<string>, L: nat): Samples
    requires Known(h) && L <= |h|
  {
    var n := |h| - L;
    Samples(seq(n, i requires 0 <= i < n => Codes(h[i..i + L])), seq(n, i requires 0 <= i < n => CHOICE_MAP[h[i + L]]))
  }

  /**
   * What `_prepare_sequence` returns for history `h` and sequence length `L`:
   * nothing for a short history, no rows for a history of exactly `L`
   * choices, otherwise every window or the KeyError of the first unknown choice.
   */
  function Sequences(h: seq<string>, L: nat): Result<Option<Samples>, KeyError>
  {
    if |h| < L then Success(None)
    else if |h| == L then Success(Some(Samples([], [])))
    else if FirstUnknown(h) < |h| then Failure(KeyError(h[FirstUnknown(h)]))
    else Success(Some(Windows(h, L)))
  }

  /**
   * The shape of the training data: `None` exactly for a history shorter than
   * `L`; an error exactly when some choice is unknown and there are windows to
   * build; otherwise `|h| - L` rows of `L` codes that decode back to the window
   * of `h` they came from, each paired with the code of the next choice.
   */
  lemma SequencesShape(h: seq<string>, L: nat)
    ensures Sequences(h, L) == Success(None) <==> |h| < L
    ensures Sequences(h, L).Failure? <==> |h| > L && !Known(h)
    ensures Sequences(h, L).Failure? ==> Sequences(h, L).error.key !in CHOICE_MAP
    ensures Sequences(h, L).Failure? ==> FirstUnknown(h) < |h| && Sequences(h, L).error.key == h[FirstUnknown(h)]
    ensures Sequences(h, L).Success? && Sequences(h, L).value.Some? ==>
      var s := Sequences(h, L).value.value;
      && |s.x| == |s.y| == |h| - L
      && (forall i :: 0 <= i < |s.x| ==> |s.x[i]| == L)
      && (forall i, j :: 0 <= i < |s.x| && 0 <= j < L ==>
            s.x[i][j] in REVERSE_CHOICE_MAP && REVERSE_CHOICE_MAP[s.x[i][j]] == h[i + j])
      && (forall i :: 0 <= i < |s.y| ==> s.y[i] in REVERSE_CHOICE_MAP && REVERSE_CHOICE_MAP[s.y[i]] == h[i + L])
  {
    ChoiceMapsInverse();
    if |h| > L && FirstUnknown(h) == |h| {
      var s := Windows(h, L);
      assert |s.x| == |h| - L;
      forall i | 0 <= i < |s.x|
        ensures |s.x[i]| == L
        ensures forall j :: 0 <= j < L ==> s.x[i][j] == CHOICE_MAP[h[i + j]]
      {
        var w := h[i..i + L];
        assert s.x[i] == Codes(w);
        assert forall j :: 0 <= j < L ==> w[j] == h[i + j];
      }
    }
  }

  // ----- the bounded history -----

  /** `deque.append` on a deque with `maxlen=MAX_HISTORY`: a full deque drops its oldest choice. */
  function Push(d: seq<string>, c: string): (r: seq<string>)
    requires |d| <= MAX_HISTORY
    ensures |r| <= MAX_HISTORY
  {
    if |d| == MAX_HISTORY then d[1..] + [c] else d + [c]
  }

  /** The last `n` elements of `s` (all of `s` when it is shorter). */
  function LastN(s: seq<string>, n: nat): (r: seq<string>)
    ensures |r| == if |s| <= n then |s| else n
  {
    if |s| <= n then s else s[|s| - n..]
  }

  /** Appending to the bounded deque keeps it equal to the last 100 choices of the whole stream. */
  lemma PushKeepsLast(s: seq<string>, c: string)
    ensures Push(LastN(s, MAX_HISTORY), c) == LastN(s + [c], MAX_HISTORY)
  {
  }

  /** `history[-L:]`: Python's slice from `-0` is the whole list. */
  function PyTail(h: seq<string>, L: nat): seq<string>
    requires L <= |h|
  {
    if L == 0 then h else h[|h| - L..]
  }

  // ----- value_counts -----

  /** The number of times `c` occurs in `h`. */
  function Occurrences(h: seq<string>, c: string): nat
  {
    if h == [] then 0 else Occurrences(h[..|h| - 1], c) + (if h[|h| - 1] == c then 1 else 0)
  }

  predicate NoDuplicates(s: seq<string>)
  {
    forall i, j :: 0 <= i < j < |s| ==> s[i] != s[j]
  }

  /** The distinct choices of `h`, in order of first appearance. */
  function Distinct(h: seq<string>): (r: seq<string>)
    ensures forall c :: c in r <==> c in h
    ensures NoDuplicates(r)
  {
    if h == [] then []
    else
      var d := Distinct(h[..|h| - 1]);
      assert forall c :: c in h <==> c in h[..|h| - 1] || c == h[|h| - 1] by {
        assert h == h[..|h| - 1] + [h[|h| - 1]];
      }
      if h[|h| - 1] in d then d else d + [h[|h| - 1]]
  }

  function CountsOf(keys: seq<string>, h: seq<string>): seq<(string, nat)>
  {
    if keys == [] then [] else [(keys[0], Occurrences(h, keys[0]))] + CountsOf(keys[1..], h)
  }

  /** `value_counts()`: each distinct choice of `h` with the number of times it occurs. */
  function ValueCounts(h: seq<string>): seq<(string, nat)>
  {
    CountsOf(Distinct(h), h)
  }

  function Total(counts: seq<(string, nat)>): nat
  {
    if counts == [] then 0 else counts[0].1 + Total(counts[1..])
  }

  /** The number of positions of `keys` holding `c`. */
  function Hits(keys: seq<string>, c: string): nat
  {
    if keys == [] then 0 else (if keys[0] == c then 1 else 0) + Hits(keys[1..], c)
  }

  lemma {:induction false} HitsOnce(keys: seq<string>, c: string)
    requires NoDuplicates(keys) && c in keys
    ensures Hits(keys, c) == 1
  {
    if keys[0] == c {
      HitsNone(keys[1..], c);
    } else {
      HitsOnce(keys[1..], c);
    }
  }

  lemma {:induction false} HitsNone(keys: seq<string>, c: string)
    requires c !in keys
    ensures Hits(keys, c) == 0
  {
    if keys != [] {
      HitsNone(keys[1..], c);
    }
  }

  lemma {:induction false} TotalSnoc(keys: seq<string>, h: seq<string>, c: string)
    ensures Total(CountsOf(keys, h + [c])) == Total(CountsOf(keys, h)) + Hits(keys, c)
  {
    if keys != [] {
      assert (h + [c])[..|h + [c]| - 1] == h;
      TotalSnoc(keys[1..], h, c);
    }
  }

  /** Counting every choice of `h` against keys that list each of them once accounts for all of `h`. */
  lemma {:induction false} TotalCounts(keys: seq<string>, h: seq<string>)
    requires NoDuplicates(keys)
    requires forall c :: c in h ==> c in keys
    ensures Total(CountsOf(keys, h)) == |h|
  {
    if h == [] {
      ZeroCounts(keys, h);
    } else {
      var init, last := h[..|h| - 1], h[|h| - 1];
      assert h == init + [last];
      TotalCounts(keys, init);
      TotalSnoc(keys, init, last);
      HitsOnce(keys, last);
    }
  }

  lemma {:induction false} ZeroCounts(keys: seq<string>, h: seq<string>)
    requires h == []
    ensures Total(CountsOf(keys, h)) == 0
  {
    if keys != [] {
      ZeroCounts(keys[1..], h);
    }
  }

  /** The counts of `value_counts()` add up to the length of the history. */
  lemma ValueCountsTotal(h: seq<string>)
    ensures Total(ValueCounts(h)) == |h|
  {
    TotalCounts(Distinct(h), h);
  }

  class RpsPredictor {
    const sequenceLength: nat
    /** player -> classifier, for players whose history was long enough to fit one. */
    var models: map<string, Model>
    /** player -> the most recent choices, oldest first. */
    var histories: map<string, seq<string>>

    ghost predicate Valid()
      reads this
    {
      && (forall p :: p in histories ==> |histories[p]| <= MAX_HISTORY)
      && models.Keys <= histories.Keys
    }

    constructor (sequenceLength: nat)
      ensures Valid()
      ensures this.sequenceLength == sequenceLength && models == map[] && histories == map[]
    {
      this.sequenceLength := sequenceLength;
      models := map[];
      histories := map[];
    }

    /** A predictor with the default sequence length. */
    constructor Default()
      ensures Valid()
      ensures sequenceLength == DEFAULT_SEQUENCE_LENGTH && models == map[] && histories == map[]
    {
      sequenceLength := DEFAULT_SEQUENCE_LENGTH;
      models := map[];
      histories := map[];
    }

    function HistoryOf(p: string): seq<string>
      reads this
    {
      if p in histories then histories[p] else []
    }

    /** `_prepare_sequence`: builds the windows in order and stops at the first unknown choice. */
    method PrepareSequence(history: seq<string>) returns (r: Result<Option<Samples>, KeyError>)
      ensures r == Sequences(history, sequenceLength)
    {
      var L := sequenceLength;
      if |history| < L {
        return Success(None);
      }
      var x: seq<seq<int>> := [];
      var y: seq<int> := [];
      var i := 0;
      while i < |history| - L
        invariant 0 <= i <= |history| - L
        invariant i > 0 ==> Known(history[..i + L])
        invariant |x| == i && |y| == i
        invariant forall k :: 0 <= k < i ==> KnownWindow(history, k, L) && x[k] == Codes(history[k..k + L])
        invariant forall k :: 0 <= k < i ==> history[k + L] in CHOICE_MAP && y[k] == CHOICE_MAP[history[k + L]]
      {
        if i > 0 {
          KnownSlice(history, i, i + L);
        }
        var window := Encode(history[i..i + L]);
        if window.Failure? {
          assert i == 0;
          FirstUnknownOfPrefix(history, L);
          assert Sequences(history, L) == Failure(window.error);
          return Failure(window.error);
        }
        var next := history[i + L];
        if next !in CHOICE_MAP {
          FirstUnknownAt(history, i + L);
          assert Sequences(history, L) == Failure(KeyError(next));
          return Failure(KeyError(next));
        }
        assert Known(history[..i + L + 1]);
        assert Known(history[i..i + L]);
        assert window.value == Codes(history[i..i + L]);
        ghost var prevX := x;
        x := x + [window.value];
        y := y + [CHOICE_MAP[next]];
        forall k | 0 <= k <= i
          ensures KnownWindow(history, k, L) && x[k] == Codes(history[k..k + L])
        {
          if k < i {
            assert x[k] == prevX[k];
          }
        }
        i := i + 1;
      }
      if |history| == L {
        return Success(Some(Samples([], [])));
      }
      assert history[..|history|] == history;
      FirstUnknownAt(history, |history|);
      assert x == Windows(history, L).x;
      assert y == Windows(history, L).y;
      r := Success(Some(Samples(x, y)));
    }

    /** `update_model`: appends to the player's bounded history, then refits when it is longer than the sequence length. */
    method UpdateModel(p: string, choices: seq<string>) returns (r: Outcome<KeyError>)
      requires Valid()
      modifies this
      ensures Valid()
      ensures histories == old(histories)[p := LastN(old(HistoryOf(p)) + choices, MAX_HISTORY)]
      ensures |histories[p]| <= sequenceLength ==> r == Pass && models == old(models)
      ensures |histories[p]| > sequenceLength ==>
        match Sequences(histories[p], sequenceLength)
        case Failure(e) => r == Fail(e) && models == old(models)
        case Success(samples) => r == Pass && samples.Some? && models == old(models)[p := Fitted(samples.value)]
      ensures forall q :: q != p ==>
        && (q in histories <==> q in old(histories)) && (q in histories ==> histories[q] == old(histories)[q])
        && (q in models <==> q in old(models)) && (q in models ==> models[q] == old(models)[q])
    {
      var start := HistoryOf(p);
      if p !in histories {
        histories := histories[p := []];
      } else {
        assert histories == histories[p := start];
      }
      assert start + choices[..0] == start;
      var i := 0;
      while i < |choices|
        invariant 0 <= i <= |choices|
        invariant histories == old(histories)[p := LastN(start + choices[..i], MAX_HISTORY)]
        invariant models == old(models)
      {
        PushKeepsLast(start + choices[..i], choices[i]);
        histories := histories[p := Push(histories[p], choices[i])];
        assert start + choices[..i + 1] == (start + choices[..i]) + [choices[i]];
        i := i + 1;
      }
      assert choices[..i] == choices;
      var h := histories[p];
      if |h| > sequenceLength {
        var prepared := PrepareSequence(h);
        match prepared
        case Failure(e) =>
          return Fail(e);
        case Success(samples) =>
          if samples.Some? && |samples.value.x| > 0 {
            models := models[p := Fitted(samples.value)];
          }
      }
      r := Pass;
    }

    /**
     * The input `predict_next_choice` hands to the player's classifier: `None`
     * where it falls back to a random move (no model, no history, or a history
     * shorter than the sequence length), else the encoded recent choices.
     */
    function PredictionInput(p: string): (r: Result<Option<seq<int>>, KeyError>)
      reads this
      ensures r.Success? && r.value.Some? ==>
        && p in models && p in histories && |histories[p]| >= sequenceLength
        && var recent := PyTail(histories[p], sequenceLength);
           Known(recent) && r.value.value == Codes(recent)
      ensures r == Success(None) <==>
        p !in models || p !in histories || |histories[p]| < sequenceLength
      ensures r.Failure? <==>
        && p in models && p in histories && |histories[p]| >= sequenceLength
        && !Known(PyTail(histories[p], sequenceLength))
      ensures r.Failure? ==>
        var recent := PyTail(histories[p], sequenceLength);
        FirstUnknown(recent) < |recent| && r.error.key == recent[FirstUnknown(recent)]
      ensures r.Failure? ==> r.error.key !in CHOICE_MAP
    {
      if p !in models || p !in histories then Success(None)
      else
        var h := histories[p];
        if |h| < sequenceLength then Success(None)
        else
          match Encode(PyTail(h, sequenceLength))
          case Failure(e) => Failure(e)
          case Success(codes) => Success(Some(codes))
    }

    /** `get_player_stats`, with counts in place of the per-choice ratios. */
    function PlayerStats(p: string): (r: Option<Stats>)
      reads this
      ensures r.None? <==> p !in histories || histories[p] == []
      ensures r.Some? ==> r.value.totalGames == |histories[p]| && Total(r.value.choiceCounts) == r.value.totalGames
      ensures r.Some? ==> forall i :: 0 <= i < |r.value.choiceCounts| ==>
        r.value.choiceCounts[i].0 in histories[p] && r.value.choiceCounts[i].1 == Occurrences(histories[p], r.value.choiceCounts[i].0)
      ensures r.Some? ==> forall i, j :: 0 <= i < j < |r.value.choiceCounts| ==> r.value.choiceCounts[i].0 != r.value.choiceCounts[j].0
      ensures r.Some? ==> forall c :: c in histories[p] ==>
        exists i :: 0 <= i < |r.value.choiceCounts| && r.value.choiceCounts[i].0 == c
    {
      if p !in histories then None
      else
        var h := histories[p];
        if h == [] then None
        else
          var counts := ValueCounts(h);
          ValueCountsTotal(h);
          ValueCountsEntries(h, counts);
          Some(Stats(|h|, counts))
    }
  }

  lemma {:induction false} CountsOfEntries(keys: seq<string>, h: seq<string>)
    ensures |CountsOf(keys, h)| == |keys|
    ensures forall i :: 0 <= i < |keys| ==> CountsOf(keys, h)[i] == (keys[i], Occurrences(h, keys[i]))
  {
    if keys != [] {
      CountsOfEntries(keys[1..], h);
    }
  }

  /** Each distinct choice of `h` is listed exactly once, with its number of occurrences. */
  lemma ValueCountsEntries(h: seq<string>, counts: seq<(string, nat)>)
    requires counts == ValueCounts(h)
    ensures forall i :: 0 <= i < |counts| ==> counts[i].0 in h && counts[i].1 == Occurrences(h, counts[i].0)
    ensures forall i, j :: 0 <= i < j < |counts| ==> counts[i].0 != counts[j].0
    ensures forall c :: c in h ==> exists i :: 0 <= i < |counts| && counts[i].0 == c
  {
    var keys := Distinct(h);
    CountsOfEntries(keys, h);
    forall c | c in h ensures exists i :: 0 <= i < |counts| && counts[i].0 == c {
      var k :| 0 <= k < |keys| && keys[k] == c;
      assert counts[k].0 == c;
    }
  }

  lemma FirstUnknownAt(s: seq<string>, k: nat)
    requires k <= |s| && Known(s[..k])
    requires k < |s| ==> s[k] !in CHOICE_MAP
    ensures FirstUnknown(s) == k
  {
  }

  predicate KnownWindow(s: seq<string>, k: nat, L: nat)
    requires k + L <= |s|
  {
    Known(s[k..k + L])
  }

  lemma KnownSlice(s: seq<string>, lo: nat, hi: nat)
    requires lo <= hi <= |s| && Known(s[..hi])
    ensures Known(s[lo..hi])
  {
  }

  /** A first window that fails to encode reports the first unknown choice of the whole history. */
  lemma FirstUnknownOfPrefix(history: seq<string>, L: nat)
    requires L <= |history|
    requires Encode(history[..L]).Failure?
    ensures Encode(history[..L]).error.key == history[FirstUnknown(history)]
  {
    var w := history[..L];
    var k := FirstUnknown(w);
    assert k < L;
    assert Encode(w).error.key == w[k] == history[k];
    assert Known(history[..k]) by {
      forall j | 0 <= j < k ensures history[..k][j] in CHOICE_MAP {
        assert history[..k][j] == w[j];
      }
    }
    FirstUnknownAt(history, k);
  }
}
