/**
 * Per-record sentiment scoring (`analyze_sentiment`) and the map-then-filter that
 * `process_json_tweets_data` applies to one batch of records.
 *
 * The VADER compound score is not modelled: every member takes it as a parameter
 * `score`, the value `polarity_scores(text).get("compound")` gives for a text cell.
 */
module Scoring {
  import opened Wrappers
  import opened Cells

  const TextKey := "text"
  const SentimentKey := "sentiment"

  /**
   * `analyze_sentiment` on a value: a record with `text` comes back with `sentiment` set to the
   * score of its text (overwriting any earlier one); a record without `text` raises `KeyError`
   * inside the `try`, which is caught and turned into `None`.
   */
  function Analyze(tweet: Object, score: Value -> real): (r: Option<Object>)
    ensures r.Some? <==> TextKey in tweet
    ensures r.Some? ==> r.value.Keys == tweet.Keys + {SentimentKey}
    ensures r.Some? ==> r.value[SentimentKey] == Num(score(tweet[TextKey]))
    ensures r.Some? ==> forall k :: k in tweet && k != SentimentKey ==> r.value[k] == tweet[k]
  {
    if TextKey in tweet then Some(tweet[SentimentKey := Num(score(tweet[TextKey]))]) else None
  }

  /** Scoring an already scored record gives it back unchanged. */
  lemma AnalyzeIdempotent(tweet: Object, score: Value -> real)
    requires Analyze(tweet, score).Some?
    ensures Analyze(Analyze(tweet, score).value, score) == Analyze(tweet, score)
  {
    var once := Analyze(tweet, score).value;
    assert once[TextKey] == tweet[TextKey];
    assert once[SentimentKey := Num(score(once[TextKey]))] == once;
  }

  /**
   * The dict that `analyze_sentiment` receives and, when scoring succeeds, returns: the same
   * object, updated in place.
   */
  class Tweet {
    var fields: Object

    constructor (fields: Object)
      ensures this.fields == fields
    {
      this.fields := fields;
    }

    /**
     * `analyze_sentiment(tweet)`: on success the object itself is returned, changed as `Analyze`
     * says; on a missing `text` the lookup fails before the assignment, so nothing changes and
     * the result is `None`.
     */
    method AnalyzeSentiment(score: Value -> real) returns (r: Tweet?)
      modifies this
      ensures r == (if TextKey in old(fields) then this else null)
      ensures Analyze(old(fields), score).Some? ==> fields == Analyze(old(fields), score).value
      ensures Analyze(old(fields), score).None? ==> fields == old(fields)
    {
      if TextKey in fields {
        fields := fields[SentimentKey := Num(score(fields[TextKey]))];
        r := this;
      } else {
        r := null;
      }
    }
  }

  /** `pool.map(analyze_sentiment, tweets)`: one result per input, in input order. */
  function AnalyzeAll(tweets: seq<Object>, score: Value -> real): (rs: seq<Option<Object>>)
    ensures |rs| == |tweets|
    ensures forall i :: 0 <= i < |tweets| ==> rs[i] == Analyze(tweets[i], score)
  {
    seq(|tweets|, i requires 0 <= i < |tweets| => Analyze(tweets[i], score))
  }

  /** `list(filter(lambda x: x is not None, results))`. */
  function DropNone(rs: seq<Option<Object>>): (out: seq<Object>)
    ensures |out| <= |rs|
  {
    if rs == [] then []
    else (if rs[0].Some? then [rs[0].value] else []) + DropNone(rs[1..])
  }

  /** The records a batch keeps: the scored records of one input file. */
  function ScoreBatch(tweets: seq<Object>, score: Value -> real): (out: seq<Object>)
    ensures |out| <= |tweets|
  {
    DropNone(AnalyzeAll(tweets, score))
  }

  /** The positions from `from` on of the records that carry `text`, in increasing order. */
  function TextPositions(tweets: seq<Object>, from: nat): (ps: seq<nat>)
    requires from <= |tweets|
    ensures forall k :: 0 <= k < |ps| ==> from <= ps[k] < |tweets| && TextKey in tweets[ps[k]]
    ensures forall k, l :: 0 <= k < l < |ps| ==> ps[k] < ps[l]
    ensures forall i :: from <= i < |tweets| && TextKey in tweets[i] ==> i in ps
    decreases |tweets| - from
  {
    if from == |tweets| then []
    else (if TextKey in tweets[from] then [from] else []) + TextPositions(tweets, from + 1)
  }

  /**
   * The batch keeps exactly the records with `text`, scored, in input order: the k-th output is
   * the k-th record with `text`, so each input yields at most one output.
   */
  lemma ScoreBatchExact(tweets: seq<Object>, score: Value -> real)
    ensures |ScoreBatch(tweets, score)| == |TextPositions(tweets, 0)|
    ensures forall k :: 0 <= k < |TextPositions(tweets, 0)| ==>
      ScoreBatch(tweets, score)[k] == Analyze(tweets[TextPositions(tweets, 0)[k]], score).value
  {
    ScoreBatchSuffix(tweets, 0, score);
  }

  lemma {:induction false} ScoreBatchSuffixLength(tweets: seq<Object>, from: nat, score: Value -> real)
    requires from <= |tweets|
    ensures |ScoreBatch(tweets[from..], score)| == |TextPositions(tweets, from)|
    decreases |tweets| - from
  {
    if from < |tweets| {
      ScoreBatchSuffixLength(tweets, from + 1, score);
      assert AnalyzeAll(tweets[from..], score)[1..] == AnalyzeAll(tweets[from + 1..], score);
    }
  }

  lemma {:induction false} ScoreBatchSuffix(tweets: seq<Object>, from: nat, score: Value -> real)
    requires from <= |tweets|
    ensures |ScoreBatch(tweets[from..], score)| == |TextPositions(tweets, from)|
    ensures forall k :: 0 <= k < |TextPositions(tweets, from)| ==>
      ScoreBatch(tweets[from..], score)[k] == Analyze(tweets[TextPositions(tweets, from)[k]], score).value
    decreases |tweets| - from
  {
    ScoreBatchSuffixLength(tweets, from, score);
    if from < |tweets| {
      ScoreBatchSuffix(tweets, from + 1, score);
      assert AnalyzeAll(tweets[from..], score)[1..] == AnalyzeAll(tweets[from + 1..], score);
    }
  }

  /** Every kept record carries `sentiment`, the score of its own text. */
  lemma ScoreBatchScored(tweets: seq<Object>, score: Value -> real)
    ensures forall k :: 0 <= k < |ScoreBatch(tweets, score)| ==>
      var out := ScoreBatch(tweets, score)[k];
      TextKey in out && SentimentKey in out && out[SentimentKey] == Num(score(out[TextKey]))
  {
    ScoreBatchExact(tweets, score);
  }

  /** No more outputs than inputs, and as many exactly when every input has `text`. */
  lemma ScoreBatchLength(tweets: seq<Object>, score: Value -> real)
    ensures |ScoreBatch(tweets, score)| <= |tweets|
    ensures |ScoreBatch(tweets, score)| == |tweets| <==> forall i :: 0 <= i < |tweets| ==> TextKey in tweets[i]
  {
    ScoreBatchExact(tweets, score);
    PositionsLength(tweets, 0);
  }

  lemma {:induction false} PositionsLength(tweets: seq<Object>, from: nat)
    requires from <= |tweets|
    ensures |TextPositions(tweets, from)| <= |tweets| - from
    ensures |TextPositions(tweets, from)| == |tweets| - from <==>
      forall i :: from <= i < |tweets| ==> TextKey in tweets[i]
    decreases |tweets| - from
  {
    if from < |tweets| {
      PositionsLength(tweets, from + 1);
    }
  }
}
