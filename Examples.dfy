/**
 * The example-tweet panels: `format_tweet`, which embeds one tweet through the oEmbed endpoint
 * or as a plain block quote, and the loop that renders examples until five have succeeded.
 * The endpoint is the parameter `oembed`: the `html` field of its answer for a URL, or `None`
 * when the request, the JSON decoding or the field lookup raises.
 */
module Examples {
  import opened Wrappers

  /** The loop stops after this many successful retrievals. */
  const MaxExamples: nat := 5

  /** The `LIMIT` of the example queries. */
  const ExampleLimit: nat := 10

  const QuoteOpen := "<blockquote>"
  const QuoteClose := "</blockquote>"

  /**
   * The html `format_tweet` renders, or `None` when it returns `None`. A rendered component is
   * truthy, so `Some` is exactly the truthy result.
   */
  function FormatTweet(url: string, text: string, embedStr: bool, oembed: string -> Option<string>): (r: Option<string>)
    ensures r.None? <==> !embedStr && oembed(url).None?
    ensures embedStr ==> |r.value| == |text| + 25
    ensures embedStr ==> r.value[..12] == QuoteOpen && r.value[12..12 + |text|] == text && r.value[12 + |text|..] == QuoteClose
  {
    if !embedStr then oembed(url)
    else
      var html := QuoteOpen + text + QuoteClose;
      assert html[..12] == QuoteOpen;
      assert html[12..12 + |text|] == text;
      assert html[12 + |text|..] == QuoteClose;
      Some(html)
  }

  /**
   * With `embed_str` set no request is made, whatever the endpoint would answer, and the text
   * is rendered inside a block quote; without it the result fails exactly when the endpoint
   * lookup fails, and is then the endpoint's html.
   */
  lemma FormatTweetBranches(url: string, text: string, oembed: string -> Option<string>, other: string -> Option<string>)
    ensures FormatTweet(url, text, true, oembed) == FormatTweet(url, text, true, other)
    ensures FormatTweet(url, text, true, oembed).Some?
    ensures FormatTweet(url, text, false, oembed).None? <==> oembed(url).None?
    ensures oembed(url).Some? ==> FormatTweet(url, text, false, oembed) == oembed(url)
  {
  }

  /** A row of an example query: `SELECT DISTINCT sentiment, text, link`. */
  datatype ExampleRow = ExampleRow(sentiment: Option<real>, text: string, link: string)

  /**
   * The loop's call: the row's link, the literal text `"text"`, `embed_str` left `False`. The
   * row's own text plays no part: the result is the endpoint's answer for the link.
   */
  function Retrieve(row: ExampleRow, oembed: string -> Option<string>): (r: Option<string>)
    ensures r == oembed(row.link)
  {
    FormatTweet(row.link, "text", false, oembed)
  }

  /** How many of the rows retrieve successfully. */
  function Successes(rows: seq<ExampleRow>, oembed: string -> Option<string>): nat {
    if rows == [] then 0
    else Successes(rows[..|rows| - 1], oembed) + (if Retrieve(rows[|rows| - 1], oembed).Some? then 1 else 0)
  }

  /** The html of the successful retrievals, in row order. */
  function Rendered(rows: seq<ExampleRow>, oembed: string -> Option<string>): seq<string> {
    if rows == [] then []
    else
      var last := Retrieve(rows[|rows| - 1], oembed);
      Rendered(rows[..|rows| - 1], oembed) + (if last.Some? then [last.value] else [])
  }

  lemma {:induction false} RenderedLength(rows: seq<ExampleRow>, oembed: string -> Option<string>)
    ensures |Rendered(rows, oembed)| == Successes(rows, oembed)
  {
    if rows != [] {
      RenderedLength(rows[..|rows| - 1], oembed);
    }
  }

  /** Successes only grow as the prefix grows. */
  lemma {:induction false} SuccessesMonotone(rows: seq<ExampleRow>, n: nat, oembed: string -> Option<string>)
    requires n <= |rows|
    ensures Successes(rows[..n], oembed) <= Successes(rows, oembed)
  {
    if n < |rows| {
      assert rows[..|rows| - 1][..n] == rows[..n];
      SuccessesMonotone(rows[..|rows| - 1], n, oembed);
    } else {
      assert rows[..n] == rows;
    }
  }

  /**
   * The retrieval loop. It stops right after the fifth success, or at the end of the rows:
   * `visited` is the first prefix that holds five successes, or all the rows; `count` is the
   * number of successes in it, so never more than five; `shown` the html rendered.
   */
  method ShowExamples(rows: seq<ExampleRow>, oembed: string -> Option<string>)
    returns (count: nat, visited: nat, shown: seq<string>)
    ensures visited <= |rows|
    ensures count == Successes(rows[..visited], oembed) && count <= MaxExamples
    ensures shown == Rendered(rows[..visited], oembed) && |shown| == count
    ensures forall n :: 0 <= n < visited ==> Successes(rows[..n], oembed) < MaxExamples
    ensures visited == |rows| || count == MaxExamples
    ensures count == if Successes(rows, oembed) < MaxExamples then Successes(rows, oembed) else MaxExamples
  {
    count, visited, shown := 0, 0, [];
    while visited < |rows|
      invariant visited <= |rows|
      invariant count == Successes(rows[..visited], oembed) < MaxExamples
      invariant shown == Rendered(rows[..visited], oembed)
      invariant forall n :: 0 <= n <= visited ==> Successes(rows[..n], oembed) < MaxExamples
    {
      var tweet := Retrieve(rows[visited], oembed);
      assert rows[..visited + 1][..visited] == rows[..visited];
      if tweet.Some? {
        count := count + 1;
        shown := shown + [tweet.value];
      }
      visited := visited + 1;
      if count == MaxExamples {
        break;
      }
    }
    RenderedLength(rows[..visited], oembed);
    SuccessesMonotone(rows, visited, oembed);
    if visited == |rows| {
      assert rows[..visited] == rows;
    }
  }

  /** The `LIMIT 10` of the example queries: the first rows of the ordered result. */
  function Limit(rows: seq<ExampleRow>): (r: seq<ExampleRow>)
    ensures |r| <= ExampleLimit && |r| <= |rows|
    ensures r == rows[..|r|]
    ensures |rows| <= ExampleLimit ==> r == rows
  {
    if |rows| <= ExampleLimit then rows else rows[..ExampleLimit]
  }
}
