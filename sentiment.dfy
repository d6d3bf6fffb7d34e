/** The word logic of the sentiment annotator (`DataProcessor.analyze_sentiment`). The request
    to the external chat-completion service is not modelled: a configured client is a function
    from the text to what the service gave back, an answer or a failure. */
module Sentiment {
  import opened Text

  const Positive := "Позитивная"
  const Negative := "Негативная"
  const Neutral := "Нейтральная"
  const Undetermined := "Не определено"

  /** The three labels the service is asked for. */
  const Expected: seq<string> := [Positive, Negative, Neutral]

  /** The four labels a record can carry. */
  const SentimentLabels: seq<string> := [Positive, Negative, Neutral, Undetermined]

  /** What one request returns: the content of the first choice, or an exception of any kind
      (transport, authentication, quota, or a reply without content). */
  datatype Reply = Answer(content: string) | Failed

  /** The client the processor was built with: none when no API key was given. */
  datatype Client = NotConfigured | Configured(classify: string -> Reply)

  /** `analyze_sentiment`. Without a client the service is never consulted and the result is
      "Не определено"; a failure is also "Не определено"; an answer that, stripped, is one of
      the three expected labels is that word; any other answer is "Нейтральная". */
  function AnalyzeSentiment(client: Client, text: string): (r: string)
    ensures r in SentimentLabels
    ensures client.NotConfigured? ==> r == Undetermined
    ensures r == Undetermined <==> client.NotConfigured? || client.classify(text).Failed?
    ensures client.Configured? && client.classify(text).Answer? ==>
      var word := Strip(client.classify(text).content);
      (word in Expected ==> r == word) && (word !in Expected ==> r == Neutral)
  {
    match client
    case NotConfigured => Undetermined
    case Configured(classify) =>
      match classify(text)
      case Failed => Undetermined
      case Answer(content) =>
        var word := Strip(content);
        if word in Expected then word else Neutral
  }

  /** A reply padded with whitespace around an expected word is read as that word. */
  lemma PaddedAnswer(client: Client, text: string)
    requires client.Configured? && client.classify(text) == Answer(" Негативная\n")
    ensures AnalyzeSentiment(client, text) == Negative
  {
    var c := " Негативная\n";
    assert TrimStart(c) == c[1..];
    assert TrimEnd(c[1..]) == c[1..|c| - 1];
    assert c[1..|c| - 1] == Negative;
  }

  /** A reply that is not exactly one word of the three, such as "Позитивная." with its full
      stop, is read as "Нейтральная". */
  lemma UnexpectedAnswer(client: Client, text: string)
    requires client.Configured? && client.classify(text) == Answer("Позитивная.")
    ensures AnalyzeSentiment(client, text) == Neutral
  {
    var c := "Позитивная.";
    assert TrimStart(c) == c;
    assert TrimEnd(c) == c;
    assert c != Positive && c != Negative && c != Neutral by {
      assert |c| != |Positive|;
      assert |c| != |Negative|;
      assert c[0] != Neutral[0];
    }
  }
}
