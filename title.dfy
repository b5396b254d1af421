/** `generate_conversation_title`: a short title for a conversation, from the reply of a fast
    model to the first question, cleaned of surrounding whitespace and quotes and cut to at
    most 50 characters; a fixed title when the call fails. The reply is a parameter. */
module Title {
  import opened Wrappers
  import opened Text
  import opened Council

  /** The model the title is asked of. */
  const TitleModel := "nvidia/nemotron-nano-12b-v2-vl:free"

  /** The title of a conversation whose title call failed. */
  const DefaultTitle := "New Conversation"

  /** The longest title kept, and how much of a longer one survives before the ellipsis. */
  const MaxTitle := 50
  const KeptOfLong := 47

  /** The characters of `strip('"\'')`. */
  predicate IsQuote(c: char)
  {
    c == '"' || c == '\''
  }

  /** `strip()` then `strip('"\'')`. */
  function Trimmed(text: string): string
  {
    Strip(Strip(text, IsWhitespace), IsQuote)
  }

  /** `title[:47] + "..."` when the title is longer than 50 characters. */
  function Truncated(title: string): (r: string)
    ensures |r| <= MaxTitle
    ensures |title| <= MaxTitle ==> r == title
    ensures |title| > MaxTitle ==> |r| == MaxTitle && r[..KeptOfLong] == title[..KeptOfLong] && r[KeptOfLong..] == "..."
  {
    if |title| > MaxTitle then title[..KeptOfLong] + "..." else title
  }

  /** The title a reply gives. */
  function CleanTitle(reply: Option<string>): string
  {
    match reply
    case None => DefaultTitle
    case Some(text) => Truncated(Trimmed(text))
  }

  /** `generate_conversation_title`: the request it sends, and the title, reassigned step by
      step as the source does. */
  method GenerateTitle(query: string, reply: Option<string>) returns (title: string, sent: Request)
    ensures sent == Request(TitleModel, [Message(User, TitlePrompt(query))])
    ensures title == CleanTitle(reply)
  {
    sent := Request(TitleModel, [Message(User, TitlePrompt(query))]);
    if reply.None? {
      return DefaultTitle, sent;
    }
    title := Strip(reply.value, IsWhitespace);
    title := Strip(title, IsQuote);
    if |title| > MaxTitle {
      title := title[..KeptOfLong] + "...";
    }
  }

  /** The trimmed reply is a piece of the reply: what was cut from its ends was whitespace
      and quotes only, and it neither begins nor ends with a quote. */
  lemma TrimmedIsPiece(text: string)
    ensures Trimmed(text) == [] || (!IsQuote(Trimmed(text)[0]) && !IsQuote(Trimmed(text)[|Trimmed(text)| - 1]))
    ensures exists i, j ::
      && 0 <= i <= j <= |text| && Trimmed(text) == text[i..j]
      && (forall k :: 0 <= k < i ==> IsWhitespace(text[k]) || IsQuote(text[k]))
      && (forall k :: j <= k < |text| ==> IsWhitespace(text[k]) || IsQuote(text[k]))
  {
    StripTwice(text, IsWhitespace, IsQuote);
  }

  /** Every title has at most 50 characters. A failed call gives the fixed title; otherwise the
      title is the trimmed reply, or its first 47 characters and an ellipsis when it is longer
      than 50, so a non-empty title never begins with a quote. */
  lemma TitleShape(reply: Option<string>)
    ensures |CleanTitle(reply)| <= MaxTitle
    ensures reply.None? ==> CleanTitle(reply) == DefaultTitle
    ensures reply.Some? && |Trimmed(reply.value)| <= MaxTitle ==> CleanTitle(reply) == Trimmed(reply.value)
    ensures reply.Some? && |Trimmed(reply.value)| > MaxTitle ==>
      CleanTitle(reply) == Trimmed(reply.value)[..KeptOfLong] + "..."
    ensures reply.Some? && CleanTitle(reply) != [] ==> !IsQuote(CleanTitle(reply)[0])
  {
    if reply.Some? {
      TrimmedIsPiece(reply.value);
      var t := Trimmed(reply.value);
      if |t| > MaxTitle {
        assert CleanTitle(reply)[0] == t[0];
      }
    }
  }

  /** Cutting a title a second time changes nothing. */
  lemma TruncatedIdempotent(title: string)
    ensures Truncated(Truncated(title)) == Truncated(title)
  {
  }
}
