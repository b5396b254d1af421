/** Stage 3 of the council (`stage3_synthesize_final`): the Stage-1 answers and the Stage-2
    ranking texts, listed for the chairman, and the chairman's final answer or its fallback.
    The gateway's reply is a parameter: the content the chairman returned, or `None` when the
    call failed. */
module Stage3 {
  import opened Wrappers
  import opened Text
  import opened Council

  /** The fallback answer when the chairman's call fails. */
  const NoSynthesis := "Error: Unable to generate final synthesis."

  /** How the chairman sees one Stage-1 answer. */
  function ResponseEntry(a: Answer): string
  {
    "Model: " + a.model + "\nResponse: " + a.response
  }

  /** How the chairman sees one Stage-2 ranking: its raw text, placeholders included. */
  function RankingEntry(r: Ranking): string
  {
    "Model: " + r.model + "\nRanking: " + r.ranking
  }

  function ResponseEntries(answers: seq<Answer>): (entries: seq<string>)
    ensures |entries| == |answers|
  {
    if answers == [] then []
    else ResponseEntries(answers[..|answers| - 1]) + [ResponseEntry(answers[|answers| - 1])]
  }

  function RankingEntries(rankings: seq<Ranking>): (entries: seq<string>)
    ensures |entries| == |rankings|
  {
    if rankings == [] then []
    else RankingEntries(rankings[..|rankings| - 1]) + [RankingEntry(rankings[|rankings| - 1])]
  }

  lemma {:induction false} ResponseEntriesAt(answers: seq<Answer>, k: nat)
    requires k < |answers|
    ensures ResponseEntries(answers)[k] == ResponseEntry(answers[k])
  {
    var n := |answers| - 1;
    if k < n {
      ResponseEntriesAt(answers[..n], k);
    }
  }

  lemma {:induction false} RankingEntriesAt(rankings: seq<Ranking>, k: nat)
    requires k < |rankings|
    ensures RankingEntries(rankings)[k] == RankingEntry(rankings[k])
  {
    var n := |rankings| - 1;
    if k < n {
      RankingEntriesAt(rankings[..n], k);
    }
  }

  /** `stage1_text`: the answers' entries, separated by blank lines. */
  function ResponsesText(answers: seq<Answer>): string
  {
    Join("\n\n", ResponseEntries(answers))
  }

  /** `stage2_text`: the rankings' entries, separated by blank lines. */
  function RankingsText(rankings: seq<Ranking>): string
  {
    Join("\n\n", RankingEntries(rankings))
  }

  /** The chairman reads every answer, in order: the `k`-th entry sits where the entries
      before it and their separators end. */
  lemma ResponsesListed(answers: seq<Answer>, k: nat)
    requires k < |answers|
    ensures var at := PartOffset("\n\n", ResponseEntries(answers), k);
      && at + |ResponseEntry(answers[k])| <= |ResponsesText(answers)|
      && ResponsesText(answers)[at..at + |ResponseEntry(answers[k])|] == ResponseEntry(answers[k])
  {
    ResponseEntriesAt(answers, k);
    JoinPartAt("\n\n", ResponseEntries(answers), k);
  }

  /** The chairman reads every ranking text, in order, placeholders included. */
  lemma RankingsListed(rankings: seq<Ranking>, k: nat)
    requires k < |rankings|
    ensures var at := PartOffset("\n\n", RankingEntries(rankings), k);
      && at + |RankingEntry(rankings[k])| <= |RankingsText(rankings)|
      && RankingsText(rankings)[at..at + |RankingEntry(rankings[k])|] == RankingEntry(rankings[k])
  {
    RankingEntriesAt(rankings, k);
    JoinPartAt("\n\n", RankingEntries(rankings), k);
  }

  /** The request to the chairman: one user message asking it to synthesise the answers and
      rankings in its own context. */
  function ChairmanRequest(cfg: Config, query: string, answers: seq<Answer>, rankings: seq<Ranking>): Request
  {
    Request(cfg.chairmanModel,
      [Message(User, ChairmanPrompt(query, ResponsesText(answers), RankingsText(rankings), cfg.chairmanContext))])
  }

  /** The final answer: always attributed to the chairman, holding its reply, even an empty
      one, or the fallback when the call failed. */
  function Synthesis(cfg: Config, reply: Option<string>): (f: FinalAnswer)
    ensures f.model == cfg.chairmanModel
    ensures reply.Some? ==> f.response == reply.value
    ensures reply.None? ==> f.response == NoSynthesis
  {
    FinalAnswer(cfg.chairmanModel, if reply.Some? then reply.value else NoSynthesis)
  }

  /** `stage3_synthesize_final`: one request to the chairman, and its answer or the fallback. */
  method SynthesizeFinal(cfg: Config, query: string, answers: seq<Answer>, rankings: seq<Ranking>, reply: Option<string>)
    returns (final: FinalAnswer, sent: Request)
    ensures sent == ChairmanRequest(cfg, query, answers, rankings)
    ensures final == Synthesis(cfg, reply)
  {
    var stage1Text := ResponsesText(answers);
    var stage2Text := RankingsText(rankings);
    sent := Request(cfg.chairmanModel, [Message(User, ChairmanPrompt(query, stage1Text, stage2Text, cfg.chairmanContext))]);
    if reply.None? {
      return FinalAnswer(cfg.chairmanModel, NoSynthesis), sent;
    }
    final := FinalAnswer(cfg.chairmanModel, reply.value);
  }
}
