/** `run_full_council`: Stage 1, then, unless it returned no records, Stage 2, the aggregate
    ranking and Stage 3, with the label map and the aggregate as metadata. The gateway's
    replies to the three stages are parameters. */
module Pipeline {
  import opened Wrappers
  import opened RankingParser
  import opened Council
  import opened Stage1
  import opened Stage2
  import opened Aggregate
  import opened Stage3

  /** What the frontend is shown besides the three stages. */
  datatype Metadata = Metadata(labelToModel: map<string, string>, aggregateRankings: seq<Standing>)

  /** The four results of `run_full_council`; the metadata is absent (`{}`) when Stage 1
      returned no records. */
  datatype Outcome = Outcome(stage1: seq<Answer>, stage2: seq<Ranking>, final: FinalAnswer, metadata: Option<Metadata>)

  /** The result when Stage 1 returned no records. */
  const NoResponses := "All models failed to respond. Please try again."
  const NoCouncil := Outcome([], [], FinalAnswer("error", NoResponses), None)

  /** The requests Stage 1 sends, in slot order. */
  function AnswerRequests(cfg: Config, query: string): (rs: seq<Request>)
    ensures |rs| == |cfg.councilModels|
  {
    seq(|cfg.councilModels|, i requires 0 <= i < |cfg.councilModels| => QueryFor(cfg, i, query))
  }

  /** The requests Stage 2 sends, in slot order. */
  function RankingRequests(cfg: Config, query: string, answers: seq<Answer>): (rs: seq<Request>)
    requires |answers| <= LabelCount
    ensures |rs| == |cfg.councilModels|
  {
    seq(|cfg.councilModels|, i requires 0 <= i < |cfg.councilModels| => RankingQuery(cfg, i, query, Ballot(answers)))
  }

  /** What the council returns for the given replies: the configuration error Stage 1 raises,
      the fixed error result for an empty council, or the records of the three stages with
      the label map and the aggregate ranking computed from the Stage-2 records. */
  function CouncilResult(cfg: Config, answerReplies: seq<Option<string>>, rankingReplies: seq<Option<string>>,
                         chairmanReply: Option<string>): Result<Outcome, ConfigError>
    requires |answerReplies| == |cfg.councilModels| == |rankingReplies| <= LabelCount
  {
    if |cfg.councilModels| != |cfg.sheldonNames| then Failure(Mismatch(|cfg.councilModels|, |cfg.sheldonNames|))
    else
      var answers := Answers(cfg, answerReplies);
      if answers == [] then Success(NoCouncil)
      else
        var rankings := Rankings(cfg, rankingReplies);
        var labels := LabelToModel(answers);
        Success(Outcome(answers, rankings, Synthesis(cfg, chairmanReply), Some(Metadata(labels, Leaderboard(rankings, labels)))))
  }

  /** `run_full_council`: the stages in order, each request recorded as it is sent. */
  method RunFullCouncil(cfg: Config, query: string, answerReplies: seq<Option<string>>,
                        rankingReplies: seq<Option<string>>, chairmanReply: Option<string>)
    returns (result: Result<Outcome, ConfigError>, sent: seq<Request>)
    requires |answerReplies| == |cfg.councilModels| == |rankingReplies| <= LabelCount
    ensures result == CouncilResult(cfg, answerReplies, rankingReplies, chairmanReply)
    ensures result.Failure? || cfg.councilModels == [] ==> sent == []
    ensures result.Success? && cfg.councilModels != [] ==>
      sent == AnswerRequests(cfg, query) + RankingRequests(cfg, query, Answers(cfg, answerReplies))
        + [ChairmanRequest(cfg, query, Answers(cfg, answerReplies), Rankings(cfg, rankingReplies))]
  {
    var stage1, asked := CollectResponses(cfg, query, answerReplies);
    if stage1.Failure? {
      return Failure(stage1.error), [];
    }
    var answers := stage1.value;
    assert asked == AnswerRequests(cfg, query);
    NoAnswersOnlyForEmptyCouncil(cfg, answerReplies);
    if answers == [] {
      return Success(NoCouncil), asked;
    }
    var stage2, labels, ranked := CollectRankings(cfg, query, answers, rankingReplies);
    assert ranked == RankingRequests(cfg, query, answers);
    var board := CalculateAggregateRankings(stage2, labels);
    var final, chair := SynthesizeFinal(cfg, query, answers, stage2, chairmanReply);
    result := Success(Outcome(answers, stage2, final, Some(Metadata(labels, board))));
    sent := asked + ranked + [chair];
  }

  /** A configuration error is raised exactly when the lists differ in length; the fixed error
      result comes exactly for an empty council; otherwise every slot has a record in both
      stages and the final answer is the chairman's. */
  lemma CouncilShape(cfg: Config, answerReplies: seq<Option<string>>, rankingReplies: seq<Option<string>>,
                     chairmanReply: Option<string>)
    requires |answerReplies| == |cfg.councilModels| == |rankingReplies| <= LabelCount
    ensures var r := CouncilResult(cfg, answerReplies, rankingReplies, chairmanReply);
      && (r.Failure? <==> |cfg.councilModels| != |cfg.sheldonNames|)
      && (r.Success? ==> (r.value == NoCouncil <==> cfg.councilModels == []))
      && (r.Success? && cfg.councilModels != [] ==>
            && r.value.metadata.Some?
            && |r.value.stage1| == |r.value.stage2| == |cfg.councilModels|
            && r.value.final.model == cfg.chairmanModel)
  {
    NoAnswersOnlyForEmptyCouncil(cfg, answerReplies);
  }

  /** A model that got a vote is the model of one of the first 26 answers: the label of any
      later answer has no capital letter and is never parsed. */
  lemma VotedModelIsEarlyAnswer(answers: seq<Answer>, rankings: seq<Ranking>, m: string)
    requires |answers| <= LabelCount
    requires m in Order(AllVotes(rankings, LabelToModel(answers)))
    ensures exists j :: 0 <= j < |answers| && j < 26 && answers[j].model == m
  {
    var labels := LabelToModel(answers);
    var votes := AllVotes(rankings, labels);
    OrderVoted(votes);
    var k :| 0 <= k < |votes| && votes[k].model == m;
    var v := votes[k];
    VotesOfAllCast(Reparsed(rankings), labels, v);
    var i :| 0 <= i < |rankings| && v in VotesOf(Reparsed(rankings)[i], labels);
    var parsed := Reparsed(rankings)[i];
    VotesOfCast(parsed, labels, v);
    ReparsedAt(rankings, i);
    ParsedAreLabels(rankings[i].ranking);
    var x := parsed[v.position - 1];
    var j :| 0 <= j < |answers| && x == LabelName(j);
    LabelParsable(j);
  }

  /** Every model on the leaderboard is the model of one of the first 26 answers. */
  lemma LeaderboardOfEarlyAnswers(answers: seq<Answer>, rankings: seq<Ranking>)
    requires |answers| <= LabelCount
    ensures forall st :: st in Leaderboard(rankings, LabelToModel(answers)) ==>
      exists j :: 0 <= j < |answers| && j < 26 && answers[j].model == st.model
  {
    LeaderboardStandings(rankings, LabelToModel(answers));
    forall st | st in Leaderboard(rankings, LabelToModel(answers))
      ensures exists j :: 0 <= j < |answers| && j < 26 && answers[j].model == st.model
    {
      VotedModelIsEarlyAnswer(answers, rankings, st.model);
    }
  }

  /** Every model on the leaderboard is the model of one of the council's first 26 slots. */
  lemma LeaderboardOfCouncil(cfg: Config, answerReplies: seq<Option<string>>, rankingReplies: seq<Option<string>>,
                             chairmanReply: Option<string>)
    requires |answerReplies| == |cfg.councilModels| == |rankingReplies| <= LabelCount
    requires CouncilResult(cfg, answerReplies, rankingReplies, chairmanReply).Success?
    ensures var r := CouncilResult(cfg, answerReplies, rankingReplies, chairmanReply).value;
      r.metadata.Some? ==>
        forall st :: st in r.metadata.value.aggregateRankings ==>
          exists j :: 0 <= j < |cfg.councilModels| && j < 26 && cfg.councilModels[j] == st.model
  {
    var answers := Answers(cfg, answerReplies);
    var rankings := Rankings(cfg, rankingReplies);
    var r := CouncilResult(cfg, answerReplies, rankingReplies, chairmanReply).value;
    if r.metadata.Some? {
      assert r.metadata.value.aggregateRankings == Leaderboard(rankings, LabelToModel(answers));
      LeaderboardOfEarlyAnswers(answers, rankings);
      EarlyAnswersAreCouncil(cfg, answerReplies, Leaderboard(rankings, LabelToModel(answers)));
    }
  }

  /** A model of one of the first 26 answers is the model of one of the first 26 slots. */
  lemma EarlyAnswersAreCouncil(cfg: Config, answerReplies: seq<Option<string>>, board: seq<Standing>)
    requires |answerReplies| == |cfg.councilModels| <= LabelCount
    requires forall st :: st in board ==>
      exists j :: 0 <= j < |Answers(cfg, answerReplies)| && j < 26 && Answers(cfg, answerReplies)[j].model == st.model
    ensures forall st :: st in board ==>
      exists j :: 0 <= j < |cfg.councilModels| && j < 26 && cfg.councilModels[j] == st.model
  {
    var answers := Answers(cfg, answerReplies);
    forall st | st in board
      ensures exists j :: 0 <= j < |cfg.councilModels| && j < 26 && cfg.councilModels[j] == st.model
    {
      var j :| 0 <= j < |answers| && j < 26 && answers[j].model == st.model;
      assert cfg.councilModels[j] == st.model;
    }
  }
}
