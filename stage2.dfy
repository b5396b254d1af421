/** Stage 2 of the council (`stage2_collect_rankings`): the anonymous labels of the Stage-1
    answers, the map from label to model, the ballot every ranker reads, and one ranking
    record per council model. The gateway's answers are a parameter, as in Stage 1. */
module Stage2 {
  import opened Wrappers
  import opened Text
  import opened RankingParser
  import opened ParserProperties
  import opened Council

  /** How many letters `chr(65 + i)` gives before the surrogate code points, which Python's
      `chr` accepts and a Dafny `char` does not hold. */
  const LabelCount := 0xD800 - 65

  /** The letter of the `i`-th answer: `A`, `B`, ... and on past `Z` (`[`, `\`, ...). */
  function Letter(i: nat): (c: char)
    requires i < LabelCount
    ensures c as int == 65 + i
  {
    (65 + i) as char
  }

  /** The label of the `i`-th answer, `Response ` and its letter. */
  function LabelName(i: nat): (x: string)
    requires i < LabelCount
    ensures |x| == 10 && x[..9] == LabelPrefix && x[9] == Letter(i)
  {
    assert LabelOf(Letter(i))[..9] == LabelPrefix;
    LabelOf(Letter(i))
  }

  /** Different answers get different labels. */
  lemma LabelsDiffer(i: nat, j: nat)
    requires i < LabelCount && j < LabelCount && i != j
    ensures LabelName(i) != LabelName(j)
  {
    assert LabelName(i)[9] != LabelName(j)[9];
  }

  /** Only the first 26 labels have the shape the parser looks for: a ranking can name a
      27th answer only by a label the parser never returns. */
  lemma LabelParsable(i: nat)
    requires i < LabelCount
    ensures IsLabel(LabelName(i)) <==> i < 26
  {
  }

  /** The `label_to_model` map: the label of each answer, to the model that wrote it. */
  function LabelToModel(answers: seq<Answer>): (m: map<string, string>)
    requires |answers| <= LabelCount
    ensures forall i :: 0 <= i < |answers| ==> LabelName(i) in m && m[LabelName(i)] == answers[i].model
    ensures forall x :: x in m ==> exists i :: 0 <= i < |answers| && x == LabelName(i)
  {
    forall i, j | 0 <= i < |answers| && 0 <= j < |answers| && i != j
      ensures LabelName(i) != LabelName(j)
    {
      LabelsDiffer(i, j);
    }
    map i | 0 <= i < |answers| :: LabelName(i) := answers[i].model
  }

  /** The ballot's entry for the `i`-th answer: its label, the Sheldon it came from, and the
      answer on the next line. */
  function BallotPart(i: nat, a: Answer): string
    requires i < LabelCount
  {
    LabelName(i) + " (from " + ShowName(a.sheldonName) + "):\n" + a.response
  }

  /** The ballot's entries, in the order of the answers. */
  function BallotParts(answers: seq<Answer>): (parts: seq<string>)
    requires |answers| <= LabelCount
    ensures |parts| == |answers|
  {
    if answers == [] then []
    else BallotParts(answers[..|answers| - 1]) + [BallotPart(|answers| - 1, answers[|answers| - 1])]
  }

  /** The `i`-th entry of the ballot is the entry of the `i`-th answer. */
  lemma {:induction false} BallotPartsAt(answers: seq<Answer>, i: nat)
    requires |answers| <= LabelCount && i < |answers|
    ensures BallotParts(answers)[i] == BallotPart(i, answers[i])
  {
    var n := |answers| - 1;
    if i < n {
      BallotPartsAt(answers[..n], i);
    }
  }

  /** The text of all answers that every ranker reads: the entries, separated by blank lines. */
  function Ballot(answers: seq<Answer>): string
    requires |answers| <= LabelCount
  {
    Join("\n\n", BallotParts(answers))
  }

  /** Builds the ballot by appending one entry per answer, then joining them. */
  method BuildBallot(answers: seq<Answer>) returns (ballot: string)
    requires |answers| <= LabelCount
    ensures ballot == Ballot(answers)
  {
    var parts: seq<string> := [];
    var i := 0;
    while i < |answers|
      invariant 0 <= i <= |answers|
      invariant parts == BallotParts(answers[..i])
    {
      var name := ShowName(answers[i].sheldonName);
      assert answers[..i + 1][..i] == answers[..i];
      parts := parts + [LabelName(i) + " (from " + name + "):\n" + answers[i].response];
      i := i + 1;
    }
    assert answers[..i] == answers;
    ballot := Join("\n\n", parts);
  }

  /** A ballot entry begins with the label of its answer. */
  lemma BallotPartBeginsWithLabel(i: nat, a: Answer)
    requires i < LabelCount
    ensures |BallotPart(i, a)| > 10 && BallotPart(i, a)[..10] == LabelName(i)
  {
  }

  /** The ballot lists every answer in order: the `k`-th entry sits where the entries before
      it and their separators end. */
  lemma BallotEntryAt(answers: seq<Answer>, k: nat)
    requires |answers| <= LabelCount && k < |answers|
    ensures var parts := BallotParts(answers);
      var at := PartOffset("\n\n", parts, k);
      && at + |parts[k]| <= |Ballot(answers)|
      && Ballot(answers)[at..at + |parts[k]|] == parts[k]
  {
    JoinPartAt("\n\n", BallotParts(answers), k);
  }

  /** A blank line separates each entry of the ballot from the next. */
  lemma BallotSeparated(answers: seq<Answer>, k: nat)
    requires |answers| <= LabelCount && k + 1 < |answers|
    ensures var parts := BallotParts(answers);
      var end, next := PartOffset("\n\n", parts, k) + |parts[k]|, PartOffset("\n\n", parts, k + 1);
      && next == end + 2 <= |Ballot(answers)|
      && Ballot(answers)[end..next] == "\n\n"
  {
    JoinSeparatorAfter("\n\n", BallotParts(answers), k);
  }

  /** What follows the party's name in the ranking placeholder. */
  const NoRankingTail: string := " failed to provide" + " a ranking." + " Please try again.*"

  /** The text that stands in for the ranking of a model whose call failed. */
  function NoRanking(party: string): string
  {
    "*Error: " + party + NoRankingTail
  }

  /** The placeholder's tail holds neither an `R` nor a colon. */
  lemma TailHasNoROrColon()
    ensures 'R' !in NoRankingTail && ':' !in NoRankingTail
  {
    assert 'R' !in " failed to provide" && ':' !in " failed to provide";
    assert 'R' !in " a ranking." && ':' !in " a ranking.";
    assert 'R' !in " Please try again.*" && ':' !in " Please try again.*";
  }

  /** The ranking placeholder of a party whose name has no `R` holds no label. */
  lemma NoRankingWithoutR(party: string)
    requires 'R' !in party
    ensures ParseRanking(NoRanking(party)) == []
  {
    TailHasNoROrColon();
    assert 'R' !in "*Error: ";
    assert 'R' !in NoRanking(party);
    ParseWithoutR(NoRanking(party));
  }

  /** The ranking placeholder of a party that goes by a label's name casts a vote: it is
      parsed as a ranking that names that label. */
  lemma NoRankingNamingLabel(c: char)
    requires IsUpper(c)
    ensures ParseRanking(NoRanking(LabelOf(c))) == [LabelOf(c)]
  {
    TailHasNoROrColon();
    assert 'R' !in "*Error: ";
    ParseSingleLabel("*Error: ", LabelOf(c), NoRankingTail);
  }

  /** The ranking placeholder of a party whose name is the sentinel and then a label casts a
      vote for that label: the parser reads the text after the sentinel. */
  lemma NoRankingAfterSentinel(c: char)
    requires IsUpper(c)
    ensures ParseRanking(NoRanking(Sentinel + " " + LabelOf(c))) == [LabelOf(c)]
  {
    TailHasNoROrColon();
    var tail := NoRankingTail;
    forall k | 0 <= k < |tail| ensures tail[k] != 'R' && tail[k] != ':' && !IsDigit(tail[k]) {
      assert tail[k] in tail;
    }
    assert 'R' !in "*Error: ";
    assert NoRanking(Sentinel + " " + LabelOf(c)) == "*Error: " + Sentinel + (" " + LabelOf(c) + tail);
    ParseLabelAfterSentinel("*Error: ", " ", LabelOf(c), tail);
  }

  /** Re-parsing a record's text gives its parsed labels: always for a ranking the gateway
      returned, and for a placeholder when the party it names has no `R`. */
  lemma ReparseAgrees(cfg: Config, i: nat, reply: Option<string>)
    requires i < |cfg.councilModels|
    requires reply.Some? || 'R' !in FailedParty(SheldonContext(cfg, i).name, cfg.councilModels[i])
    ensures ParseRanking(RankingFor(cfg, i, reply).ranking) == RankingFor(cfg, i, reply).parsedRanking
  {
    if reply.None? {
      NoRankingWithoutR(FailedParty(SheldonContext(cfg, i).name, cfg.councilModels[i]));
    }
  }

  /** The record of slot `i`: the ranking text and the labels parsed from it when the gateway
      returned one, and otherwise the placeholder and no labels. */
  function RankingFor(cfg: Config, i: nat, reply: Option<string>): (r: Ranking)
    requires i < |cfg.councilModels|
    ensures r.model == cfg.councilModels[i]
    ensures r.sheldonName == SheldonContext(cfg, i).name
    ensures reply.Some? ==> r.ranking == reply.value && r.parsedRanking == ParseRanking(reply.value)
    ensures reply.None? ==> r.ranking == NoRanking(FailedParty(r.sheldonName, r.model)) && r.parsedRanking == []
  {
    var name := SheldonContext(cfg, i).name;
    var model := cfg.councilModels[i];
    match reply
    case Some(text) => Ranking(model, name, text, ParseRanking(text))
    case None => Ranking(model, name, NoRanking(FailedParty(name, model)), [])
  }

  /** The Stage-2 records: one per council model, in slot order, failed calls included. */
  function Rankings(cfg: Config, replies: seq<Option<string>>): (records: seq<Ranking>)
    requires |replies| == |cfg.councilModels|
    ensures |records| == |cfg.councilModels|
    ensures forall i :: 0 <= i < |records| ==> records[i] == RankingFor(cfg, i, replies[i])
  {
    seq(|replies|, i requires 0 <= i < |replies| => RankingFor(cfg, i, replies[i]))
  }

  /** The request of slot `i`: its model, asked as its persona to rank the ballot. */
  function RankingQuery(cfg: Config, i: nat, query: string, ballot: string): Request
    requires i < |cfg.councilModels|
  {
    var p := SheldonContext(cfg, i);
    Request(cfg.councilModels[i], [Message(User, RankingPrompt(p.name, p.context, query, ballot))])
  }

  /** The result loop of `stage2_collect_rankings`: a record per slot, in slot order, holding
      the ranking text with the labels parsed from it, or the placeholder with no labels. */
  method RankingRecords(cfg: Config, replies: seq<Option<string>>) returns (rankings: seq<Ranking>)
    requires |replies| == |cfg.councilModels|
    ensures rankings == Rankings(cfg, replies)
  {
    rankings := [];
    var i := 0;
    while i < |replies|
      invariant 0 <= i <= |replies|
      invariant |rankings| == i && forall k :: 0 <= k < i ==> rankings[k] == RankingFor(cfg, k, replies[k])
    {
      var model, name := cfg.councilModels[i], SheldonContext(cfg, i).name;
      if replies[i].Some? {
        var text := replies[i].value;
        var parsed := ParseRanking(text);
        rankings := rankings + [Ranking(model, name, text, parsed)];
      } else {
        rankings := rankings + [Ranking(model, name, NoRanking(FailedParty(name, model)), [])];
      }
      i := i + 1;
    }
  }

  /** `stage2_collect_rankings`. Every council model is asked, as its persona, to rank the
      same ballot, and every slot gets a record in slot order; the label map goes with them. */
  method CollectRankings(cfg: Config, query: string, answers: seq<Answer>, replies: seq<Option<string>>)
    returns (rankings: seq<Ranking>, labelToModel: map<string, string>, sent: seq<Request>)
    requires |answers| <= LabelCount && |replies| == |cfg.councilModels|
    ensures labelToModel == LabelToModel(answers)
    ensures rankings == Rankings(cfg, replies)
    ensures |sent| == |cfg.councilModels|
    ensures forall i :: 0 <= i < |sent| ==> sent[i] == RankingQuery(cfg, i, query, Ballot(answers))
  {
    labelToModel := LabelToModel(answers);
    var ballot := BuildBallot(answers);
    sent := [];
    var i := 0;
    while i < |cfg.councilModels|
      invariant 0 <= i <= |cfg.councilModels|
      invariant |sent| == i && forall k :: 0 <= k < i ==> sent[k] == RankingQuery(cfg, k, query, ballot)
    {
      var p := SheldonContext(cfg, i);
      sent := sent + [Request(cfg.councilModels[i], [Message(User, RankingPrompt(p.name, p.context, query, ballot))])];
      i := i + 1;
    }
    rankings := RankingRecords(cfg, replies);
  }
}
