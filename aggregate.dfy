/** `calculate_aggregate_rankings`: every Stage-2 record's ranking text is parsed again, each
    label the label map knows becomes a vote for its model at its 1-based place, and every
    model that got a vote gets a standing with its exact average place and its number of
    votes. The standings are sorted by average place, best first, keeping the order in which
    the models first got a vote among equal averages. */
module Aggregate {
  import opened RankingParser
  import opened Council

  /** One vote: the model a label stands for, and the 1-based place the label held. */
  datatype Vote = Vote(model: string, position: nat)

  /** A model's standing: its average place and the number of places it was given. */
  datatype Standing = Standing(model: string, averageRank: real, rankingsCount: nat)

  /** The votes one ranking casts, in ranking order: a label the map does not know is
      skipped, and the places of the others are counted from 1 over all labels. */
  function VotesOf(labels: seq<string>, labelToModel: map<string, string>): (votes: seq<Vote>)
    ensures |votes| <= |labels|
  {
    if labels == [] then []
    else
      var n := |labels|;
      VotesOf(labels[..n - 1], labelToModel)
        + (if labels[n - 1] in labelToModel then [Vote(labelToModel[labels[n - 1]], n)] else [])
  }

  /** The vote for a model at a place is cast exactly when the label at that place is mapped to
      that model. */
  lemma {:induction false} VotesOfCast(labels: seq<string>, labelToModel: map<string, string>, v: Vote)
    ensures v in VotesOf(labels, labelToModel) <==>
      (1 <= v.position <= |labels| && labels[v.position - 1] in labelToModel
       && labelToModel[labels[v.position - 1]] == v.model)
  {
    if labels != [] {
      var n := |labels|;
      VotesOfCast(labels[..n - 1], labelToModel, v);
      if 1 <= v.position < n {
        assert labels[..n - 1][v.position - 1] == labels[v.position - 1];
      }
      VotesOfPlaces(labels[..n - 1], labelToModel);
    }
  }

  /** The places of a ranking's votes lie between 1 and the ranking's length. */
  lemma {:induction false} VotesOfPlaces(labels: seq<string>, labelToModel: map<string, string>)
    ensures forall v :: v in VotesOf(labels, labelToModel) ==> 1 <= v.position <= |labels|
  {
    if labels != [] {
      VotesOfPlaces(labels[..|labels| - 1], labelToModel);
    }
  }

  /** The labels parsed again from each record's ranking text, record by record. */
  function Reparsed(records: seq<Ranking>): (rankings: seq<seq<string>>)
    ensures |rankings| == |records|
  {
    seq(|records|, i requires 0 <= i < |records| => ParseRanking(records[i].ranking))
  }

  /** The `i`-th parsed ranking is the parse of the `i`-th record's text. */
  lemma ReparsedAt(records: seq<Ranking>, i: nat)
    requires i < |records|
    ensures Reparsed(records)[i] == ParseRanking(records[i].ranking)
  {
  }

  /** One more record adds the parse of its text after the others. */
  lemma ReparsedStep(records: seq<Ranking>, i: nat)
    requires i < |records|
    ensures Reparsed(records[..i + 1]) == Reparsed(records[..i]) + [ParseRanking(records[i].ranking)]
  {
    var longer, shorter := records[..i + 1], records[..i];
    forall k | 0 <= k < i ensures Reparsed(longer)[k] == Reparsed(shorter)[k] {
      assert longer[k] == shorter[k];
    }
  }

  /** The votes of the given rankings, ranking after ranking. */
  function VotesOfAll(rankings: seq<seq<string>>, labelToModel: map<string, string>): seq<Vote>
  {
    if rankings == [] then []
    else
      var n := |rankings|;
      VotesOfAll(rankings[..n - 1], labelToModel) + VotesOf(rankings[n - 1], labelToModel)
  }

  /** The votes of all records, each ranking parsed again from its text. */
  function AllVotes(records: seq<Ranking>, labelToModel: map<string, string>): seq<Vote>
  {
    VotesOfAll(Reparsed(records), labelToModel)
  }

  /** One more ranking adds its votes after the others. */
  lemma VotesOfAllStep(rankings: seq<seq<string>>, labels: seq<string>, labelToModel: map<string, string>)
    ensures VotesOfAll(rankings + [labels], labelToModel) == VotesOfAll(rankings, labelToModel) + VotesOf(labels, labelToModel)
  {
    assert (rankings + [labels])[..|rankings|] == rankings;
  }

  /** A vote is cast exactly when one of the rankings casts it. */
  lemma {:induction false} VotesOfAllCast(rankings: seq<seq<string>>, labelToModel: map<string, string>, v: Vote)
    ensures v in VotesOfAll(rankings, labelToModel) <==>
      exists i :: 0 <= i < |rankings| && v in VotesOf(rankings[i], labelToModel)
  {
    if rankings != [] {
      var n := |rankings|;
      var front := rankings[..n - 1];
      VotesOfAllCast(front, labelToModel, v);
      assert forall i :: 0 <= i < n - 1 ==> front[i] == rankings[i];
    }
  }

  /** The length of the longest of the rankings. */
  function LongestRanking(rankings: seq<seq<string>>): (longest: nat)
    ensures forall i :: 0 <= i < |rankings| ==> |rankings[i]| <= longest
    ensures rankings == [] ==> longest == 0
    ensures rankings != [] ==> exists i :: 0 <= i < |rankings| && |rankings[i]| == longest
  {
    if rankings == [] then 0
    else
      var n := |rankings|;
      var earlier := LongestRanking(rankings[..n - 1]);
      assert forall i :: 0 <= i < n - 1 ==> rankings[..n - 1][i] == rankings[i];
      if |rankings[n - 1]| > earlier then |rankings[n - 1]| else earlier
  }

  /** No place is lower than 1 or higher than the longest ranking. */
  lemma VotesOfAllPlaces(rankings: seq<seq<string>>, labelToModel: map<string, string>)
    ensures forall v :: v in VotesOfAll(rankings, labelToModel) ==> 1 <= v.position <= LongestRanking(rankings)
  {
    forall v | v in VotesOfAll(rankings, labelToModel) ensures 1 <= v.position <= LongestRanking(rankings) {
      VotesOfAllCast(rankings, labelToModel, v);
      var i :| 0 <= i < |rankings| && v in VotesOf(rankings[i], labelToModel);
      VotesOfPlaces(rankings[i], labelToModel);
    }
  }

  /** The models that got a vote, each once, in the order of their first vote (the key order of
      the `defaultdict`). */
  function Order(votes: seq<Vote>): seq<string>
  {
    if votes == [] then []
    else
      var n := |votes|;
      var earlier := Order(votes[..n - 1]);
      if votes[n - 1].model in earlier then earlier else earlier + [votes[n - 1].model]
  }

  /** The order holds exactly the models that got a vote. */
  lemma {:induction false} OrderVoted(votes: seq<Vote>)
    ensures forall m :: m in Order(votes) <==> exists k :: 0 <= k < |votes| && votes[k].model == m
  {
    if votes != [] {
      var n := |votes|;
      OrderVoted(votes[..n - 1]);
      assert forall k :: 0 <= k < n - 1 ==> votes[..n - 1][k] == votes[k];
    }
  }

  /** Each model appears once in the order. */
  lemma {:induction false} OrderDistinct(votes: seq<Vote>)
    ensures forall i, j :: 0 <= i < j < |Order(votes)| ==> Order(votes)[i] != Order(votes)[j]
  {
    if votes != [] {
      OrderDistinct(votes[..|votes| - 1]);
    }
  }

  /** The places a model was given, in the order the votes were cast. */
  function Positions(votes: seq<Vote>, model: string): (places: seq<nat>)
    ensures |places| <= |votes|
  {
    if votes == [] then []
    else
      var n := |votes|;
      Positions(votes[..n - 1], model) + (if votes[n - 1].model == model then [votes[n - 1].position] else [])
  }

  /** A model that got a vote has at least one place. */
  lemma {:induction false} PositionsOfVoted(votes: seq<Vote>, model: string)
    requires model in Order(votes)
    ensures |Positions(votes, model)| >= 1
  {
    var n := |votes|;
    if votes[n - 1].model != model {
      PositionsOfVoted(votes[..n - 1], model);
    }
  }

  /** A model that got no vote has no places. */
  lemma {:induction false} PositionsOfUnvoted(votes: seq<Vote>, model: string)
    requires model !in Order(votes)
    ensures Positions(votes, model) == []
  {
    if votes != [] {
      PositionsOfUnvoted(votes[..|votes| - 1], model);
    }
  }

  /** Every place of a model is the place of one of the votes. */
  lemma {:induction false} PositionsCast(votes: seq<Vote>, model: string)
    ensures forall p :: p in Positions(votes, model) ==> Vote(model, p) in votes
  {
    if votes != [] {
      var n := |votes|;
      PositionsCast(votes[..n - 1], model);
      assert forall v :: v in votes[..n - 1] ==> v in votes;
    }
  }

  function Sum(places: seq<nat>): nat
  {
    if places == [] then 0 else Sum(places[..|places| - 1]) + places[|places| - 1]
  }

  /** `sum(positions) / len(positions)`, exactly. */
  function Average(places: seq<nat>): real
    requires |places| > 0
  {
    Sum(places) as real / |places| as real
  }

  /** A sum of places between 1 and `hi` lies between their number and `hi` times it. */
  lemma {:induction false} SumBounds(places: seq<nat>, hi: nat)
    requires forall k :: 0 <= k < |places| ==> 1 <= places[k] <= hi
    ensures |places| <= Sum(places) <= |places| * hi
  {
    if places != [] {
      var n := |places|;
      SumBounds(places[..n - 1], hi);
      assert (n - 1) * hi + hi == n * hi;
    }
  }

  /** An average of places between 1 and `hi` lies between 1 and `hi`. */
  lemma AverageBounds(places: seq<nat>, hi: nat)
    requires |places| > 0
    requires forall k :: 0 <= k < |places| ==> 1 <= places[k] <= hi
    ensures 1.0 <= Average(places) <= hi as real
  {
    SumBounds(places, hi);
    QuotientBounds(Sum(places) as real, |places| as real, hi as real);
  }

  /** A quotient `s / n` with `n <= s <= n * h` lies between 1 and `h`. */
  lemma QuotientBounds(s: real, n: real, h: real)
    requires 0.0 < n <= s <= n * h
    ensures 1.0 <= s / n <= h
  {
    var q := s / n;
    assert q * n == s;
  }

  /** The standings of the given models, in their order, for those with at least one place. */
  function StandingsOf(votes: seq<Vote>, models: seq<string>): seq<Standing>
  {
    if models == [] then []
    else
      var n := |models|;
      var places := Positions(votes, models[n - 1]);
      StandingsOf(votes, models[..n - 1])
        + (if |places| > 0 then [Standing(models[n - 1], Average(places), |places|)] else [])
  }

  /** The unsorted `aggregate` list: one standing per model that got a vote. */
  function Standings(votes: seq<Vote>): seq<Standing>
  {
    StandingsOf(votes, Order(votes))
  }

  /** Each model that got a vote has a standing, in the order of its first vote, holding the
      number of its places and their average. */
  lemma {:induction false} StandingsOfVoted(votes: seq<Vote>, models: seq<string>)
    requires forall m :: m in models ==> m in Order(votes)
    ensures |StandingsOf(votes, models)| == |models|
    ensures forall k :: 0 <= k < |models| ==> |Positions(votes, models[k])| >= 1
    ensures forall k :: 0 <= k < |models| ==>
      (StandingsOf(votes, models)[k]
       == Standing(models[k], Average(Positions(votes, models[k])), |Positions(votes, models[k])|))
  {
    if models != [] {
      var n := |models|;
      var front := models[..n - 1];
      forall m | m in front ensures m in Order(votes) {
        var i :| 0 <= i < |front| && front[i] == m;
        assert models[i] == m;
      }
      StandingsOfVoted(votes, front);
      PositionsOfVoted(votes, models[n - 1]);
      var earlier, last := StandingsOf(votes, front), Positions(votes, models[n - 1]);
      assert StandingsOf(votes, models) == earlier + [Standing(models[n - 1], Average(last), |last|)];
      forall k | 0 <= k < n
        ensures |Positions(votes, models[k])| >= 1
        ensures StandingsOf(votes, models)[k]
          == Standing(models[k], Average(Positions(votes, models[k])), |Positions(votes, models[k])|)
      {
        if k < n - 1 {
          assert models[k] == front[k];
        }
      }
    }
  }

  /** `aggregate` lists every model that got a vote once, in first-vote order, with the number
      of places it was given, their exact average, and every place between 1 and `hi` when
      every vote's place is. */
  lemma StandingsAreVoted(votes: seq<Vote>, hi: nat)
    requires forall v :: v in votes ==> 1 <= v.position <= hi
    ensures |Standings(votes)| == |Order(votes)|
    ensures forall k :: 0 <= k < |Standings(votes)| ==>
      var st := Standings(votes)[k];
      && st.model == Order(votes)[k]
      && st.rankingsCount == |Positions(votes, st.model)| >= 1
      && st.averageRank == Average(Positions(votes, st.model))
      && 1.0 <= st.averageRank <= hi as real
  {
    var order := Order(votes);
    StandingsOfVoted(votes, order);
    forall k | 0 <= k < |order|
      ensures var st := Standings(votes)[k];
        && st.model == order[k]
        && st.rankingsCount == |Positions(votes, st.model)| >= 1
        && st.averageRank == Average(Positions(votes, st.model))
        && 1.0 <= st.averageRank <= hi as real
    {
      AverageOfVoted(votes, order[k], hi);
    }
  }

  /** The average place of a model that got a vote lies between 1 and `hi` when every vote's
      place does. */
  lemma AverageOfVoted(votes: seq<Vote>, model: string, hi: nat)
    requires forall v :: v in votes ==> 1 <= v.position <= hi
    requires model in Order(votes)
    ensures |Positions(votes, model)| >= 1
    ensures 1.0 <= Average(Positions(votes, model)) <= hi as real
  {
    var places := Positions(votes, model);
    PositionsOfVoted(votes, model);
    PositionsCast(votes, model);
    forall j | 0 <= j < |places| ensures 1 <= places[j] <= hi {
      assert Vote(model, places[j]) in votes;
    }
    AverageBounds(places, hi);
  }

  /** Places `x` before the first standing of `sorted` whose average is not lower. */
  function Insert(x: Standing, sorted: seq<Standing>): (r: seq<Standing>)
    ensures |r| == |sorted| + 1
  {
    if sorted == [] || x.averageRank <= sorted[0].averageRank then [x] + sorted
    else [sorted[0]] + Insert(x, sorted[1..])
  }

  /** `aggregate.sort(key=average_rank)`: a stable sort, here by insertion. */
  function SortByAverage(standings: seq<Standing>): (r: seq<Standing>)
    ensures |r| == |standings|
  {
    if standings == [] then [] else Insert(standings[0], SortByAverage(standings[1..]))
  }

  predicate SortedByAverage(s: seq<Standing>)
  {
    forall i, j :: 0 <= i < j < |s| ==> s[i].averageRank <= s[j].averageRank
  }

  /** The standings with average `avg`, in their order. */
  function WithAverage(s: seq<Standing>, avg: real): seq<Standing>
  {
    if s == [] then []
    else (if s[0].averageRank == avg then [s[0]] else []) + WithAverage(s[1..], avg)
  }

  /** Inserting a standing no better than `lo` among standings no better than `lo` gives
      standings no better than `lo`. */
  lemma {:induction false} InsertAbove(x: Standing, sorted: seq<Standing>, lo: real)
    requires forall k :: 0 <= k < |sorted| ==> lo <= sorted[k].averageRank
    requires lo <= x.averageRank
    ensures forall k :: 0 <= k < |Insert(x, sorted)| ==> lo <= Insert(x, sorted)[k].averageRank
  {
    if sorted != [] && x.averageRank > sorted[0].averageRank {
      InsertAbove(x, sorted[1..], lo);
      var r, rest := Insert(x, sorted), Insert(x, sorted[1..]);
      forall k | 0 < k < |r| ensures r[k] == rest[k - 1] {
      }
    }
  }

  /** Inserting into sorted standings keeps them sorted. */
  lemma {:induction false} InsertSorted(x: Standing, sorted: seq<Standing>)
    requires SortedByAverage(sorted)
    ensures SortedByAverage(Insert(x, sorted))
  {
    if sorted != [] && x.averageRank > sorted[0].averageRank {
      var first, tail := sorted[0], sorted[1..];
      assert forall k :: 0 <= k < |tail| ==> tail[k] == sorted[k + 1];
      InsertSorted(x, tail);
      InsertAbove(x, tail, first.averageRank);
      var r, rest := Insert(x, sorted), Insert(x, tail);
      assert r == [first] + rest;
      forall i, j | 0 <= i < j < |r| ensures r[i].averageRank <= r[j].averageRank {
        if i == 0 {
          assert r[j] == rest[j - 1];
        } else {
          assert r[i] == rest[i - 1] && r[j] == rest[j - 1];
        }
      }
    }
  }

  /** Inserting adds `x` and nothing else. */
  lemma {:induction false} InsertPermutes(x: Standing, sorted: seq<Standing>)
    ensures multiset(Insert(x, sorted)) == multiset(sorted) + multiset{x}
  {
    if sorted != [] && x.averageRank > sorted[0].averageRank {
      InsertPermutes(x, sorted[1..]);
      assert sorted == [sorted[0]] + sorted[1..];
    }
  }

  /** Inserting `x` puts it ahead of every standing with the same average. */
  lemma {:induction false} InsertStable(x: Standing, sorted: seq<Standing>, avg: real)
    ensures WithAverage(Insert(x, sorted), avg)
      == (if x.averageRank == avg then [x] else []) + WithAverage(sorted, avg)
  {
    var mine: seq<Standing> := if x.averageRank == avg then [x] else [];
    if sorted != [] && x.averageRank > sorted[0].averageRank {
      var first := sorted[0];
      InsertStable(x, sorted[1..], avg);
      var r := Insert(x, sorted);
      assert r[0] == first && r[1..] == Insert(x, sorted[1..]);
      var theirs: seq<Standing> := if first.averageRank == avg then [first] else [];
      assert WithAverage(r, avg) == theirs + (mine + WithAverage(sorted[1..], avg));
      assert WithAverage(sorted, avg) == theirs + WithAverage(sorted[1..], avg);
      assert mine == [] || theirs == [];
    } else {
      var r := [x] + sorted;
      assert r[0] == x && r[1..] == sorted;
    }
  }

  /** The sort orders the standings best first. */
  lemma {:induction false} SortSorted(standings: seq<Standing>)
    ensures SortedByAverage(SortByAverage(standings))
  {
    if standings != [] {
      SortSorted(standings[1..]);
      InsertSorted(standings[0], SortByAverage(standings[1..]));
    }
  }

  /** The sort is a permutation of the standings. */
  lemma {:induction false} SortPermutes(standings: seq<Standing>)
    ensures multiset(SortByAverage(standings)) == multiset(standings)
  {
    if standings != [] {
      SortPermutes(standings[1..]);
      InsertPermutes(standings[0], SortByAverage(standings[1..]));
      assert standings == [standings[0]] + standings[1..];
    }
  }

  /** The sort keeps the relative order of the standings that share an average. */
  lemma {:induction false} SortStable(standings: seq<Standing>, avg: real)
    ensures WithAverage(SortByAverage(standings), avg) == WithAverage(standings, avg)
  {
    if standings != [] {
      SortStable(standings[1..], avg);
      InsertStable(standings[0], SortByAverage(standings[1..]), avg);
    }
  }

  /** The sort orders the standings best first, is a permutation of them, and keeps the
      relative order of the standings that share an average. */
  lemma SortByAverageSpec(standings: seq<Standing>)
    ensures SortedByAverage(SortByAverage(standings))
    ensures multiset(SortByAverage(standings)) == multiset(standings)
    ensures forall avg :: WithAverage(SortByAverage(standings), avg) == WithAverage(standings, avg)
  {
    SortSorted(standings);
    SortPermutes(standings);
    forall avg ensures WithAverage(SortByAverage(standings), avg) == WithAverage(standings, avg) {
      SortStable(standings, avg);
    }
  }

  /** The list `calculate_aggregate_rankings` returns. */
  function Leaderboard(records: seq<Ranking>, labelToModel: map<string, string>): seq<Standing>
  {
    SortByAverage(Standings(AllVotes(records, labelToModel)))
  }

  /** The tally of the votes cast so far: the dictionary's keys in insertion order, and each
      key's list of places. */
  ghost predicate Tally(votes: seq<Vote>, order: seq<string>, positions: map<string, seq<nat>>)
  {
    && order == Order(votes)
    && (forall m :: m in positions <==> m in order)
    && (forall m :: m in positions ==> positions[m] == Positions(votes, m))
  }

  /** Casting one more vote appends its model to the order when the model is new, and its
      place to that model's places. */
  lemma CastOne(votes: seq<Vote>, v: Vote)
    ensures Order(votes + [v]) == if v.model in Order(votes) then Order(votes) else Order(votes) + [v.model]
    ensures forall m :: Positions(votes + [v], m) == Positions(votes, m) + (if v.model == m then [v.position] else [])
  {
    assert (votes + [v])[..|votes|] == votes;
  }

  /** The tally after one more vote: `model_positions[model].append(position)`. */
  lemma TallyOne(votes: seq<Vote>, order: seq<string>, positions: map<string, seq<nat>>, v: Vote)
    requires Tally(votes, order, positions)
    ensures Tally(votes + [v],
                  if v.model in positions then order else order + [v.model],
                  positions[v.model := (if v.model in positions then positions[v.model] else []) + [v.position]])
  {
    CastOne(votes, v);
    var order' := if v.model in positions then order else order + [v.model];
    var positions' := positions[v.model := (if v.model in positions then positions[v.model] else []) + [v.position]];
    forall m ensures m in positions' <==> m in order' {
    }
    forall m | m in positions' ensures positions'[m] == Positions(votes + [v], m) {
      if m != v.model {
        assert positions'[m] == positions[m];
      } else if v.model !in positions {
        PositionsOfUnvoted(votes, m);
      }
    }
  }

  /** The votes of a ranking's first `j + 1` labels: those of its first `j`, and the vote of
      label `j` when the map knows it. */
  lemma VotesStep(labels: seq<string>, labelToModel: map<string, string>, j: nat)
    requires j < |labels|
    ensures VotesOf(labels[..j + 1], labelToModel) == VotesOf(labels[..j], labelToModel)
      + (if labels[j] in labelToModel then [Vote(labelToModel[labels[j]], j + 1)] else [])
  {
    assert labels[..j + 1][..j] == labels[..j];
  }

  /** The inner loop of `calculate_aggregate_rankings`: the places of one parsed ranking
      appended to the dictionary, a label the map does not know skipped. */
  method CastVotes(parsed: seq<string>, labelToModel: map<string, string>, ghost votes: seq<Vote>,
                   order0: seq<string>, positions0: map<string, seq<nat>>)
    returns (order: seq<string>, positions: map<string, seq<nat>>)
    requires Tally(votes, order0, positions0)
    ensures Tally(votes + VotesOf(parsed, labelToModel), order, positions)
  {
    order, positions := order0, positions0;
    var j := 0;
    assert votes + VotesOf(parsed[..j], labelToModel) == votes;
    while j < |parsed|
      invariant 0 <= j <= |parsed|
      invariant Tally(votes + VotesOf(parsed[..j], labelToModel), order, positions)
    {
      var entry := parsed[j];
      ghost var cast := votes + VotesOf(parsed[..j], labelToModel);
      VotesStep(parsed, labelToModel, j);
      if entry in labelToModel {
        var model := labelToModel[entry];
        TallyOne(cast, order, positions, Vote(model, j + 1));
        assert votes + VotesOf(parsed[..j + 1], labelToModel) == cast + [Vote(model, j + 1)];
        var places := if model in positions then positions[model] else [];
        if model !in positions {
          order := order + [model];
        }
        positions := positions[model := places + [j + 1]];
      } else {
        assert votes + VotesOf(parsed[..j + 1], labelToModel) == cast;
      }
      j := j + 1;
    }
    assert parsed[..j] == parsed;
  }

  /** The outer loop of `calculate_aggregate_rankings`: every record's text parsed again and
      its votes tallied, record after record. */
  method TallyRecords(records: seq<Ranking>, labelToModel: map<string, string>)
    returns (order: seq<string>, positions: map<string, seq<nat>>)
    ensures Tally(AllVotes(records, labelToModel), order, positions)
  {
    positions := map[];
    order := [];
    var i := 0;
    while i < |records|
      invariant 0 <= i <= |records|
      invariant Tally(AllVotes(records[..i], labelToModel), order, positions)
    {
      assert records[..i + 1][..i] == records[..i];
      var parsed := ParseRanking(records[i].ranking);
      ReparsedStep(records, i);
      VotesOfAllStep(Reparsed(records[..i]), parsed, labelToModel);
      order, positions := CastVotes(parsed, labelToModel, AllVotes(records[..i], labelToModel), order, positions);
      i := i + 1;
    }
    assert records[..i] == records;
  }

  /** The averaging loop of `calculate_aggregate_rankings`: a standing per key of the
      dictionary, in key order, for each key with places. */
  method AverageTally(ghost votes: seq<Vote>, order: seq<string>, positions: map<string, seq<nat>>)
    returns (aggregate: seq<Standing>)
    requires Tally(votes, order, positions)
    ensures aggregate == Standings(votes)
  {
    aggregate := [];
    var k := 0;
    while k < |order|
      invariant 0 <= k <= |order|
      invariant aggregate == StandingsOf(votes, order[..k])
    {
      var model := order[k];
      var places := positions[model];
      assert order[..k + 1][..k] == order[..k];
      if |places| > 0 {
        aggregate := aggregate + [Standing(model, Sum(places) as real / |places| as real, |places|)];
      }
      k := k + 1;
    }
    assert order[..k] == order;
  }

  /** `calculate_aggregate_rankings`: the tally, the averages, then the sort. */
  method CalculateAggregateRankings(records: seq<Ranking>, labelToModel: map<string, string>)
    returns (board: seq<Standing>)
    ensures board == Leaderboard(records, labelToModel)
  {
    var order, positions := TallyRecords(records, labelToModel);
    var aggregate := AverageTally(AllVotes(records, labelToModel), order, positions);
    board := SortByAverage(aggregate);
  }

  /** The sorted standings of some votes whose places lie between 1 and `hi`: one standing
      per model that got a vote, each with at least one place and an average between 1 and
      `hi`. */
  lemma SortedStandings(votes: seq<Vote>, hi: nat)
    requires forall v :: v in votes ==> 1 <= v.position <= hi
    ensures var board := SortByAverage(Standings(votes));
      && (forall m :: m in Order(votes) ==> exists st :: st in board && st.model == m)
      && (forall st :: st in board ==>
            && st.model in Order(votes)
            && st.rankingsCount == |Positions(votes, st.model)| >= 1
            && 1.0 <= st.averageRank <= hi as real)
  {
    var board := SortByAverage(Standings(votes));
    SortByAverageSpec(Standings(votes));
    StandingsAreVoted(votes, hi);
    forall st | st in board
      ensures st.model in Order(votes)
      ensures st.rankingsCount == |Positions(votes, st.model)| >= 1
      ensures 1.0 <= st.averageRank <= hi as real
    {
      assert st in multiset(Standings(votes));
    }
    forall m | m in Order(votes) ensures exists st :: st in board && st.model == m {
      var k :| 0 <= k < |Order(votes)| && Order(votes)[k] == m;
      assert Standings(votes)[k] in multiset(board);
    }
  }

  /** The leaderboard is ordered best average first, holds the unsorted standings and no
      others, and keeps the first-vote order among equal averages. */
  lemma LeaderboardOrdered(records: seq<Ranking>, labelToModel: map<string, string>)
    ensures var board, votes := Leaderboard(records, labelToModel), AllVotes(records, labelToModel);
      && SortedByAverage(board)
      && multiset(board) == multiset(Standings(votes))
      && (forall avg :: WithAverage(board, avg) == WithAverage(Standings(votes), avg))
  {
    SortByAverageSpec(Standings(AllVotes(records, labelToModel)));
  }

  /** The leaderboard holds a standing for each model that got a vote from some parsed
      ranking and for no other; each has at least one place, and its average lies between 1
      and the length of the longest parsed ranking. */
  lemma LeaderboardStandings(records: seq<Ranking>, labelToModel: map<string, string>)
    ensures var board, votes := Leaderboard(records, labelToModel), AllVotes(records, labelToModel);
      && (forall m :: m in Order(votes) ==> exists st :: st in board && st.model == m)
      && (forall st :: st in board ==>
            && st.model in Order(votes)
            && st.rankingsCount == |Positions(votes, st.model)| >= 1
            && 1.0 <= st.averageRank <= LongestRanking(Reparsed(records)) as real)
  {
    VotesOfAllPlaces(Reparsed(records), labelToModel);
    SortedStandings(AllVotes(records, labelToModel), LongestRanking(Reparsed(records)));
  }

  // ---- Counting the places -------------------------------------------------------------

  /** The indices of a ranking's labels that the map knows. */
  function KnownOf(labels: seq<string>, labelToModel: map<string, string>): set<int>
  {
    set k | 0 <= k < |labels| && labels[k] in labelToModel
  }

  /** The indices of a ranking's labels that the map takes to `model`. */
  function MentionsOf(labels: seq<string>, labelToModel: map<string, string>, model: string): set<int>
  {
    set k | 0 <= k < |labels| && labels[k] in labelToModel && labelToModel[labels[k]] == model
  }

  /** Adding an index above every index of a set adds one to its size. */
  lemma AddAbove(s: set<int>, n: int)
    requires forall k :: k in s ==> k < n
    ensures |s + {n}| == |s| + 1
  {
    assert n !in s;
  }

  /** The last label adds its index to the known ones when the map knows it. */
  lemma KnownStep(labels: seq<string>, labelToModel: map<string, string>)
    requires labels != []
    ensures |KnownOf(labels, labelToModel)|
      == |KnownOf(labels[..|labels| - 1], labelToModel)| + (if labels[|labels| - 1] in labelToModel then 1 else 0)
  {
    var n := |labels|;
    var front := labels[..n - 1];
    var earlier := KnownOf(front, labelToModel);
    var extra: set<int> := if labels[n - 1] in labelToModel then {n - 1} else {};
    forall k ensures k in KnownOf(labels, labelToModel) <==> k in earlier + extra {
      if 0 <= k < n - 1 {
        assert front[k] == labels[k];
      }
    }
    assert KnownOf(labels, labelToModel) == earlier + extra;
    if labels[n - 1] in labelToModel {
      AddAbove(earlier, n - 1);
    }
  }

  /** The last label adds its index to those of `model` when the map takes it there. */
  lemma MentionsStep(labels: seq<string>, labelToModel: map<string, string>, model: string)
    requires labels != []
    ensures var last := labels[|labels| - 1];
      |MentionsOf(labels, labelToModel, model)|
      == |MentionsOf(labels[..|labels| - 1], labelToModel, model)|
         + (if last in labelToModel && labelToModel[last] == model then 1 else 0)
  {
    var n := |labels|;
    var front, last := labels[..n - 1], labels[n - 1];
    var earlier := MentionsOf(front, labelToModel, model);
    var extra: set<int> := if last in labelToModel && labelToModel[last] == model then {n - 1} else {};
    forall k ensures k in MentionsOf(labels, labelToModel, model) <==> k in earlier + extra {
      if 0 <= k < n - 1 {
        assert front[k] == labels[k];
      }
    }
    assert MentionsOf(labels, labelToModel, model) == earlier + extra;
    if last in labelToModel && labelToModel[last] == model {
      AddAbove(earlier, n - 1);
    }
  }

  /** A ranking casts one vote per label the map knows. */
  lemma {:induction false} VotesOfCount(labels: seq<string>, labelToModel: map<string, string>)
    ensures |VotesOf(labels, labelToModel)| == |KnownOf(labels, labelToModel)|
  {
    if labels == [] {
      assert KnownOf(labels, labelToModel) == {};
    } else {
      VotesOfCount(labels[..|labels| - 1], labelToModel);
      KnownStep(labels, labelToModel);
    }
  }

  /** The places of a model among two runs of votes are its places in the first, then those
      in the second. */
  lemma {:induction false} PositionsAppend(a: seq<Vote>, b: seq<Vote>, model: string)
    ensures Positions(a + b, model) == Positions(a, model) + Positions(b, model)
  {
    if b == [] {
      assert a + b == a;
    } else {
      var n := |b|;
      PositionsAppend(a, b[..n - 1], model);
      assert (a + b)[..|a + b| - 1] == a + b[..n - 1];
    }
  }

  /** A ranking gives a model one place per label the map takes to that model. */
  lemma {:induction false} VotesOfMentions(labels: seq<string>, labelToModel: map<string, string>, model: string)
    ensures |Positions(VotesOf(labels, labelToModel), model)| == |MentionsOf(labels, labelToModel, model)|
  {
    if labels == [] {
      assert MentionsOf(labels, labelToModel, model) == {};
    } else {
      var n := |labels|;
      VotesOfMentions(labels[..n - 1], labelToModel, model);
      MentionsStep(labels, labelToModel, model);
      var mine := if labels[n - 1] in labelToModel then [Vote(labelToModel[labels[n - 1]], n)] else [];
      PositionsAppend(VotesOf(labels[..n - 1], labelToModel), mine, model);
      assert mine == [] || mine[..0] == [];
    }
  }

  /** The number of labels, over all the rankings, that the map takes to `model`. */
  function MentionCount(rankings: seq<seq<string>>, labelToModel: map<string, string>, model: string): nat
  {
    if rankings == [] then 0
    else
      var n := |rankings|;
      MentionCount(rankings[..n - 1], labelToModel, model) + |MentionsOf(rankings[n - 1], labelToModel, model)|
  }

  /** The number of labels, over all the rankings, that the map knows. */
  function KnownCount(rankings: seq<seq<string>>, labelToModel: map<string, string>): nat
  {
    if rankings == [] then 0
    else
      var n := |rankings|;
      KnownCount(rankings[..n - 1], labelToModel) + |KnownOf(rankings[n - 1], labelToModel)|
  }

  /** All the rankings cast one vote per label the map knows. */
  lemma {:induction false} VotesOfAllCount(rankings: seq<seq<string>>, labelToModel: map<string, string>)
    ensures |VotesOfAll(rankings, labelToModel)| == KnownCount(rankings, labelToModel)
  {
    if rankings != [] {
      var n := |rankings|;
      VotesOfAllCount(rankings[..n - 1], labelToModel);
      VotesOfCount(rankings[n - 1], labelToModel);
    }
  }

  /** All the rankings give a model one place per label the map takes to it. */
  lemma {:induction false} VotesOfAllMentions(rankings: seq<seq<string>>, labelToModel: map<string, string>, model: string)
    ensures |Positions(VotesOfAll(rankings, labelToModel), model)| == MentionCount(rankings, labelToModel, model)
  {
    if rankings != [] {
      var n := |rankings|;
      VotesOfAllMentions(rankings[..n - 1], labelToModel, model);
      VotesOfMentions(rankings[n - 1], labelToModel, model);
      PositionsAppend(VotesOfAll(rankings[..n - 1], labelToModel), VotesOf(rankings[n - 1], labelToModel), model);
    }
  }

  /** The number of places the standings hold between them. */
  function TotalCount(standings: seq<Standing>): nat
  {
    if standings == [] then 0 else standings[0].rankingsCount + TotalCount(standings[1..])
  }

  lemma {:induction false} TotalCountAppend(a: seq<Standing>, b: seq<Standing>)
    ensures TotalCount(a + b) == TotalCount(a) + TotalCount(b)
  {
    if a == [] {
      assert a + b == b;
    } else {
      TotalCountAppend(a[1..], b);
      assert (a + b)[1..] == a[1..] + b;
    }
  }

  /** Inserting a standing adds its places to the total. */
  lemma {:induction false} InsertCount(x: Standing, sorted: seq<Standing>)
    ensures TotalCount(Insert(x, sorted)) == x.rankingsCount + TotalCount(sorted)
  {
    if sorted != [] && x.averageRank > sorted[0].averageRank {
      InsertCount(x, sorted[1..]);
      var r := Insert(x, sorted);
      assert r[0] == sorted[0] && r[1..] == Insert(x, sorted[1..]);
    } else {
      assert ([x] + sorted)[1..] == sorted;
    }
  }

  /** Sorting keeps the total number of places. */
  lemma {:induction false} SortCount(standings: seq<Standing>)
    ensures TotalCount(SortByAverage(standings)) == TotalCount(standings)
  {
    if standings != [] {
      SortCount(standings[1..]);
      InsertCount(standings[0], SortByAverage(standings[1..]));
    }
  }

  /** The number of places the given models were given, model after model. */
  function PlacesCount(votes: seq<Vote>, models: seq<string>): nat
  {
    if models == [] then 0
    else
      var n := |models|;
      PlacesCount(votes, models[..n - 1]) + |Positions(votes, models[n - 1])|
  }

  /** The standings of some models hold exactly the places those models were given. */
  lemma {:induction false} StandingsOfCount(votes: seq<Vote>, models: seq<string>)
    ensures TotalCount(StandingsOf(votes, models)) == PlacesCount(votes, models)
  {
    if models != [] {
      var n := |models|;
      var places := Positions(votes, models[n - 1]);
      var mine := if |places| > 0 then [Standing(models[n - 1], Average(places), |places|)] else [];
      StandingsOfCount(votes, models[..n - 1]);
      TotalCountAppend(StandingsOf(votes, models[..n - 1]), mine);
      assert mine == [] || mine[1..] == [];
    }
  }

  predicate Distinct(models: seq<string>)
  {
    forall i, j :: 0 <= i < j < |models| ==> models[i] != models[j]
  }

  /** One more vote adds one place to distinct models when its model is among them. */
  lemma {:induction false} PlacesCountCast(votes: seq<Vote>, v: Vote, models: seq<string>)
    requires Distinct(models)
    ensures PlacesCount(votes + [v], models) == PlacesCount(votes, models) + (if v.model in models then 1 else 0)
  {
    if models != [] {
      var n := |models|;
      var front := models[..n - 1];
      forall i, j | 0 <= i < j < |front| ensures front[i] != front[j] {
        assert front[i] == models[i] && front[j] == models[j];
      }
      PlacesCountCast(votes, v, front);
      CastOne(votes, v);
      assert v.model in models <==> v.model in front || v.model == models[n - 1];
      if v.model == models[n - 1] {
        forall i | 0 <= i < n - 1 ensures front[i] != v.model {
          assert front[i] == models[i];
        }
      }
    }
  }

  /** The models that got a vote were given one place per vote between them. */
  lemma {:induction false} AllPlacesCounted(votes: seq<Vote>)
    ensures PlacesCount(votes, Order(votes)) == |votes|
  {
    if votes != [] {
      var n := |votes|;
      var front, v := votes[..n - 1], votes[n - 1];
      assert votes == front + [v];
      AllPlacesCounted(front);
      OrderDistinct(front);
      CastOne(front, v);
      PlacesCountCast(front, v, Order(front));
      if v.model !in Order(front) {
        var order := Order(front) + [v.model];
        assert order[..|order| - 1] == Order(front);
        PositionsOfUnvoted(front, v.model);
      }
    }
  }

  /** Each standing of the leaderboard counts the labels, over all parsed rankings, that the
      map takes to its model; a model has a standing exactly when at least one label is taken
      to it; and the counts add up to the number of labels the map knows. */
  lemma LeaderboardCounts(records: seq<Ranking>, labelToModel: map<string, string>)
    ensures var board, rankings := Leaderboard(records, labelToModel), Reparsed(records);
      && (forall st :: st in board ==> st.rankingsCount == MentionCount(rankings, labelToModel, st.model))
      && (forall m :: (exists st :: st in board && st.model == m) <==> MentionCount(rankings, labelToModel, m) > 0)
      && TotalCount(board) == KnownCount(rankings, labelToModel)
  {
    var votes := AllVotes(records, labelToModel);
    LeaderboardStandings(records, labelToModel);
    forall m ensures |Positions(votes, m)| == MentionCount(Reparsed(records), labelToModel, m) {
      VotesOfAllMentions(Reparsed(records), labelToModel, m);
    }
    forall m ensures m in Order(votes) <==> |Positions(votes, m)| > 0 {
      if m in Order(votes) {
        PositionsOfVoted(votes, m);
      } else {
        PositionsOfUnvoted(votes, m);
      }
    }
    SortCount(Standings(votes));
    StandingsOfCount(votes, Order(votes));
    AllPlacesCounted(votes);
    VotesOfAllCount(Reparsed(records), labelToModel);
  }
}
