# Council of Sheldons — a Dafny model of the council pipeline

The repository runs a "council" of language models on a user's question, in three stages.
`backend/council.py` is the part this project models.

- **Stage 1.** Every council model answers in the character of its Sheldon persona.
- **Stage 2.** Every council model ranks all the answers. The answers are anonymised as `Response A`, `Response B`, … on one shared ballot. Each ranking's text is parsed for its `FINAL RANKING:` list.
- **Aggregation.** The rankings are combined into a leaderboard of average places.
- **Stage 3.** A chairman model writes the final answer from everything before it.

A separate call produces a short conversation title.

The model gateway is external. Its replies are parameters of the model:

- Stages 1 and 2 take one `Option<string>` per council slot, in slot order. `None` means the call failed.
- The chairman and the title call take one optional reply each.

Every stage method returns the requests it would have sent. "Refused before any model is queried" is therefore stated as `sent == []`.

Modules, in dependency order:

| file | module | what it holds |
|---|---|---|
| `wrappers.dfy` | `Wrappers` | `Option` and `Result` |
| `text.dfy` | `Text` | Python's `in`/`find`, `sep.join`, `str.strip` and `isspace` over `seq<char>` |
| `ranking_parser.dfy` | `RankingParser` | `parse_ranking_from_text`. It includes a hand-written scanner for the two regular expressions, with the leftmost, non-overlapping search of `re.findall`. |
| `parser_properties.dfy` | `ParserProperties` | What the parser returns for well-formed rankings, for label-free text and for single-label text |
| `council.dfy` | `Council` | The configuration, `get_sheldon_context_for_model`, and the records, messages and requests passed between stages |
| `stage1.dfy` | `Stage1` | The configuration check, the per-slot conversation and the result loop |
| `stage2.dfy` | `Stage2` | Labels, `label_to_model`, the ballot, the ranking placeholder and the result loop |
| `aggregate.dfy` | `Aggregate` | `calculate_aggregate_rankings`, as loops over a dictionary of places, proved against a functional specification |
| `stage3.dfy` | `Stage3` | The chairman's two listings, the request and the fallback answer |
| `title.dfy` | `Title` | Title cleanup: strip, strip quotes, truncate to 50 |
| `pipeline.dfy` | `Pipeline` | `run_full_council` and its short-circuit on an empty Stage 1 |

Points where the code behaves other than one might expect, and the model follows the code:

- The records carry no `succeeded` flag. The code keeps none; a failed slot is recognisable only by its placeholder text.
- A reply with empty content is a success with an empty answer, not a failure.
- An absent persona name appears as `None` in the f-strings (`ShowName`).
- After the sentinel is found, the source tests `len(parts) >= 2`. That test always holds, so its fall-through to the whole-text search is unreachable. `ParseRanking` has no such branch, and `ParseWithSentinel` states the behaviour that remains.

Behaviours of the code that the proofs bring out:

- **A placeholder can vote.** A ranking placeholder is re-parsed by the aggregator like any other text (`Stage2.ReparseAgrees`). When the persona's name is exactly one label, the placeholder casts a vote for that label: a persona named `Response A` gets a vote for the answer labelled `Response A` (`Stage2.NoRankingNamingLabel`). A longer name that contains a label may or may not cast a vote. When the name holds the `FINAL RANKING:` sentinel, the parser reads only the text between its first occurrence and the next. A label before the first sentinel is then never found, while one right after it can be: the name `FINAL RANKING: Response A` casts a vote for `Response A` (`Stage2.NoRankingAfterSentinel`).
- **Only 26 answers can be ranked.** Labels past `Z` are `Response [`, `Response \`, … and the parser's `[A-Z]` never returns them (`Stage2.LabelParsable`). So only the first 26 council models can appear on the leaderboard (`Pipeline.LeaderboardOfCouncil`).

## Model

| member | source | states |
|---|---|---|
| `Council.SheldonContext` | backend/council.py:19-25 | No name exactly past the end of the names list; otherwise the name at that index. A name with a configured context gets exactly that context; an absent name, or one without a configured context, gets the empty context. |
| `Council.ShowName` | backend/council.py:55 | An f-string shows a present name as itself and an absent one as `None`. |
| `Council.FailedParty` | backend/council.py:86 | `sheldon_name or model` is the model, or a non-empty name that was given. A non-empty name always wins. |
| `Council.MatchedSlotsAreNamed` | backend/council.py:19-22 | In a configuration whose lists match, every slot's persona has that slot's name. |
| `Council.ContextHasName` | backend/council.py:52-55 | A persona with context text has a name, so a system message never shows `None`. |
| `Stage1.NoAnswer` | backend/council.py:86 | The Stage-1 placeholder text for a failed call, naming the party; `Stage1.AnswerFor` and `Stage1.FailedSlotNamesSheldon` state where it is used. |
| `Stage1.QueryFor` | backend/council.py:46-60 | The request of one slot: its model and its persona's conversation; `Stage1.QueryMessages` states the conversation and `Stage1.CollectResponses` that exactly these requests are sent. |
| `Stage1.PersonaMessage` | backend/council.py:53-56 | The persona message is a system message with text. |
| `Stage1.QueryMessages` | backend/council.py:51-57 | One or two messages; the last is the user's question. There are two exactly when the persona has context, and then the first is the persona's system message. |
| `Stage1.BuildMessages` | backend/council.py:51-57 | The appends build exactly the conversation `QueryMessages` describes. |
| `Stage1.AnswerFor` | backend/council.py:74-87 | A slot's record is its model and persona name, with the reply's content (even an empty one) or the placeholder naming `sheldon_name or model`. |
| `Stage1.Answers` | backend/council.py:72-89 | One record per council model, in slot order, failed calls included. |
| `Stage1.CollectResponses` | backend/council.py:39-89 | Fails exactly on a length mismatch, with both lengths and no request sent. Otherwise the records are `Answers` and one request per slot is sent with that slot's conversation. |
| `Stage1.NoAnswersOnlyForEmptyCouncil` | backend/council.py:72-89 | Stage 1 returns no records exactly when the council is empty. |
| `Stage1.FailedSlotNamesSheldon` | backend/council.py:86 | In a matching configuration, a failed slot's placeholder names its Sheldon, or the model when that name is empty. |
| `Stage2.Letter` | backend/council.py:107 | The `i`-th letter is `chr(65 + i)`. |
| `Stage2.LabelName` | backend/council.py:111 | A label is `Response ` followed by the letter. |
| `Stage2.LabelsDiffer` | backend/council.py:107-113 | Different answers get different labels, so no answer's entry in the map is overwritten. |
| `Stage2.LabelParsable` | backend/council.py:107 | A label has the parser's `Response [A-Z]` shape exactly for the first 26 answers. |
| `Stage2.LabelToModel` | backend/council.py:110-113 | Each answer's label maps to that answer's model, and every key is some answer's label. |
| `Stage2.BallotPart` | backend/council.py:116-122 | One answer's ballot entry: its label, the Sheldon it came from, and the answer; `Stage2.BallotPartBeginsWithLabel` states that it begins with the label. |
| `Stage2.Ballot` | backend/council.py:116-123 | The entries joined by blank lines; `Stage2.BallotEntryAt` and `Stage2.BallotSeparated` state where each entry stands and what separates them. |
| `Stage2.BallotParts` | backend/council.py:116-122 | One ballot entry per answer. |
| `Stage2.BallotPartsAt` | backend/council.py:116-122 | The `i`-th entry is the entry of the `i`-th answer. |
| `Stage2.BuildBallot` | backend/council.py:116-123 | The append loop and the join give `Ballot`. |
| `Stage2.BallotPartBeginsWithLabel` | backend/council.py:121 | Every ballot entry begins with its answer's label. |
| `Stage2.BallotEntryAt` | backend/council.py:123 | Every answer's entry stands in the ballot at its offset, in order. |
| `Stage2.BallotSeparated` | backend/council.py:123 | Consecutive entries are separated by exactly one blank line. |
| `Stage2.NoRanking` | backend/council.py:197 | The Stage-2 placeholder for a failed call, naming the party; `Stage2.NoRankingWithoutR` and `Stage2.NoRankingNamingLabel` state what it parses to. |
| `Stage2.RankingQuery` | backend/council.py:126-168 | The request of one slot: its model, asked in its persona's name and context to rank the ballot; `Stage2.CollectRankings` states that exactly these requests are sent. |
| `Stage2.TailHasNoROrColon` | backend/council.py:197 | The fixed text after the party's name in the ranking placeholder holds no `R` and no colon. |
| `Stage2.NoRankingWithoutR` | backend/council.py:197 | The placeholder of a party whose name has no `R` parses as the empty ranking. |
| `Stage2.NoRankingNamingLabel` | backend/council.py:197 | The placeholder of a party whose name is exactly one label parses as a one-vote ranking for that label. |
| `Stage2.NoRankingAfterSentinel` | backend/council.py:197 | The placeholder of a party named by the sentinel, a space and a label parses as a one-vote ranking for that label, since the section after the sentinel runs through the name's label. |
| `Stage2.ReparseAgrees` | backend/council.py:184-198 | Re-parsing a record's text gives its stored parsed labels: always for a reply, and for a placeholder whose party has no `R`. |
| `Stage2.RankingFor` | backend/council.py:182-199 | A slot's record has its model and persona name, and either the reply with its parse or the placeholder with no labels. |
| `Stage2.Rankings` | backend/council.py:179-201 | One ranking record per council model, in slot order. |
| `Stage2.RankingRecords` | backend/council.py:179-199 | The result loop builds exactly `Rankings`. |
| `Stage2.CollectRankings` | backend/council.py:172-201 | Returns the label map of the answers and the records. One request per slot is sent, each with that slot's persona and the same ballot. |
| `RankingParser.LabelOf` | backend/council.py:288 | The ten-character label of a letter has the label shape exactly when the letter is `A`–`Z`. |
| `RankingParser.DigitsEnd` | backend/council.py:282 | The run of `\d+` ends within the text, at a non-digit or at the end. |
| `RankingParser.SpacesEnd` | backend/council.py:282 | The run of `\s*` ends within the text, at a non-space or at the end. |
| `RankingParser.DigitsRun` | backend/council.py:282 | Everything in the digit run is a digit. |
| `RankingParser.SpacesRun` | backend/council.py:282 | Everything in the whitespace run is whitespace. |
| `RankingParser.DigitsEndOfRun` | backend/council.py:282 | A digit run that stops at a non-digit is the one found. |
| `RankingParser.SpacesEndOfRun` | backend/council.py:282 | A whitespace run that stops at other text is the one found. |
| `RankingParser.MatchEnd` | backend/council.py:282 | Every match ends within the text, on a label. |
| `RankingParser.NumberedMatchIsShape` | backend/council.py:282 | The numbered pattern matches exactly where the text has the shape digits, period, whitespace, label. Greedy and backtracking matching agree. |
| `RankingParser.NumberedMatchAt` | backend/council.py:282 | A digit run ending at a period, then a whitespace run ending at a label, is a numbered match up to the label's end. |
| `RankingParser.ScanFrom` | backend/council.py:282 | The scanner returns matches only. They are in order and do not overlap. |
| `RankingParser.ScanComplete` | backend/council.py:282 | Every matching index is returned or swallowed by an earlier match. |
| `RankingParser.Scan` | backend/council.py:282 | The spans lie in the text, in order, without overlap. |
| `RankingParser.ScanSound` | backend/council.py:282 | Every returned span is a match of the pattern. |
| `RankingParser.ScanCovers` | backend/council.py:282 | Every match of the pattern lies inside a returned span, so the search is leftmost and non-overlapping, as `re.findall` is. |
| `RankingParser.NumberedSearchFindsTrailingLabel` | backend/council.py:285 | Inside a numbered match, the first `Response [A-Z]` is its trailing label. |
| `RankingParser.FindAll` | backend/council.py:282-289 | One string per scanned match. |
| `RankingParser.FindAllLabels` | backend/council.py:282-289 | Both searches return labels only. |
| `RankingParser.SentinelSection` | backend/council.py:277-279 | The section lies after a whole sentinel and within the text. |
| `RankingParser.SectionExists` | backend/council.py:275 | There is a section exactly when the sentinel occurs. |
| `RankingParser.SectionBounds` | backend/council.py:277-279 | The section begins after the first sentinel and ends at the second one or at the end of the text, as `split(...)[1]` does. |
| `RankingParser.ParseWithoutSentinel` | backend/council.py:291-293 | Without the sentinel, the parser returns all bare labels of the text. |
| `RankingParser.ParseWithSentinel` | backend/council.py:275-289 | With the sentinel, it returns the numbered entries of the section if there are any, else the section's bare labels. |
| `RankingParser.ParseRanking` | backend/council.py:262-293 | `parse_ranking_from_text`: the numbered labels of the sentinel's section, else its bare labels, else the bare labels of the whole text; `RankingParser.ParseWithSentinel`, `RankingParser.ParseWithoutSentinel` and `RankingParser.ParsedAreLabels` state its cases and results, and `ParserProperties.ParseFormatted` its round trip. |
| `RankingParser.ParsedAreLabels` | backend/council.py:262-293 | Everything parsed is a label `Response ` followed by `A`–`Z`. |
| `ParserProperties.EntryLabels` | backend/council.py:285 | One label per entry. |
| `ParserProperties.ScanLines` | backend/council.py:282-285 | Scanning entry lines keeps each entry's label, in order. |
| `ParserProperties.FormattedSection` | backend/council.py:277-279 | In a ranking written in the requested format, the section is exactly its entry lines. |
| `ParserProperties.NumberedLines` | backend/council.py:282-285 | The numbered search over entry lines returns their labels. |
| `ParserProperties.ParseFormattedLines` | backend/council.py:275-289 | A formatted ranking is parsed from its entry lines alone. |
| `ParserProperties.NoEntriesNoLabels` | backend/council.py:287-289 | With no numbered match in the lines, the fallback also gives the entries' labels. That can only happen when there are no entries. |
| `ParserProperties.ParseFormatted` | backend/council.py:262-293 | A ranking written in the requested format, entry lines after the sentinel followed by any whitespace and then the end of the text or a second sentinel, parses back to its labels, in order, with duplicates and unused letters kept. |
| `ParserProperties.NoLabelsFindNothing` | backend/council.py:288 | Both searches find nothing where no label begins. |
| `ParserProperties.ParseNoLabels` | backend/council.py:262-293 | Text in which no label begins parses as the empty ranking, whatever its sentinels. |
| `ParserProperties.ParseWithoutR` | backend/council.py:262-293 | Text without an `R` parses as the empty ranking. |
| `ParserProperties.FindSingleLabel` | backend/council.py:292 | Text whose only `R` begins a label yields just that label. |
| `ParserProperties.ParseSingleLabel` | backend/council.py:262-293 | One label, between texts with no `R`, and with no sentinel possible, parses as that label. |
| `ParserProperties.NoSentinelWithoutR` | backend/council.py:275 | Text without an `R` holds no sentinel. |
| `ParserProperties.SectionToEnd` | backend/council.py:275-279 | After a first sentinel preceded by text without an `R`, colon-free text is the section and runs to the end. |
| `ParserProperties.ParseLabelAfterSentinel` | backend/council.py:262-293 | One label after the only sentinel, with no `R`, colon or digit elsewhere in the section, is parsed as that one label, whatever text without an `R` precedes the sentinel. |
| `ParserProperties.ParseTwoLines` | backend/council.py:275-285 | The sentinel then `1. Response x` and `2. Response y` parse as `[x, y]`, even when the letters are equal. |
| `Aggregate.VotesOf` | backend/council.py:321-324 | A ranking casts no more votes than it has labels. |
| `Aggregate.VotesOfCast` | backend/council.py:321-324 | A vote for `m` at place `p` is cast exactly when the label at 1-based place `p` maps to `m`. |
| `Aggregate.VotesOfPlaces` | backend/council.py:321 | Places run from 1 to the length of the ranking. |
| `Aggregate.Reparsed` | backend/council.py:315-319 | One parsed ranking per record. |
| `Aggregate.ReparsedAt` | backend/council.py:316-319 | Each record's text is parsed again, not its stored labels. |
| `Aggregate.ReparsedStep` | backend/council.py:315-319 | One more record adds one parse after the others. |
| `Aggregate.VotesOfAllStep` | backend/council.py:315-324 | One more ranking adds its votes after those of the others. |
| `Aggregate.VotesOfAllCast` | backend/council.py:315-324 | A vote is cast exactly when some ranking casts it. |
| `Aggregate.LongestRanking` | backend/council.py:321 | No parsed ranking is longer than the longest, and some ranking reaches it; it is 0 when there are no rankings. |
| `Aggregate.VotesOfAllPlaces` | backend/council.py:315-324 | Every place lies between 1 and the length of the longest parsed ranking. |
| `Aggregate.OrderVoted` | backend/council.py:313-328 | The dictionary's keys are exactly the models that got a vote. |
| `Aggregate.OrderDistinct` | backend/council.py:313-328 | Each key occurs once. |
| `Aggregate.Positions` | backend/council.py:324 | A model has no more places than there are votes. |
| `Aggregate.PositionsOfVoted` | backend/council.py:324-329 | A key always has at least one place, so `if positions` always holds. |
| `Aggregate.PositionsOfUnvoted` | backend/council.py:313 | A model without a vote has no places. |
| `Aggregate.PositionsCast` | backend/council.py:324 | Every place of a model comes from a vote for it. |
| `Aggregate.SumBounds` | backend/council.py:330 | The places' sum lies between their count and count × `hi`. |
| `Aggregate.AverageBounds` | backend/council.py:330 | The average of places from 1 to `hi` lies between 1 and `hi`. |
| `Aggregate.QuotientBounds` | backend/council.py:330 | Real division bounds used for the average. |
| `Aggregate.StandingsOfVoted` | backend/council.py:327-335 | A standing for each given key, in key order, with its count and its exact average. |
| `Aggregate.StandingsAreVoted` | backend/council.py:327-335 | The unsorted list holds one standing per voted model, in first-vote order, with count ≥ 1 and an average within the places' bounds. |
| `Aggregate.AverageOfVoted` | backend/council.py:329-330 | A voted model's average lies between 1 and the highest place. |
| `Aggregate.Order` | backend/council.py:313-328 | The dictionary's key order; `Aggregate.OrderVoted` and `Aggregate.OrderDistinct` state that it holds each voted model once. |
| `Aggregate.Average` | backend/council.py:330 | The exact mean of a model's places; `Aggregate.AverageBounds` bounds it. |
| `Aggregate.StandingsOf` | backend/council.py:327-335 | The standings of the given keys, for those with places; `Aggregate.StandingsOfVoted` states them key by key. |
| `Aggregate.Standings` | backend/council.py:327-335 | The unsorted `aggregate` list; `Aggregate.StandingsAreVoted` states its contents. |
| `Aggregate.Insert` | backend/council.py:338 | Inserting adds exactly one standing. |
| `Aggregate.SortByAverage` | backend/council.py:338 | The sort keeps the length. |
| `Aggregate.InsertAbove` | backend/council.py:338 | Insertion keeps a lower bound on the averages. |
| `Aggregate.InsertSorted` | backend/council.py:338 | Insertion keeps a list sorted. |
| `Aggregate.InsertPermutes` | backend/council.py:338 | Insertion adds the standing and nothing else. |
| `Aggregate.InsertStable` | backend/council.py:338 | An inserted standing goes before those with the same average that are already there. |
| `Aggregate.SortSorted` | backend/council.py:338 | The sort is ascending by average. |
| `Aggregate.SortPermutes` | backend/council.py:338 | The sort is a permutation. |
| `Aggregate.SortStable` | backend/council.py:338 | For every average, the standings with that average keep their order. |
| `Aggregate.SortByAverageSpec` | backend/council.py:338 | The sort is ascending by average and is a permutation. It is stable: for every average, the standings with that average keep their order. |
| `Aggregate.CastOne` | backend/council.py:322-324 | One more vote adds a new model to the key order and appends the place to that model's places. |
| `Aggregate.TallyOne` | backend/council.py:322-324 | `model_positions[model].append(position)` keeps the dictionary equal to the tally of the votes so far. |
| `Aggregate.VotesStep` | backend/council.py:321-324 | One more label adds its vote when the map knows it, and nothing otherwise. |
| `Aggregate.CastVotes` | backend/council.py:321-324 | The inner loop leaves the dictionary as the tally of the earlier votes plus this ranking's votes. |
| `Aggregate.TallyRecords` | backend/council.py:315-324 | The outer loop leaves the dictionary as the tally of every record's re-parsed votes. |
| `Aggregate.AverageTally` | backend/council.py:327-335 | The averaging loop gives the standings of the votes, in key order. |
| `Aggregate.CalculateAggregateRankings` | backend/council.py:296-340 | The method returns the sorted standings of the votes of the re-parsed ranking texts. |
| `Aggregate.SortedStandings` | backend/council.py:327-338 | After sorting, there is a standing for each voted model, and every standing is voted, with count ≥ 1 and average between 1 and `hi`. |
| `Aggregate.LeaderboardOrdered` | backend/council.py:337-338 | The leaderboard is ascending by average, a permutation of the unsorted standings, and keeps first-vote order among equal averages. |
| `Aggregate.LeaderboardStandings` | backend/council.py:296-340 | There is a standing exactly for each model voted for in some re-parsed ranking. Each has count ≥ 1 and an average between 1 and the longest parsed ranking. |
| `Aggregate.Leaderboard` | backend/council.py:296-340 | The returned list: the sorted standings of the votes of the re-parsed rankings; `Aggregate.LeaderboardOrdered`, `Aggregate.LeaderboardStandings` and `Aggregate.LeaderboardCounts` state its properties. |
| `Aggregate.AddAbove` | backend/council.py:321-324 | A new index above a set of indices adds one to its size. |
| `Aggregate.KnownStep` | backend/council.py:321-323 | One more label adds one known index exactly when the map knows it. |
| `Aggregate.MentionsStep` | backend/council.py:321-323 | One more label adds one index of a model exactly when the map takes it to that model. |
| `Aggregate.VotesOfCount` | backend/council.py:321-324 | A ranking casts as many votes as it has labels the map knows. |
| `Aggregate.PositionsAppend` | backend/council.py:324 | A model's places over two runs of votes are those of the first, then those of the second. |
| `Aggregate.VotesOfMentions` | backend/council.py:321-324 | A ranking gives a model as many places as it has labels the map takes to that model. |
| `Aggregate.VotesOfAllCount` | backend/council.py:315-324 | All rankings together cast one vote per known label occurrence. |
| `Aggregate.VotesOfAllMentions` | backend/council.py:315-324 | All rankings together give a model one place per occurrence of a label mapped to it. |
| `Aggregate.TotalCountAppend` | backend/council.py:333 | The total count of two lists of standings is the sum of their totals. |
| `Aggregate.InsertCount` | backend/council.py:338 | Insertion adds the inserted standing's count to the total. |
| `Aggregate.SortCount` | backend/council.py:338 | Sorting keeps the total count. |
| `Aggregate.StandingsOfCount` | backend/council.py:327-335 | The standings of some keys hold exactly the places of those keys. |
| `Aggregate.PlacesCountCast` | backend/council.py:322-324 | One more vote adds one place over distinct keys exactly when its model is among them. |
| `Aggregate.AllPlacesCounted` | backend/council.py:313-324 | The keys' places number exactly the votes. |
| `Aggregate.LeaderboardCounts` | backend/council.py:296-340 | Every standing's `rankings_count` is the number of label occurrences, over all re-parsed rankings, that the map takes to its model. A model has a standing exactly when that number is positive. The counts add up to the number of label occurrences the map knows. |
| `Stage3.ResponseEntries` | backend/council.py:221-224 | One entry per answer. |
| `Stage3.RankingEntries` | backend/council.py:226-229 | One entry per ranking record. |
| `Stage3.ResponseEntriesAt` | backend/council.py:221-224 | The `k`-th entry shows the `k`-th answer. |
| `Stage3.RankingEntriesAt` | backend/council.py:226-229 | The `k`-th entry shows the `k`-th ranking text. |
| `Stage3.ResponsesText` | backend/council.py:221-224 | `stage1_text`: the answers' entries joined by blank lines; `Stage3.ResponsesListed` states where each entry stands. |
| `Stage3.RankingsText` | backend/council.py:226-229 | `stage2_text`: the rankings' entries joined by blank lines; `Stage3.RankingsListed` states where each entry stands. |
| `Stage3.ChairmanRequest` | backend/council.py:231-247 | One user message to the chairman model holding the question, both listings and the chairman's context; `Stage3.SynthesizeFinal` states that exactly this request is sent. |
| `Stage3.ResponsesListed` | backend/council.py:221-224 | Every answer's entry stands in the chairman's Stage-1 text at its offset, in order. |
| `Stage3.RankingsListed` | backend/council.py:226-229 | Every ranking text, placeholders included, stands in the Stage-2 text at its offset, in order. |
| `Stage3.Synthesis` | backend/council.py:249-259 | The final answer is always the chairman's. It holds the reply's content, even an empty one, or the fixed fallback when the call failed. |
| `Stage3.SynthesizeFinal` | backend/council.py:204-259 | Sends exactly the chairman request and returns `Synthesis`. |
| `Title.Trimmed` | backend/council.py:369-372 | `strip()` then `strip('"\'')`; `Title.TrimmedIsPiece` states what is cut. |
| `Title.CleanTitle` | backend/council.py:365-378 | The title a reply gives; `Title.TitleShape` states its shape and `Title.GenerateTitle` that the method computes it. |
| `Title.Truncated` | backend/council.py:375-376 | At most 50 characters. A title of at most 50 is unchanged; a longer one becomes its first 47 characters and `...`. |
| `Title.GenerateTitle` | backend/council.py:343-378 | Sends the title request to the fixed title model. The step-by-step reassignments give `CleanTitle`. |
| `Title.TrimmedIsPiece` | backend/council.py:369-372 | The trimmed reply is a slice of the reply that neither begins nor ends with a quote. Only whitespace and quotes were cut from its ends. |
| `Title.TitleShape` | backend/council.py:365-378 | Every title has at most 50 characters. A failed call gives `New Conversation`, otherwise the trimmed reply or its truncation. A non-empty title never begins with a quote. |
| `Title.TruncatedIdempotent` | backend/council.py:375-376 | Truncating twice is truncating once. |
| `Text.Strip` | backend/council.py:369-372 | `strip` returns a slice whose cut ends are all stripped characters and whose own ends are not. |
| `Pipeline.AnswerRequests` | backend/council.py:64-67 | One Stage-1 request per council model. |
| `Pipeline.RankingRequests` | backend/council.py:172-175 | One Stage-2 request per council model. |
| `Pipeline.CouncilResult` | backend/council.py:381-420 | The result of `run_full_council` for given replies: the configuration error, the empty-council result, or the three stages' records with the label map and the aggregate; `Pipeline.CouncilShape` and `Pipeline.LeaderboardOfCouncil` state its shape. |
| `Pipeline.RunFullCouncil` | backend/council.py:381-420 | The result is `CouncilResult`. Nothing is sent on a configuration error or for an empty council. Otherwise every Stage-1 request, every Stage-2 request and the chairman request are sent, in that order. |
| `Pipeline.CouncilShape` | backend/council.py:392-420 | A configuration error comes exactly on a length mismatch. The empty-council error result comes exactly for an empty council. Otherwise there are metadata, a record per slot in both stages, and the chairman's answer. |
| `Pipeline.VotedModelIsEarlyAnswer` | backend/council.py:315-324 | A model that got a vote wrote one of the first 26 answers. |
| `Pipeline.LeaderboardOfEarlyAnswers` | backend/council.py:405 | Every leaderboard model wrote one of the first 26 answers. |
| `Pipeline.LeaderboardOfCouncil` | backend/council.py:402-418 | Every model in the returned aggregate ranking is one of the first 26 council models. |
| `Pipeline.EarlyAnswersAreCouncil` | backend/council.py:72-89 | The model of the `j`-th answer is the `j`-th council model. |

## Left out

- The model gateway (`query_model`, `query_models_parallel`) and `asyncio.gather` are left out. Their results are parameters in slot order; the concurrency and the order in which calls complete are not modelled.
- The per-call timeouts, including the 30-second title call, are left out: they govern only the gateway.
- `CalculateAggregateRankings`: the average is an exact `real` (`sum / count`), not a float rounded by `round(avg, 2)`. Two averages that differ only past the second decimal tie in the source but not in the model. The tie order can therefore differ.
- `Aggregate.SortByAverage`: Python's `list.sort` is a library call. It is modelled by a stable insertion sort that is proved sorted, permuting and stable, not by its own algorithm.
- The English wording of the ranking, chairman and title prompts is left out. The requests hold the values those prompts embed (`Council.Content`). The Stage-1 system message is kept word for word.
- `response.get('content', ...)`: the case of a gateway response without a `content` key is left out. The reply parameter is the content itself.
- `result.get('sheldon_name', 'Unknown')`: the default is unreachable, because every Stage-1 record has the key. It is not modelled.
- `Stage2.LabelToModel`: the model allows at most `0xD800 - 65` answers. Past that, `chr(65 + i)` reaches the surrogate code points, which a Dafny `char` cannot hold.
- `RankingParser.IsDigit`: `\d` is taken as the ASCII digits only, not Python's Unicode decimal digits. `\s` is taken as the characters of `str.isspace()`.
- `ParserProperties.ParseFormatted`: the round trip is proved for the layout `\n<digits>. Response <letter>`, one entry per line, followed by any whitespace and then the end of the text or a second sentinel. Other layouts the regular expressions accept are covered by `RankingParser.NumberedMatchIsShape`, not by a round-trip lemma, and text other than whitespace after the entry lines is not covered.
- `ParserProperties.ParseTwoLines`: it states the prompt's two-line example generically, for any two letters.
- `Stage2.NoRankingNamingLabel`: it is stated for a party whose name is exactly one label. Whether a longer name that contains a label casts a vote depends on where the label stands relative to a sentinel in the name. Only the name made of the sentinel, a space and a label is stated (`Stage2.NoRankingAfterSentinel`).
- `config.py`, `openrouter.py`, `main.py`, storage and the frontend are not part of this model. The configuration is the parameter `Council.Config`.
