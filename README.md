# Interview question selector and performance aggregator, in Dafny

This project models the two pipelines of `src/main.ts`:

- **Question selector** (`createInterviewQuestions`). The question catalogue is
  filtered by a list of technologies and a list of levels. A question is kept
  when its technology is in the first list and its level is in the second.
- **Performance aggregator** (`computePerformance`). Recorded responses are
  grouped by technology with lodash `groupBy`. Each group's knowledge and
  practice scores are converted to numbers by `computeScore` and summed with a
  `reduce`. Each group also gets two thresholds: 50 % and 30 % of its size.
  The result is a map from technology to
  `{currentKnowledge, currentPractice, minKnowledge, minPractice, totalQuestions}`.

Modules:

- `Filters` and `Scores` (enums.dfy): the `Levels` and `Technologies`
  enumerations and the score scale. Each is a closed datatype. `Score` has one
  extra constructor, `Unrecognized(raw)`. It stands for a string that is none
  of the four declared values; such a string can reach `computeScore` because
  parsed JSON is not validated.
- `Interview` (interview.dfy): the `InterviewQuestion` record. Its optional
  `note` and `hint` fields are `Option<string>`.
- `Sequences` (sequences.dfy): "subsequence" (order kept, elements dropped) and
  "no duplicates".
- `Selector` (selector.dfy): the filter, as a function.
- `Scoring` (scoring.dfy): `computeScore` and the two threshold functions, in
  exact `real` arithmetic.
- `Performance` (performance.dfy): the grouping, the per-group fold and the
  key loop. The loop mutates a `Map` in the source. Here it is a method whose
  local `map` variable is reassigned once per key. It is proved equal to the
  specification function `AggregatedPerformance`, and the properties are
  proved about that function.

Where the code and its design description differ, the model follows the code:

- The selector receives arrays (`includes`), not sets, so its lists are `seq`s.
- The thresholds are written `(total / 100) * percentage`. In exact arithmetic
  this equals `total * 0.5` and `total * 0.3`.
- `computePerformance` prints its map. The model returns the map instead.
- The out-of-range score only logs and yields 0. There is no warning-carrying
  result type.

## Model

| member | source | states |
|---|---|---|
| `Selector.SelectQuestions` | src/main.ts:39-44 | each catalogue question occurs in the result exactly as often as in the catalogue if its technology is in the technology list AND its level is in the level list, and not at all otherwise; membership holds in both directions |
| `Selector.SelectionIsSubsequence` | src/main.ts:39-44 | the selection keeps the catalogue's relative order (it is a subsequence of the catalogue) |
| `Selector.SelectAllSelected` | src/main.ts:39-44 | a catalogue whose every question passes the filter is returned unchanged |
| `Selector.SelectIdempotent` | src/main.ts:39-44 | filtering the selection again with the same lists returns the same sequence |
| `Selector.SelectWithEmptyList` | src/main.ts:40-43 | an empty technology list or an empty level list selects nothing |
| `Scoring.ComputeScore` | src/main.ts:64-88 | a declared score is worth half its rank on the four-point scale; any other value is worth 0; the result always lies in [0, 1.5] |
| `Scoring.ScoreWeights` | src/main.ts:66-80 | NotFamiliar, Elementary, Intermediate and Advanced are worth exactly 0, 0.5, 1 and 1.5 |
| `Scoring.ScoreMonotone` | src/main.ts:64-81 | for declared scores, a higher rank is never worth less, and a weight that is not larger means a rank that is not higher |
| `Scoring.MinimumKnowledgeCount` | src/main.ts:60-62 | the knowledge threshold is half the group size (percentage 50), between 0 and the size for a size of at least 0 |
| `Scoring.MinimumPracticeCount` | src/main.ts:56-58 | the practice threshold is three tenths of the group size (percentage 30); for a size of at least 0 it lies between 0 and the knowledge threshold; both are 0 for size 0 |
| `Performance.GroupOfCounts` | src/main.ts:96 | the group for technology t holds each response with technology t as often as the input does, and nothing else |
| `Performance.GroupIsSubsequence` | src/main.ts:96 | a group keeps the input's relative order |
| `Performance.GroupNonEmptyIffPresent` | src/main.ts:96 | a technology's group is non-empty exactly when the technology occurs in the input |
| `Performance.GroupBy` | src/main.ts:96 | the grouped object's keys are exactly the technologies present, each holding its (non-empty) group |
| `Performance.GroupKeys` | src/main.ts:100-101 | the keys the `for...in` loop visits are the present technologies, each exactly once |
| `Performance.ReduceGroup` | src/main.ts:106-117 | the fold adds between 0 and 1.5 per response to each running sum |
| `Performance.ScoreSum` | src/main.ts:109-112 | the sum of one dimension's converted scores over a group lies in [0, 1.5 × group size] |
| `Performance.ReduceGroupIsSum` | src/main.ts:106-117 | the left fold started at (a, b) ends at (a + knowledge sum, b + practice sum) |
| `Performance.ScoreSumAppend` | src/main.ts:106-117 | the score sum of a concatenation is the sum of the two score sums |
| `Performance.ScoreSumPermutation` | src/main.ts:106-117 | the score sum of a group does not depend on the order of its responses |
| `Performance.GroupPerformanceOf` | src/main.ts:102-123 | a group's summary carries the fold's results, which equal the knowledge and practice score sums |
| `Performance.ComputePerformance` | src/main.ts:98-127 | the loop that sets one map entry per grouped key returns exactly `AggregatedPerformance` of the responses |
| `Performance.AllKeysVisited` | src/main.ts:100-127 | once every present technology has been visited with its group's summary, the map is the full result |
| `Performance.GroupLength` | src/main.ts:103 | a group's length is the number of responses with that technology |
| `Performance.PerformanceKeys` | src/main.ts:96-125 | the result has an entry for t exactly when some response has technology t; an absent technology gets no entry at all |
| `Performance.PerformanceEntry` | src/main.ts:102-125 | an entry's `totalQuestions` is the (positive) number of responses with its technology; its current values are the score sums over that group and lie in [0, 1.5 × total]; its thresholds are the threshold functions of the total and satisfy 0 ≤ minPractice ≤ minKnowledge ≤ total |
| `Performance.CountOverCons` | src/main.ts:96 | over distinct technologies, one more response adds one to the count exactly when its technology is among them |
| `Performance.CountOverCovering` | src/main.ts:96 | over distinct technologies covering every response, the counts add up to the number of responses |
| `Performance.TotalsAreCounts` | src/main.ts:103-125 | summing `totalQuestions` over any technologies (0 for those without an entry) gives the sum of their response counts |
| `Performance.TotalQuestionsSumToLength` | src/main.ts:96-125 | the `totalQuestions` of all entries add up to the number of responses |
| `Performance.SamePresentTechnologies` | src/main.ts:96 | two orderings of the same responses involve the same technologies |
| `Performance.SameGroupPerformance` | src/main.ts:102-123 | two orderings of the same responses give each technology the same summary |
| `Performance.PermutationInvariant` | src/main.ts:96-125 | reordering the responses leaves the whole result unchanged (exact arithmetic) |
| `Performance.SingleTechnologyGroup` | src/main.ts:96 | when every response has technology t, the group for t is the whole input |
| `Performance.SingleTechnology` | src/main.ts:96-125 | non-empty responses that all share technology t give a single entry, summarising all of them |
| `Performance.ExampleSummary` | src/main.ts:102-123 | knowledge scores (Intermediate, Advanced, NotFamiliar) and practice scores (Elementary, Elementary, Advanced) give 2.5 and 2.5 against thresholds 1.5 and 0.9, total 3 |
| `Performance.ThreeAngularResponses` | src/main.ts:90-127 | those three responses, all Angular, aggregate to the single entry Angular ↦ (2.5, 2.5, 1.5, 0.9, 3) |

## Left out

- File I/O: the output path and `writeFile` (src/main.ts:47), the input path, `readFile` and the UTF-8 decode (src/main.ts:92-94). These are foreign calls with no logic. Their failures (missing file or directory) abort the run and are not modelled.
- JSON: `JSON.stringify` (src/main.ts:45) and `JSON.parse` (src/main.ts:95) are library calls. The selector returns the selected sequence. The aggregator takes an already-parsed `seq<InterviewQuestion>`. The serialise/parse round trip is not stated.
- Console output: `console.error` in the default branch of `computeScore` and `console.log` of the result (src/main.ts:83, 129) are diagnostics. The model returns the map.
- The static catalogue imported from `./angular-questions` is plain data that is not part of this model. It is the `questions` parameter of `SelectQuestions`.
- lodash `groupBy` internals: `GroupBy` states its effect directly, as the order-preserving filter of the input by technology. The order in which `for...in` visits keys is modelled as first occurrence (`GroupKeys`), and the result does not depend on it.
- Floating point: all sums and thresholds use exact `real`. In IEEE-754 doubles `(3 / 100) * 30` is not exactly 0.9, so the thresholds can differ from the model in the last bits. The score sums are multiples of 0.5 and are exact in doubles for any realistic input size. `PermutationInvariant` holds for exact arithmetic only.
- Out-of-domain technology or level strings in the parsed JSON (including a missing `technology`, which lodash files under the key `"undefined"`) are not modelled. Only the score has an out-of-domain constructor.
- `async`/`await` and the top-level call `computePerformance({ path: [...] })` (src/main.ts:132) carry no logic beyond running the pipeline once.
- Scoring.ComputeScore: the `Unrecognized` case keeps the value 0 but not the diagnostic line the source prints for it.
