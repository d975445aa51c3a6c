/**
 * The performance aggregator of `computePerformance` (src/main.ts:90-130):
 * responses are grouped by technology, each group's scores are summed and
 * its thresholds derived from its size. The response list is taken already
 * parsed, and the resulting map is returned rather than printed.
 */
module Performance {
  import opened Filters
  import opened Scores
  import opened Interview
  import opened Scoring
  import opened Sequences

  /** Running sums of one group (`AggregateGroup`). */
  datatype AggregateGroup = AggregateGroup(currentKnowledge: real, currentPractice: real)

  /** Summary of one technology (`GroupPerformance`). */
  datatype GroupPerformance = GroupPerformance(
    currentKnowledge: real,
    currentPractice: real,
    minKnowledge: real,
    minPractice: real,
    totalQuestions: nat)

  /** Which of a response's two self-assessments is meant. */
  datatype Dimension = Knowledge | Practice

  function ScoreOf(q: InterviewQuestion, d: Dimension): Score
  {
    match d
    case Knowledge => q.knowledgeScore
    case Practice => q.practiceScore
  }

  // ---------------------------------------------------------------------
  // Grouping (lodash `groupBy` by `technology`, src/main.ts:96)
  // ---------------------------------------------------------------------

  /** The technologies that occur in the responses. */
  function PresentTechnologies(responses: seq<InterviewQuestion>): set<Technology>
  {
    set q | q in responses :: q.technology
  }

  /** The group `groupBy` files under `t`: the responses with that technology. */
  function GroupOf(responses: seq<InterviewQuestion>, t: Technology): seq<InterviewQuestion>
    decreases |responses|
  {
    if responses == [] then []
    else (if responses[0].technology == t then [responses[0]] else []) + GroupOf(responses[1..], t)
  }

  /**
   * A group holds each response with its technology as often as the input
   * does, and nothing else.
   */
  lemma {:induction false} GroupOfCounts(responses: seq<InterviewQuestion>, t: Technology)
    ensures forall q :: multiset(GroupOf(responses, t))[q]
                        == if q.technology == t then multiset(responses)[q] else 0
    decreases |responses|
  {
    if responses != [] {
      GroupOfCounts(responses[1..], t);
      assert responses == [responses[0]] + responses[1..];
    }
  }

  /** A group keeps the responses' relative order. */
  lemma {:induction false} GroupIsSubsequence(responses: seq<InterviewQuestion>, t: Technology)
    ensures IsSubsequence(GroupOf(responses, t), responses)
    decreases |responses|
  {
    if responses != [] {
      var rest := GroupOf(responses[1..], t);
      GroupIsSubsequence(responses[1..], t);
      if responses[0].technology == t {
        assert ([responses[0]] + rest)[1..] == rest;
      } else {
        assert [] + rest == rest;
      }
    }
  }

  /** A technology has a non-empty group exactly when it occurs in the input. */
  lemma GroupNonEmptyIffPresent(responses: seq<InterviewQuestion>, t: Technology)
    ensures GroupOf(responses, t) != [] <==> t in PresentTechnologies(responses)
  {
  }

  /**
   * lodash `groupBy` by technology: one entry per present technology,
   * holding its group, which is never empty.
   */
  function GroupBy(responses: seq<InterviewQuestion>): (grouped: map<Technology, seq<InterviewQuestion>>)
    ensures grouped.Keys == PresentTechnologies(responses)
    ensures forall t :: t in grouped ==> grouped[t] == GroupOf(responses, t) && grouped[t] != []
  {
    forall t | t in PresentTechnologies(responses) ensures GroupOf(responses, t) != [] {
      GroupNonEmptyIffPresent(responses, t);
    }
    map t | t in PresentTechnologies(responses) :: GroupOf(responses, t)
  }

  /**
   * The keys of the grouped object in the order `for...in` visits them: by
   * first occurrence in the input, each once.
   */
  function GroupKeys(responses: seq<InterviewQuestion>): (keys: seq<Technology>)
    ensures NoDuplicates(keys)
    ensures forall t :: t in keys <==> t in PresentTechnologies(responses)
    decreases |responses|
  {
    if responses == [] then []
    else
      var init := responses[..|responses| - 1];
      var last := responses[|responses| - 1];
      assert responses == init + [last];
      assert PresentTechnologies(responses) == PresentTechnologies(init) + {last.technology};
      var keys := GroupKeys(init);
      if last.technology in keys then keys else keys + [last.technology]
  }

  // ---------------------------------------------------------------------
  // Per-group fold (src/main.ts:103-123)
  // ---------------------------------------------------------------------

  /** The reducer: adds one response's two converted scores to the sums. */
  function AddScores(acc: AggregateGroup, item: InterviewQuestion): AggregateGroup
  {
    AggregateGroup(
      acc.currentKnowledge + ComputeScore(item.knowledgeScore),
      acc.currentPractice + ComputeScore(item.practiceScore))
  }

  /**
   * `group.reduce(AddScores, acc)`, a left fold: each response adds between
   * 0 and 1.5 to each sum.
   */
  function ReduceGroup(group: seq<InterviewQuestion>, acc: AggregateGroup): (r: AggregateGroup)
    ensures acc.currentKnowledge <= r.currentKnowledge <= acc.currentKnowledge + 1.5 * |group| as real
    ensures acc.currentPractice <= r.currentPractice <= acc.currentPractice + 1.5 * |group| as real
    decreases |group|
  {
    if group == [] then acc else ReduceGroup(group[1..], AddScores(acc, group[0]))
  }

  /** Reference sum of one dimension's converted scores over a group. */
  function ScoreSum(group: seq<InterviewQuestion>, d: Dimension): (s: real)
    ensures 0.0 <= s <= 1.5 * |group| as real
    decreases |group|
  {
    if group == [] then 0.0 else ComputeScore(ScoreOf(group[0], d)) + ScoreSum(group[1..], d)
  }

  /** The fold adds exactly the reference sums to its starting value. */
  lemma {:induction false} ReduceGroupIsSum(group: seq<InterviewQuestion>, acc: AggregateGroup)
    ensures ReduceGroup(group, acc)
            == AggregateGroup(acc.currentKnowledge + ScoreSum(group, Knowledge),
                              acc.currentPractice + ScoreSum(group, Practice))
    decreases |group|
  {
    if group != [] {
      ReduceGroupIsSum(group[1..], AddScores(acc, group[0]));
    }
  }

  lemma {:induction false} ScoreSumAppend(a: seq<InterviewQuestion>, b: seq<InterviewQuestion>, d: Dimension)
    ensures ScoreSum(a + b, d) == ScoreSum(a, d) + ScoreSum(b, d)
    decreases |a|
  {
    if a == [] {
      assert a + b == b;
    } else {
      assert (a + b)[1..] == a[1..] + b;
      ScoreSumAppend(a[1..], b, d);
    }
  }

  /** The sum depends only on which responses there are, not their order. */
  lemma {:induction false} ScoreSumPermutation(a: seq<InterviewQuestion>, b: seq<InterviewQuestion>, d: Dimension)
    requires multiset(a) == multiset(b)
    ensures ScoreSum(a, d) == ScoreSum(b, d)
    decreases |a|
  {
    if a == [] {
      assert |b| == |multiset(b)| == 0;
    } else {
      var x := a[0];
      assert x in multiset(b);
      var i :| 0 <= i < |b| && b[i] == x;
      var rest := b[..i] + b[i + 1..];
      RemoveMatching(a, b, i);
      ScoreSumPermutation(a[1..], rest, d);
      assert b == b[..i] + ([x] + b[i + 1..]);
      ScoreSumAppend(b[..i], [x] + b[i + 1..], d);
      ScoreSumAppend(b[..i], b[i + 1..], d);
      assert ([x] + b[i + 1..])[1..] == b[i + 1..];
    }
  }

  /**
   * One group's summary as the loop body builds it: the fold's sums over
   * the group, its size, and the thresholds of that size.
   */
  function GroupPerformanceOf(group: seq<InterviewQuestion>): (p: GroupPerformance)
    ensures p.currentKnowledge == ScoreSum(group, Knowledge)
    ensures p.currentPractice == ScoreSum(group, Practice)
  {
    var aggregated := ReduceGroup(group, AggregateGroup(0.0, 0.0));
    ReduceGroupIsSum(group, AggregateGroup(0.0, 0.0));
    GroupPerformance(
      aggregated.currentKnowledge,
      aggregated.currentPractice,
      MinimumKnowledgeCount(|group|),
      MinimumPracticeCount(|group|),
      |group|)
  }

  // ---------------------------------------------------------------------
  // The whole aggregation
  // ---------------------------------------------------------------------

  /** The result `computePerformance` builds: one summary per present technology. */
  function AggregatedPerformance(responses: seq<InterviewQuestion>): map<Technology, GroupPerformance>
  {
    map t | t in PresentTechnologies(responses) :: GroupPerformanceOf(GroupOf(responses, t))
  }

  /**
   * The loop of `computePerformance`: visits the grouped keys and sets one
   * entry per key in a map that starts empty.
   */
  method ComputePerformance(responses: seq<InterviewQuestion>) returns (aggregator: map<Technology, GroupPerformance>)
    ensures aggregator == AggregatedPerformance(responses)
  {
    var groupedJson := GroupBy(responses);
    var keys := GroupKeys(responses);
    aggregator := map[];
    for i := 0 to |keys|
      invariant forall t :: t in aggregator <==> exists j :: 0 <= j < i && keys[j] == t
      invariant forall t :: t in aggregator ==> t in groupedJson && aggregator[t] == GroupPerformanceOf(groupedJson[t])
    {
      var key := keys[i];
      if key in groupedJson {
        var groupPerformance := GroupPerformanceOf(groupedJson[key]);
        aggregator := aggregator[key := groupPerformance];
      }
    }
    AllKeysVisited(responses, keys, groupedJson, aggregator);
  }

  /** A map holding the right summary for every present technology is the result. */
  lemma AllKeysVisited(
    responses: seq<InterviewQuestion>,
    keys: seq<Technology>,
    grouped: map<Technology, seq<InterviewQuestion>>,
    aggregator: map<Technology, GroupPerformance>)
    requires forall t :: t in keys <==> t in PresentTechnologies(responses)
    requires forall t :: t in grouped ==> grouped[t] == GroupOf(responses, t)
    requires forall t :: t in aggregator <==> exists j :: 0 <= j < |keys| && keys[j] == t
    requires forall t :: t in aggregator ==> t in grouped && aggregator[t] == GroupPerformanceOf(grouped[t])
    ensures aggregator == AggregatedPerformance(responses)
  {
  }

  // ---------------------------------------------------------------------
  // Properties of the aggregated result
  // ---------------------------------------------------------------------

  /** The number of responses filed under technology `t`. */
  function TechnologyCount(responses: seq<InterviewQuestion>, t: Technology): nat
    decreases |responses|
  {
    if responses == [] then 0
    else (if responses[0].technology == t then 1 else 0) + TechnologyCount(responses[1..], t)
  }

  lemma {:induction false} GroupLength(responses: seq<InterviewQuestion>, t: Technology)
    ensures |GroupOf(responses, t)| == TechnologyCount(responses, t)
    decreases |responses|
  {
    if responses != [] {
      GroupLength(responses[1..], t);
    }
  }

  /**
   * The result has an entry for a technology exactly when some response
   * carries it: absent technologies get no entry, not a zero one.
   */
  lemma PerformanceKeys(responses: seq<InterviewQuestion>, t: Technology)
    ensures t in AggregatedPerformance(responses)
            <==> exists i :: 0 <= i < |responses| && responses[i].technology == t
  {
  }

  /**
   * Each entry counts the responses of its technology, sums their converted
   * scores, and carries the thresholds of that count.
   */
  lemma PerformanceEntry(responses: seq<InterviewQuestion>, t: Technology)
    requires t in AggregatedPerformance(responses)
    ensures var p := AggregatedPerformance(responses)[t];
            && p.totalQuestions == TechnologyCount(responses, t) > 0
            && p.currentKnowledge == ScoreSum(GroupOf(responses, t), Knowledge)
            && p.currentPractice == ScoreSum(GroupOf(responses, t), Practice)
            && 0.0 <= p.currentKnowledge <= 1.5 * p.totalQuestions as real
            && 0.0 <= p.currentPractice <= 1.5 * p.totalQuestions as real
            && p.minKnowledge == MinimumKnowledgeCount(p.totalQuestions)
            && p.minPractice == MinimumPracticeCount(p.totalQuestions)
            && 0.0 <= p.minPractice <= p.minKnowledge <= p.totalQuestions as real
  {
    GroupLength(responses, t);
    GroupNonEmptyIffPresent(responses, t);
  }

  /** Sum of the `totalQuestions` of the entries for the technologies `ts`. */
  function TotalQuestionsOver(m: map<Technology, GroupPerformance>, ts: seq<Technology>): nat
    decreases |ts|
  {
    if ts == [] then 0
    else (if ts[0] in m then m[ts[0]].totalQuestions else 0) + TotalQuestionsOver(m, ts[1..])
  }

  /** Sum of the counts of the technologies `ts`. */
  function CountOver(responses: seq<InterviewQuestion>, ts: seq<Technology>): nat
    decreases |ts|
  {
    if ts == [] then 0 else TechnologyCount(responses, ts[0]) + CountOver(responses, ts[1..])
  }

  lemma {:induction false} CountOverCons(x: InterviewQuestion, rest: seq<InterviewQuestion>, ts: seq<Technology>)
    requires NoDuplicates(ts)
    ensures CountOver([x] + rest, ts) == (if x.technology in ts then 1 else 0) + CountOver(rest, ts)
    decreases |ts|
  {
    if ts != [] {
      assert NoDuplicates(ts[1..]);
      assert x.technology == ts[0] ==> x.technology !in ts[1..];
      CountOverCons(x, rest, ts[1..]);
      assert ([x] + rest)[1..] == rest;
    }
  }

  lemma {:induction false} CountOverCovering(responses: seq<InterviewQuestion>, ts: seq<Technology>)
    requires NoDuplicates(ts)
    requires forall i :: 0 <= i < |responses| ==> responses[i].technology in ts
    ensures CountOver(responses, ts) == |responses|
    decreases |responses|
  {
    if responses == [] {
      CountOverEmpty(ts);
    } else {
      assert responses == [responses[0]] + responses[1..];
      CountOverCons(responses[0], responses[1..], ts);
      CountOverCovering(responses[1..], ts);
    }
  }

  lemma {:induction false} CountOverEmpty(ts: seq<Technology>)
    ensures CountOver([], ts) == 0
    decreases |ts|
  {
    if ts != [] {
      CountOverEmpty(ts[1..]);
    }
  }

  lemma {:induction false} TotalsAreCounts(responses: seq<InterviewQuestion>, ts: seq<Technology>)
    ensures TotalQuestionsOver(AggregatedPerformance(responses), ts) == CountOver(responses, ts)
    decreases |ts|
  {
    if ts != [] {
      var t := ts[0];
      GroupLength(responses, t);
      if t !in AggregatedPerformance(responses) {
        GroupNonEmptyIffPresent(responses, t);
      }
      TotalsAreCounts(responses, ts[1..]);
    }
  }

  /** Every response lands in exactly one entry: the totals add up to the input length. */
  lemma TotalQuestionsSumToLength(responses: seq<InterviewQuestion>)
    ensures TotalQuestionsOver(AggregatedPerformance(responses), AllTechnologies) == |responses|
  {
    assert NoDuplicates(AllTechnologies);
    forall i | 0 <= i < |responses| ensures responses[i].technology in AllTechnologies {
      match responses[i].technology
      case JavaScript =>
      case DOM =>
      case TypeScript =>
      case Angular =>
      case Redux =>
      case NgRx =>
      case RxJS =>
    }
    CountOverCovering(responses, AllTechnologies);
    TotalsAreCounts(responses, AllTechnologies);
  }

  /** Two orderings of the same responses involve the same technologies. */
  lemma SamePresentTechnologies(responses: seq<InterviewQuestion>, reordered: seq<InterviewQuestion>)
    requires multiset(responses) == multiset(reordered)
    ensures PresentTechnologies(responses) == PresentTechnologies(reordered)
  {
    forall q ensures q in responses <==> q in reordered {
      assert q in responses <==> q in multiset(responses);
      assert q in reordered <==> q in multiset(reordered);
    }
  }

  /** Two orderings of the same responses give each technology the same summary. */
  lemma SameGroupPerformance(responses: seq<InterviewQuestion>, reordered: seq<InterviewQuestion>, t: Technology)
    requires multiset(responses) == multiset(reordered)
    ensures GroupPerformanceOf(GroupOf(responses, t)) == GroupPerformanceOf(GroupOf(reordered, t))
  {
    var g1, g2 := GroupOf(responses, t), GroupOf(reordered, t);
    GroupOfCounts(responses, t);
    GroupOfCounts(reordered, t);
    assert multiset(g1) == multiset(g2);
    assert |g1| == |multiset(g1)| == |multiset(g2)| == |g2|;
    ScoreSumPermutation(g1, g2, Knowledge);
    ScoreSumPermutation(g1, g2, Practice);
  }

  /** Reordering the responses leaves every entry of the result unchanged. */
  lemma PermutationInvariant(responses: seq<InterviewQuestion>, reordered: seq<InterviewQuestion>)
    requires multiset(responses) == multiset(reordered)
    ensures AggregatedPerformance(responses) == AggregatedPerformance(reordered)
  {
    SamePresentTechnologies(responses, reordered);
    forall t ensures GroupPerformanceOf(GroupOf(responses, t)) == GroupPerformanceOf(GroupOf(reordered, t)) {
      SameGroupPerformance(responses, reordered, t);
    }
  }

  /**
   * Three Angular responses scored (Intermediate, Elementary),
   * (Advanced, Elementary) and (NotFamiliar, Advanced) are summarised as
   * 2.5 knowledge and 2.5 practice points against thresholds 1.5 and 0.9.
   */
  lemma ThreeAngularResponses()
    ensures AggregatedPerformance(ExampleResponses())
            == map[Angular := GroupPerformance(2.5, 2.5, 1.5, 0.9, 3)]
  {
    var r := ExampleResponses();
    SingleTechnology(r, Angular);
    ExampleSummary();
  }

  /** Responses that all share one technology give a single entry summarising all of them. */
  lemma SingleTechnology(responses: seq<InterviewQuestion>, t: Technology)
    requires responses != []
    requires forall i :: 0 <= i < |responses| ==> responses[i].technology == t
    ensures AggregatedPerformance(responses) == map[t := GroupPerformanceOf(responses)]
  {
    assert responses[0] in responses;
    assert PresentTechnologies(responses) == {t};
    SingleTechnologyGroup(responses, t);
  }

  lemma {:induction false} SingleTechnologyGroup(responses: seq<InterviewQuestion>, t: Technology)
    requires forall i :: 0 <= i < |responses| ==> responses[i].technology == t
    ensures GroupOf(responses, t) == responses
    decreases |responses|
  {
    if responses != [] {
      SingleTechnologyGroup(responses[1..], t);
      assert responses == [responses[0]] + responses[1..];
    }
  }

  function ExampleResponses(): seq<InterviewQuestion>
  {
    [InterviewQuestion("q1", Beginner, Angular, Score.Intermediate, Elementary, None, None),
     InterviewQuestion("q2", Beginner, Angular, Score.Advanced, Elementary, None, None),
     InterviewQuestion("q3", Beginner, Angular, NotFamiliar, Score.Advanced, None, None)]
  }

  lemma ExampleSummary()
    ensures GroupPerformanceOf(ExampleResponses()) == GroupPerformance(2.5, 2.5, 1.5, 0.9, 3)
  {
    var r := ExampleResponses();
    var b, c := r[1], r[2];
    assert r[1..] == [b, c] && [b, c][1..] == [c] && [c][1..] == [];
    assert ScoreSum([c], Knowledge) == 0.0 && ScoreSum([c], Practice) == 1.5;
    assert ScoreSum([b, c], Knowledge) == 1.5 && ScoreSum([b, c], Practice) == 2.0;
    assert ScoreSum(r, Knowledge) == 2.5 && ScoreSum(r, Practice) == 2.5;
    assert MinimumKnowledgeCount(3) == 1.5 && MinimumPracticeCount(3) == 0.9;
  }
}
