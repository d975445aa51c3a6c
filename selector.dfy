/**
 * The question selector of `createInterviewQuestions` (src/main.ts:37-48):
 * the catalogue is filtered by a technology list and a level list. The
 * catalogue itself is a parameter here, and the JSON file the result is
 * written to is not part of this model.
 */
module Selector {
  import opened Filters
  import opened Interview
  import opened Sequences

  /** The filter callback: both `includes` tests must hold (`every(Boolean)`). */
  predicate Selected(q: InterviewQuestion, technologies: seq<Technology>, levels: seq<Level>)
  {
    q.technology in technologies && q.level in levels
  }

  /**
   * `questions.filter(...)`: each question is kept exactly as many times as
   * it occurs in the catalogue when it passes the filter, and not at all
   * otherwise.
   */
  function SelectQuestions(questions: seq<InterviewQuestion>, technologies: seq<Technology>, levels: seq<Level>)
    : (r: seq<InterviewQuestion>)
    ensures forall q :: multiset(r)[q] == if Selected(q, technologies, levels) then multiset(questions)[q] else 0
    ensures forall q :: q in r <==> q in questions && Selected(q, technologies, levels)
    decreases |questions|
  {
    if questions == [] then []
    else
      assert questions == [questions[0]] + questions[1..];
      var rest := SelectQuestions(questions[1..], technologies, levels);
      if Selected(questions[0], technologies, levels) then [questions[0]] + rest else rest
  }

  /** The selection keeps the catalogue's order: it is a subsequence of it. */
  lemma {:induction false} SelectionIsSubsequence(questions: seq<InterviewQuestion>, technologies: seq<Technology>, levels: seq<Level>)
    ensures IsSubsequence(SelectQuestions(questions, technologies, levels), questions)
    decreases |questions|
  {
    if questions != [] {
      var rest := SelectQuestions(questions[1..], technologies, levels);
      SelectionIsSubsequence(questions[1..], technologies, levels);
      if Selected(questions[0], technologies, levels) {
        assert ([questions[0]] + rest)[1..] == rest;
      } else if rest != [] {
        assert IsSubsequence(rest, questions[1..]);
      }
    }
  }

  /** A catalogue all of whose questions pass the filter is returned unchanged. */
  lemma {:induction false} SelectAllSelected(questions: seq<InterviewQuestion>, technologies: seq<Technology>, levels: seq<Level>)
    requires forall i :: 0 <= i < |questions| ==> Selected(questions[i], technologies, levels)
    ensures SelectQuestions(questions, technologies, levels) == questions
    decreases |questions|
  {
    if questions != [] {
      SelectAllSelected(questions[1..], technologies, levels);
      assert questions == [questions[0]] + questions[1..];
    }
  }

  /** Filtering a selection again with the same lists changes nothing. */
  lemma SelectIdempotent(questions: seq<InterviewQuestion>, technologies: seq<Technology>, levels: seq<Level>)
    ensures var r := SelectQuestions(questions, technologies, levels);
            SelectQuestions(r, technologies, levels) == r
  {
    var r := SelectQuestions(questions, technologies, levels);
    forall i | 0 <= i < |r| ensures Selected(r[i], technologies, levels) {
      assert r[i] in r;
    }
    SelectAllSelected(r, technologies, levels);
  }

  /** With no technology or no level requested, nothing is selected. */
  lemma SelectWithEmptyList(questions: seq<InterviewQuestion>, technologies: seq<Technology>, levels: seq<Level>)
    requires technologies == [] || levels == []
    ensures SelectQuestions(questions, technologies, levels) == []
  {
  }
}
