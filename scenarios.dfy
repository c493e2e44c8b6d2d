/**
 * Three sessions worked through end to end: accepting a suggestion, an
 * empty completion, and three rejections in a row.
 */
module Scenarios {
  import opened Wrappers
  import opened PromptBuilder
  import opened Suggestion
  import opened SessionModel

  const Query: string := "list s3 buckets"
  const Seed: string := "# Bash\n# list s3 buckets\n"

  /** The seed prompt for the query. */
  lemma SeedPrompt()
    ensures Initial(Query) == Seed
  {
  }

  /** The reply whose only choice is `s`. */
  function Completion(s: string): Reply
  {
    Response(Some([s]))
  }

  /** A clean completion answers with itself. */
  lemma CompletionAnswers(s: string)
    requires Clean(s)
    ensures Normalise(Completion(s)) == Ok(s)
  {
    CleanChoiceTakenVerbatim(s, []);
    assert [s] + [] == [s];
  }

  /** The loop over one accepted suggestion and no further reply. */
  lemma AcceptedOnce(answers: seq<Result<string, Error>>, decisions: seq<Decision>)
    requires answers == [Ok("aws s3 ls")] && decisions == [Execute]
    ensures Loop(Seed, 0, answers, decisions, 0)
            == Outcome([Requested(Seed), Launched("aws s3 ls"), Requested(Seed)], NoMoreReplies)
  {
    assert Turn(Seed, 0, answers, decisions, 0) == Next([Requested(Seed), Launched("aws s3 ls")], Seed, 0);
    assert Loop(Seed, 0, answers, decisions, 1) == Outcome([Requested(Seed)], NoMoreReplies);
  }

  /**
   * The user accepts "aws s3 ls": it is launched, and the loop goes on to
   * ask again with the same prompt rather than ending the session.
   */
  lemma AcceptLaunchesAndAsksAgain()
    ensures Run(Query, [Completion("aws s3 ls")], [Key("return", false)])
            == Outcome([Requested(Seed), Launched("aws s3 ls"), Requested(Seed)], NoMoreReplies)
  {
    CompletionAnswers("aws s3 ls");
    assert Answers([Completion("aws s3 ls")]) == [Ok("aws s3 ls")];
    assert Decisions([Key("return", false)]) == [Execute] by {
      assert [Key("return", false)][1..] == [];
    }
    SeedPrompt();
    AcceptedOnce(Answers([Completion("aws s3 ls")]), Decisions([Key("return", false)]));
  }

  /** An empty completion fails the session before any key matters and reports "No suggestion found". */
  lemma EmptyCompletionFails(keys: seq<Key>)
    ensures Run(Query, [Completion("")], keys) == Outcome([Requested(Seed)], Failed(NoSuggestionFound))
    ensures Report(Run(Query, [Completion("")], keys).ending) == Some(NoSuggestionLine)
  {
    assert LeadingSpaces("") == 0 && TrailingSpaces("") == 0;
    var answers := Answers([Completion("")]);
    assert answers == [Err(NoSuggestionFound)];
    SeedPrompt();
    assert Turn(Seed, 0, answers, Decisions(keys), 0) == Stop([Requested(Seed)], Failed(NoSuggestionFound));
  }

  /** Three presses of space are three rejections. */
  lemma ThreeSpaces()
    ensures Decisions([Key("space", false), Key("space", false), Key("space", false)]) == [Reject, Reject, Reject]
  {
    var space := Key("space", false);
    assert Decides(space) == Some(Reject);
    assert [space][1..] == [];
    assert Decisions([space]) == [Reject];
    assert [space, space][1..] == [space];
    assert Decisions([space, space]) == [Reject, Reject];
    assert [space, space, space][1..] == [space, space];
  }

  /** Three replies answer in order. */
  lemma AnswersOfThree(r0: Reply, r1: Reply, r2: Reply)
    ensures Answers([r0, r1, r2]) == [Normalise(r0), Normalise(r1), Normalise(r2)]
  {
    AnswerAt([r0, r1, r2], 0);
    AnswerAt([r0, r1, r2], 1);
    AnswerAt([r0, r1, r2], 2);
  }

  /** The loop over three suggestions, each rejected. */
  lemma RejectedThrice(seed: string, s1: string, s2: string, s3: string,
                       answers: seq<Result<string, Error>>, decisions: seq<Decision>)
    requires answers == [Ok(s1), Ok(s2), Ok(s3)] && decisions == [Reject, Reject, Reject]
    ensures var second := Extend(seed, s1);
            var third := Extend(second, s2);
            Loop(seed, 0, answers, decisions, 0)
            == Outcome([Requested(seed), Rejected(s1), Requested(second), Rejected(s2), Requested(third), Rejected(s3)],
                       Exhausted)
  {
    var second := Extend(seed, s1);
    var third := Extend(second, s2);
    var last := Loop(third, 2, answers, decisions, 2);
    assert last == Outcome([Requested(third), Rejected(s3)], Exhausted);
    var middle := Loop(second, 1, answers, decisions, 1);
    assert middle == Prepend([Requested(second), Rejected(s2)], last);
    assert Loop(seed, 0, answers, decisions, 0) == Prepend([Requested(seed), Rejected(s1)], middle);
  }

  /**
   * Three spaces reject three suggestions, whatever the query and the three
   * clean completions: each rejection feeds the next prompt, nothing is
   * launched, and the session ends exhausted.
   */
  lemma ThreeRejectionsExhaust(query: string, s1: string, s2: string, s3: string)
    requires Clean(s1) && Clean(s2) && Clean(s3)
    ensures var second := Extend(Initial(query), s1);
            var third := Extend(second, s2);
            Run(query, [Completion(s1), Completion(s2), Completion(s3)], [Key("space", false), Key("space", false), Key("space", false)])
            == Outcome([Requested(Initial(query)), Rejected(s1), Requested(second), Rejected(s2), Requested(third), Rejected(s3)],
                       Exhausted)
  {
    AnswersOfThree(Completion(s1), Completion(s2), Completion(s3));
    CompletionAnswers(s1);
    CompletionAnswers(s2);
    CompletionAnswers(s3);
    ThreeSpaces();
    RejectedThrice(Initial(query), s1, s2, s3,
                   Answers([Completion(s1), Completion(s2), Completion(s3)]),
                   Decisions([Key("space", false), Key("space", false), Key("space", false)]));
  }
}
