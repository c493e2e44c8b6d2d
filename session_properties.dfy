/**
 * What every run of the suggestion session guarantees. The Loop lemmas hold
 * from any turn on; the Session lemmas specialise them to a whole run.
 * Lemmas about one event take its position `i` in the trace.
 */
module SessionProperties {
  import opened Wrappers
  import opened PromptBuilder
  import opened Suggestion
  import opened SessionModel

  /** A longer trace has rejected everything a shorter prefix of it has. */
  lemma RejectionsMonotone(a: seq<Event>, b: seq<Event>)
    requires a <= b
    ensures Rejections(a) <= Rejections(b)
  {
    assert b == a + b[|a|..];
    RejectionsAppend(a, b[|a|..]);
  }

  /** The positions of a prepended run, seen from the whole trace. */
  lemma PrependAt(head: seq<Event>, rest: seq<Event>, i: nat)
    requires |head| <= i <= |head| + |rest|
    ensures (head + rest)[..i] == head + rest[..i - |head|]
    ensures i < |head| + |rest| ==> (head + rest)[i] == rest[i - |head|]
  {
  }

  /** The rejections before position i of a prepended run. */
  lemma RejectionsShift(head: seq<Event>, rest: seq<Event>, i: nat)
    requires |head| <= i <= |head| + |rest|
    ensures Rejections((head + rest)[..i]) == Rejections(head) + Rejections(rest[..i - |head|])
  {
    PrependAt(head, rest, i);
    RejectionsAppend(head, rest[..i - |head|]);
  }

  /** The requests before position i of a prepended run. */
  lemma RequestCountShift(head: seq<Event>, rest: seq<Event>, i: nat)
    requires |head| <= i <= |head| + |rest|
    ensures RequestCount((head + rest)[..i]) == RequestCount(head) + RequestCount(rest[..i - |head|])
  {
    PrependAt(head, rest, i);
    RequestCountAppend(head, rest[..i - |head|]);
  }

  /**
   * Position i, at least 2, after a turn of two events: what lies before it
   * and at it, seen from the rest of the trace.
   */
  lemma StepAt(head: seq<Event>, rest: seq<Event>, i: nat)
    requires |head| == 2 && head[0].Requested? && !head[1].Requested?
    requires 2 <= i <= |head| + |rest|
    ensures i < |head| + |rest| ==> (head + rest)[i] == rest[i - 2]
    ensures (head + rest)[i - 1] == if i == 2 then head[1] else rest[i - 3]
    ensures RequestCount((head + rest)[..i]) == 1 + RequestCount(rest[..i - 2])
    ensures Rejections((head + rest)[..i]) ==
              (if head[1].Rejected? then [head[1].suggestion] else []) + Rejections(rest[..i - 2])
  {
    PrependAt(head, rest, i);
    RequestCountShift(head, rest, i);
    RejectionsShift(head, rest, i);
    TurnCounts(head);
  }

  /**
   * From a turn on, at most the remaining attempts are rejected and the
   * session is exhausted exactly when the rejections reach the limit; every
   * request but possibly the last has an answer.
   */
  lemma {:induction false} LoopBounds(prompt: string, attempt: nat, answers: seq<Result<string, Error>>, decisions: seq<Decision>, n: nat)
    requires attempt < MaxAttempts && n <= |answers| && n <= |decisions|
    ensures var o := Loop(prompt, attempt, answers, decisions, n);
            && attempt + |Rejections(o.trace)| <= MaxAttempts
            && (o.ending == Exhausted <==> attempt + |Rejections(o.trace)| == MaxAttempts)
            && 1 <= RequestCount(o.trace) <= |answers| - n + 1
    decreases |answers| - n
  {
    var o := Loop(prompt, attempt, answers, decisions, n);
    var st := Turn(prompt, attempt, answers, decisions, n);
    TurnStart(prompt, attempt, answers, decisions, n);
    TurnContinues(prompt, attempt, answers, decisions, n);
    if st.Next? {
      var r := Loop(st.prompt, st.attempt, answers, decisions, n + 1);
      assert o == Prepend(st.events, r);
      LoopBounds(st.prompt, st.attempt, answers, decisions, n + 1);
      BoundsShift(st.events, r, attempt, st.attempt, |answers| - n);
    } else {
      TurnCounts(st.events);
    }
  }

  /** Two events in front of a run keep its bounds, counting one more request and the front's rejection. */
  lemma BoundsShift(head: seq<Event>, r: Outcome, attempt: nat, next: nat, m: int)
    requires |head| == 2 && head[0].Requested? && !head[1].Requested?
    requires next == attempt + (if head[1].Rejected? then 1 else 0)
    requires && next + |Rejections(r.trace)| <= MaxAttempts
             && (r.ending == Exhausted <==> next + |Rejections(r.trace)| == MaxAttempts)
             && 1 <= RequestCount(r.trace) <= m
    ensures var o := Prepend(head, r);
            && attempt + |Rejections(o.trace)| <= MaxAttempts
            && (o.ending == Exhausted <==> attempt + |Rejections(o.trace)| == MaxAttempts)
            && 1 <= RequestCount(o.trace) <= m + 1
  {
    TurnCounts(head);
    RejectionsAppend(head, r.trace);
    RequestCountAppend(head, r.trace);
  }

  /**
   * A prompt sent from a turn on is the prompt of that turn followed by one
   * block per suggestion rejected since, in order.
   */
  lemma {:induction false} LoopPromptAt(prompt: string, attempt: nat, answers: seq<Result<string, Error>>, decisions: seq<Decision>, n: nat, i: nat)
    requires attempt < MaxAttempts && n <= |answers| && n <= |decisions|
    requires var t := Loop(prompt, attempt, answers, decisions, n).trace;
             i < |t| && t[i].Requested?
    ensures var t := Loop(prompt, attempt, answers, decisions, n).trace;
            t[i].prompt == prompt + Blocks(Rejections(t[..i]))
    decreases |answers| - n
  {
    var t := Loop(prompt, attempt, answers, decisions, n).trace;
    var st := Turn(prompt, attempt, answers, decisions, n);
    TurnStart(prompt, attempt, answers, decisions, n);
    TurnContinues(prompt, attempt, answers, decisions, n);
    TurnCounts(st.events);
    if i == 0 {
      assert t[..0] == [];
    } else {
      assert st.Next?;
      var rest := Loop(st.prompt, st.attempt, answers, decisions, n + 1).trace;
      assert t == st.events + rest;
      assert t[1] == st.events[1];
      StepAt(st.events, rest, i);
      LoopPromptAt(st.prompt, st.attempt, answers, decisions, n + 1, i - 2);
      var later := Rejections(rest[..i - 2]);
      assert t[i].prompt == st.prompt + Blocks(later);
      if st.events[1].Rejected? {
        var s := st.events[1].suggestion;
        assert Rejections(t[..i]) == [s] + later;
        ExtendThenBlocks(prompt, s, later);
      } else {
        assert Rejections(t[..i]) == later;
      }
    }
  }

  /** A request is only ever issued while fewer than three suggestions have been rejected. */
  lemma {:induction false} LoopRequestBelowLimit(prompt: string, attempt: nat, answers: seq<Result<string, Error>>, decisions: seq<Decision>, n: nat, i: nat)
    requires attempt < MaxAttempts && n <= |answers| && n <= |decisions|
    requires var t := Loop(prompt, attempt, answers, decisions, n).trace;
             i < |t| && t[i].Requested?
    ensures var t := Loop(prompt, attempt, answers, decisions, n).trace;
            attempt + |Rejections(t[..i])| < MaxAttempts
    decreases |answers| - n
  {
    var t := Loop(prompt, attempt, answers, decisions, n).trace;
    var st := Turn(prompt, attempt, answers, decisions, n);
    TurnStart(prompt, attempt, answers, decisions, n);
    TurnContinues(prompt, attempt, answers, decisions, n);
    TurnCounts(st.events);
    if i == 0 {
      assert t[..0] == [];
    } else {
      assert st.Next?;
      var rest := Loop(st.prompt, st.attempt, answers, decisions, n + 1).trace;
      assert t == st.events + rest;
      assert t[1] == st.events[1];
      StepAt(st.events, rest, i);
      LoopRequestBelowLimit(st.prompt, st.attempt, answers, decisions, n + 1, i - 2);
    }
  }

  /**
   * A launch or a rejection acts on the suggestion just received and on the
   * decision just made: it follows the request, and if that was the k-th
   * request, the k-th answer is exactly that suggestion and the k-th decision
   * was to execute it (a launch) or to reject it (a rejection).
   */
  lemma {:induction false} LoopDecisionAt(prompt: string, attempt: nat, answers: seq<Result<string, Error>>, decisions: seq<Decision>, n: nat, i: nat)
    requires attempt < MaxAttempts && n <= |answers| && n <= |decisions|
    requires var t := Loop(prompt, attempt, answers, decisions, n).trace;
             i < |t| && !t[i].Requested?
    ensures var t := Loop(prompt, attempt, answers, decisions, n).trace;
            var k := n + RequestCount(t[..i]) - 1;
            && 0 < i && t[i - 1].Requested?
            && n <= k < |answers| && k < |decisions|
            && answers[k] == Ok(Subject(t[i]))
            && decisions[k] == (if t[i].Launched? then Execute else Reject)
    decreases |answers| - n
  {
    var t := Loop(prompt, attempt, answers, decisions, n).trace;
    var st := Turn(prompt, attempt, answers, decisions, n);
    TurnStart(prompt, attempt, answers, decisions, n);
    if i == 1 {
      FirstTurnDecision(prompt, attempt, answers, decisions, n);
    } else {
      assert st.Next?;
      var rest := Loop(st.prompt, st.attempt, answers, decisions, n + 1).trace;
      assert t == st.events + rest;
      DecisionStep(st.events, rest, i);
      LoopDecisionAt(st.prompt, st.attempt, answers, decisions, n + 1, i - 2);
      DecisionShift(st.events, rest, i, n, answers, decisions);
    }
  }

  /** A decision after the first turn's two events is one of the rest's. */
  lemma DecisionStep(head: seq<Event>, rest: seq<Event>, i: nat)
    requires |head| == 2 && head[0].Requested? && !head[1].Requested?
    requires i != 1 && i < |head| + |rest| && !(head + rest)[i].Requested?
    ensures 2 <= i && i - 2 < |rest| && !rest[i - 2].Requested?
  {
    assert (head + rest)[0] == head[0];
    StepAt(head, rest, i);
  }

  /** What the rest says of its decision at i - 2, the whole says of its decision at i. */
  lemma DecisionShift(head: seq<Event>, rest: seq<Event>, i: nat, n: nat, answers: seq<Result<string, Error>>, decisions: seq<Decision>)
    requires |head| == 2 && head[0].Requested? && !head[1].Requested?
    requires 2 <= i < |head| + |rest| && !rest[i - 2].Requested?
    requires var k := n + 1 + RequestCount(rest[..i - 2]) - 1;
             && 0 < i - 2 && rest[i - 3].Requested?
             && n + 1 <= k < |answers| && k < |decisions|
             && answers[k] == Ok(Subject(rest[i - 2]))
             && decisions[k] == (if rest[i - 2].Launched? then Execute else Reject)
    ensures var t := head + rest;
            var k := n + RequestCount(t[..i]) - 1;
            && 0 < i && t[i - 1].Requested?
            && n <= k < |answers| && k < |decisions|
            && answers[k] == Ok(Subject(t[i]))
            && decisions[k] == (if t[i].Launched? then Execute else Reject)
  {
    StepAt(head, rest, i);
  }

  /** LoopDecisionAt for the event of the first turn that follows its request. */
  lemma FirstTurnDecision(prompt: string, attempt: nat, answers: seq<Result<string, Error>>, decisions: seq<Decision>, n: nat)
    requires attempt < MaxAttempts && n <= |answers| && n <= |decisions|
    requires var t := Loop(prompt, attempt, answers, decisions, n).trace;
             1 < |t| && !t[1].Requested?
    ensures var t := Loop(prompt, attempt, answers, decisions, n).trace;
            && t[0].Requested? && RequestCount(t[..1]) == 1
            && n < |answers| && n < |decisions|
            && answers[n] == Ok(Subject(t[1]))
            && decisions[n] == (if t[1].Launched? then Execute else Reject)
  {
    var t := Loop(prompt, attempt, answers, decisions, n).trace;
    var st := Turn(prompt, attempt, answers, decisions, n);
    TurnStart(prompt, attempt, answers, decisions, n);
    TurnActs(prompt, attempt, answers, decisions, n);
    assert t[..2] == st.events;
    assert t[1] == st.events[1];
    assert t[..1] == [t[0]] && t[..1][1..] == [];
  }

  /**
   * Accepting does not leave the loop (index.js:103-107): the next event is
   * a new request with the very prompt the launched suggestion came from.
   */
  lemma {:induction false} LoopLaunchAt(prompt: string, attempt: nat, answers: seq<Result<string, Error>>, decisions: seq<Decision>, n: nat, i: nat)
    requires attempt < MaxAttempts && n <= |answers| && n <= |decisions|
    requires var t := Loop(prompt, attempt, answers, decisions, n).trace;
             i < |t| && t[i].Launched?
    ensures var t := Loop(prompt, attempt, answers, decisions, n).trace;
            0 < i && i + 1 < |t| && t[i - 1].Requested? && t[i + 1] == t[i - 1]
    decreases |answers| - n
  {
    var t := Loop(prompt, attempt, answers, decisions, n).trace;
    var st := Turn(prompt, attempt, answers, decisions, n);
    TurnStart(prompt, attempt, answers, decisions, n);
    TurnContinues(prompt, attempt, answers, decisions, n);
    assert i > 0;
    assert st.Next?;
    var rest := Loop(st.prompt, st.attempt, answers, decisions, n + 1).trace;
    assert t == st.events + rest;
    if i >= 2 {
      assert t[1] == st.events[1];
      StepAt(st.events, rest, i);
      StepAt(st.events, rest, i + 1);
      LoopLaunchAt(st.prompt, st.attempt, answers, decisions, n + 1, i - 2);
    } else {
      assert st.events[1].Launched? && st.prompt == prompt;
      assert t[2] == rest[0] == Requested(prompt);
    }
  }

  /**
   * A rejection (index.js:109-114): below the limit the next event is a
   * request whose prompt is the previous one extended by the rejected
   * suggestion; the third rejection is the last event and the session is
   * exhausted.
   */
  lemma {:induction false} LoopRejectAt(prompt: string, attempt: nat, answers: seq<Result<string, Error>>, decisions: seq<Decision>, n: nat, i: nat)
    requires attempt < MaxAttempts && n <= |answers| && n <= |decisions|
    requires var t := Loop(prompt, attempt, answers, decisions, n).trace;
             i < |t| && t[i].Rejected?
    ensures var o := Loop(prompt, attempt, answers, decisions, n);
            var t := o.trace;
            && 0 < i && t[i - 1].Requested?
            && (attempt + |Rejections(t[..i + 1])| < MaxAttempts ==>
                  i + 1 < |t| && t[i + 1] == Requested(Extend(t[i - 1].prompt, t[i].suggestion)))
            && (attempt + |Rejections(t[..i + 1])| == MaxAttempts ==>
                  i + 1 == |t| && o.ending == Exhausted)
    decreases |answers| - n
  {
    var o := Loop(prompt, attempt, answers, decisions, n);
    var t := o.trace;
    var st := Turn(prompt, attempt, answers, decisions, n);
    TurnStart(prompt, attempt, answers, decisions, n);
    TurnContinues(prompt, attempt, answers, decisions, n);
    TurnCounts(st.events);
    assert i > 0;
    if i == 1 {
      assert t[..2] == st.events;
      if st.Next? {
        var rest := Loop(st.prompt, st.attempt, answers, decisions, n + 1).trace;
        assert t == st.events + rest;
      }
    } else {
      assert st.Next?;
      var r := Loop(st.prompt, st.attempt, answers, decisions, n + 1);
      var rest := r.trace;
      assert o == Prepend(st.events, r);
      assert t == st.events + rest;
      assert t[1] == st.events[1];
      StepAt(st.events, rest, i);
      StepAt(st.events, rest, i + 1);
      LoopRejectAt(st.prompt, st.attempt, answers, decisions, n + 1, i - 2);
    }
  }

  /**
   * How a session that ended with `ending`, whose last event is `last` and
   * whose last request was the k-th, ends other than by its decisions: a
   * failed request ends it at once, right after the request whose answer was
   * the error (no retry); out of replies, every one of them has been used;
   * out of keys, the last answer was a suggestion and every decision has been
   * used; Ctrl-C is the k-th decision, made on a suggestion.
   */
  predicate EndsOnRequest(ending: Ending, last: Event, k: int, answers: seq<Result<string, Error>>, decisions: seq<Decision>)
  {
    match ending
    case Failed(e) => last.Requested? && 0 <= k < |answers| && answers[k] == Err(e)
    case NoMoreReplies => last.Requested? && k == |answers|
    case NoMoreKeys => last.Requested? && k == |decisions| && 0 <= k < |answers| && answers[k].Ok?
    case Interrupted => last.Requested? && 0 <= k < |decisions| && decisions[k] == Abort && k < |answers| && answers[k].Ok?
    case Exhausted => true
  }

  /** A turn that stops ends the session on its request, the n-th, as EndsOnRequest says. */
  lemma StopEndsOnRequest(prompt: string, attempt: nat, answers: seq<Result<string, Error>>, decisions: seq<Decision>, n: nat)
    requires attempt < MaxAttempts && n <= |answers| && n <= |decisions|
    requires Turn(prompt, attempt, answers, decisions, n).Stop?
    ensures var o := Loop(prompt, attempt, answers, decisions, n);
            EndsOnRequest(o.ending, o.trace[|o.trace| - 1], n + RequestCount(o.trace) - 1, answers, decisions)
  {
    var st := Turn(prompt, attempt, answers, decisions, n);
    TurnStart(prompt, attempt, answers, decisions, n);
    TurnCounts(st.events);
    assert Loop(prompt, attempt, answers, decisions, n) == Outcome(st.events, st.ending);
  }

  /** Two events in front of a run, a request and a decision, end it as the run ends, one request earlier. */
  lemma EndsOnRequestShift(o: Outcome, head: seq<Event>, r: Outcome, n: nat, answers: seq<Result<string, Error>>, decisions: seq<Decision>)
    requires |head| == 2 && head[0].Requested? && !head[1].Requested? && r.trace != []
    requires o == Prepend(head, r)
    requires EndsOnRequest(r.ending, r.trace[|r.trace| - 1], n + 1 + RequestCount(r.trace) - 1, answers, decisions)
    ensures EndsOnRequest(o.ending, o.trace[|o.trace| - 1], n + RequestCount(o.trace) - 1, answers, decisions)
  {
    TurnCounts(head);
    RequestCountAppend(head, r.trace);
    assert o.trace[|o.trace| - 1] == r.trace[|r.trace| - 1];
    assert n + RequestCount(o.trace) - 1 == n + 1 + RequestCount(r.trace) - 1;
  }

  /** From a turn on, every ending but exhaustion comes right after the last request, as EndsOnRequest says. */
  lemma {:induction false} LoopEnding(prompt: string, attempt: nat, answers: seq<Result<string, Error>>, decisions: seq<Decision>, n: nat)
    requires attempt < MaxAttempts && n <= |answers| && n <= |decisions|
    ensures var o := Loop(prompt, attempt, answers, decisions, n);
            EndsOnRequest(o.ending, o.trace[|o.trace| - 1], n + RequestCount(o.trace) - 1, answers, decisions)
    decreases |answers| - n
  {
    var st := Turn(prompt, attempt, answers, decisions, n);
    if st.Next? {
      TurnStart(prompt, attempt, answers, decisions, n);
      var r := Loop(st.prompt, st.attempt, answers, decisions, n + 1);
      LoopEnding(st.prompt, st.attempt, answers, decisions, n + 1);
      EndsOnRequestShift(Loop(prompt, attempt, answers, decisions, n), st.events, r, n, answers, decisions);
    } else {
      StopEndsOnRequest(prompt, attempt, answers, decisions, n);
    }
  }

  /**
   * No retry after an error: a request whose answer is an error is the last
   * event from this turn on, and the session ends failed with that error.
   */
  lemma {:induction false} LoopFailureAt(prompt: string, attempt: nat, answers: seq<Result<string, Error>>, decisions: seq<Decision>, n: nat, i: nat)
    requires attempt < MaxAttempts && n <= |answers| && n <= |decisions|
    requires var t := Loop(prompt, attempt, answers, decisions, n).trace;
             i < |t| && t[i].Requested? && n + RequestCount(t[..i]) < |answers| && answers[n + RequestCount(t[..i])].Err?
    ensures var o := Loop(prompt, attempt, answers, decisions, n);
            var k := n + RequestCount(o.trace[..i]);
            i == |o.trace| - 1 && o.ending == Failed(answers[k].error)
    decreases |answers| - n
  {
    var o := Loop(prompt, attempt, answers, decisions, n);
    var t := o.trace;
    var st := Turn(prompt, attempt, answers, decisions, n);
    TurnStart(prompt, attempt, answers, decisions, n);
    TurnStops(prompt, attempt, answers, decisions, n);
    TurnCounts(st.events);
    if i == 0 {
      assert t[..0] == [];
      assert o == Outcome(st.events, st.ending);
    } else {
      assert st.Next?;
      var r := Loop(st.prompt, st.attempt, answers, decisions, n + 1);
      var rest := r.trace;
      assert o == Prepend(st.events, r);
      assert t == st.events + rest;
      assert t[1] == st.events[1];
      StepAt(st.events, rest, i);
      LoopFailureAt(st.prompt, st.attempt, answers, decisions, n + 1, i - 2);
    }
  }

  /**
   * The first turn, when its request is answered with a suggestion s: the
   * turn's decision says what comes next. No decision left stops it waiting,
   * Ctrl-C stops it interrupted, Return launches s and space rejects s.
   */
  lemma FirstTurnActs(prompt: string, attempt: nat, answers: seq<Result<string, Error>>, decisions: seq<Decision>, n: nat)
    requires attempt < MaxAttempts && n <= |answers| && n <= |decisions|
    requires n < |answers| && answers[n].Ok?
    ensures var o := Loop(prompt, attempt, answers, decisions, n);
            var s := answers[n].value;
            && (n == |decisions| ==> |o.trace| == 1 && o.ending == NoMoreKeys)
            && (n < |decisions| && decisions[n] == Abort ==> |o.trace| == 1 && o.ending == Interrupted)
            && (n < |decisions| && decisions[n] == Execute ==> 1 < |o.trace| && o.trace[1] == Launched(s))
            && (n < |decisions| && decisions[n] == Reject ==> 1 < |o.trace| && o.trace[1] == Rejected(s))
  {
    var o := Loop(prompt, attempt, answers, decisions, n);
    var st := Turn(prompt, attempt, answers, decisions, n);
    TurnStart(prompt, attempt, answers, decisions, n);
    if st.Next? {
      var r := Loop(st.prompt, st.attempt, answers, decisions, n + 1);
      assert o == Prepend(st.events, r);
      assert o.trace[1] == st.events[1];
    } else {
      assert o == Outcome(st.events, st.ending);
    }
  }

  /**
   * What a suggestion leads to (index.js:86-115): if the request at position
   * i, the k-th, is answered with a suggestion s, the k-th decision says what
   * comes next. No decision left stops the session waiting on that request,
   * Ctrl-C stops it interrupted there, Return launches s and space rejects s
   * as the next event.
   */
  lemma {:induction false} LoopActsAt(prompt: string, attempt: nat, answers: seq<Result<string, Error>>, decisions: seq<Decision>, n: nat, i: nat)
    requires attempt < MaxAttempts && n <= |answers| && n <= |decisions|
    requires var t := Loop(prompt, attempt, answers, decisions, n).trace;
             i < |t| && t[i].Requested? && n + RequestCount(t[..i]) < |answers| && answers[n + RequestCount(t[..i])].Ok?
    ensures var o := Loop(prompt, attempt, answers, decisions, n);
            var k := n + RequestCount(o.trace[..i]);
            var s := answers[k].value;
            && k <= |decisions|
            && (k == |decisions| ==> i == |o.trace| - 1 && o.ending == NoMoreKeys)
            && (k < |decisions| && decisions[k] == Abort ==> i == |o.trace| - 1 && o.ending == Interrupted)
            && (k < |decisions| && decisions[k] == Execute ==> i + 1 < |o.trace| && o.trace[i + 1] == Launched(s))
            && (k < |decisions| && decisions[k] == Reject ==> i + 1 < |o.trace| && o.trace[i + 1] == Rejected(s))
    decreases |answers| - n
  {
    var o := Loop(prompt, attempt, answers, decisions, n);
    var t := o.trace;
    if i == 0 {
      assert t[..0] == [];
      FirstTurnActs(prompt, attempt, answers, decisions, n);
    } else {
      var st := Turn(prompt, attempt, answers, decisions, n);
      TurnStart(prompt, attempt, answers, decisions, n);
      assert st.Next?;
      var r := Loop(st.prompt, st.attempt, answers, decisions, n + 1);
      assert o == Prepend(st.events, r);
      StepAt(st.events, r.trace, i);
      LoopActsAt(st.prompt, st.attempt, answers, decisions, n + 1, i - 2);
      ActsShift(o, st.events, r, i, n, answers, decisions);
    }
  }

  /** LoopActsAt one turn later, seen from the run with that turn's two events in front. */
  lemma ActsShift(o: Outcome, head: seq<Event>, r: Outcome, i: nat, n: nat, answers: seq<Result<string, Error>>, decisions: seq<Decision>)
    requires |head| == 2 && head[0].Requested? && !head[1].Requested?
    requires o == Prepend(head, r) && 2 <= i < |o.trace|
    requires var k := n + 1 + RequestCount(r.trace[..i - 2]);
             && k < |answers| && answers[k].Ok? && k <= |decisions|
             && (k == |decisions| ==> i - 2 == |r.trace| - 1 && r.ending == NoMoreKeys)
             && (k < |decisions| && decisions[k] == Abort ==> i - 2 == |r.trace| - 1 && r.ending == Interrupted)
             && (k < |decisions| && decisions[k] == Execute ==> i - 1 < |r.trace| && r.trace[i - 1] == Launched(answers[k].value))
             && (k < |decisions| && decisions[k] == Reject ==> i - 1 < |r.trace| && r.trace[i - 1] == Rejected(answers[k].value))
    ensures var k := n + RequestCount(o.trace[..i]);
            && k < |answers| && answers[k].Ok? && k <= |decisions|
            && (k == |decisions| ==> i == |o.trace| - 1 && o.ending == NoMoreKeys)
            && (k < |decisions| && decisions[k] == Abort ==> i == |o.trace| - 1 && o.ending == Interrupted)
            && (k < |decisions| && decisions[k] == Execute ==> i + 1 < |o.trace| && o.trace[i + 1] == Launched(answers[k].value))
            && (k < |decisions| && decisions[k] == Reject ==> i + 1 < |o.trace| && o.trace[i + 1] == Rejected(answers[k].value))
  {
    StepAt(head, r.trace, i);
    if i + 1 < |o.trace| {
      PrependAt(head, r.trace, i + 1);
    }
  }

  /**
   * The wait for a decision consumes exactly the keys up to and including the
   * first one that decides; what it finds is the next of the keys' decisions.
   */
  lemma {:induction false} FirstDecisionTakesNext(keys: seq<Key>, from: nat)
    requires from <= |keys|
    ensures var r := FirstDecision(keys, from);
            && (r.None? ==> Decisions(keys[from..]) == [])
            && (r.Some? ==> Decisions(keys[from..]) == [r.value.decision] + Decisions(keys[r.value.at + 1..]))
    decreases |keys| - from
  {
    if from < |keys| {
      assert keys[from..][1..] == keys[from + 1..];
      if Decides(keys[from]).None? {
        FirstDecisionTakesNext(keys, from + 1);
      }
    }
  }

  /** What a key means to a session waiting for a decision (index.js:70, index.js:88-96). */
  lemma KeyMeaning(k: Key)
    ensures Decides(k) == Some(Abort) <==> k.ctrl && k.name == "c"
    ensures Decides(k) == Some(Execute) <==> k.name == "return"
    ensures Decides(k) == Some(Reject) <==> k.name == "space"
    ensures Decides(k).None? <==> !(k.ctrl && k.name == "c") && k.name != "return" && k.name != "space"
  {
  }

  /** Any other key leaves the session as it was: pressing it anywhere changes nothing. */
  lemma IgnoredKeyIsInert(query: string, replies: seq<Reply>, keys: seq<Key>, j: nat, k: Key)
    requires j <= |keys| && Decides(k).None?
    ensures Run(query, replies, keys[..j] + [k] + keys[j..]) == Run(query, replies, keys)
  {
    DecisionsAppend(keys[..j] + [k], keys[j..]);
    DecisionsAppend(keys[..j], [k]);
    DecisionsAppend(keys[..j], keys[j..]);
    assert Decisions([k]) == [] by {
      assert [k][1..] == [];
    }
    assert keys[..j] + keys[j..] == keys;
    assert Decisions(keys[..j] + [k] + keys[j..]) == Decisions(keys);
  }

  /**
   * A session rejects at most three suggestions and is exhausted exactly when
   * it has rejected three; it makes at most one request more than there are
   * replies.
   */
  lemma SessionBounds(query: string, replies: seq<Reply>, keys: seq<Key>)
    ensures var o := Run(query, replies, keys);
            && |Rejections(o.trace)| <= MaxAttempts
            && (o.ending == Exhausted <==> |Rejections(o.trace)| == MaxAttempts)
            && RequestCount(o.trace) <= |replies| + 1
  {
    LoopBounds(Initial(query), 0, Answers(replies), Decisions(keys), 0);
  }

  /**
   * The prompt of every request of a session (index.js:75, index.js:114):
   * the seed prompt for the query, then one block per suggestion rejected so
   * far, in the order they were rejected; fewer than three have been.
   */
  lemma SessionPromptAt(query: string, replies: seq<Reply>, keys: seq<Key>, i: nat)
    requires var t := Run(query, replies, keys).trace;
             i < |t| && t[i].Requested?
    ensures var t := Run(query, replies, keys).trace;
            t[i].prompt == Initial(query) + Blocks(Rejections(t[..i])) && |Rejections(t[..i])| < MaxAttempts
  {
    LoopPromptAt(Initial(query), 0, Answers(replies), Decisions(keys), 0, i);
    LoopRequestBelowLimit(Initial(query), 0, Answers(replies), Decisions(keys), 0, i);
  }

  /** The prompt only grows: each prompt sent is a prefix of every later one. */
  lemma PromptsOnlyGrow(query: string, replies: seq<Reply>, keys: seq<Key>, i: nat, j: nat)
    requires var t := Run(query, replies, keys).trace;
             i <= j < |t| && t[i].Requested? && t[j].Requested?
    ensures var t := Run(query, replies, keys).trace;
            t[i].prompt <= t[j].prompt
  {
    var t := Run(query, replies, keys).trace;
    SessionPromptAt(query, replies, keys, i);
    SessionPromptAt(query, replies, keys, j);
    assert t[..i] <= t[..j];
    RejectionsMonotone(t[..i], t[..j]);
    BlocksMonotone(Rejections(t[..i]), Rejections(t[..j]));
  }

  /**
   * Launches and rejections act on the current suggestion: the k-th request
   * (counting from 0) is answered by the k-th reply, and a launch or a
   * rejection right after it is of that reply's suggestion, by the k-th key
   * that decided anything, which was 'return' or 'space' respectively.
   */
  lemma SessionDecisionAt(query: string, replies: seq<Reply>, keys: seq<Key>, i: nat)
    requires var t := Run(query, replies, keys).trace;
             i < |t| && !t[i].Requested?
    ensures var t := Run(query, replies, keys).trace;
            var k := RequestCount(t[..i]) - 1;
            && 0 < i && t[i - 1].Requested?
            && 0 <= k < |replies| && Normalise(replies[k]) == Ok(Subject(t[i]))
            && k < |Decisions(keys)| && Decisions(keys)[k] == (if t[i].Launched? then Execute else Reject)
  {
    LoopDecisionAt(Initial(query), 0, Answers(replies), Decisions(keys), 0, i);
    AnswerAt(replies, RequestCount(Run(query, replies, keys).trace[..i]) - 1);
  }

  /**
   * Accepting launches the suggestion and keeps going (index.js:103-107):
   * the next event is another request with the same prompt.
   */
  lemma SessionLaunchAt(query: string, replies: seq<Reply>, keys: seq<Key>, i: nat)
    requires var t := Run(query, replies, keys).trace;
             i < |t| && t[i].Launched?
    ensures var t := Run(query, replies, keys).trace;
            0 < i && i + 1 < |t| && t[i - 1].Requested? && t[i + 1] == t[i - 1]
  {
    LoopLaunchAt(Initial(query), 0, Answers(replies), Decisions(keys), 0, i);
  }

  /**
   * Rejecting (index.js:109-114): the first and second rejections are followed
   * by a request with the prompt extended by the rejected suggestion; the
   * third ends the session, exhausted, without extending it.
   */
  lemma SessionRejectAt(query: string, replies: seq<Reply>, keys: seq<Key>, i: nat)
    requires var t := Run(query, replies, keys).trace;
             i < |t| && t[i].Rejected?
    ensures var o := Run(query, replies, keys);
            var t := o.trace;
            && 0 < i && t[i - 1].Requested?
            && (|Rejections(t[..i + 1])| < MaxAttempts ==>
                  i + 1 < |t| && t[i + 1] == Requested(Extend(t[i - 1].prompt, t[i].suggestion)))
            && (|Rejections(t[..i + 1])| == MaxAttempts ==> i + 1 == |t| && o.ending == Exhausted)
  {
    LoopRejectAt(Initial(query), 0, Answers(replies), Decisions(keys), 0, i);
  }

  /**
   * EndsOnRequest, with the answers and decisions of the replies and keys,
   * said of the replies themselves.
   */
  lemma EndsOnReply(ending: Ending, last: Event, k: int, replies: seq<Reply>, keys: seq<Key>)
    requires EndsOnRequest(ending, last, k, Answers(replies), Decisions(keys))
    ensures && (ending.Failed? ==> last.Requested? && 0 <= k < |replies| && Normalise(replies[k]) == Err(ending.error))
            && (ending == Interrupted ==>
                  last.Requested? && 0 <= k < |Decisions(keys)| && Decisions(keys)[k] == Abort
                  && k < |replies| && Normalise(replies[k]).Ok?)
            && (ending == NoMoreReplies ==> last.Requested? && k == |replies|)
            && (ending == NoMoreKeys ==>
                  last.Requested? && k == |Decisions(keys)| && 0 <= k < |replies| && Normalise(replies[k]).Ok?)
  {
    if 0 <= k < |replies| {
      AnswerAt(replies, k);
    }
  }

  /**
   * A session that fails ends right after its last request, whose reply
   * gives that error.
   */
  lemma SessionEnding(query: string, replies: seq<Reply>, keys: seq<Key>)
    ensures var o := Run(query, replies, keys);
            var k := RequestCount(o.trace) - 1;
            o.ending.Failed? ==>
              o.trace[|o.trace| - 1].Requested? && 0 <= k < |replies| && Normalise(replies[k]) == Err(o.ending.error)
  {
    var o := Loop(Initial(query), 0, Answers(replies), Decisions(keys), 0);
    assert Run(query, replies, keys) == o;
    LoopEnding(Initial(query), 0, Answers(replies), Decisions(keys), 0);
    EndsOnReply(o.ending, o.trace[|o.trace| - 1], RequestCount(o.trace) - 1, replies, keys);
  }

  /**
   * Ctrl-C ends a session while a suggestion is shown: after the k-th
   * request, whose reply was a suggestion, the k-th decision is Abort.
   */
  lemma SessionInterrupted(query: string, replies: seq<Reply>, keys: seq<Key>)
    ensures var o := Run(query, replies, keys);
            var k := RequestCount(o.trace) - 1;
            o.ending == Interrupted ==>
              && o.trace[|o.trace| - 1].Requested? && 0 <= k < |Decisions(keys)| && Decisions(keys)[k] == Abort
              && k < |replies| && Normalise(replies[k]).Ok?
  {
    var o := Loop(Initial(query), 0, Answers(replies), Decisions(keys), 0);
    assert Run(query, replies, keys) == o;
    LoopEnding(Initial(query), 0, Answers(replies), Decisions(keys), 0);
    EndsOnReply(o.ending, o.trace[|o.trace| - 1], RequestCount(o.trace) - 1, replies, keys);
  }

  /**
   * Running out of replies or keys leaves the session waiting on its last
   * request: out of replies, every reply has been used; out of keys, the
   * last reply was a suggestion and every decision has been used.
   */
  lemma SessionRunsOut(query: string, replies: seq<Reply>, keys: seq<Key>)
    ensures var o := Run(query, replies, keys);
            var k := RequestCount(o.trace) - 1;
            && (o.ending == NoMoreReplies ==> o.trace[|o.trace| - 1].Requested? && k == |replies|)
            && (o.ending == NoMoreKeys ==>
                  o.trace[|o.trace| - 1].Requested? && k == |Decisions(keys)| && 0 <= k < |replies| && Normalise(replies[k]).Ok?)
  {
    var o := Loop(Initial(query), 0, Answers(replies), Decisions(keys), 0);
    assert Run(query, replies, keys) == o;
    LoopEnding(Initial(query), 0, Answers(replies), Decisions(keys), 0);
    EndsOnReply(o.ending, o.trace[|o.trace| - 1], RequestCount(o.trace) - 1, replies, keys);
  }

  /**
   * Any error from a request ends the session at once (index.js:80 and
   * index.js:119-121): if the k-th request's reply is an error, that request
   * is the last event and the session fails with that error.
   */
  lemma SessionFailureAt(query: string, replies: seq<Reply>, keys: seq<Key>, i: nat)
    requires var t := Run(query, replies, keys).trace;
             i < |t| && t[i].Requested? && RequestCount(t[..i]) < |replies| && Normalise(replies[RequestCount(t[..i])]).Err?
    ensures var o := Run(query, replies, keys);
            var k := RequestCount(o.trace[..i]);
            i == |o.trace| - 1 && o.ending == Failed(Normalise(replies[k]).error)
  {
    var answers := Answers(replies);
    var o := Run(query, replies, keys);
    assert o == Loop(Initial(query), 0, answers, Decisions(keys), 0);
    var k := RequestCount(o.trace[..i]);
    AnswerAt(replies, k);
    LoopFailureAt(Initial(query), 0, answers, Decisions(keys), 0, i);
  }

  /**
   * Every suggestion is acted on by its own decision: if the reply to the
   * request at position i, the k-th, is a suggestion s, then with no k-th
   * decision the session waits on that request, Ctrl-C ends it there, Return
   * launches s next and space rejects s next.
   */
  lemma SessionActsAt(query: string, replies: seq<Reply>, keys: seq<Key>, i: nat)
    requires var t := Run(query, replies, keys).trace;
             i < |t| && t[i].Requested? && RequestCount(t[..i]) < |replies| && Normalise(replies[RequestCount(t[..i])]).Ok?
    ensures var o := Run(query, replies, keys);
            var k := RequestCount(o.trace[..i]);
            var s := Normalise(replies[k]).value;
            var d := Decisions(keys);
            && k <= |d|
            && (k == |d| ==> i == |o.trace| - 1 && o.ending == NoMoreKeys)
            && (k < |d| && d[k] == Abort ==> i == |o.trace| - 1 && o.ending == Interrupted)
            && (k < |d| && d[k] == Execute ==> i + 1 < |o.trace| && o.trace[i + 1] == Launched(s))
            && (k < |d| && d[k] == Reject ==> i + 1 < |o.trace| && o.trace[i + 1] == Rejected(s))
  {
    var answers := Answers(replies);
    var o := Run(query, replies, keys);
    assert o == Loop(Initial(query), 0, answers, Decisions(keys), 0);
    var k := RequestCount(o.trace[..i]);
    AnswerAt(replies, k);
    LoopActsAt(Initial(query), 0, answers, Decisions(keys), 0, i);
  }
}
