/**
 * The `suggest` function of index.js:66-122 as the loop it is: a prompt and
 * an attempt counter updated in place inside `while (true)`, a request per
 * turn and a keypress wait that reads keys until one decides. Each method is
 * proved to do what the reference definition in SessionModel says.
 */
module Session {
  import opened Wrappers
  import opened PromptBuilder
  import opened Suggestion
  import opened SessionModel
  import opened SessionProperties

  /**
   * The wait for a decision (index.js:86-101), reading keys from keys[from]
   * on: the first key that decides, every key before it ignored; none if no
   * key from there on decides.
   */
  method WaitForDecision(keys: seq<Key>, from: nat) returns (decided: Option<Decided>)
    requires from <= |keys|
    ensures decided == FirstDecision(keys, from)
    ensures decided.Some? ==>
              && from <= decided.value.at < |keys|
              && Decides(keys[decided.value.at]) == Some(decided.value.decision)
              && forall j | from <= j < decided.value.at :: Decides(keys[j]).None?
    ensures decided.None? ==> forall j | from <= j < |keys| :: Decides(keys[j]).None?
    ensures decided.None? ==> Decisions(keys[from..]) == []
    ensures decided.Some? ==> Decisions(keys[from..]) == [decided.value.decision] + Decisions(keys[decided.value.at + 1..])
  {
    FirstDecisionTakesNext(keys, from);
    var i := from;
    while i < |keys|
      invariant from <= i <= |keys|
      invariant FirstDecision(keys, from) == FirstDecision(keys, i)
    {
      var d := Decides(keys[i]);
      if d.Some? {
        return Some(Decided(d.value, i));
      }
      i := i + 1;
    }
    return None;
  }

  /**
   * Turn n of `while (true)` (index.js:79-115), with ki keys read so far:
   * request a suggestion for `prompt`, stop on an error, otherwise wait for
   * a decision and act on it. It does what Turn says a turn does, and hands
   * the next turn the keys after the deciding one.
   */
  method PlayTurn(prompt: string, attempt: nat, replies: seq<Reply>, keys: seq<Key>, n: nat, ki: nat)
    returns (st: Step, next: nat)
    requires attempt < MaxAttempts && n <= |replies| && ki <= |keys|
    requires n <= |Decisions(keys)| && Decisions(keys[ki..]) == Decisions(keys)[n..]
    ensures st == Turn(prompt, attempt, Answers(replies), Decisions(keys), n)
    ensures st.Next? ==> next <= |keys| && n < |Decisions(keys)| && Decisions(keys[next..]) == Decisions(keys)[n + 1..]
  {
    ghost var answers := Answers(replies);
    ghost var decisions := Decisions(keys);
    next := ki;
    if n == |replies| {
      return Stop([Requested(prompt)], NoMoreReplies), next;
    }
    var answer := Normalise(replies[n]);
    AnswerAt(replies, n);
    if answer.Err? {
      return Stop([Requested(prompt)], Failed(answer.error)), next;
    }
    var suggestion := answer.value;
    var decided := WaitForDecision(keys, ki);
    if decided.None? {
      return Stop([Requested(prompt)], NoMoreKeys), next;
    }
    ghost var later := Decisions(keys[decided.value.at + 1..]);
    assert decisions[n..] == [decided.value.decision] + later;
    assert decisions[n] == decisions[n..][0] == decided.value.decision;
    assert decisions[n + 1..] == decisions[n..][1..] == later;
    next := decided.value.at + 1;
    match decided.value.decision
    case Abort =>
      st := Stop([Requested(prompt)], Interrupted);
    case Execute =>
      st := Next([Requested(prompt), Launched(suggestion)], prompt, attempt);
    case Reject =>
      if attempt + 1 == MaxAttempts {
        st := Stop([Requested(prompt), Rejected(suggestion)], Exhausted);
      } else {
        st := Next([Requested(prompt), Rejected(suggestion)], Extend(prompt, suggestion), attempt + 1);
      }
  }

  /**
   * One suggestion session for `query` (index.js:66-122), given the replies
   * to its requests and the keys pressed: the trace of what it did and why
   * it stopped.
   */
  method Suggest(query: string, replies: seq<Reply>, keys: seq<Key>) returns (trace: seq<Event>, ending: Ending)
    ensures Outcome(trace, ending) == Run(query, replies, keys)
    ensures trace != [] && trace[0] == Requested(Initial(query))
    ensures |Rejections(trace)| <= MaxAttempts
    ensures ending == Exhausted <==> |Rejections(trace)| == MaxAttempts
  {
    ghost var answers := Answers(replies);
    ghost var decisions := Decisions(keys);
    ghost var whole := Run(query, replies, keys);
    var prompt := Initial(query);
    var attempt: nat := 0;
    var n: nat := 0;   // requests answered so far
    var ki: nat := 0;  // keys read so far
    trace := [];
    assert whole == Prepend(trace, Loop(prompt, attempt, answers, decisions, n));
    while true
      invariant n <= |replies| && ki <= |keys| && attempt < MaxAttempts
      invariant n <= |decisions| && Decisions(keys[ki..]) == decisions[n..]
      invariant whole == Prepend(trace, Loop(prompt, attempt, answers, decisions, n))
      decreases |replies| - n
    {
      var st, next := PlayTurn(prompt, attempt, replies, keys, n, ki);
      if st.Stop? {
        RunStops(whole, trace, prompt, attempt, answers, decisions, n);
        trace, ending := trace + st.events, st.ending;
        break;
      }
      RunGoesOn(whole, trace, prompt, attempt, answers, decisions, n);
      trace := trace + st.events;
      prompt, attempt, n, ki := st.prompt, st.attempt, n + 1, next;
    }
    SessionBounds(query, replies, keys);
  }
}
