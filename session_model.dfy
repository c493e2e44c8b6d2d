/**
 * The suggestion session of index.js:66-122 as a reference definition over
 * its inputs. The completion provider is a stream of replies, one per request,
 * and the terminal a stream of keypresses. A run is the trace of what the
 * session does (the prompts it sends, the commands it launches, the
 * suggestions it rejects) together with the reason it stops.
 */
module SessionModel {
  import opened Wrappers
  import opened PromptBuilder
  import opened Suggestion

  /** The third rejection ends the session (index.js:110). */
  const MaxAttempts: nat := 3

  /** A keypress as readline reports it: the key's name and whether Ctrl was held. */
  datatype Key = Key(name: string, ctrl: bool)

  /** What a keypress asks of a session waiting for a decision. */
  datatype Decision = Execute | Reject | Abort

  /** A decision and the position of the keypress that made it. */
  datatype Decided = Decided(decision: Decision, at: nat)

  datatype Event =
    | Requested(prompt: string)     // a completion request with this prompt
    | Launched(command: string)     // the accepted suggestion handed to the shell
    | Rejected(suggestion: string)  // the suggestion turned down with space

  datatype Ending =
    | Failed(error: Error)  // getSuggestion threw
    | Exhausted             // the third rejection
    | Interrupted           // Ctrl-C: process.exit()
    | NoMoreReplies         // a request is still outstanding when the replies run out
    | NoMoreKeys            // still waiting for a decision when the keypresses run out

  datatype Outcome = Outcome(trace: seq<Event>, ending: Ending)

  /**
   * The decision a key makes. The Ctrl-C listener is registered first
   * (index.js:69-73) and exits before the decision listener
   * (index.js:87-98) sees the key; that one only knows 'return' and 'space'.
   */
  function Decides(k: Key): Option<Decision>
  {
    if k.ctrl && k.name == "c" then Some(Abort)
    else if k.name == "return" then Some(Execute)
    else if k.name == "space" then Some(Reject)
    else None
  }

  /**
   * The wait for a decision that starts at keys[from]: the first key that
   * decides anything, every key before it being ignored; none when no key
   * from there on decides.
   */
  function FirstDecision(keys: seq<Key>, from: nat): (r: Option<Decided>)
    requires from <= |keys|
    ensures r.Some? ==> from <= r.value.at < |keys| && Decides(keys[r.value.at]) == Some(r.value.decision)
    ensures r.Some? ==> forall j | from <= j < r.value.at :: Decides(keys[j]).None?
    ensures r.None? ==> forall j | from <= j < |keys| :: Decides(keys[j]).None?
    decreases |keys| - from
  {
    if from == |keys| then None
    else match Decides(keys[from])
      case Some(d) => Some(Decided(d, from))
      case None => FirstDecision(keys, from + 1)
  }

  /** The decisions a run of keys makes, in order; the keys that decide nothing drop out. */
  function Decisions(keys: seq<Key>): (ds: seq<Decision>)
    ensures |ds| <= |keys|
  {
    if keys == [] then []
    else (if Decides(keys[0]).Some? then [Decides(keys[0]).value] else []) + Decisions(keys[1..])
  }

  /** The suggestions rejected in a trace, in order. */
  function Rejections(trace: seq<Event>): seq<string>
  {
    if trace == [] then []
    else (if trace[0].Rejected? then [trace[0].suggestion] else []) + Rejections(trace[1..])
  }

  /** How many completion requests a trace holds. */
  function RequestCount(trace: seq<Event>): nat
  {
    if trace == [] then 0
    else (if trace[0].Requested? then 1 else 0) + RequestCount(trace[1..])
  }

  lemma {:induction false} DecisionsAppend(a: seq<Key>, b: seq<Key>)
    ensures Decisions(a + b) == Decisions(a) + Decisions(b)
    decreases |a|
  {
    if a == [] {
      assert a + b == b;
    } else {
      var head := if Decides(a[0]).Some? then [Decides(a[0]).value] else [];
      assert (a + b)[0] == a[0];
      assert (a + b)[1..] == a[1..] + b;
      assert Decisions(a + b) == head + Decisions(a[1..] + b);
      DecisionsAppend(a[1..], b);
      assert Decisions(a) == head + Decisions(a[1..]);
    }
  }

  lemma {:induction false} RejectionsAppend(a: seq<Event>, b: seq<Event>)
    ensures Rejections(a + b) == Rejections(a) + Rejections(b)
    decreases |a|
  {
    if a == [] {
      assert a + b == b;
    } else {
      assert (a + b)[1..] == a[1..] + b;
      RejectionsAppend(a[1..], b);
    }
  }

  lemma {:induction false} RequestCountAppend(a: seq<Event>, b: seq<Event>)
    ensures RequestCount(a + b) == RequestCount(a) + RequestCount(b)
    decreases |a|
  {
    if a == [] {
      assert a + b == b;
    } else {
      assert (a + b)[1..] == a[1..] + b;
      RequestCountAppend(a[1..], b);
    }
  }

  /** What the events of one turn add to the counts. */
  lemma TurnCounts(events: seq<Event>)
    requires 1 <= |events| <= 2 && events[0].Requested?
    requires |events| == 2 ==> !events[1].Requested?
    ensures RequestCount(events) == 1
    ensures Rejections(events) == if |events| == 2 && events[1].Rejected? then [events[1].suggestion] else []
  {
    var tail := events[1..];
    if |events| == 2 {
      assert tail[0] == events[1] && tail[1..] == [];
      assert RequestCount(tail) == 0;
      assert Rejections(tail) == (if events[1].Rejected? then [events[1].suggestion] else []) + Rejections([]);
    } else {
      assert tail == [];
    }
  }

  /** `head` happened first, then `rest`. */
  function Prepend(head: seq<Event>, rest: Outcome): Outcome
  {
    Outcome(head + rest.trace, rest.ending)
  }

  /** Putting two runs of events in front of an outcome one after the other puts them in front together. */
  lemma PrependTwice(head: seq<Event>, more: seq<Event>, rest: Outcome)
    ensures Prepend(head, Prepend(more, rest)) == Prepend(head + more, rest)
  {
    assert head + (more + rest.trace) == (head + more) + rest.trace;
  }

  /** What one turn of the loop did, and how the next turn starts if there is one. */
  datatype Step =
    | Stop(events: seq<Event>, ending: Ending)
    | Next(events: seq<Event>, prompt: string, attempt: nat)

  /** The suggestion a launch or a rejection acted on. */
  function Subject(e: Event): string
    requires !e.Requested?
  {
    if e.Launched? then e.command else e.suggestion
  }

  /** What getSuggestion (index.js:35-64) gives for each reply in turn: a suggestion or an error. */
  function Answers(replies: seq<Reply>): (a: seq<Result<string, Error>>)
    ensures |a| == |replies|
  {
    if replies == [] then [] else [Normalise(replies[0])] + Answers(replies[1..])
  }

  /** The k-th answer is the k-th reply, normalised. */
  lemma {:induction false} AnswerAt(replies: seq<Reply>, k: nat)
    requires k < |replies|
    ensures Answers(replies)[k] == Normalise(replies[k])
    decreases k
  {
    if k > 0 {
      AnswerAt(replies[1..], k - 1);
    }
  }

  /**
   * Turn n of `while (true)` (index.js:79-115): request a suggestion for
   * `prompt`, answered by answers[n], then wait for the n-th decision. An
   * error from the request ends the session at once. Accepting launches the
   * suggestion and goes round again with the same prompt and counter;
   * rejecting counts the attempt and either stops at the third or goes round
   * with the prompt extended by the rejected suggestion.
   */
  function Turn(prompt: string, attempt: nat, answers: seq<Result<string, Error>>, decisions: seq<Decision>, n: nat): Step
    requires attempt < MaxAttempts && n <= |answers| && n <= |decisions|
  {
    if n == |answers| then Stop([Requested(prompt)], NoMoreReplies)
    else match answers[n]
      case Err(e) => Stop([Requested(prompt)], Failed(e))
      case Ok(s) =>
        if n == |decisions| then Stop([Requested(prompt)], NoMoreKeys)
        else match decisions[n]
          case Abort => Stop([Requested(prompt)], Interrupted)
          case Execute => Next([Requested(prompt), Launched(s)], prompt, attempt)
          case Reject =>
            if attempt + 1 == MaxAttempts then Stop([Requested(prompt), Rejected(s)], Exhausted)
            else Next([Requested(prompt), Rejected(s)], Extend(prompt, s), attempt + 1)
  }

  /**
   * The shape of a turn: it starts with a request for the prompt and adds at
   * most a launch or a rejection; a turn that goes on acted on the n-th
   * answer and decision and stays below the limit; a turn of one event stops,
   * and a turn of two that stops is the third rejection.
   */
  lemma TurnStart(prompt: string, attempt: nat, answers: seq<Result<string, Error>>, decisions: seq<Decision>, n: nat)
    requires attempt < MaxAttempts && n <= |answers| && n <= |decisions|
    ensures var st := Turn(prompt, attempt, answers, decisions, n);
            && 1 <= |st.events| <= 2 && st.events[0] == Requested(prompt)
            && (|st.events| == 2 ==> !st.events[1].Requested?)
            && (|st.events| == 1 ==> st.Stop? && st.ending != Exhausted)
            && (st.Stop? && |st.events| == 2 ==> st.events[1].Rejected? && st.ending == Exhausted)
            && (st.Next? ==> |st.events| == 2 && st.attempt < MaxAttempts && n < |answers| && n < |decisions|)
  {
  }

  /**
   * A turn launches or rejects exactly when its answer is a suggestion and
   * its decision is Return or space. The launch or rejection acts on that
   * n-th answer by the n-th decision: Return launches it and space rejects it.
   */
  lemma TurnActs(prompt: string, attempt: nat, answers: seq<Result<string, Error>>, decisions: seq<Decision>, n: nat)
    requires attempt < MaxAttempts && n <= |answers| && n <= |decisions|
    ensures var st := Turn(prompt, attempt, answers, decisions, n);
            |st.events| == 2 <==> n < |answers| && answers[n].Ok? && n < |decisions| && decisions[n] != Abort
    ensures var st := Turn(prompt, attempt, answers, decisions, n);
            |st.events| == 2 ==>
              && !st.events[1].Requested? && n < |answers| && n < |decisions| && answers[n] == Ok(Subject(st.events[1]))
              && (st.events[1].Launched? <==> decisions[n] == Execute)
              && (st.events[1].Rejected? <==> decisions[n] == Reject)
  {
  }

  /**
   * How the next turn starts: accepting keeps the prompt and the counter,
   * rejecting extends the prompt by the rejected suggestion and counts the
   * attempt, and the rejection that reaches the limit stops the session.
   */
  lemma TurnContinues(prompt: string, attempt: nat, answers: seq<Result<string, Error>>, decisions: seq<Decision>, n: nat)
    requires attempt < MaxAttempts && n <= |answers| && n <= |decisions|
    ensures var st := Turn(prompt, attempt, answers, decisions, n);
            && (st.Stop? && st.ending == Exhausted <==> |st.events| == 2 && st.events[1].Rejected? && attempt + 1 == MaxAttempts)
            && (st.Next? && st.events[1].Launched? ==> st.prompt == prompt && st.attempt == attempt)
            && (st.Next? && st.events[1].Rejected? ==>
                 st.prompt == Extend(prompt, st.events[1].suggestion) && st.attempt == attempt + 1)
  {
  }

  /**
   * A failed request stops the session with the n-th answer's error, and
   * a request with no reply left stops it waiting.
   */
  lemma TurnStops(prompt: string, attempt: nat, answers: seq<Result<string, Error>>, decisions: seq<Decision>, n: nat)
    requires attempt < MaxAttempts && n <= |answers| && n <= |decisions|
    ensures var st := Turn(prompt, attempt, answers, decisions, n);
            && (st.Stop? && st.ending.Failed? <==> n < |answers| && answers[n].Err?)
            && (st.Stop? && st.ending.Failed? ==> st.ending.error == answers[n].error)
            && (st.Stop? && st.ending == NoMoreReplies <==> n == |answers|)
  {
  }

  /** The session from turn n on: its turns one after the other until one stops. */
  function Loop(prompt: string, attempt: nat, answers: seq<Result<string, Error>>, decisions: seq<Decision>, n: nat): (o: Outcome)
    requires attempt < MaxAttempts && n <= |answers| && n <= |decisions|
    ensures o.trace != [] && o.trace[0] == Requested(prompt)
    decreases |answers| - n
  {
    TurnStart(prompt, attempt, answers, decisions, n);
    match Turn(prompt, attempt, answers, decisions, n)
    case Stop(events, ending) => Outcome(events, ending)
    case Next(events, p, a) => Prepend(events, Loop(p, a, answers, decisions, n + 1))
  }

  /**
   * One turn of a run that has produced `trace` before turn n: a turn that
   * stops completes the run with its events and its ending.
   */
  lemma RunStops(whole: Outcome, trace: seq<Event>, prompt: string, attempt: nat, answers: seq<Result<string, Error>>, decisions: seq<Decision>, n: nat)
    requires attempt < MaxAttempts && n <= |answers| && n <= |decisions|
    requires whole == Prepend(trace, Loop(prompt, attempt, answers, decisions, n))
    requires Turn(prompt, attempt, answers, decisions, n).Stop?
    ensures var st := Turn(prompt, attempt, answers, decisions, n);
            whole == Outcome(trace + st.events, st.ending)
  {
  }

  /**
   * One turn of a run that has produced `trace` before turn n: a turn that
   * goes on adds its events to the trace, and the run continues from the
   * next turn with the prompt and counter the turn hands on.
   */
  lemma RunGoesOn(whole: Outcome, trace: seq<Event>, prompt: string, attempt: nat, answers: seq<Result<string, Error>>, decisions: seq<Decision>, n: nat)
    requires attempt < MaxAttempts && n <= |answers| && n <= |decisions|
    requires whole == Prepend(trace, Loop(prompt, attempt, answers, decisions, n))
    requires Turn(prompt, attempt, answers, decisions, n).Next?
    ensures var st := Turn(prompt, attempt, answers, decisions, n);
            && st.attempt < MaxAttempts && n < |answers| && n < |decisions|
            && whole == Prepend(trace + st.events, Loop(st.prompt, st.attempt, answers, decisions, n + 1))
  {
    var st := Turn(prompt, attempt, answers, decisions, n);
    TurnStart(prompt, attempt, answers, decisions, n);
    var rest := Loop(st.prompt, st.attempt, answers, decisions, n + 1);
    assert Loop(prompt, attempt, answers, decisions, n) == Prepend(st.events, rest);
    PrependTwice(trace, st.events, rest);
  }

  /**
   * A whole session for `query`: the seed prompt, no attempts yet
   * (index.js:75-76), the replies to its requests and the keys pressed.
   */
  function Run(query: string, replies: seq<Reply>, keys: seq<Key>): (o: Outcome)
    ensures o.trace != [] && o.trace[0] == Requested(Initial(query))
  {
    Loop(Initial(query), 0, Answers(replies), Decisions(keys), 0)
  }

  /** What `error.toString()` gives for the Error thrown at index.js:55, 60 and 118. */
  const NoSuggestionLine: string := "Error: No suggestion found"

  /**
   * The line the spinner fails with when the session ends through the catch
   * of index.js:119-121. Running out of attempts throws the same Error as an
   * empty completion, so the user cannot tell the two apart; a failed
   * request shows its own message. The other endings print nothing.
   */
  function Report(ending: Ending): (line: Option<string>)
    ensures line.Some? <==> ending.Failed? || ending == Exhausted
    ensures line == Some(NoSuggestionLine) <==>
              ending == Exhausted || ending == Failed(NoSuggestionFound) ||
              ending == Failed(RequestError(NoSuggestionLine))
    ensures ending.Failed? && ending.error.RequestError? ==> line == Some(ending.error.message)
  {
    match ending
    case Failed(NoSuggestionFound) => Some(NoSuggestionLine)
    case Failed(RequestError(message)) => Some(message)
    case Exhausted => Some(NoSuggestionLine)
    case _ => None
  }
}
