# terminal-x: a model of the suggestion loop

terminal-x (`x`) turns a description in words ("list s3 buckets") into a
shell command. Its main file, `index.js`, does four things, and this
project models each of them:

1. It joins the command-line arguments into a query.
2. It looks up an API key: the `OPENAI_TOKEN` variable first, then the
   key file `~/.x`.
3. It builds a prompt from the query and asks the completion provider for
   a command.
4. It runs the suggestion session. The suggestion is shown. Return launches
   it. Space asks for a different suggestion, with the rejected one appended
   to the prompt. Ctrl-C quits. The session gives up after three rejections.

The remote completion and the keyboard are inputs to the model:

- The replies to successive requests are a sequence of `Reply` values.
- The keys pressed are a sequence of `Key` values.

A session is described by an `Outcome`. It holds the trace of what the
session did (`Requested(prompt)`, `Launched(command)`,
`Rejected(suggestion)`) and the reason it stopped.

Modules:

- `PromptBuilder` (prompt.dfy): the seed prompt and how a rejection extends it.
- `Suggestion` (suggestion.dfy): how a completion reply becomes a command or
  an error. This is `getSuggestion` after its HTTP call.
- `SessionModel` (session_model.dfy): the reference definition of a session,
  one turn of `while (true)` at a time (`Turn`, `Loop`, `Run`), and the line
  reported on failure.
- `SessionProperties` (session_properties.dfy): what every session guarantees,
  proved over `Run`.
- `Session` (session.dfy): the session as the loop it is in the source. The
  methods update the prompt and the attempt counter in place and read keys
  until one decides. Each is proved to compute what `SessionModel` defines.
- `Cli` (cli.dfy): the query, `getApiKey` and the top-level dispatch.
- `Scenarios` (scenarios.dfy): three whole sessions worked through.

Four details of index.js are easy to misread; the model follows the code:

- Only one leading `!` is stripped, and trimming happens before the strip.
  "!!ls" gives "!ls", and " ! ls" gives " ls" with its leading space.
- Accepting a suggestion does not end the loop. There is no `break` after
  `ShellJS.exec`, so the session sends the same prompt again and waits for
  another decision.
- Running out of attempts throws the same Error as an empty completion. The
  user sees "Error: No suggestion found" in both cases.
- Ctrl-C is handled by its own listener. The model honours it while a
  suggestion waits for a decision.

## Model

| member | source | states |
|---|---|---|
| PromptBuilder.Initial | index.js:75 | The seed prompt is the `# Bash` / `# ` header, then the query, then a newline. Each part sits at its stated position. |
| PromptBuilder.ExtendMeaning | index.js:114 | A rejection keeps the old prompt as a prefix and appends exactly the suggestion followed by the "Same command, but differently formatted" comment. |
| PromptBuilder.InitialDeterminesQuery | index.js:75 | Two queries give the same seed prompt if and only if they are equal. |
| PromptBuilder.ExtendAllAppendsBlocks | index.js:114 | N successive rejections leave the starting prompt followed by one suggestion-and-comment block per rejection, in rejection order. |
| PromptBuilder.BlocksMonotone | index.js:114 | More rejections only add text: the blocks for a prefix of the rejections are a prefix of the blocks for all of them. |
| Suggestion.TrimMeaning | index.js:58 | `trim()`: the result is a contiguous part of the input that starts at the first non-space character. Its ends are not white space, and everything cut away is white space. |
| Suggestion.StripBangMeaning | index.js:58 | `replace(/^!/, '')`: the result is the input less at most its first character. That character is dropped exactly when it is a '!'. |
| Suggestion.NormaliseMeaning | index.js:54-63 | A failed request gives its error. A falsy response or an empty `choices` gives NoSuggestionFound. Otherwise the trimmed first choice, less one leading '!', is the suggestion. It is refused (NoSuggestionFound) exactly when the trimmed choice is empty or a lone '!'. A suggestion is never empty. |
| Suggestion.TrimIdempotent | index.js:58 | Trimming a trimmed string changes nothing. |
| Suggestion.CleanChoiceTakenVerbatim | index.js:58-63 | A first choice with no white space at its ends and no leading '!' is the suggestion, unchanged. |
| Suggestion.FirstChoiceOnly | index.js:58 | Only `choices[0]` matters; the other choices never affect the result. |
| Suggestion.DoubleBangKeepsOne | index.js:58 | "!!ls" suggests "!ls": only one '!' is stripped. |
| Suggestion.SpaceAfterBangKept | index.js:58 | " ! ls" suggests " ls": the trim comes before the strip. |
| Suggestion.LoneBangRefused | index.js:58-61 | " ! " is refused with NoSuggestionFound. |
| Suggestion.BlankRefused | index.js:58-61 | Any first choice that trims to nothing is refused with NoSuggestionFound, whatever the other choices. |
| SessionModel.FirstDecision | index.js:86-101 | The wait for a decision ends at the first key that decides something. Every earlier key is ignored. If no key decides, there is no decision. |
| SessionModel.AnswerAt | index.js:54-63 | The answer to the k-th request is the k-th reply, normalised. |
| SessionModel.TurnStart | index.js:79-115 | Every turn begins with a request for the current prompt and adds at most a launch or a rejection. A turn of one event stops, but not exhausted. A turn that goes on stays below the limit of three attempts. |
| SessionModel.TurnActs | index.js:80-110 | A turn has a second event exactly when its answer is a suggestion and its decision is Execute or Reject. That event acts on the turn's suggestion. It is a launch exactly when the decision is Execute, and a rejection exactly when it is Reject. |
| SessionModel.TurnContinues | index.js:103-115 | Return keeps the prompt and the counter. Space extends the prompt by the rejected suggestion and counts the attempt. The turn stops exhausted exactly at the third rejection. |
| SessionModel.TurnStops | index.js:78-121 | A turn fails exactly when its request's answer is an error, and then with that error. It stops waiting exactly when no reply is left. |
| SessionModel.Report | index.js:118-121 | The failure line appears exactly for failures and exhaustion. Exhaustion and an empty completion both show "Error: No suggestion found". A failed request shows its own message. |
| SessionProperties.KeyMeaning | index.js:69-73 | Ctrl+C aborts, 'return' executes, 'space' rejects, and every other key decides nothing (the if-and-only-if holds both ways for each). |
| SessionProperties.FirstDecisionTakesNext | index.js:86-101 | The wait consumes the keys up to and including the first deciding key. What it finds is the next element of the session's decision sequence. |
| SessionProperties.IgnoredKeyIsInert | index.js:88-97 | Inserting a key that decides nothing anywhere in the key sequence leaves the whole session unchanged. |
| SessionProperties.SessionBounds | index.js:109-110 | At most three suggestions are rejected. The session ends exhausted if and only if three were rejected. Requests never exceed replies by more than one. |
| SessionProperties.SessionPromptAt | index.js:75-114 | Every request's prompt is the seed prompt plus one block per suggestion rejected before it, in order. At most two rejections precede any request. |
| SessionProperties.PromptsOnlyGrow | index.js:114 | Each prompt sent is a prefix of every later prompt of the session. |
| SessionProperties.SessionDecisionAt | index.js:80-107 | A launch or a rejection directly follows a request. If that request was the k-th, the k-th reply normalises to exactly that suggestion, and the k-th decision was Execute for a launch or Reject for a rejection. |
| SessionProperties.SessionLaunchAt | index.js:103-107 | After a launch the session goes on: the next event is a request with the same prompt as before. |
| SessionProperties.SessionRejectAt | index.js:108-114 | After the first or second rejection comes a request whose prompt is the previous prompt extended by the rejected suggestion. The third rejection is the last event, and the session ends exhausted. |
| SessionProperties.LoopEnding | index.js:69-121 | From any turn on, a session that fails, is interrupted or runs out ends on a request. The answer to that request and the decision after it explain the ending. |
| SessionProperties.SessionEnding | index.js:78-121 | A session that fails ends on a request, the k-th, and the k-th reply normalises to exactly that error. |
| SessionProperties.SessionInterrupted | index.js:69-73 | Ctrl-C ends a session only while a suggestion waits: the last event is the k-th request, whose reply was a suggestion, and the k-th decision is Abort. |
| SessionProperties.SessionRunsOut | index.js:80-101 | Out of replies, the last event is a request and every reply has been used. Out of keys, the last reply was a suggestion and every decision has been used. |
| SessionProperties.LoopFailureAt | index.js:78-121 | From any turn on, a request whose answer is an error is the last event, and the session fails with that error. |
| SessionProperties.SessionFailureAt | index.js:78-121 | No retry: if the reply to any request of a session is an error, that request is the last event, and the session fails with that error. |
| SessionProperties.LoopActsAt | index.js:86-115 | From any turn on, if the k-th request is answered with a suggestion s, the k-th decision says what comes next. With no k-th decision the session waits on that request. Ctrl-C ends it there, interrupted. Return makes Launched(s) the next event, and space makes Rejected(s) the next event. Every earlier request has used a decision. |
| SessionProperties.SessionActsAt | index.js:86-115 | The same for a whole session, in terms of the replies and keys: a suggestion from the k-th reply is launched next on Return, rejected next on space, and ends the session on Ctrl-C or when no decision is left. |
| Session.WaitForDecision | index.js:86-101 | The key-reading loop returns the first deciding key and its position, with every earlier key ignored, or none if no key decides. This is the same as FirstDecision. |
| Session.PlayTurn | index.js:79-115 | The body of `while (true)` computes what Turn defines. It hands the next turn the keys after the deciding one. |
| Session.Suggest | index.js:66-122 | The loop's trace and ending equal Run's. The trace starts with the seed prompt. At most three suggestions are rejected, and the session is exhausted exactly at three. |
| Cli.Join | index.js:14 | `args.join(' ')`: the first argument is a prefix, a space follows it when more arguments come, and the length is the arguments' total length plus one space between each two. |
| Cli.JoinAt | index.js:14 | Every argument appears unchanged in the query, in order. The i-th argument starts after the arguments before it plus one space for each of them, and a space follows it when more arguments come. With Join's length, this fixes the whole query. |
| Cli.JoinEmpty | index.js:14 | The query is empty if and only if there are no arguments or a single empty one. |
| Cli.ApiKey | index.js:16-26 | A non-empty OPENAI_TOKEN wins. Otherwise the key file's contents are returned, even empty ones. The key is undefined exactly when there is no truthy token and no file. |
| Cli.TokenTakesPrecedence | index.js:17-19 | With a non-empty token, the key file makes no difference. |
| Cli.Dispatch | index.js:124-132 | Usage is shown if and only if the query is empty. Setup alone runs if and only if the arguments are exactly ["init"]. Any other query runs a session, with setup first exactly when getApiKey gives nothing truthy. |
| Cli.SetupBeforeSession | index.js:130 | Setup precedes a session exactly when there is neither a non-empty token nor a non-empty key file. An empty key file still triggers setup. |
| Cli.InitWithOtherWords | index.js:127 | Any arguments that start with "init" and have more words are an ordinary query, not setup. The session runs, with setup first exactly when there is no truthy key. |
| Scenarios.AcceptLaunchesAndAsksAgain | index.js:103-107 | Accepting "aws s3 ls" for "list s3 buckets" launches it and then requests again with the same prompt. |
| Scenarios.EmptyCompletionFails | index.js:59-61 | An empty completion fails the session after its first request, whatever the keys. The failure line is "Error: No suggestion found". |
| Scenarios.ThreeRejectionsExhaust | index.js:108-114 | For any query and three clean completions, three spaces reject three suggestions. Each rejection extends the next prompt, nothing is launched, and the session ends exhausted. |

## Left out

- The HTTP request of getSuggestion (index.js:36-52) and its parameters (engine, temperature, `stop: ['#']`, the bearer header) are not modelled. Each reply is an input `Reply`: a failed request or a response with or without `choices`.
- A choice without a `text` field makes `trim` throw a TypeError, which the catch reports. This is not modelled separately: its message counts as a failed request's message.
- fetchAndStoreApiKey (index.js:28-33) downloads the key and writes the key file. It is not modelled. `Cli.Dispatch` only says whether it runs.
- The spinner's colours, texts and frames, chalk formatting, the usage text, and the raw-mode and listener set-up on stdin are display and terminal plumbing, and are not modelled.
- ShellJS.exec launches the command asynchronously and is never awaited. It is the `Launched` event; the command itself is not modelled.
- The model honours Ctrl-C only while a suggestion waits for a decision. In the source, `process.exit()` can also happen during a request.
- The model consumes keys only during a wait. Keys pressed while a request is in flight reach no decision listener in the source, and the model does not represent them.
- Replies and keys are finite sequences. The endings NoMoreReplies and NoMoreKeys stand for a session that would go on waiting.
- The white-space set of `Suggestion.IsSpace` is ASCII white space, line terminators, NBSP and BOM. It leaves out the other Unicode space separators that JavaScript's `trim` also removes.
- The process exit status is not modelled.
- The repository's second, near-duplicate implementation of the loop (key from the environment only, another transport) is not part of this model.
