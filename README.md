# Quiz flow engine — a Dafny model

This project models the flow engine of the embeddable quiz widget `quiz.js`.
A quiz configuration lists candidate outcomes and an ordered list of
questions. Each question offers answer buttons. An answer may set flags,
add score deltas to outcomes, and name a branch directive (`next`).

The model covers:

- the `showif` visibility conditions of questions and answers
  (`eq`, `neq`, `in`, `exists`);
- the percent-complete figure in the header;
- the order-stable arg-max that picks the outcome;
- how the result screen resolves its title and calls to action;
- the run state and its operations: start-up, the click handler, `gotoNext`
  with its jump, forced-result and default-advance routing, the render-time
  auto-skip of hidden questions, `showResult` and `reset`.

The modules follow the program's parts:

| file | module | contents |
|---|---|---|
| `wrappers.dfy` | `Wrappers` | `Option` |
| `conditions.dfy` | `Conditions` | flag values, clauses, `passesShowIf` |
| `schema.dfy` | `Schema` | configuration records, score lookup, `findIndex` by id |
| `flow.dfy` | `Flow` | visible questions, the forward scan, `result:<id>` markers, flag merge, score addition |
| `progress.dfy` | `Progress` | `progressPercent` |
| `results.dfy` | `Results` | `pickResult`, the outcome lookup, the result screen's texts |
| `engine.dfy` | `Engine` | the class `QuizState` with the operations that change the run |

What the mount point shows is the field `phase` of `QuizState`:

- `Asking` means the question at `stepIndex` is on screen.
- `Finished(view)` means the result screen `view` is on screen.
- `Failed` means `showResult` threw. This happens when there is no forced id and no options.

Absent optional strings are `""`, which is how the code treats them: every
use is a truthiness test or an `||` chain.

Three behaviours of the code are worth knowing:

- An `add` key that names no outcome creates a new score entry (quiz.js:93).
- A `next` that is a question id is tried before the `result:` prefix (quiz.js:102-105).
- A `result:` marker with an empty id (`"result:"`) falls back to the score arg-max (quiz.js:106 and 192).

## Model

| member | source | states |
|---|---|---|
| Conditions.ClauseSemantics | quiz.js:13-18 | `ClausePasses` (the `Holds` of the clause's `TestOf`): the first key present decides, in the order eq, neq, in, exists. `eq` holds iff the flag is set and strictly equal. `neq` holds iff it is not. `in` holds iff the flag is set and in the list, so an empty list never holds. `exists` holds iff being set matches the wanted truth value. A clause with no key passes. |
| Conditions.AllPass | quiz.js:12-19 | `every` over a clause list: true iff each clause passes. |
| Conditions.ShowIfIsConjunction | quiz.js:10-12 | `PassesShowIf`: a node without `showif`, or with an empty list, is shown. Otherwise it is shown iff every clause passes. |
| Conditions.AllPassAppend | quiz.js:12 | The conjunction of two clause lists passes iff both do. |
| Conditions.AllPassFrame | quiz.js:13 | Visibility reads only the flags at the clauses' paths. Flags that agree there give the same answer. |
| Conditions.Paths | quiz.js:13 | A path is in the set iff some clause of the list reads it. |
| Conditions.TestOfFirstKey | quiz.js:14-18 | `TestOf` yields the test of the first present key in the order eq, neq, in, exists, and no test iff none is present. |
| Conditions.UnsetFlagHolds | quiz.js:13-17 | `Holds` on an unset (`undefined`) flag: `eq` and `in` fail, `neq` and no test pass, `exists` passes iff it asks for absence. |
| Schema.ScoreOfReadWrite | quiz.js:34 | `ScoreOf`, the `scores[k] \|\| 0` read: an id missing from the scores reads as 0, a written score reads back, and writing one id leaves the others untouched. |
| Schema.IndexOf | quiz.js:102 | `findIndex` by id: the first position holding the id, all earlier positions differ, and None iff the id is absent. |
| Flow.Visible | quiz.js:24 | The filter: no longer than the list, and a question is in it iff it is in the list and shown. |
| Flow.VisibleAppend | quiz.js:24 | Filtering distributes over concatenation. |
| Flow.VisibleUpTo | quiz.js:82-84 | The visible questions among the first idx+1: at most idx+1 long, and followed by the visible questions of the rest of the list it makes up all visible questions. `visibleQuestionsUpTo` has no caller in quiz.js: the progress figure filters the whole list (quiz.js:24). |
| Flow.NextVisible | quiz.js:112-116 | The forward scan lands on an index at or after the start, inside the list, whose question is shown. |
| Flow.NextVisibleIsFirst | quiz.js:112-116 | Every question the scan passes over is hidden. It finds none iff all questions from the start on are hidden. |
| Flow.NextVisibleStep | quiz.js:254 | From a shown index the scan stays. From a hidden one it moves to the next index. |
| Flow.NextVisibleFindsVisible | quiz.js:254-256 | The scan finds a question iff the visible questions from the start on are non-empty. |
| Flow.ForcedId | quiz.js:105-106 | The id read from `result:<id>` follows the prefix, contains no ':', and ends at the end of the directive or at a ':'. |
| Flow.ForcedMarkerStartsWith | quiz.js:105 | `IsForcedMarker` is `startsWith('result:')`: the first seven characters are the prefix, so a marker is never empty. |
| Flow.FieldBeforeColon | quiz.js:106 | A prefix of the input with no ':', ending at the input's end or just before a ':'. |
| Flow.ForcedMarkerRoundTrip | quiz.js:105-106 | For an id without ':', `result:` + id is a forced marker and reads back as the id. |
| Flow.Merge | quiz.js:88 | `Object.assign`: the keys are the union, assigned keys take the new value, and the other flags are kept. |
| Flow.AddScores | quiz.js:91-95 | Every key of `add` rises by its delta from its old score (missing read as 0). Every other score is kept. The key set becomes the union. |
| Flow.AddScoresOneMore | quiz.js:92-93 | One more delta key is one more single-key score update. |
| Flow.AddScoresTwice | quiz.js:91-95 | Two answers add up: each score ends at its start plus both deltas. |
| Flow.AddScoresAgree | quiz.js:93 | Scores that agree on a set of ids still agree after the same deltas. |
| Progress.VisibleCount | quiz.js:24 | The number of visible questions is at most the list length. |
| Progress.ProgressPercent | quiz.js:23-28 | At most 100. It is 0 when nothing is visible and 100 once answers reach the visible count. Otherwise it is the integer nearest 100·min(answered, visible)/visible, with halves rounded up. |
| Progress.RoundedPercent | quiz.js:27 | (200a+v) div 2v is the rounded percent: at most 100, 100 when a = v, and within half a point of 100a/v. |
| Progress.ProgressMonotone | quiz.js:26-27 | Answering more never lowers the percent under the same flags. |
| Results.BestIndex | quiz.js:31-38 | The arg-max index: its score is maximal, and every earlier option scores strictly less. |
| Results.BestIndexUnique | quiz.js:35 | Maximal-and-earliest determines the index: any such k is the arg-max. |
| Results.BestIndexAgree | quiz.js:34 | The arg-max reads scores only through the options' ids. |
| Results.PickResult | quiz.js:31-38 | The loop returns None iff there are no options. Otherwise it returns the id of the arg-max option. |
| Results.PickResultExamples | quiz.js:35 | A tie keeps the first-listed option. A strictly higher later score wins. |
| Results.FindOutcome | quiz.js:193 | The first option with the id, or None iff no option carries it. |
| Results.FirstNonEmpty | quiz.js:199 | An `a \|\| b \|\| fallback` chain returns the first non-empty candidate, else the fallback. It is empty iff everything is. |
| Results.OutcomeFor | quiz.js:193 | The first option carrying the id, as `find` returns it, or the stub `{id, label: id}` for an unknown id. |
| Results.ResolveView | quiz.js:198-227 | The screen carries the id, a non-empty title, a non-empty primary URL and caption, and a secondary call to action only with a non-empty URL and caption. |
| Results.MissingNoteFallsThrough | quiz.js:203 | `NoteOf` with no note for the id is the empty note, so the calls to action fall through to the outcome and then the global settings. |
| Results.ResultScreenFallbacks | quiz.js:199-222 | Precedence: the outcome label, else "Result". The primary URL and caption come from the note, else the outcome, else the global setting, else "#" / "Continue". The secondary appears iff both its URL and label resolve, note before global. |
| Results.FirstOfThree | quiz.js:215-216 | A three-candidate chain returns the first non-empty of a, b, c, else the fallback. |
| Results.ResultOf | quiz.js:191-193 | The view is the result screen of its id. A non-empty forced id wins. Without one, the result is None iff there are no options; otherwise its id is that of the arg-max option `BestIndex` picks, so its score is maximal. |
| Results.ResultOfTieBreak | quiz.js:35 | Without a forced id the chosen option is preceded only by options scoring strictly less: ties keep the earliest-listed option. |
| Results.ForcedIgnoresScores | quiz.js:192 | A forced result does not depend on the scores. |
| Results.ResultOfAgree | quiz.js:192 | Scores that agree on every option id select the same result. |
| Engine.ShowResultFailsIff | quiz.js:191-193 | The phase `showResult` reaches is Failed (the source throws at `options[0].id`) iff no id is forced and there are no options. |
| Engine.ScanVisible | quiz.js:253-254 | The while loop ends at the index the forward scan finds, or at the list end when it finds none. |
| Engine.QuizState.constructor | quiz.js:63-71 | Initial state: empty flags, a zero score for every option id, nothing answered, not started. The first render lands on the first visible question or on the result. |
| Engine.QuizState.ShowResult | quiz.js:191-193 | The phase becomes the result for the forced id, or for the score arg-max, or Failed. |
| Engine.QuizState.Render | quiz.js:247-268 | Keeps the invariant. A shown current question stays on screen. A hidden one is skipped forward to the first visible question after it, else the result is shown. |
| Engine.QuizState.GotoNext | quiz.js:86-119 | The flags become the merge, the scores the sum with the deltas, and the answered count rises by one. The routing follows the directive: a question id jumps there, `result:<id>` finishes with that id, anything else advances. |
| Engine.QuizState.AddDeltas | quiz.js:91-95 | The loop over the delta keys ends with the scores equal to AddScores of the old scores. |
| Engine.QuizState.Route | quiz.js:99-109 | A question id is tried first (jump, then settle). Then `result:<id>` (finish, step unchanged). Otherwise the default advance. |
| Engine.QuizState.Advance | quiz.js:111-118 | Goes to the first visible question after the current step, else shows the result with the step unchanged. |
| Engine.QuizState.Choose | quiz.js:169-183 | The first answer of a run starts it and reports so, and only the first does. Then the same state change as `gotoNext`. |
| Engine.QuizState.Reset | quiz.js:73-80 | Clears the flags and the counters, and zeroes every score while keeping the key set. Then renders from the first step. |
| Engine.ReplayedAgree | quiz.js:91-95 | Replaying the same answers keeps two score maps in agreement on a set of ids. |
| Engine.ReplayAfterReset | quiz.js:66-75 | After `reset` the zeroed scores, with any extra keys, select the same result as a fresh run's scores after the same answers. |

## Left out

- The DOM is not modelled: the elements built, `innerHTML` and the event wiring. Rendering is the change of `phase`. The question text, tooltips, photos and answer labels are left out, and so are the result note's text and photo.
- Loading the configuration with `fetch`, the `data-config` and `data-root` attributes, and the auto-boot over `script` tags are I/O. The model starts from a parsed configuration.
- Analytics (`sendGA` and the `gtag` events) are left out. They do not affect the flow.
- `Math.round` over floating point is replaced by exact rational rounding with halves rounded up. The model does not capture floating-point error at halves, `NaN` or `-Infinity`.
- `Number(...)` coercion of scores and deltas is left out. Deltas and scores are integers.
- Flag values are JSON primitives, with numbers as integers. Arrays and objects are not modelled: the code compares them by reference.
- Keys inherited from `Object.prototype` are not modelled as flags or scores. An `in` clause whose value is a string, so that `includes` does a substring search, is not modelled either.
- A non-boolean `exists` value is taken as already reduced to its truthiness.
- After `showResult` throws (the `Failed` phase), the previous question's buttons would stay clickable. The model does not allow `Choose` outside the `Asking` phase.
- The `answer`/`label` fall-backs for button text are not modelled. They affect only what is displayed.
