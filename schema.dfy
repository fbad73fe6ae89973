/**
 * The immutable quiz configuration: candidate outcomes, questions, answers
 * and result notes. Optional text fields that the configuration may omit are
 * strings, with "" standing for an absent (falsy) field.
 */
module Schema {
  import opened Wrappers
  import opened Conditions

  /**
   * An answer button: `assigns` is the answer's `set` (flag path to value),
   * `add` its score deltas by outcome id, `next` its branch directive.
   */
  datatype Answer = Answer(
    id: string,
    assigns: map<string, Value>,
    add: map<string, int>,
    next: string,
    showif: Option<seq<Clause>>)

  datatype Question = Question(id: string, answers: seq<Answer>, showif: Option<seq<Clause>>)

  /** A candidate outcome: `caption` is its `label`, `cta` its call-to-action URL override. */
  datatype Outcome = Outcome(id: string, caption: string, cta: string, ctaLabel: string)

  /** Per-outcome overrides from `result_notes`. */
  datatype ResultNote = ResultNote(ctaUrl: string, ctaLabel: string, cta2Url: string, cta2Label: string)

  datatype QuizConfig = QuizConfig(
    options: seq<Outcome>,
    questions: seq<Question>,
    notes: map<string, ResultNote>,
    ctaUrl: string,
    ctaLabel: string,
    cta2Url: string,
    cta2Label: string)

  type Scores = map<string, int>

  /** A score with a missing entry read as 0. */
  function ScoreOf(scores: Scores, id: string): int
  {
    if id in scores then scores[id] else 0
  }

  /** A missing score reads as 0; a written score reads back; writing one id leaves the others untouched. */
  lemma ScoreOfReadWrite(scores: Scores, id: string, k: string, v: int)
    ensures id !in scores ==> ScoreOf(scores, id) == 0
    ensures ScoreOf(scores[id := v], id) == v
    ensures k != id ==> ScoreOf(scores[id := v], k) == ScoreOf(scores, k)
  {
  }

  function QuestionIds(qs: seq<Question>): (ids: seq<string>)
    ensures |ids| == |qs| && forall i :: 0 <= i < |qs| ==> ids[i] == qs[i].id
  {
    seq(|qs|, i requires 0 <= i < |qs| => qs[i].id)
  }

  function OptionIds(os: seq<Outcome>): (ids: seq<string>)
    ensures |ids| == |os| && forall i :: 0 <= i < |os| ==> ids[i] == os[i].id
  {
    seq(|os|, i requires 0 <= i < |os| => os[i].id)
  }

  /** `findIndex` by id: the first position holding `x`, or None. */
  function IndexOf(ids: seq<string>, x: string): (r: Option<nat>)
    ensures r.Some? ==> r.value < |ids| && ids[r.value] == x
    ensures r.Some? ==> forall j :: 0 <= j < r.value ==> ids[j] != x
    ensures r.None? <==> x !in ids
  {
    if ids == [] then None
    else if ids[0] == x then Some(0)
    else match IndexOf(ids[1..], x)
      case None => None
      case Some(i) => Some(i + 1)
  }
}
