/**
 * The run state of one mounted quiz and the operations that change it:
 * start-up, answering, the render-time auto-skip, finishing and restart.
 * Rendering a question or the result screen is a change of `phase`.
 */
module Engine {
  import opened Wrappers
  import opened Conditions
  import opened Schema
  import opened Flow
  import opened Results

  /**
   * What the mount point shows: the question at `stepIndex` with its answer
   * buttons, the result screen, or nothing new because `showResult` threw
   * (no forced id and no options).
   */
  datatype Phase = Asking | Finished(view: ResultView) | Failed

  function PhaseOf(r: Option<ResultView>): (p: Phase)
    ensures p.Failed? <==> r.None?
    ensures r.Some? ==> p == Finished(r.value)
  {
    match r
    case Some(v) => Finished(v)
    case None => Failed
  }

  /** `showResult` throws exactly when no id is forced and there is no option to pick from. */
  lemma ShowResultFailsIff(cfg: QuizConfig, scores: Scores, forced: string)
    ensures PhaseOf(ResultOf(cfg, scores, forced)).Failed? <==> forced == "" && cfg.options == []
  {
  }

  /**
   * The forward scan of `gotoNext` and `render`: the first index from
   * `from` on whose question is shown, or the list length when there is none.
   */
  method ScanVisible(qs: seq<Question>, flags: Flags, from: nat) returns (i: nat)
    ensures from <= i && (i <= |qs| || i == from)
    ensures NextVisible(qs, flags, from) == if i < |qs| then Some(i) else None
  {
    i := from;
    while i < |qs| && !Shown(flags, qs[i])
      invariant from <= i && (i <= |qs| || i == from)
      invariant NextVisible(qs, flags, i) == NextVisible(qs, flags, from)
    {
      i := i + 1;
    }
  }

  class QuizState {
    const cfg: QuizConfig
    var flags: Flags
    var scores: Scores
    var stepIndex: nat
    var answeredCount: nat
    var started: bool
    var phase: Phase

    /** `stepIndex` addresses a question, or is 0 for an empty question list. */
    ghost predicate InRange()
      reads this
    {
      stepIndex < |cfg.questions| || stepIndex == 0
    }

    /** The invariant between operations: a question on screen is in range and visible. */
    ghost predicate Valid()
      reads this
    {
      && InRange()
      && (phase.Asking? ==> stepIndex < |cfg.questions| && Shown(flags, cfg.questions[stepIndex]))
    }

    /**
     * The state after a forward scan starting at `from`, the run standing at
     * `k`: the first visible question is on screen, or, when there is none,
     * `stepIndex` stays at `k` and the score-picked result is shown.
     */
    ghost predicate AdvancedFrom(k: nat, from: nat)
      reads this
    {
      match NextVisible(cfg.questions, flags, from)
      case Some(i) => stepIndex == i && phase == Asking
      case None => stepIndex == k && phase == PhaseOf(ResultOf(cfg, scores, ""))
    }

    /**
     * The routing of `gotoNext` from step `k` under branch directive `next`:
     * a question id jumps there (then settles), a `result:<id>` marker
     * finishes with that id, anything else advances to the next visible
     * question after `k`.
     */
    ghost predicate RoutedFrom(k: nat, next: string)
      reads this
    {
      var target := if next != "" then IndexOf(QuestionIds(cfg.questions), next) else None;
      if target.Some? then AdvancedFrom(target.value, target.value)
      else if next != "" && IsForcedMarker(next) then
        stepIndex == k && phase == PhaseOf(ResultOf(cfg, scores, ForcedId(next)))
      else AdvancedFrom(k, k + 1)
    }

    /** Builds the initial state from the configuration and renders it. */
    constructor (cfg: QuizConfig)
      ensures Valid()
      ensures this.cfg == cfg && flags == map[] && answeredCount == 0 && !started
      ensures scores == map id | id in OptionIds(cfg.options) :: 0
      ensures AdvancedFrom(0, 0)
    {
      this.cfg := cfg;
      flags := map[];
      scores := map id | id in OptionIds(cfg.options) :: 0;
      stepIndex := 0;
      answeredCount := 0;
      started := false;
      phase := Failed;  // nothing rendered yet; Render decides
      new;
      Render();
    }

    /** `showResult`: the forced id if non-empty, else the score arg-max. */
    method ShowResult(forced: string)
      modifies this`phase
      ensures phase == PhaseOf(ResultOf(cfg, scores, forced))
    {
      var resId := forced;
      if resId == "" {
        var picked := PickResult(cfg.options, scores);
        if picked.None? {
          phase := Failed;
          return;
        }
        resId := picked.value;
      }
      phase := Finished(ResolveView(cfg, resId));
    }

    /**
     * `render`: a current question that no longer passes its `showif` is
     * skipped forward to the next visible one; with none left, or with no
     * question at all, the result is shown.
     */
    method Render()
      requires InRange()
      modifies this`stepIndex, this`phase
      ensures Valid()
      ensures AdvancedFrom(old(stepIndex), old(stepIndex))
      ensures old(stepIndex) < |cfg.questions| && Shown(flags, cfg.questions[old(stepIndex)]) ==>
                stepIndex == old(stepIndex) && phase == Asking
    {
      var qs := cfg.questions;
      while stepIndex < |qs| && !Shown(flags, qs[stepIndex])
        modifies this`stepIndex
        invariant InRange()
        invariant NextVisible(qs, flags, stepIndex) == NextVisible(qs, flags, old(stepIndex))
        invariant stepIndex == old(stepIndex) || (stepIndex < |qs| && Shown(flags, qs[stepIndex]))
        decreases |qs| - stepIndex
      {
        var i := ScanVisible(qs, flags, stepIndex + 1);
        if i == |qs| {
          break;  // no visible question left: the result is shown below
        }
        stepIndex := i;
      }
      if stepIndex < |qs| && Shown(flags, qs[stepIndex]) {
        phase := Asking;
      } else {
        ShowResult("");
      }
    }

    /**
     * `gotoNext`: merge the answer's flags, add its score deltas, count it,
     * then route by its branch directive or advance.
     */
    method GotoNext(answer: Answer)
      requires InRange()
      modifies this`flags, this`scores, this`answeredCount, this`stepIndex, this`phase
      ensures Valid()
      ensures flags == Merge(old(flags), answer.assigns)
      ensures scores == AddScores(old(scores), answer.add)
      ensures answeredCount == old(answeredCount) + 1
      ensures RoutedFrom(old(stepIndex), answer.next)
    {
      flags := Merge(flags, answer.assigns);
      AddDeltas(answer.add);
      answeredCount := answeredCount + 1;
      Route(answer.next);
    }

    /** The score loop of `gotoNext`: one update per key of `add`. */
    method AddDeltas(add: map<string, int>)
      modifies this`scores
      ensures scores == AddScores(old(scores), add)
    {
      var pending := add.Keys;
      assert add - pending == map[];
      assert AddScores(scores, map[]) == scores;
      while pending != {}
        invariant pending <= add.Keys
        invariant scores == AddScores(old(scores), add - pending)
        decreases pending
      {
        var k :| k in pending;
        AddScoresOneMore(old(scores), add - pending, k, add[k]);
        assert (add - pending)[k := add[k]] == add - (pending - {k});
        scores := scores[k := ScoreOf(scores, k) + add[k]];
        pending := pending - {k};
      }
      assert add - {} == add;
    }

    /** The routing half of `gotoNext`, after the answer has been accumulated. */
    method Route(next: string)
      requires InRange()
      modifies this`stepIndex, this`phase
      ensures Valid()
      ensures RoutedFrom(old(stepIndex), next)
    {
      var qs := cfg.questions;
      if next != "" {
        var target := IndexOf(QuestionIds(qs), next);
        if target.Some? {
          stepIndex := target.value;
          Render();
          return;
        }
        if IsForcedMarker(next) {
          ShowResult(ForcedId(next));
          return;
        }
      }
      Advance();
    }

    /** The default advance of `gotoNext`: the next visible question after the current one, or the result. */
    method Advance()
      requires InRange()
      modifies this`stepIndex, this`phase
      ensures Valid()
      ensures AdvancedFrom(old(stepIndex), old(stepIndex) + 1)
    {
      var qs := cfg.questions;
      var i := ScanVisible(qs, flags, stepIndex + 1);
      if i < |qs| {
        stepIndex := i;
        Render();
      } else {
        ShowResult("");
      }
    }

    /**
     * The click handler of an answer button: the first answer of a run
     * starts it (the result says whether this click did), then `gotoNext`.
     */
    method Choose(answer: Answer) returns (firstAnswer: bool)
      requires Valid() && phase.Asking?
      requires answer in cfg.questions[stepIndex].answers && PassesShowIf(flags, answer.showif)
      modifies this
      ensures firstAnswer == !old(started) && started
      ensures Valid()
      ensures flags == Merge(old(flags), answer.assigns)
      ensures scores == AddScores(old(scores), answer.add)
      ensures answeredCount == old(answeredCount) + 1
      ensures RoutedFrom(old(stepIndex), answer.next)
    {
      firstAnswer := !started;
      if !started {
        started := true;
      }
      GotoNext(answer);
    }

    /**
     * `reset`: clear the flags, zero every score key (the key set is kept),
     * go back to the first step and render.
     */
    method Reset()
      requires InRange()
      modifies this`flags, this`scores, this`stepIndex, this`answeredCount, this`started, this`phase
      ensures Valid()
      ensures flags == map[] && answeredCount == 0 && !started
      ensures scores.Keys == old(scores).Keys && forall k :: k in scores ==> scores[k] == 0
      ensures AdvancedFrom(0, 0)
    {
      flags := map[];
      var pending := scores.Keys;
      while pending != {}
        modifies this`scores
        invariant pending <= scores.Keys == old(scores).Keys
        invariant forall k :: k in scores && k !in pending ==> scores[k] == 0
        decreases pending
      {
        var k :| k in pending;
        scores := scores[k := 0];
        pending := pending - {k};
      }
      stepIndex := 0;
      answeredCount := 0;
      started := false;
      Render();
    }
  }

  /** The scores after the score deltas of `answers`, applied in order. */
  function Replayed(scores: Scores, answers: seq<Answer>): Scores
    decreases answers
  {
    if answers == [] then scores else Replayed(AddScores(scores, answers[0].add), answers[1..])
  }

  predicate AgreeOn(s1: Scores, s2: Scores, ids: set<string>)
  {
    forall k :: k in ids ==> ScoreOf(s1, k) == ScoreOf(s2, k)
  }

  /** Replaying the same answers keeps two score maps in agreement on a set of ids. */
  lemma {:induction false} ReplayedAgree(s1: Scores, s2: Scores, answers: seq<Answer>, ids: set<string>)
    requires AgreeOn(s1, s2, ids)
    ensures AgreeOn(Replayed(s1, answers), Replayed(s2, answers), ids)
    decreases answers
  {
    if answers != [] {
      AddScoresAgree(s1, s2, answers[0].add, ids);
      ReplayedAgree(AddScores(s1, answers[0].add), AddScores(s2, answers[0].add), answers[1..], ids);
    }
  }

  /**
   * Replay after restart: the zeroed scores `reset` leaves (whatever extra
   * keys they carry) and the fresh scores of a new run select the same
   * result after the same answers.
   */
  lemma ReplayAfterReset(cfg: QuizConfig, zeroed: Scores, answers: seq<Answer>, forced: string)
    requires forall k :: k in zeroed ==> zeroed[k] == 0
    ensures var initial := map id | id in OptionIds(cfg.options) :: 0;
            ResultOf(cfg, Replayed(zeroed, answers), forced) == ResultOf(cfg, Replayed(initial, answers), forced)
  {
    var initial := map id | id in OptionIds(cfg.options) :: 0;
    var ids := set j | 0 <= j < |cfg.options| :: cfg.options[j].id;
    ReplayedAgree(zeroed, initial, answers, ids);
    ResultOfAgree(cfg, Replayed(zeroed, answers), Replayed(initial, answers), forced);
  }

  /**
   * A two-question run where both answers favour outcome "x": the first
   * answer starts the run and moves to the second question, the second
   * finishes with "x".
   */
  method TwoQuestionRun()
  {
    var ax := Answer("ax", map[], map["x" := 2], "", None);
    var ay := Answer("ay", map[], map["y" := 1], "", None);
    var cfg := QuizConfig(
      [Outcome("x", "X", "", ""), Outcome("y", "Y", "", "")],
      [Question("q1", [ax, ay], None), Question("q2", [ax, ay], None)],
      map[], "", "", "", "");
    var qs := cfg.questions;
    var run := new QuizState(cfg);
    assert NextVisible(qs, run.flags, 0) == Some(0);
    assert run.stepIndex == 0 && run.phase == Asking;
    assert ScoreOf(run.scores, "x") == 0 && ScoreOf(run.scores, "y") == 0 by {
      assert OptionIds(cfg.options) == ["x", "y"];
    }

    assert ax in qs[0].answers;
    var first := run.Choose(ax);
    assert run.AdvancedFrom(0, 1);
    assert NextVisible(qs, run.flags, 1) == Some(1);
    assert first && run.stepIndex == 1 && run.phase == Asking;
    assert ScoreOf(run.scores, "x") == 2 && ScoreOf(run.scores, "y") == 0;

    assert ax in qs[1].answers;
    first := run.Choose(ax);
    assert run.AdvancedFrom(1, 2);
    assert !first && ScoreOf(run.scores, "x") == 4 && ScoreOf(run.scores, "y") == 0;
    var result := ResultOf(cfg, run.scores, "");
    assert result.Some? && result.value.id in ["x", "y"] by {
      assert OptionIds(cfg.options) == ["x", "y"];
    }
    assert run.phase == Finished(result.value) && result.value.id == "x";
  }
}
