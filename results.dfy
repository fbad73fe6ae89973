/**
 * Choosing the outcome at the end of a run and resolving what the result
 * screen shows: its title and its primary and secondary calls to action.
 */
module Results {
  import opened Wrappers
  import opened Schema

  /**
   * The order-stable arg-max over the first `n` options: its score is
   * maximal and every earlier option scores strictly less.
   */
  function BestIndex(options: seq<Outcome>, scores: Scores, n: nat): (b: nat)
    requires 0 < n <= |options|
    ensures b < n
    ensures forall j :: 0 <= j < n ==> ScoreOf(scores, options[j].id) <= ScoreOf(scores, options[b].id)
    ensures forall j :: 0 <= j < b ==> ScoreOf(scores, options[j].id) < ScoreOf(scores, options[b].id)
  {
    if n == 1 then 0
    else
      var b := BestIndex(options, scores, n - 1);
      if ScoreOf(scores, options[n - 1].id) > ScoreOf(scores, options[b].id) then n - 1 else b
  }

  /** Maximal-and-earliest determines the index: no other index has both properties. */
  lemma BestIndexUnique(options: seq<Outcome>, scores: Scores, k: nat)
    requires 0 < |options| && k < |options|
    requires forall j :: 0 <= j < |options| ==> ScoreOf(scores, options[j].id) <= ScoreOf(scores, options[k].id)
    requires forall j :: 0 <= j < k ==> ScoreOf(scores, options[j].id) < ScoreOf(scores, options[k].id)
    ensures BestIndex(options, scores, |options|) == k
  {
  }

  /** The arg-max reads scores only through the listed options' ids. */
  lemma {:induction false} BestIndexAgree(options: seq<Outcome>, s1: Scores, s2: Scores, n: nat)
    requires 0 < n <= |options|
    requires forall j :: 0 <= j < |options| ==> ScoreOf(s1, options[j].id) == ScoreOf(s2, options[j].id)
    ensures BestIndex(options, s1, n) == BestIndex(options, s2, n)
  {
    if n > 1 {
      BestIndexAgree(options, s1, s2, n - 1);
    }
  }

  /**
   * `pickResult`: the id of the earliest-listed option with the highest
   * score (missing scores read as 0). With no options the source's
   * `options[0].id` throws; that is None here.
   */
  method PickResult(options: seq<Outcome>, scores: Scores) returns (best: Option<string>)
    ensures options == [] <==> best.None?
    ensures options != [] ==> best == Some(options[BestIndex(options, scores, |options|)].id)
  {
    if options == [] {
      return None;
    }
    var bestId := options[0].id;
    var bestVal := ScoreOf(scores, options[0].id);
    ghost var b := 0;
    for i := 0 to |options|
      invariant b < |options| && (i > 0 ==> b == BestIndex(options, scores, i)) && (i == 0 ==> b == 0)
      invariant bestId == options[b].id && bestVal == ScoreOf(scores, options[b].id)
    {
      var v := ScoreOf(scores, options[i].id);
      if v > bestVal {
        bestVal, bestId := v, options[i].id;
        b := i;
      }
    }
    return Some(bestId);
  }

  /** The first option with the given id, if any. */
  function FindOutcome(options: seq<Outcome>, id: string): (r: Option<Outcome>)
    ensures r.Some? ==> r.value in options && r.value.id == id
    ensures r.None? <==> id !in OptionIds(options)
    ensures r.Some? ==> exists i :: 0 <= i < |options| && options[i] == r.value &&
                          forall j :: 0 <= j < i ==> options[j].id != id
  {
    match IndexOf(OptionIds(options), id)
    case None => None
    case Some(i) => Some(options[i])
  }

  /** `a || b || ... || fallback` over strings: the first non-empty candidate, else the fallback. */
  function FirstNonEmpty(candidates: seq<string>, fallback: string): (r: string)
    ensures forall i :: 0 <= i < |candidates| && candidates[i] != "" ==>
              (forall j :: 0 <= j < i ==> candidates[j] == "") ==> r == candidates[i]
    ensures (forall j :: 0 <= j < |candidates| ==> candidates[j] == "") ==> r == fallback
    ensures r == "" <==> fallback == "" && forall j :: 0 <= j < |candidates| ==> candidates[j] == ""
  {
    if candidates == [] then fallback
    else if candidates[0] != "" then candidates[0]
    else FirstNonEmpty(candidates[1..], fallback)
  }

  datatype Cta = Cta(url: string, caption: string)

  /** What the result screen shows: the outcome id, its title and its calls to action. */
  datatype ResultView = ResultView(id: string, title: string, primary: Cta, secondary: Option<Cta>)

  const NoNote := ResultNote("", "", "", "")

  /**
   * The outcome shown for `resId`: the first option carrying that id, or,
   * for an id no option carries, the stub whose label is the id itself.
   */
  function OutcomeFor(cfg: QuizConfig, resId: string): (o: Outcome)
    ensures o.id == resId
    ensures resId in OptionIds(cfg.options) ==> o in cfg.options && FindOutcome(cfg.options, resId) == Some(o)
    ensures resId !in OptionIds(cfg.options) ==> o == Outcome(resId, resId, "", "")
  {
    match FindOutcome(cfg.options, resId)
    case Some(o) => o
    case None => Outcome(resId, resId, "", "")
  }

  /** The result note for an outcome, or an empty one. */
  function NoteOf(cfg: QuizConfig, resId: string): ResultNote
  {
    if resId in cfg.notes then cfg.notes[resId] else NoNote
  }

  /**
   * An outcome without a result note falls through to the outcome's own
   * call to action and then the global settings.
   */
  lemma MissingNoteFallsThrough(cfg: QuizConfig, resId: string)
    requires resId !in cfg.notes
    ensures NoteOf(cfg, resId) == NoNote
    ensures var r, o := ResolveView(cfg, resId), OutcomeFor(cfg, resId);
      && r.primary.url == (if o.cta != "" then o.cta else if cfg.ctaUrl != "" then cfg.ctaUrl else "#")
      && r.primary.caption == (if o.ctaLabel != "" then o.ctaLabel else if cfg.ctaLabel != "" then cfg.ctaLabel else "Continue")
      && r.secondary == if cfg.cta2Url != "" && cfg.cta2Label != "" then Some(Cta(cfg.cta2Url, cfg.cta2Label)) else None
  {
    ResultScreenFallbacks(cfg, resId);
  }

  /** The result screen for outcome `resId`. */
  function ResolveView(cfg: QuizConfig, resId: string): (r: ResultView)
    ensures r.id == resId
    ensures r.title != "" && r.primary.url != "" && r.primary.caption != ""
    ensures r.secondary.Some? ==> r.secondary.value.url != "" && r.secondary.value.caption != ""
  {
    var o := OutcomeFor(cfg, resId);
    var rn := NoteOf(cfg, resId);
    var url2 := FirstNonEmpty([rn.cta2Url, cfg.cta2Url], "");
    var caption2 := FirstNonEmpty([rn.cta2Label, cfg.cta2Label], "");
    ResultView(
      resId,
      FirstNonEmpty([o.caption], "Result"),
      Cta(FirstNonEmpty([rn.ctaUrl, o.cta, cfg.ctaUrl], "#"),
          FirstNonEmpty([rn.ctaLabel, o.ctaLabel, cfg.ctaLabel], "Continue")),
      if url2 != "" && caption2 != "" then Some(Cta(url2, caption2)) else None)
  }

  /**
   * Precedence of the result screen's texts: the outcome's label, else
   * "Result"; for the primary call to action the result note, then the
   * outcome, then the global setting, then the default; the secondary one
   * appears only when both its URL and its label resolve (note before global).
   */
  lemma ResultScreenFallbacks(cfg: QuizConfig, resId: string)
    ensures var r, o, rn := ResolveView(cfg, resId), OutcomeFor(cfg, resId), NoteOf(cfg, resId);
      && r.title == (if o.caption != "" then o.caption else "Result")
      && r.primary.url == (if rn.ctaUrl != "" then rn.ctaUrl else if o.cta != "" then o.cta
                           else if cfg.ctaUrl != "" then cfg.ctaUrl else "#")
      && r.primary.caption == (if rn.ctaLabel != "" then rn.ctaLabel else if o.ctaLabel != "" then o.ctaLabel
                               else if cfg.ctaLabel != "" then cfg.ctaLabel else "Continue")
      && var url2 := if rn.cta2Url != "" then rn.cta2Url else cfg.cta2Url;
         var caption2 := if rn.cta2Label != "" then rn.cta2Label else cfg.cta2Label;
         r.secondary == if url2 != "" && caption2 != "" then Some(Cta(url2, caption2)) else None
  {
    var o, rn := OutcomeFor(cfg, resId), NoteOf(cfg, resId);
    FirstOfThree(rn.ctaUrl, o.cta, cfg.ctaUrl, "#");
    FirstOfThree(rn.ctaLabel, o.ctaLabel, cfg.ctaLabel, "Continue");
    FirstOfThree(rn.cta2Url, cfg.cta2Url, "", "");
    FirstOfThree(rn.cta2Label, cfg.cta2Label, "", "");
    assert FirstNonEmpty([rn.cta2Url, cfg.cta2Url], "") == FirstNonEmpty([rn.cta2Url, cfg.cta2Url, ""], "");
    assert FirstNonEmpty([rn.cta2Label, cfg.cta2Label], "") == FirstNonEmpty([rn.cta2Label, cfg.cta2Label, ""], "");
  }

  lemma FirstOfThree(a: string, b: string, c: string, fallback: string)
    ensures FirstNonEmpty([a, b, c], fallback) == if a != "" then a else if b != "" then b else if c != "" then c else fallback
    ensures FirstNonEmpty([a, b], fallback) == if a != "" then a else if b != "" then b else fallback
  {
    assert [a, b, c][1..] == [b, c] && [b, c][1..] == [c] && [c][1..] == [];
    assert [a, b][1..] == [b] && [b][1..] == [];
    if a == "" {
      assert FirstNonEmpty([a, b, c], fallback) == FirstNonEmpty([b, c], fallback);
      assert FirstNonEmpty([a, b], fallback) == FirstNonEmpty([b], fallback);
      if b == "" {
        assert FirstNonEmpty([b, c], fallback) == FirstNonEmpty([c], fallback);
        assert FirstNonEmpty([b], fallback) == FirstNonEmpty([], fallback);
      }
    }
  }

  /**
   * The result `showResult` reaches: a non-empty forced id wins outright,
   * otherwise the score arg-max; None when there is no forced id and no
   * option (where the source throws).
   */
  function ResultOf(cfg: QuizConfig, scores: Scores, forced: string): (r: Option<ResultView>)
    ensures r.Some? ==> r.value == ResolveView(cfg, r.value.id)
    ensures forced != "" ==> r.Some? && r.value.id == forced
    ensures forced == "" ==> (r.None? <==> cfg.options == [])
    ensures forced == "" && r.Some? ==> r.value.id in OptionIds(cfg.options)
    ensures forced == "" && r.Some? ==>
              forall j :: 0 <= j < |cfg.options| ==> ScoreOf(scores, cfg.options[j].id) <= ScoreOf(scores, r.value.id)
    ensures forced == "" && r.Some? ==> r.value.id == cfg.options[BestIndex(cfg.options, scores, |cfg.options|)].id
  {
    if forced != "" then Some(ResolveView(cfg, forced))
    else if cfg.options == [] then None
    else
      var b := BestIndex(cfg.options, scores, |cfg.options|);
      assert OptionIds(cfg.options)[b] == cfg.options[b].id;
      Some(ResolveView(cfg, cfg.options[b].id))
  }

  /** Without a forced id, ties go to the earliest-listed option: every option before the chosen one scores less. */
  lemma ResultOfTieBreak(cfg: QuizConfig, scores: Scores)
    requires cfg.options != []
    ensures var r := ResultOf(cfg, scores, "");
            exists b :: 0 <= b < |cfg.options| && cfg.options[b].id == r.value.id &&
              forall j :: 0 <= j < b ==> ScoreOf(scores, cfg.options[j].id) < ScoreOf(scores, r.value.id)
  {
    var b := BestIndex(cfg.options, scores, |cfg.options|);
    assert cfg.options[b].id == ResultOf(cfg, scores, "").value.id;
  }

  /** A forced outcome does not look at the scores at all. */
  lemma ForcedIgnoresScores(cfg: QuizConfig, s1: Scores, s2: Scores, forced: string)
    requires forced != ""
    ensures ResultOf(cfg, s1, forced) == ResultOf(cfg, s2, forced)
  {
  }

  /** Scores that agree on every option id (missing read as 0) select the same result. */
  lemma ResultOfAgree(cfg: QuizConfig, s1: Scores, s2: Scores, forced: string)
    requires forall j :: 0 <= j < |cfg.options| ==> ScoreOf(s1, cfg.options[j].id) == ScoreOf(s2, cfg.options[j].id)
    ensures ResultOf(cfg, s1, forced) == ResultOf(cfg, s2, forced)
  {
    if forced == "" && cfg.options != [] {
      BestIndexAgree(cfg.options, s1, s2, |cfg.options|);
    }
  }

  /** Exact ties keep the first-listed option; a strictly higher later score wins. */
  lemma PickResultExamples()
    ensures var opts := [Outcome("a", "", "", ""), Outcome("b", "", "", "")];
            BestIndex(opts, map["a" := 2, "b" := 2], 2) == 0 &&
            BestIndex(opts, map["a" := 1, "b" := 3], 2) == 1
  {
  }
}
