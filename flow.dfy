/**
 * The pure parts of navigation and accumulation: which questions are
 * visible, where the forward scan lands, how a branch directive is read,
 * and how an answer's flags and score deltas are merged.
 */
module Flow {
  import opened Wrappers
  import opened Conditions
  import opened Schema

  predicate Shown(flags: Flags, q: Question)
  {
    PassesShowIf(flags, q.showif)
  }

  /** The questions of the full list that currently pass their `showif`, in list order. */
  function Visible(qs: seq<Question>, flags: Flags): (r: seq<Question>)
    ensures |r| <= |qs|
    ensures forall q :: q in r <==> q in qs && Shown(flags, q)
  {
    if qs == [] then []
    else (if Shown(flags, qs[0]) then [qs[0]] else []) + Visible(qs[1..], flags)
  }

  /** Filtering distributes over concatenation. */
  lemma {:induction false} VisibleAppend(a: seq<Question>, b: seq<Question>, flags: Flags)
    ensures Visible(a + b, flags) == Visible(a, flags) + Visible(b, flags)
  {
    if a == [] {
      assert a + b == b;
    } else {
      assert (a + b)[0] == a[0];
      assert (a + b)[1..] == a[1..] + b;
      VisibleAppend(a[1..], b, flags);
    }
  }

  /** The visible questions among the first `idx + 1`: a prefix of all visible questions. */
  function VisibleUpTo(qs: seq<Question>, flags: Flags, idx: nat): (r: seq<Question>)
    ensures |r| <= idx + 1
    ensures r <= Visible(qs, flags)
    ensures idx + 1 >= |qs| ==> r == Visible(qs, flags)
    ensures var n := if idx + 1 < |qs| then idx + 1 else |qs|;
            r + Visible(qs[n..], flags) == Visible(qs, flags)
  {
    var n := if idx + 1 < |qs| then idx + 1 else |qs|;
    assert qs[..n] + qs[n..] == qs;
    VisibleAppend(qs[..n], qs[n..], flags);
    Visible(qs[..n], flags)
  }

  /**
   * The forward scan: the first index at or after `from` whose question is
   * shown, or None when there is none.
   */
  function NextVisible(qs: seq<Question>, flags: Flags, from: nat): (r: Option<nat>)
    ensures r.Some? ==> from <= r.value < |qs| && Shown(flags, qs[r.value])
    decreases |qs| - from
  {
    if from >= |qs| then None
    else if Shown(flags, qs[from]) then Some(from)
    else NextVisible(qs, flags, from + 1)
  }

  /**
   * The scan finds the first shown question: every question it passes over
   * is hidden, and it finds none exactly when all from `from` on are hidden.
   */
  lemma {:induction false} NextVisibleIsFirst(qs: seq<Question>, flags: Flags, from: nat)
    ensures NextVisible(qs, flags, from).Some? ==>
              forall j :: from <= j < NextVisible(qs, flags, from).value ==> !Shown(flags, qs[j])
    ensures NextVisible(qs, flags, from).None? <==> forall j :: from <= j < |qs| ==> !Shown(flags, qs[j])
    decreases |qs| - from
  {
    if from < |qs| && !Shown(flags, qs[from]) {
      NextVisibleIsFirst(qs, flags, from + 1);
    }
  }

  /** The scan from a shown index stays there; from a hidden one it moves on. */
  lemma NextVisibleStep(qs: seq<Question>, flags: Flags, k: nat)
    requires k < |qs|
    ensures Shown(flags, qs[k]) ==> NextVisible(qs, flags, k) == Some(k)
    ensures !Shown(flags, qs[k]) ==> NextVisible(qs, flags, k) == NextVisible(qs, flags, k + 1)
  {
  }

  /** The scan from `from` finds a question exactly when some question from `from` on is visible. */
  lemma {:induction false} NextVisibleFindsVisible(qs: seq<Question>, flags: Flags, from: nat)
    requires from <= |qs|
    ensures NextVisible(qs, flags, from).Some? <==> |Visible(qs[from..], flags)| > 0
    decreases |qs| - from
  {
    if from < |qs| {
      assert qs[from..][0] == qs[from];
      assert qs[from..][1..] == qs[from + 1..];
      NextVisibleFindsVisible(qs, flags, from + 1);
    }
  }

  const ForcedPrefix: string := "result:"

  /** A branch directive of the form `result:<id>`. */
  predicate IsForcedMarker(next: string)
  {
    ForcedPrefix <= next
  }

  /** `startsWith('result:')`: the directive begins with the seven characters of the prefix, so it is never empty. */
  lemma ForcedMarkerStartsWith(next: string)
    ensures IsForcedMarker(next) <==> |next| >= 7 && next[..7] == "result:"
    ensures IsForcedMarker(next) ==> next != ""
  {
  }

  /** The text up to (not including) the first ':' — `split(':')` keeps it as one field. */
  function FieldBeforeColon(s: string): (r: string)
    ensures r <= s && ':' !in r
    ensures r == s || s[|r|] == ':'
  {
    if s == [] || s[0] == ':' then [] else [s[0]] + FieldBeforeColon(s[1..])
  }

  /** The forced outcome id of `result:<id>`: the second ':'-separated field. */
  function ForcedId(next: string): (id: string)
    requires IsForcedMarker(next)
    ensures ForcedPrefix + id <= next && ':' !in id
    ensures ForcedPrefix + id == next || next[|ForcedPrefix| + |id|] == ':'
  {
    var rest := next[|ForcedPrefix|..];
    assert next == ForcedPrefix + rest;
    FieldBeforeColon(rest)
  }

  /** Writing an id without ':' as a forced marker and reading it back gives the id. */
  lemma ForcedMarkerRoundTrip(id: string)
    requires ':' !in id
    ensures IsForcedMarker(ForcedPrefix + id)
    ensures ForcedId(ForcedPrefix + id) == id
  {
  }

  /** `Object.assign(flags, set)`: every assigned key takes its new value, other flags are kept. */
  function Merge(flags: Flags, assigns: map<string, Value>): (r: Flags)
    ensures r.Keys == flags.Keys + assigns.Keys
    ensures forall k :: k in assigns ==> r[k] == assigns[k]
    ensures forall k :: k in flags && k !in assigns ==> r[k] == flags[k]
  {
    flags + assigns
  }

  /**
   * Adding an answer's deltas: every key of `add` rises by its delta from
   * its old score (missing read as 0), every other score is kept.
   */
  function AddScores(scores: Scores, add: map<string, int>): (r: Scores)
    ensures r.Keys == scores.Keys + add.Keys
    ensures forall k :: k in add ==> r[k] == ScoreOf(scores, k) + add[k]
    ensures forall k :: k in scores && k !in add ==> r[k] == scores[k]
  {
    map k | k in scores.Keys + add.Keys :: if k in add then ScoreOf(scores, k) + add[k] else scores[k]
  }

  /** Adding one more key to the deltas is one more score update. */
  lemma AddScoresOneMore(scores: Scores, add: map<string, int>, k: string, d: int)
    requires k !in add
    ensures AddScores(scores, add)[k := ScoreOf(scores, k) + d] == AddScores(scores, add[k := d])
  {
  }

  /** Two answers in a row add up: each score ends at its start plus both deltas. */
  lemma AddScoresTwice(scores: Scores, a: map<string, int>, b: map<string, int>, k: string)
    ensures ScoreOf(AddScores(AddScores(scores, a), b), k) == ScoreOf(scores, k) + ScoreOf(a, k) + ScoreOf(b, k)
  {
  }

  /** Scores that agree (missing read as 0) on a set of ids still agree after the same deltas. */
  lemma AddScoresAgree(s1: Scores, s2: Scores, add: map<string, int>, ids: set<string>)
    requires forall k :: k in ids ==> ScoreOf(s1, k) == ScoreOf(s2, k)
    ensures forall k :: k in ids ==> ScoreOf(AddScores(s1, add), k) == ScoreOf(AddScores(s2, add), k)
  {
  }
}
