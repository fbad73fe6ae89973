/**
 * Visibility conditions (`showif`): a conjunctive list of clauses over the
 * flags that earlier answers have recorded.
 */
module Conditions {
  import opened Wrappers

  /** A flag value as written by an answer's `set` and compared by a clause: a JSON primitive. */
  datatype Value = Null | Bool(b: bool) | Num(n: int) | Str(s: string)

  /** The flags of a run; a path that is not a key is an unset (undefined) flag. */
  type Flags = map<string, Value>

  /**
   * One clause as the configuration gives it: the flag path it reads and
   * which of the four recognised keys are present. `among` is the `in`
   * key: Some([]) stands for a present key whose list is null or empty.
   * `present` is the `exists` key, already read as true or false.
   */
  datatype Clause = Clause(
    path: string,
    eq: Option<Value>,
    neq: Option<Value>,
    among: Option<seq<Value>>,
    present: Option<bool>)

  /** The closed variant a clause reduces to, with a permissive default. */
  datatype Test = Equals(v: Value) | Differs(v: Value) | OneOf(vs: seq<Value>) | Bound(want: bool) | NoTest

  /** The first key present decides, in the order eq, neq, in, exists. */
  function TestOf(c: Clause): Test
  {
    if c.eq.Some? then Equals(c.eq.value)
    else if c.neq.Some? then Differs(c.neq.value)
    else if c.among.Some? then OneOf(c.among.value)
    else if c.present.Some? then Bound(c.present.value)
    else NoTest
  }

  /** Whether the flag at `path` satisfies test `t`; strict equality on values. */
  predicate Holds(flags: Flags, path: string, t: Test)
  {
    match t
    case Equals(v) => path in flags && flags[path] == v
    case Differs(v) => path !in flags || flags[path] != v
    case OneOf(vs) => path in flags && flags[path] in vs
    case Bound(want) => if want then path in flags else path !in flags
    case NoTest => true
  }

  /** One clause: the test its first recognised key sets, against the flag at its path. */
  predicate ClausePasses(flags: Flags, c: Clause)
  {
    Holds(flags, c.path, TestOf(c))
  }

  /**
   * What a clause means, key by key: the first key present decides, in the
   * order eq, neq, in, exists; `eq`/`neq` compare strictly with the flag,
   * an unset flag never equals a literal; `in` needs a set flag inside the
   * list (an empty list never matches); `exists` asks whether the flag is
   * set; a clause with none of the keys passes.
   */
  lemma ClauseSemantics(flags: Flags, c: Clause)
    ensures c.eq.Some? ==> (ClausePasses(flags, c) <==> c.path in flags && flags[c.path] == c.eq.value)
    ensures c.eq.None? && c.neq.Some? ==>
              (ClausePasses(flags, c) <==> !(c.path in flags && flags[c.path] == c.neq.value))
    ensures c.eq.None? && c.neq.None? && c.among.Some? ==>
              (ClausePasses(flags, c) <==> c.path in flags && flags[c.path] in c.among.value)
    ensures c.eq.None? && c.neq.None? && c.among == Some([]) ==> !ClausePasses(flags, c)
    ensures c.eq.None? && c.neq.None? && c.among.None? && c.present.Some? ==>
              (ClausePasses(flags, c) <==> (c.path in flags <==> c.present.value))
    ensures c.eq.None? && c.neq.None? && c.among.None? && c.present.None? ==> ClausePasses(flags, c)
  {
  }

  /** The test of a clause is that of its first recognised key; with none, there is no test. */
  lemma TestOfFirstKey(c: Clause)
    ensures TestOf(c).NoTest? <==> c.eq.None? && c.neq.None? && c.among.None? && c.present.None?
    ensures TestOf(c).Equals? <==> c.eq.Some?
    ensures TestOf(c).Differs? <==> c.eq.None? && c.neq.Some?
    ensures TestOf(c).OneOf? <==> c.eq.None? && c.neq.None? && c.among.Some?
    ensures TestOf(c).Bound? <==> c.eq.None? && c.neq.None? && c.among.None? && c.present.Some?
  {
  }

  /**
   * An unset flag (`undefined`) equals no literal and is in no list, so
   * `eq` and `in` fail on it while `neq` passes; `exists` passes exactly
   * when it asks for absence.
   */
  lemma UnsetFlagHolds(flags: Flags, path: string, t: Test)
    requires path !in flags
    ensures t.Equals? || t.OneOf? ==> !Holds(flags, path, t)
    ensures t.Differs? || t.NoTest? ==> Holds(flags, path, t)
    ensures t.Bound? ==> (Holds(flags, path, t) <==> !t.want)
  {
  }

  /** `every` over a clause list. */
  function AllPass(flags: Flags, cs: seq<Clause>): (r: bool)
    ensures r <==> forall i :: 0 <= i < |cs| ==> ClausePasses(flags, cs[i])
  {
    if cs == [] then true else ClausePasses(flags, cs[0]) && AllPass(flags, cs[1..])
  }

  /** A node (question or answer) is shown when it has no clause list or every clause passes. */
  predicate PassesShowIf(flags: Flags, showif: Option<seq<Clause>>)
  {
    match showif
    case None => true
    case Some(cs) => AllPass(flags, cs)
  }

  /** Visibility is the conjunction of the clauses; no list, or an empty one, shows the node. */
  lemma ShowIfIsConjunction(flags: Flags, showif: Option<seq<Clause>>)
    ensures showif.None? ==> PassesShowIf(flags, showif)
    ensures showif == Some([]) ==> PassesShowIf(flags, showif)
    ensures showif.Some? ==>
              (PassesShowIf(flags, showif) <==> forall i :: 0 <= i < |showif.value| ==> ClausePasses(flags, showif.value[i]))
  {
  }

  /** The set of flag paths a clause list reads. */
  function Paths(cs: seq<Clause>): (ps: set<string>)
    ensures forall p :: p in ps <==> exists i :: 0 <= i < |cs| && cs[i].path == p
  {
    if cs == [] then {}
    else
      var rest := Paths(cs[1..]);
      assert forall p :: p in rest ==> exists i :: 0 <= i < |cs| && cs[i].path == p by {
        forall p | p in rest ensures exists i :: 0 <= i < |cs| && cs[i].path == p {
          var i :| 0 <= i < |cs[1..]| && cs[1..][i].path == p;
          assert cs[i + 1].path == p;
        }
      }
      {cs[0].path} + rest
  }

  /** A conjunction of two clause lists passes exactly when both do. */
  lemma {:induction false} AllPassAppend(flags: Flags, a: seq<Clause>, b: seq<Clause>)
    ensures AllPass(flags, a + b) == (AllPass(flags, a) && AllPass(flags, b))
  {
    if a == [] {
      assert a + b == b;
    } else {
      assert (a + b)[0] == a[0];
      assert (a + b)[1..] == a[1..] + b;
      AllPassAppend(flags, a[1..], b);
    }
  }

  /** Visibility reads only the flags its clauses name: flags agreeing on those paths give the same answer. */
  lemma {:induction false} AllPassFrame(f1: Flags, f2: Flags, cs: seq<Clause>)
    requires forall p :: p in Paths(cs) ==> (p in f1 <==> p in f2) && (p in f1 ==> f1[p] == f2[p])
    ensures AllPass(f1, cs) == AllPass(f2, cs)
  {
    if cs != [] {
      assert cs[0].path in Paths(cs);
      assert Paths(cs[1..]) <= Paths(cs);
      AllPassFrame(f1, f2, cs[1..]);
    }
  }
}
