// The order in which a dispatch takes reactions out of the phase queue: those of one phase in the
// order they were scheduled, or all of them by ascending phase.
module ReactionOrder {
  import opened Options
  import opened Computation
  import opened PhaseBuckets

  predicate AllEffects(kinds: seq<Kind>, es: seq<nat>) {
    forall i :: 0 <= i < |es| ==> es[i] < |kinds| && kinds[es[i]].EffectNode?
  }

  /** The phase of effect `e`; nothing else has one. */
  function PhaseOf(kinds: seq<Kind>, e: nat): (phase: int)
    ensures e < |kinds| && kinds[e].EffectNode? ==> kinds[e] == EffectNode(kinds[e].comp, phase)
  {
    if e < |kinds| && kinds[e].EffectNode? then kinds[e].phase else 0
  }

  predicate NoDuplicates(es: seq<nat>) {
    forall i, j :: 0 <= i < j < |es| ==> es[i] != es[j]
  }

  lemma FirstOrRest(es: seq<nat>, e: nat)
    requires es != []
    ensures e in es <==> e == es[0] || e in es[1..]
  {
  }

  lemma OneMoreDistinct(e: nat, es: seq<nat>)
    requires NoDuplicates(es) && e !in es
    ensures NoDuplicates([e] + es)
  {
  }

  /** The reactions whose phase is `p` (or is not, if `want` is false), in order. */
  function OfPhase(kinds: seq<Kind>, es: seq<nat>, p: int, want: bool): seq<nat> {
    if es == [] then []
    else
      (if (PhaseOf(kinds, es[0]) == p) == want then [es[0]] else []) + OfPhase(kinds, es[1..], p, want)
  }

  /** One reaction more in front. */
  lemma OfPhaseFirst(kinds: seq<Kind>, e: nat, rest: seq<nat>, p: int, want: bool)
    ensures OfPhase(kinds, [e] + rest, p, want)
      == (if (PhaseOf(kinds, e) == p) == want then [e] else []) + OfPhase(kinds, rest, p, want)
  {
    hide PhaseOf;
    assert ([e] + rest)[1..] == rest;
  }

  lemma {:induction false} OfPhaseHas(kinds: seq<Kind>, es: seq<nat>, p: int, want: bool, e: nat)
    ensures e in OfPhase(kinds, es, p, want) <==> e in es && (PhaseOf(kinds, e) == p) == want
  {
    hide PhaseOf;
    if es != [] {
      OfPhaseHas(kinds, es[1..], p, want, e);
      FirstOrRest(es, e);
    }
  }

  lemma {:induction false} OfPhaseDistinct(kinds: seq<Kind>, es: seq<nat>, p: int, want: bool)
    requires NoDuplicates(es)
    ensures NoDuplicates(OfPhase(kinds, es, p, want))
  {
    if es != [] {
      OfPhaseDistinct(kinds, es[1..], p, want);
      OfPhaseHas(kinds, es[1..], p, want, es[0]);
      OneMoreDistinctIf(es[0], OfPhase(kinds, es[1..], p, want));
      hide NoDuplicates, PhaseOf;
      assert [] + OfPhase(kinds, es[1..], p, want) == OfPhase(kinds, es[1..], p, want);
    }
  }

  lemma OneMoreDistinctIf(e: nat, es: seq<nat>)
    ensures NoDuplicates(es) && e !in es ==> NoDuplicates([e] + es)
  {
  }

  /** Insert before the first reaction of a later or equal phase. */
  function Insert(kinds: seq<Kind>, e: nat, es: seq<nat>): seq<nat> {
    if es == [] || PhaseOf(kinds, e) <= PhaseOf(kinds, es[0]) then [e] + es
    else
      [es[0]] + Insert(kinds, e, es[1..])
  }

  function ByPhase(kinds: seq<Kind>, es: seq<nat>): seq<nat> {
    if es == [] then []
    else
      Insert(kinds, es[0], ByPhase(kinds, es[1..]))
  }

  lemma {:induction false} InsertHas(kinds: seq<Kind>, e: nat, es: seq<nat>, x: nat)
    ensures x in Insert(kinds, e, es) <==> x == e || x in es
  {
    hide PhaseOf;
    if es != [] {
      InsertHas(kinds, e, es[1..], x);
      FirstOrRest(es, x);
    }
  }

  lemma {:induction false} ByPhaseHas(kinds: seq<Kind>, es: seq<nat>, e: nat)
    ensures e in ByPhase(kinds, es) <==> e in es
  {
    hide Insert;
    if es != [] {
      ByPhaseHas(kinds, es[1..], e);
      InsertHas(kinds, es[0], ByPhase(kinds, es[1..]), e);
      FirstOrRest(es, e);
    }
  }

  lemma {:induction false} InsertDistinct(kinds: seq<Kind>, e: nat, es: seq<nat>)
    requires NoDuplicates(es) && e !in es
    ensures NoDuplicates(Insert(kinds, e, es))
  {
    if es != [] && PhaseOf(kinds, e) > PhaseOf(kinds, es[0]) {
      InsertDistinct(kinds, e, es[1..]);
      InsertHas(kinds, e, es[1..], es[0]);
      OneMoreDistinct(es[0], Insert(kinds, e, es[1..]));
    } else {
      OneMoreDistinct(e, es);
    }
  }

  lemma {:induction false} ByPhaseDistinct(kinds: seq<Kind>, es: seq<nat>)
    requires NoDuplicates(es)
    ensures NoDuplicates(ByPhase(kinds, es))
  {
    if es != [] {
      ByPhaseDistinct(kinds, es[1..]);
      ByPhaseHas(kinds, es[1..], es[0]);
      hide Insert;
      InsertDistinct(kinds, es[0], ByPhase(kinds, es[1..]));
    }
  }

  /** What a dispatch takes, and what it leaves for later. */
  function Batch(kinds: seq<Kind>, es: seq<nat>, phase: Option<int>): seq<nat> {
    match phase
    case None => ByPhase(kinds, es)
    case Some(p) => OfPhase(kinds, es, p, true)
  }

  function Rest(kinds: seq<Kind>, es: seq<nat>, phase: Option<int>): seq<nat> {
    match phase
    case None => []
    case Some(p) => OfPhase(kinds, es, p, false)
  }

  predicate InPhase(kinds: seq<Kind>, e: nat, phase: Option<int>) {
    phase == None || phase == Some(PhaseOf(kinds, e))
  }

  predicate AllInPhase(kinds: seq<Kind>, es: seq<nat>, phase: Option<int>) {
    AllEffects(kinds, es) && forall i :: 0 <= i < |es| ==> InPhase(kinds, es[i], phase)
  }

  lemma BatchHas(kinds: seq<Kind>, es: seq<nat>, phase: Option<int>, e: nat)
    ensures e in Batch(kinds, es, phase) <==> e in es && InPhase(kinds, e, phase)
    ensures e in Rest(kinds, es, phase) <==> e in es && !InPhase(kinds, e, phase)
  {
    match phase
    case None => ByPhaseHas(kinds, es, e);
    case Some(p) =>
      OfPhaseHas(kinds, es, p, true, e);
      OfPhaseHas(kinds, es, p, false, e);
  }

  lemma BatchInPhase(kinds: seq<Kind>, es: seq<nat>, phase: Option<int>)
    requires AllEffects(kinds, es)
    ensures AllInPhase(kinds, Batch(kinds, es, phase), phase)
  {
    hide Batch, PhaseOf, InPhase;
    var batch := Batch(kinds, es, phase);
    forall i | 0 <= i < |batch|
      ensures batch[i] < |kinds| && kinds[batch[i]].EffectNode? && InPhase(kinds, batch[i], phase)
    {
      BatchHas(kinds, es, phase, batch[i]);
      assert batch[i] in es;
      var j :| 0 <= j < |es| && es[j] == batch[i];
    }
  }

  lemma BatchSplits(kinds: seq<Kind>, es: seq<nat>, phase: Option<int>)
    requires NoDuplicates(es)
    ensures NoDuplicates(Batch(kinds, es, phase) + Rest(kinds, es, phase))
    ensures forall e :: e in Batch(kinds, es, phase) + Rest(kinds, es, phase) <==> e in es
    ensures forall e :: e in Rest(kinds, es, phase) ==> !InPhase(kinds, e, phase)
    ensures forall e :: e in Batch(kinds, es, phase) ==> InPhase(kinds, e, phase)
  {
    BatchDistinct(kinds, es, phase);
    hide Batch, Rest, InPhase;
    var batch, rest := Batch(kinds, es, phase), Rest(kinds, es, phase);
    forall e: nat
      ensures e in batch <==> e in es && InPhase(kinds, e, phase)
      ensures e in rest <==> e in es && !InPhase(kinds, e, phase)
    {
      BatchHas(kinds, es, phase, e);
    }
    DistinctApart(batch, rest);
  }

  lemma BatchDistinct(kinds: seq<Kind>, es: seq<nat>, phase: Option<int>)
    requires NoDuplicates(es)
    ensures NoDuplicates(Batch(kinds, es, phase)) && NoDuplicates(Rest(kinds, es, phase))
  {
    hide NoDuplicates;
    match phase
    case None =>
      ByPhaseDistinct(kinds, es);
      assert NoDuplicates([]) by { NoneDistinct(); }
    case Some(p) =>
      OfPhaseDistinct(kinds, es, p, true);
      OfPhaseDistinct(kinds, es, p, false);
  }

  lemma NoneDistinct()
    ensures NoDuplicates([])
  {
  }

  lemma DistinctApart(a: seq<nat>, b: seq<nat>)
    requires NoDuplicates(a) && NoDuplicates(b) && forall e :: e in a ==> e !in b
    ensures NoDuplicates(a + b)
  {
    forall i, j | 0 <= i < j < |a + b| ensures (a + b)[i] != (a + b)[j] {
      if i < |a| <= j {
        assert a[i] in a && b[j - |a|] in b;
      }
    }
  }

  // ----- ascending phases -----

  predicate Ascending(kinds: seq<Kind>, es: seq<nat>) {
    forall i, j :: 0 <= i < j < |es| ==> PhaseOf(kinds, es[i]) <= PhaseOf(kinds, es[j])
  }

  lemma {:induction false} InsertSorted(kinds: seq<Kind>, e: nat, es: seq<nat>)
    requires Ascending(kinds, es)
    ensures Ascending(kinds, Insert(kinds, e, es))
  {
    hide PhaseOf;
    if es != [] && PhaseOf(kinds, e) > PhaseOf(kinds, es[0]) {
      InsertSorted(kinds, e, es[1..]);
      var r := Insert(kinds, e, es[1..]);
      forall j | 0 <= j < |r| ensures PhaseOf(kinds, es[0]) <= PhaseOf(kinds, r[j]) {
        InsertHas(kinds, e, es[1..], r[j]);
        assert r[j] in r;
        if r[j] != e {
          var i :| 0 <= i < |es[1..]| && es[1..][i] == r[j];
          assert es[i + 1] == r[j];
        }
      }
    }
  }

  /** `dispatch_all_reactions` runs reactions by ascending phase. */
  lemma {:induction false} ByPhaseSorted(kinds: seq<Kind>, es: seq<nat>)
    ensures Ascending(kinds, ByPhase(kinds, es))
  {
    hide Insert;
    if es != [] {
      ByPhaseSorted(kinds, es[1..]);
      InsertSorted(kinds, es[0], ByPhase(kinds, es[1..]));
    }
  }

  // ----- who comes before whom -----

  /** `a` stands before `b`. */
  predicate Before(es: seq<nat>, a: nat, b: nat) {
    exists p, q :: 0 <= p < q < |es| && es[p] == a && es[q] == b
  }

  lemma BeforeFirst(e: nat, rest: seq<nat>, a: nat, b: nat)
    ensures Before([e] + rest, a, b) <==> (a == e && b in rest) || Before(rest, a, b)
  {
    var es := [e] + rest;
    if Before(es, a, b) {
      var p, q :| 0 <= p < q < |es| && es[p] == a && es[q] == b;
      assert rest[q - 1] == b;
      assert p > 0 ==> rest[p - 1] == a;
    }
    if a == e && b in rest {
      var q :| 0 <= q < |rest| && rest[q] == b;
      assert es[0] == a && es[q + 1] == b;
    }
    if Before(rest, a, b) {
      var p, q :| 0 <= p < q < |rest| && rest[p] == a && rest[q] == b;
      assert es[p + 1] == a && es[q + 1] == b;
    }
  }

  lemma BeforeLast(es: seq<nat>, e: nat, a: nat, b: nat)
    ensures Before(es, a, b) || (a in es && b == e) ==> Before(es + [e], a, b)
  {
    if Before(es, a, b) {
      var p, q :| 0 <= p < q < |es| && es[p] == a && es[q] == b;
      assert (es + [e])[p] == a && (es + [e])[q] == b;
    } else if a in es && b == e {
      var p :| 0 <= p < |es| && es[p] == a;
      assert (es + [e])[p] == a && (es + [e])[|es|] == b;
    }
  }

  lemma {:induction false} OfPhaseKeepsOrder(kinds: seq<Kind>, es: seq<nat>, p: int, want: bool, a: nat, b: nat)
    requires Before(OfPhase(kinds, es, p, want), a, b)
    ensures Before(es, a, b)
  {
    hide PhaseOf, Before;
    if es == [] {
      assert Before([], a, b);
      NobodyBefore(a, b);
    } else {
      assert es == [es[0]] + es[1..];
      OfPhaseFirst(kinds, es[0], es[1..], p, want);
      var rest := OfPhase(kinds, es[1..], p, want);
      hide OfPhase;
      assert [] + rest == rest;
      BeforeFirst(es[0], rest, a, b);
      BeforeFirst(es[0], es[1..], a, b);
      OfPhaseHas(kinds, es[1..], p, want, b);
      if Before(rest, a, b) {
        OfPhaseKeepsOrder(kinds, es[1..], p, want, a, b);
      }
    }
  }

  lemma NobodyBefore(a: nat, b: nat)
    ensures !Before([], a, b)
  {
  }

  /** Among reactions of one phase the inserted one comes first. */
  lemma {:induction false} InsertOrder(kinds: seq<Kind>, e: nat, es: seq<nat>, a: nat, b: nat)
    requires Before(Insert(kinds, e, es), a, b) && PhaseOf(kinds, a) == PhaseOf(kinds, b)
    ensures Before(es, a, b) || (a == e && b in es)
  {
    hide PhaseOf, Before;
    if es == [] || PhaseOf(kinds, e) <= PhaseOf(kinds, es[0]) {
      BeforeFirst(e, es, a, b);
    } else {
      var rest := es[1..];
      assert es == [es[0]] + rest;
      BeforeFirst(es[0], Insert(kinds, e, rest), a, b);
      BeforeFirst(es[0], rest, a, b);
      InsertHas(kinds, e, rest, b);
      if Before(Insert(kinds, e, rest), a, b) {
        InsertOrder(kinds, e, rest, a, b);
      }
    }
  }

  lemma {:induction false} ByPhaseKeepsOrder(kinds: seq<Kind>, es: seq<nat>, a: nat, b: nat)
    requires Before(ByPhase(kinds, es), a, b) && PhaseOf(kinds, a) == PhaseOf(kinds, b)
    ensures Before(es, a, b)
  {
    hide PhaseOf, Before, Insert;
    if es == [] {
      NobodyBefore(a, b);
    } else {
      var rest := ByPhase(kinds, es[1..]);
      InsertOrder(kinds, es[0], rest, a, b);
      assert es == [es[0]] + es[1..];
      BeforeFirst(es[0], es[1..], a, b);
      ByPhaseHas(kinds, es[1..], b);
      if Before(rest, a, b) {
        ByPhaseKeepsOrder(kinds, es[1..], a, b);
      }
    }
  }

  /** Of the reactions `es`, `a` is to run before `b`: its phase is earlier, or the same and it was scheduled first. */
  predicate InTurn(kinds: seq<Kind>, es: seq<nat>, a: nat, b: nat) {
    PhaseOf(kinds, a) < PhaseOf(kinds, b) || (PhaseOf(kinds, a) == PhaseOf(kinds, b) && Before(es, a, b))
  }

  lemma BatchInTurn(kinds: seq<Kind>, es: seq<nat>, phase: Option<int>, a: nat, b: nat)
    requires Before(Batch(kinds, es, phase), a, b)
    ensures InTurn(kinds, es, a, b)
  {
    var batch := Batch(kinds, es, phase);
    var p, q :| 0 <= p < q < |batch| && batch[p] == a && batch[q] == b;
    match phase
    case None =>
      ByPhaseSorted(kinds, es);
      if PhaseOf(kinds, a) == PhaseOf(kinds, b) {
        ByPhaseKeepsOrder(kinds, es, a, b);
      }
    case Some(x) =>
      OfPhaseHas(kinds, es, x, true, a);
      OfPhaseHas(kinds, es, x, true, b);
      OfPhaseKeepsOrder(kinds, es, x, true, a, b);
  }

  lemma BatchIsEmpty(kinds: seq<Kind>, es: seq<nat>, phase: Option<int>)
    ensures Batch(kinds, es, phase) != [] <==> exists e :: e in es && InPhase(kinds, e, phase)
  {
    hide Batch, InPhase;
    var batch := Batch(kinds, es, phase);
    if batch != [] {
      BatchHas(kinds, es, phase, batch[0]);
    }
    if e :| e in es && InPhase(kinds, e, phase) {
      BatchHas(kinds, es, phase, e);
    }
  }

  /** Of the reactions `es` those of another phase are left, in their order. */
  ghost predicate Left(kinds: seq<Kind>, es: seq<nat>, rest: seq<nat>, phase: Option<int>) {
    && (forall e :: e in rest <==> e in es && !InPhase(kinds, e, phase))
    && (forall a, b :: Before(rest, a, b) ==> Before(es, a, b))
  }

  lemma RestIsLeft(kinds: seq<Kind>, es: seq<nat>, phase: Option<int>)
    ensures Left(kinds, es, Rest(kinds, es, phase), phase)
  {
    hide InPhase, Before;
    forall e: nat ensures e in Rest(kinds, es, phase) <==> e in es && !InPhase(kinds, e, phase) {
      BatchHas(kinds, es, phase, e);
    }
    forall a, b | Before(Rest(kinds, es, phase), a, b) ensures Before(es, a, b) {
      match phase
      case None => NobodyBefore(a, b);
      case Some(p) => OfPhaseKeepsOrder(kinds, es, p, false, a, b);
    }
  }

  // ----- the order in which the functions of effects were run -----

  predicate IsEffect(kinds: seq<Kind>, e: nat) {
    e < |kinds| && kinds[e].EffectNode?
  }

  /** The effects among `ran`, from `start` on, are some of `es`, in their order and each once. */
  predicate RanInOrder(kinds: seq<Kind>, es: seq<nat>, ran: seq<nat>, start: nat) {
    && (forall i :: start <= i < |ran| && IsEffect(kinds, ran[i]) ==> ran[i] in es)
    && (forall i, j :: start <= i < j < |ran| && IsEffect(kinds, ran[i]) && IsEffect(kinds, ran[j]) ==>
          Before(es, ran[i], ran[j]))
  }

  lemma NobodyRan(kinds: seq<Kind>, ran: seq<nat>)
    ensures RanInOrder(kinds, [], ran, |ran|)
  {
  }

  /** While reaction `e` was carried out no effect but `e` was run, and that at most once. */
  predicate RanOnly(kinds: seq<Kind>, e: nat, ran: seq<nat>, ran': seq<nat>) {
    && ran <= ran'
    && (forall i :: |ran| <= i < |ran'| && IsEffect(kinds, ran'[i]) ==> ran'[i] == e)
    && (forall i, j :: |ran| <= i < j < |ran'| ==> ran'[i] != ran'[j])
  }

  lemma NobodyRanOnly(kinds: seq<Kind>, e: nat, ran: seq<nat>)
    ensures RanOnly(kinds, e, ran, ran)
  {
  }

  lemma RanGrew(kinds: seq<Kind>, e: nat, ran: seq<nat>, ran': seq<nat>)
    requires RanOnly(kinds, e, ran, ran')
    ensures |ran| <= |ran'|
  {
  }

  lemma OneMoreRan(kinds: seq<Kind>, done: seq<nat>, e: nat, ran: seq<nat>, ran': seq<nat>, start: nat)
    requires RanInOrder(kinds, done, ran, start) && RanOnly(kinds, e, ran, ran') && start <= |ran|
    ensures RanInOrder(kinds, done + [e], ran', start)
  {
    hide IsEffect, Before;
    forall i, j | start <= i < j < |ran'| && IsEffect(kinds, ran'[i]) && IsEffect(kinds, ran'[j])
      ensures Before(done + [e], ran'[i], ran'[j])
    {
      BeforeLast(done, e, ran'[i], ran'[j]);
      assert i < |ran| ==> ran'[i] == ran[i];
      assert j < |ran| ==> ran'[j] == ran[j];
    }
    forall i | start <= i < |ran'| && IsEffect(kinds, ran'[i]) ensures ran'[i] in done + [e] {
      assert i < |ran| ==> ran'[i] == ran[i];
    }
  }

  /** The effects that ran, ran by ascending phase and within a phase in the order they were scheduled. */
  predicate EffectsInTurn(kinds: seq<Kind>, es: seq<nat>, ran: seq<nat>, start: nat) {
    forall i, j :: start <= i < j < |ran| && IsEffect(kinds, ran[i]) && IsEffect(kinds, ran[j]) ==>
      InTurn(kinds, es, ran[i], ran[j])
  }

  lemma BatchRanInTurn(kinds: seq<Kind>, es: seq<nat>, phase: Option<int>, ran: seq<nat>, start: nat)
    requires RanInOrder(kinds, Batch(kinds, es, phase), ran, start)
    ensures EffectsInTurn(kinds, es, ran, start)
  {
    hide InTurn, IsEffect, Batch, Before;
    forall i, j | start <= i < j < |ran| && IsEffect(kinds, ran[i]) && IsEffect(kinds, ran[j])
      ensures InTurn(kinds, es, ran[i], ran[j])
    {
      BatchInTurn(kinds, es, phase, ran[i], ran[j]);
    }
  }

  // ----- the same order as the phase buckets -----

  /**
   * Everything of the phases from `lo` to `hi`: by ascending phase, and within a phase in the order it was scheduled.
   */
  function DrainOrder(kinds: seq<Kind>, es: seq<nat>, lo: int, hi: int): seq<nat>
    decreases hi - lo
  {
    if lo > hi then [] else DrainOrder(kinds, es, lo, hi - 1) + OfPhase(kinds, es, hi, true)
  }

  predicate PhasesUpTo(kinds: seq<Kind>, es: seq<nat>, hi: int) {
    forall i :: 0 <= i < |es| ==> PhaseOf(kinds, es[i]) <= hi
  }

  lemma {:induction false} DrainOrderUpTo(kinds: seq<Kind>, es: seq<nat>, lo: int, hi: int)
    ensures PhasesUpTo(kinds, DrainOrder(kinds, es, lo, hi), hi)
    decreases hi - lo
  {
    hide OfPhase, PhaseOf;
    if lo <= hi {
      DrainOrderUpTo(kinds, es, lo, hi - 1);
      OfPhaseIs(kinds, es, hi);
    }
  }

  lemma OfPhaseIs(kinds: seq<Kind>, es: seq<nat>, p: int)
    ensures forall i :: 0 <= i < |OfPhase(kinds, es, p, true)| ==> PhaseOf(kinds, OfPhase(kinds, es, p, true)[i]) == p
  {
    hide OfPhase, PhaseOf;
    forall i | 0 <= i < |OfPhase(kinds, es, p, true)| ensures PhaseOf(kinds, OfPhase(kinds, es, p, true)[i]) == p {
      OfPhaseHas(kinds, es, p, true, OfPhase(kinds, es, p, true)[i]);
    }
  }

  /** An insertion before `b`, all of whose reactions are of a later or equal phase, happens in `a`. */
  lemma {:induction false} InsertInto(kinds: seq<Kind>, e: nat, a: seq<nat>, b: seq<nat>)
    requires b != [] ==> PhaseOf(kinds, e) <= PhaseOf(kinds, b[0])
    ensures Insert(kinds, e, a + b) == Insert(kinds, e, a) + b
  {
    hide PhaseOf;
    if a == [] {
      assert a + b == b;
      assert Insert(kinds, e, b) == [e] + b && Insert(kinds, e, a) == [e];
    } else if PhaseOf(kinds, e) <= PhaseOf(kinds, a[0]) {
      assert (a + b)[0] == a[0];
      assert [e] + (a + b) == ([e] + a) + b;
    } else {
      assert (a + b)[0] == a[0] && (a + b)[1..] == a[1..] + b;
      var rest := a[1..];
      InsertInto(kinds, e, rest, b);
      assert [a[0]] + (Insert(kinds, e, rest) + b) == ([a[0]] + Insert(kinds, e, rest)) + b;
    }
  }

  /** An insertion behind `a`, all of whose reactions are of an earlier phase, happens in `b`. */
  lemma {:induction false} InsertPast(kinds: seq<Kind>, e: nat, a: seq<nat>, b: seq<nat>)
    requires forall i :: 0 <= i < |a| ==> PhaseOf(kinds, a[i]) < PhaseOf(kinds, e)
    ensures Insert(kinds, e, a + b) == a + Insert(kinds, e, b)
  {
    hide PhaseOf;
    if a == [] {
      assert a + b == b;
    } else {
      assert (a + b)[0] == a[0] && (a + b)[1..] == a[1..] + b;
      InsertPast(kinds, e, a[1..], b);
      assert [a[0]] + (a[1..] + Insert(kinds, e, b)) == a + Insert(kinds, e, b);
    }
  }

  /** Adding reaction `e` in front of `rest` inserts it into the drained order. */
  predicate InsertsIn(kinds: seq<Kind>, e: nat, rest: seq<nat>, lo: int, hi: int) {
    DrainOrder(kinds, [e] + rest, lo, hi)
      == if PhaseOf(kinds, e) <= hi then Insert(kinds, e, DrainOrder(kinds, rest, lo, hi))
         else DrainOrder(kinds, rest, lo, hi)
  }

  lemma {:induction false} DrainOrderInsert(kinds: seq<Kind>, e: nat, rest: seq<nat>, lo: int, hi: int)
    requires lo <= PhaseOf(kinds, e)
    ensures InsertsIn(kinds, e, rest, lo, hi)
    decreases hi - lo
  {
    hide OfPhase, Insert, PhaseOf;
    if lo <= hi {
      DrainOrderInsert(kinds, e, rest, lo, hi - 1);
      hide InsertsIn;
      DrainOrderStep(kinds, e, rest, lo, hi);
    }
  }

  lemma LastPhase(kinds: seq<Kind>, es: seq<nat>, lo: int, hi: int)
    requires lo <= hi
    ensures DrainOrder(kinds, es, lo, hi) == DrainOrder(kinds, es, lo, hi - 1) + OfPhase(kinds, es, hi, true)
  {
    hide OfPhase;
  }

  lemma DrainOrderStep(kinds: seq<Kind>, e: nat, rest: seq<nat>, lo: int, hi: int)
    requires lo <= PhaseOf(kinds, e) && lo <= hi && InsertsIn(kinds, e, rest, lo, hi - 1)
    ensures InsertsIn(kinds, e, rest, lo, hi)
  {
    hide OfPhase, Insert, PhaseOf, PhasesUpTo, DrainOrder;
    var d, b := DrainOrder(kinds, rest, lo, hi - 1), OfPhase(kinds, rest, hi, true);
    LastPhase(kinds, rest, lo, hi);
    LastPhase(kinds, [e] + rest, lo, hi);
    OfPhaseFirst(kinds, e, rest, hi, true);
    assert [] + b == b;
    DrainOrderUpTo(kinds, rest, lo, hi - 1);
    OfPhaseIs(kinds, rest, hi);
    InsertPhase(kinds, e, d, b, hi);
  }

  /** Adding a reaction of phase `p` or an earlier one to `a`, the earlier phases, and `b`, the reactions of `p`. */
  lemma InsertPhase(kinds: seq<Kind>, e: nat, a: seq<nat>, b: seq<nat>, p: int)
    requires PhasesUpTo(kinds, a, p - 1) && forall i :: 0 <= i < |b| ==> PhaseOf(kinds, b[i]) == p
    ensures PhaseOf(kinds, e) < p ==> Insert(kinds, e, a + b) == Insert(kinds, e, a) + b
    ensures PhaseOf(kinds, e) == p ==> Insert(kinds, e, a + b) == a + ([e] + b)
  {
    hide PhaseOf;
    if PhaseOf(kinds, e) < p {
      InsertInto(kinds, e, a, b);
    }
    if PhaseOf(kinds, e) == p {
      InsertPast(kinds, e, a, b);
    }
  }

  /** A dispatch of everything takes the reactions exactly in the order in which the phase buckets are drained. */
  lemma {:induction false} ByPhaseIsDrained(kinds: seq<Kind>, es: seq<nat>, lo: int, hi: int)
    requires forall i :: 0 <= i < |es| ==> lo <= PhaseOf(kinds, es[i]) <= hi
    ensures ByPhase(kinds, es) == DrainOrder(kinds, es, lo, hi)
  {
    hide Insert, PhaseOf, DrainOrder;
    if es == [] {
      NothingDrained(kinds, lo, hi);
    } else {
      ByPhaseIsDrained(kinds, es[1..], lo, hi);
      assert es == [es[0]] + es[1..];
      DrainOrderInsert(kinds, es[0], es[1..], lo, hi);
    }
  }

  lemma {:induction false} NothingDrained(kinds: seq<Kind>, lo: int, hi: int)
    ensures DrainOrder(kinds, [], lo, hi) == []
    decreases hi - lo
  {
    if lo <= hi {
      NothingDrained(kinds, lo, hi - 1);
    }
  }

  /** Buckets that hold the reactions of every phase in order are drained in that order. */
  lemma {:induction false} BucketsDrain(kinds: seq<Kind>, es: seq<nat>, queue: Buckets<nat>, lo: int, hi: int)
    requires forall p :: lo <= p <= hi ==> queue.Queue(p) == OfPhase(kinds, es, p, true)
    ensures queue.Upto(lo, hi) == DrainOrder(kinds, es, lo, hi)
    decreases hi - lo
  {
    hide OfPhase;
    if lo <= hi {
      BucketsDrain(kinds, es, queue, lo, hi - 1);
    }
  }
}
