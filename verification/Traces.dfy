// Whole runs of the graph, state by state: what each operation may have done to marks, caches, reactions and the log.
module Traces {
  import opened DirtyLattice
  import opened Options
  import opened Computation
  import opened GraphState
  import opened BindingSteps
  import opened EvaluationSteps
  import opened Evolution
  import opened Runs
  import opened MarkingSteps
  import opened LifetimeSteps
  import opened AtRest
  import opened Discarding
  import opened Causes
  import opened ReactionOrder
  import opened StateGuard
  import opened Worlds
  import opened Guarantees

  /** Everybody is told that state `s` has the new value `v`, and nobody else. */
  ghost predicate SetAndTold(g: G, s: nat, v: Value, g': G) {
    Lengths(g) && Spread(SetValue(g, s, v), g', s, DirtyLevel) && ToldAll(g', s)
  }

  /** A read of `n`, from the state `ready` in which everything queued was announced. */
  ghost predicate DidRead(g: G, ready: G, n: nat, g': G) {
    && Ready(g, ready) && ReadAsNeeded(ready, g', n) && Lengths(g) && Lengths(g') && WorldOf(g') == WorldOf(g)
    && g.ran <= g'.ran && (forall i, j :: |g.ran| <= i < j < |g'.ran| ==> g'.ran[i] != g'.ran[j])
    && OnlySuspectsRan(g, g'.ran) && UpToDate(g', n) && (UpToDate(g, n) ==> g'.ran == g.ran)
  }

  /** A dispatch of the reactions of a phase. */
  ghost predicate DidReact(g: G, ready: G, phase: Option<int>, g': G) {
    && Ready(g, ready) && RanAsNeeded(ready, g', phase) && Lengths(g) && g'.notifys == [] && WorldOf(g') == WorldOf(g)
    && g.ran <= g'.ran && (forall i, j :: |g.ran| <= i < j < |g'.ran| ==> g'.ran[i] != g'.ran[j])
    && (forall i :: |g.ran| <= i < |g'.ran| ==> NeededInPhase(ready, phase, g'.ran[i]))
    && OnlySuspectsRan(g, g'.ran)
    && EffectsInTurn(g.kinds, ready.pending, g'.ran, |g.ran|) && Left(g.kinds, ready.pending, g'.pending, phase)
  }

  /** What operation `op` did. */
  ghost predicate Did(g: G, op: Op, g': G) {
    match op
    case Create(kind, v) => g' == AddNode(g, kind, v)
    case Set(s, v) => SetAndTold(g, s, v, g')
    case SetDedup(s, v) => s in g.vals && if g.vals[s] == v then g' == g else SetAndTold(g, s, v, g')
    case Edit(s, uses, loose) =>
      && s in g.vals && Lengths(g)
      && if !Announces(uses, g.vals[s]) then g' == g
         else if loose then g' == PushNotify(SetValue(g, s, Written(uses, g.vals[s])), s)
         else SetAndTold(g, s, Written(uses, g.vals[s]), g')
    case Get(n) => exists ready: G :: DidRead(g, ready, n, g')
    case React(phase) => exists ready: G :: DidReact(g, ready, phase, g')
    case Discard => Cleared(g, g') && HoldsIfWanted(g, g') && g'.discards == [] && g'.unbinds == []
    case Drop(a) => Lengths(g) && a < Size(g) && g' == DropNode(g, a)
  }

  lemma TablesFit(g: G)
    requires Ok(g)
    ensures Lengths(g)
  {
  }

  /** The states after each operation of a run that started in `g`. */
  ghost predicate Follows(g: G, ops: seq<Op>, trace: seq<G>)
    decreases |ops|
  {
    && |trace| == |ops|
    && (ops != [] ==> Ok(trace[0]) && Did(g, ops[0], trace[0]) && Follows(trace[0], ops[1..], trace[1..]))
  }

  function Ends(g: G, trace: seq<G>): G { if trace == [] then g else trace[|trace| - 1] }

  lemma FollowsFirst(g: G, op: Op, g1: G, rest: seq<Op>, trace: seq<G>)
    requires Ok(g1) && Did(g, op, g1) && Follows(g1, rest, trace)
    ensures Follows(g, [op] + rest, [g1] + trace) && Ends(g, [g1] + trace) == Ends(g1, trace)
  {
    hide Did;
    assert ([op] + rest)[1..] == rest && ([g1] + trace)[1..] == trace;
  }

  /** In a run a dispatch leaves every live effect of its phase with the current values of all it reads. */
  lemma EffectsAreCurrent(g: G, phase: Option<int>, g': G, e: nat)
    requires Did(g, React(phase), g') && Ok(g') && Lengths(g) && InBatch(g, e, phase)
    ensures Lengths(g') && e < Size(g') && !g'.kinds[e].StateNode? && g'.dirty[e] == Clean
    ensures LastRun(g', e) == Some(Ret(Eval(g'.kinds, g'.vals, e)))
  {
    var ready: G :| DidReact(g, ready, phase, g');
    ReactedSame(g, ready, phase, g');
    hide Ok, DidReact, RanAsNeeded, Ready;
    CleanEffectSawLatest(g', e);
  }

  lemma ReactedSame(g: G, ready: G, phase: Option<int>, g': G)
    requires DidReact(g, ready, phase, g') && Ok(g')
    ensures Lengths(g') && g'.notifys == []
    ensures forall e: nat :: InBatch(g, e, phase) ==> InBatch(g', e, phase) && g'.dirty[e] == Clean
  {
    assert OnlyAnnounced(g, ready);
  }
}
