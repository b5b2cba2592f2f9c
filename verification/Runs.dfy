// Reading a source and running a function as relations between graph states, and how the parts
// of an evaluation compose.
module Runs {
  import opened DirtyLattice
  import opened Options
  import opened Computation
  import opened GraphState
  import opened BindingSteps
  import opened EvaluationSteps
  import opened Evolution

  /** Enough of the invariant to speak of evaluation from scratch. */
  ghost predicate Base(g: G) {
    && Lengths(g)
    && Program(g.kinds)
    && Values(g.kinds, g.vals)
    && Forward(g)
  }

  /** `n` was brought up to date: what holds after `ScanNode::update`. */
  ghost predicate Updated(g0: G, g: G, n: nat) {
    && Base(g0) && Base(g)
    && n < Size(g) && g.dirty[n] == Clean
    && Evolves(g0, g, n + 1, n + 1)
    && ExactAt(g0, g, n)
    && RanWithin(g0, g, Need(g0.kinds, g0.vals, n))
  }

  /** While `n` runs, its `i`-th read went to `s` and returned `v`. */
  ghost predicate ReadDone(g0: G, g: G, n: nat, i: nat, s: nat, v: Value) {
    && Base(g0) && Base(g)
    && n < Size(g0) && s < n && Live(g, n)
    && Evolves(g0, g, n, n + 1) && SamePrefix(g0, g, n, i)
    && i < |g.sources[n]| && g.sources[n][i].node == Target(g.kinds, s) && g.seen[n][i] == v
    && Settled(g, n, i)
    && v == Eval(g0.kinds, g0.vals, s)
    && RanWithin(g0, g, Need(g0.kinds, g0.vals, s))
  }

  /** What `Depend` leaves behind. */
  ghost predicate DependDone(g0: G, g: G, n: nat, i: nat, s: nat, v: Value) {
    && Base(g0) && Base(g)
    && n < Size(g0) && s < n && Live(g, n)
    && Evolves(g0, g, n, n + 1) && SamePrefix(g0, g, n, i)
    && i < |g.sources[n]| && g.sources[n][i].node == s && g.seen[n][i] == v
    && Linked(g, g.sources[n][i], n) && g.sinks[s][g.sources[n][i].key].dirty == Clean
    && g.dirty == g0.dirty && g.cache == g0.cache && g.ran == g0.ran
  }

  lemma ReadState(g0: G, g: G, n: nat, i: nat, s: nat, v: Value)
    requires DependDone(g0, g, n, i, s, v) && g.dirty[s] == Clean
    requires g0.kinds[s].StateNode? && s in g0.vals && v == g0.vals[s]
    ensures ReadDone(g0, g, n, i, s, v)
  {
  }

  lemma ReadMemo(g0: G, g1: G, g: G, n: nat, i: nat, s: nat, v: Value)
    requires DependDone(g0, g1, n, i, s, v) && Updated(g1, g, s)
    requires Current(g, s) == Some(v) && v == Eval(g0.kinds, g0.vals, s)
    requires g0.kinds[s].MemoNode?
    ensures ReadDone(g0, g, n, i, s, v)
  {
    hide Eval, Need, Program, Evolves, ExactAt, SettledTo;
    EvolvesSame(g0, g1, n, n + 1);
    EvolvesSame(g1, g, s + 1, s + 1);
    ReadMemoFrame(g0, g1, g, n, i, s);
    ReadMemoSettled(g1, g, n, i, s, v);
  }

  lemma DependFacts(g0: G, g1: G, c: Ctx, n: nat, i: nat, s: nat, v: Value)
    requires Inv(g0, c) && Inv(g1, c) && Within(c, n) && c.resolved == {} && Live(g1, n) && s in Readable(g0, n)
    requires Evolves(g0, g1, n, n + 1) && SamePrefix(g0, g1, n, i)
    requires i < |g1.sources[n]| && g1.sources[n][i].node == s && g1.seen[n][i] == v
    requires Linked(g1, g1.sources[n][i], n) && g1.sinks[s][g1.sources[n][i].key].dirty == Clean
    requires g1.dirty == g0.dirty && g1.cache == g0.cache && g1.ran == g0.ran
    ensures DependDone(g0, g1, n, i, s, v) && Above(c, s) && g1.kinds == g0.kinds && Live(g1, s)
  {
  }

  lemma ReadMemoEnds(g0: G, g1: G, g: G, c: Ctx, n: nat, i: nat, s: nat)
    requires Base(g0) && s < Size(g0) && DependDone(g0, g1, n, i, s, Eval(g0.kinds, g0.vals, s)) && Updated(g1, g, s)
    requires Inv(g, c) && Above(c, s) && Live(g1, s) && g1.kinds[s].MemoNode?
    ensures s < |g.cache| && g.cache[s].Some? && ReadDone(g0, g, n, i, s, g.cache[s].value)
  {
    hide AllDecided, Exact, RanOnce, Need;
    CleanIsFresh(g, c, s);
    ReadMemo(g0, g1, g, n, i, s, g.cache[s].value);
  }

  lemma ReadMemoFrame(g0: G, g1: G, g: G, n: nat, i: nat, s: nat)
    requires Evolves(g0, g1, n, n + 1) && n < Size(g0) && SamePrefix(g0, g1, n, i) && Forward(g0)
    requires Evolves(g1, g, s + 1, s + 1) && s < n && ExactAt(g1, g, s) && Forward(g1) && g.dirty[s] == Clean
    ensures Evolves(g0, g, n, n + 1) && SamePrefix(g0, g, n, i)
  {
    hide AllDecided, Exact, RanOnce;
    EvolvesWiden(g1, g, s, n);
    EvolvesTrans(g0, g1, g, n, n + 1);
    EvolvesPrefix(g1, g, s, n, i);
    SamePrefixTrans(g0, g1, g, n, i);
  }

  lemma ReadMemoSettled(g1: G, g: G, n: nat, i: nat, s: nat, v: Value)
    requires Evolves(g1, g, s + 1, s + 1) && s < n < Size(g1) && g.dirty[s] == Clean && Current(g, s) == Some(v)
    requires i < |g1.sources[n]| && g1.sources[n][i].node == s && g1.seen[n][i] == v
    requires Linked(g1, g1.sources[n][i], n) && g1.sinks[s][g1.sources[n][i].key].dirty == Clean
    ensures i < |g.sources[n]| && g.sources[n][i].node == s && g.seen[n][i] == v
    ensures Settled(g, n, i)
  {
    assert SameNode(g1, g, n);
    assert BindingKept(g1, g, s, g1.sources[n][i].key);
  }

  lemma ReadKeep(g0: G, g1: G, g: G, n: nat, i: nat, s: nat, v: Value)
    requires Updated(g0, g1, s) && s < n < Size(g0) && i <= |g0.sources[n]|
    requires g0.kinds[s].KeepNode? && ReadDone(g1, g, n, i, g0.kinds[s].signal, v)
    ensures ReadDone(g0, g, n, i, s, v)
  {
    hide Eval, Need, Target, Program, AllDecided, Exact, RanOnce;
    KeepMeaning(g0.kinds, g0.vals, s);
    ReadKeepFrame(g0, g1, g, n, i, s);
    RanWithinTrans(g0, g1, g, Need(g0.kinds, g0.vals, s));
  }

  lemma ReadKeepFrame(g0: G, g1: G, g: G, n: nat, i: nat, s: nat)
    requires Evolves(g0, g1, s + 1, s + 1) && s < n < Size(g0) && ExactAt(g0, g1, s) && i <= |g0.sources[n]|
    requires Forward(g0) && g1.dirty[s] == Clean
    requires Evolves(g1, g, n, n + 1) && SamePrefix(g1, g, n, i)
    ensures Evolves(g0, g, n, n + 1) && SamePrefix(g0, g, n, i)
    ensures SameWorld(g0, g1) && SameWorld(g1, g)
  {
    hide AllDecided, Exact, RanOnce;
    EvolvesWiden(g0, g1, s, n);
    EvolvesTrans(g0, g1, g, n, n + 1);
    EvolvesPrefix(g0, g1, s, n, i);
    SamePrefixTrans(g0, g1, g, n, i);
  }

  /** `n` has been running since `g0`. */
  ghost predicate RunFrame(g0: G, g: G, n: nat) {
    && Base(g0) && Base(g)
    && n < Size(g0)
    && Evolves(g0, g, n, n + 1)
    && RanWithin(g0, g, Need(g0.kinds, g0.vals, n))
    && g.sinks[n] == g0.sinks[n] && g.scheduled[n] == g0.scheduled[n]
  }

  /** `n` has made its first `len` reads and is left with `comp`. */
  ghost predicate RunAt(g: G, n: nat, len: nat, comp: Comp) {
    && Base(g)
    && Live(g, n) && !g.kinds[n].StateNode?
    && len <= |g.sources[n]| && SettledTo(g, n, len)
    && Advance(g.kinds, CompOf(g.kinds[n]), g.sources[n], g.seen[n], len) == Some(comp)
    && ReadsOnly(comp, Readable(g, n))
    && ReadsOnly(comp, Below(g.kinds, n))
    && NeedComp(g.kinds, g.vals, comp, n) <= Need(g.kinds, g.vals, n)
  }

  lemma RunStepFrame(g0: G, g: G, g': G, n: nat, len: nat, s: nat, v: Value)
    requires RunFrame(g0, g, n) && ReadDone(g, g', n, len, s, v)
    requires Need(g0.kinds, g0.vals, s) <= Need(g0.kinds, g0.vals, n)
    ensures RunFrame(g0, g', n)
  {
    hide Evolves, Need, Program, Values;
    EvolvesSame(g0, g, n, n + 1);
    EvolvesSame(g, g', n, n + 1);
    EvolvesTrans(g0, g, g', n, n + 1);
    RanWithinTrans(g0, g, g', Need(g0.kinds, g0.vals, n));
  }

  lemma RunStepAt(g: G, g': G, n: nat, len: nat, comp: Comp, v: Value)
    requires RunAt(g, n, len, comp) && comp.Read? && ReadDone(g, g', n, len, comp.source, v)
    ensures v in comp.next
    ensures Need(g.kinds, g.vals, comp.source) <= Need(g.kinds, g.vals, n)
    ensures RunAt(g', n, len + 1, comp.next[v])
  {
    hide Evolves, ReadsOnly, NeedComp, Need, Readable, Below, RanWithin, SettledTo, Advance;
    EvolvesSame(g, g', n, n + 1);
    RunStepNeeds(g, n, len, comp, v);
    RunStepSettles(g, g', n, len);
    RunStepAdvances(g, g', n, len, comp, v);
    SameReadable(g, g', n);
  }

  /** What is left after a read is a part of what was left before. */
  lemma RunStepNeeds(g: G, n: nat, len: nat, comp: Comp, v: Value)
    requires RunAt(g, n, len, comp) && comp.Read?
    ensures v in comp.next
    ensures Need(g.kinds, g.vals, comp.source) <= Need(g.kinds, g.vals, n)
    ensures ReadsOnly(comp.next[v], Readable(g, n)) && ReadsOnly(comp.next[v], Below(g.kinds, n))
    ensures comp.source < Size(g)
    ensures v == Eval(g.kinds, g.vals, comp.source) ==>
      NeedComp(g.kinds, g.vals, comp.next[v], n) <= Need(g.kinds, g.vals, n)
  {
    hide SettledTo, Advance;
  }

  lemma RunStepAdvances(g: G, g': G, n: nat, len: nat, comp: Comp, v: Value)
    requires Lengths(g) && Lengths(g') && n < Size(g) && g'.kinds == g.kinds && !g.kinds[n].StateNode?
    requires SamePrefix(g, g', n, len) && len < |g'.sources[n]|
    requires Advance(g.kinds, CompOf(g.kinds[n]), g.sources[n], g.seen[n], len) == Some(comp)
    requires comp.Read? && v in comp.next && comp.source < Size(g)
    requires g'.sources[n][len].node == Target(g'.kinds, comp.source) && g'.seen[n][len] == v
    ensures Advance(g'.kinds, CompOf(g'.kinds[n]), g'.sources[n], g'.seen[n], len + 1) == Some(comp.next[v])
  {
    hide Advance, Target, SettledTo;
    AdvanceAgrees(g.kinds, CompOf(g.kinds[n]), g.sources[n], g.seen[n], g'.sources[n], g'.seen[n], len);
    AdvanceNext(g.kinds, CompOf(g.kinds[n]), g'.sources[n], g'.seen[n], len, comp);
  }

  lemma RunStepSettles(g: G, g': G, n: nat, len: nat)
    requires Lengths(g) && Lengths(g') && n < Size(g) && Size(g') == Size(g)
    requires SamePrefix(g, g', n, len) && SettledTo(g, n, len) && len < |g'.sources[n]| && Settled(g', n, len)
    ensures SettledTo(g', n, len + 1)
  {
    hide Settled;
  }

  lemma SameReadable(g: G, g': G, n: nat)
    requires Lengths(g) && Lengths(g') && SameWorld(g, g')
    ensures Readable(g', n) == Readable(g, n)
  {
  }

  // ----- checking -----

  /** A source that is checked after all earlier ones turned out unchanged is really needed. */
  lemma CheckNeed(g: G, c: Ctx, n: nat, i: nat)
    requires Shape(g, c) && Coherent(g, c) && Live(g, n) && !g.kinds[n].StateNode? && Above(c, n)
    requires TracedAt(g, n) && i < |g.sources[n]| && SettledTo(g, n, i)
    ensures g.sources[n][i].node < n && Need(g.kinds, g.vals, g.sources[n][i].node) <= Need(g.kinds, g.vals, n)
  {
    var comp := CompOf(g.kinds[n]);
    SettledIsFresh(g, c, n, i);
    AdvancePrefix(g.kinds, comp, g.sources[n], g.seen[n], i + 1, |g.sources[n]|);
    AdvanceMeaning(g.kinds, g.vals, comp, n, g.sources[n], g.seen[n], i);
    var Read(s, k) := Advance(g.kinds, comp, g.sources[n], g.seen[n], i).value;
    TargetMeaning(g.kinds, g.vals, s);
  }

  lemma RunStepUpdated(g0: G, g: G, g': G, n: nat, s: nat)
    requires RunFrame(g0, g, n) && Updated(g, g', s) && s < n
    requires Need(g0.kinds, g0.vals, s) <= Need(g0.kinds, g0.vals, n)
    ensures RunFrame(g0, g', n)
    ensures g'.dirty[n] == g.dirty[n] && g'.cache[n] == g.cache[n] && g'.sources[n] == g.sources[n]
    ensures g'.seen[n] == g.seen[n]
  {
    hide Evolves, ExactAt, RanWithin, Need, Program, Values;
    EvolvesSame(g0, g, n, n + 1);
    EvolvesSame(g, g', s + 1, s + 1);
    EvolvesAbove(g, g', s, n);
    EvolvesWiden(g, g', s, n);
    EvolvesTrans(g0, g, g', n, n + 1);
    UpdatedWithin(g0, g, g', n, s);
  }

  lemma UpdatedWithin(g0: G, g: G, g': G, n: nat, s: nat)
    requires RunFrame(g0, g, n) && Updated(g, g', s) && s < n && g.kinds == g0.kinds && g.vals == g0.vals
    requires Need(g0.kinds, g0.vals, s) <= Need(g0.kinds, g0.vals, n)
    ensures RanWithin(g0, g', Need(g0.kinds, g0.vals, n))
  {
    hide Evolves, ExactAt, Need;
    RanWithinTrans(g0, g, g', Need(g0.kinds, g0.vals, n));
  }

  /** After source `i` is up to date its binding says Dirty or Clean, and Clean means settled. */
  lemma CheckedSource(g: G, c: Ctx, n: nat, i: nat)
    requires Shape(g, c) && Coherent(g, c) && Live(g, n) && n !in c.running && Above(c, n)
    requires i < |g.sources[n]| && Linked(g, g.sources[n][i], n)
    requires g.dirty[g.sources[n][i].node] == Clean
    ensures g.sinks[g.sources[n][i].node][g.sources[n][i].key].dirty != MaybeDirty
    ensures g.sinks[g.sources[n][i].node][g.sources[n][i].key].dirty == Clean ==> Settled(g, n, i)
  {
    assert Marked(g, c, g.sources[n][i].node, g.sources[n][i].key);
    assert SeenAt(g, c, n, i);
  }

  // ----- the end of a run -----

  /** The function of `n` has been running since `g0`, made `len` reads, and is left with `comp`. */
  ghost predicate Running(g0: G, g: G, n: nat, len: nat, comp: Comp) {
    && RunFrame(g0, g, n)
    && RunAt(g, n, len, comp)
    && g.dirty[n] == g0.dirty[n] && g.cache[n] == g0.cache[n]
  }

  lemma RunningFacts(g0: G, g: G, n: nat, len: nat, comp: Comp)
    requires Running(g0, g, n, len, comp)
    ensures Lengths(g) && g.kinds == g0.kinds && Live(g, n) && !g.kinds[n].StateNode? && len <= |g.sources[n]|
    ensures comp.Read? ==> comp.source in Readable(g, n) && comp.source < n
  {
  }

  lemma RunningStart(g: G, c: Ctx, n: nat)
    requires Inv(g, c) && Live(g, n) && !g.kinds[n].StateNode?
    ensures Running(g, g, n, 0, CompOf(g.kinds[n]))
  {
  }

  lemma RunningStep(g0: G, g: G, g': G, n: nat, len: nat, comp: Comp, v: Value)
    requires Running(g0, g, n, len, comp) && comp.Read? && ReadDone(g, g', n, len, comp.source, v)
    ensures v in comp.next && Running(g0, g', n, len + 1, comp.next[v])
  {
    hide Evolves, RanWithin, Need, Program, Values, ReadsOnly, NeedComp, Advance, SettledTo;
    EvolvesSame(g0, g, n, n + 1);
    EvolvesSame(g, g', n, n + 1);
    RunStepAt(g, g', n, len, comp, v);
    RunStepFrame(g0, g, g', n, len, comp.source, v);
  }

  lemma ReturnedTrans(g0: G, g1: G, g: G, n: nat, len: nat, v: Value)
    requires RunFrame(g0, g1, n) && Running(g1, g, n, len, Ret(v))
    ensures RunFrame(g0, g, n)
  {
    FrameTrans(g0, g1, g, n);
  }

  lemma StoredFrame(g: G, n: nat, v: Value)
    requires Base(g) && n < Size(g)
    ensures RunFrame(g, WriteCache(g, n, v), n)
  {
    var g' := WriteCache(g, n, v);
    assert Forward(g') by {
      forall a, i | 0 <= a < Size(g) && 0 <= i < |g'.sources[a]| ensures Linked(g', g'.sources[a][i], a) {
        assert Linked(g, g.sources[a][i], a);
      }
    }
  }

  lemma StoredAt(g: G, n: nat, v: Value, len: nat, left: Comp)
    requires RunAt(g, n, len, left) && Base(WriteCache(g, n, v))
    ensures RunAt(WriteCache(g, n, v), n, len, left)
  {
    var g' := WriteCache(g, n, v);
    forall i | 0 <= i < len ensures Settled(g', n, i) {
      assert Settled(g, n, i) && Linked(g, g.sources[n][i], n);
    }
    assert Readable(g', n) == Readable(g, n);
  }

  lemma DrainedFrame(g: G, g': G, n: nat, len: nat, v: Value)
    requires RunAt(g, n, len, Ret(v)) && Base(g')
    requires Evolves(g, g', n, n + 1) && SamePrefix(g, g', n, len) && |g'.sources[n]| == len && g'.ran == g.ran
    ensures RunFrame(g, g', n)
    ensures RunAt(g', n, len, Ret(v))
  {
    AdvanceAgrees(g.kinds, CompOf(g.kinds[n]), g.sources[n], g.seen[n], g'.sources[n], g'.seen[n], len);
    assert Readable(g', n) == Readable(g, n);
  }

  lemma SettleFrame(g: G, n: nat)
    requires Base(g) && n < Size(g)
    ensures RunFrame(g, Settle(g, n), n)
  {
    var g' := Settle(g, n);
    assert Forward(g') by {
      forall a, i | 0 <= a < Size(g) && 0 <= i < |g'.sources[a]| ensures Linked(g', g'.sources[a][i], a) {
        assert Linked(g, g.sources[a][i], a);
      }
    }
  }

  lemma FrameTrans(g0: G, g: G, g': G, n: nat)
    requires RunFrame(g0, g, n) && RunFrame(g, g', n)
    ensures RunFrame(g0, g', n)
  {
    hide Evolves, Need, Program, Values;
    EvolvesSame(g0, g, n, n + 1);
    EvolvesTrans(g0, g, g', n, n + 1);
    RanWithinTrans(g0, g, g', Need(g0.kinds, g0.vals, n));
  }

  /** The whole run of `n`, up to and including the final drain; it is not yet logged. */
  ghost predicate RunDone(g0: G, g: G, n: nat, v: Value) {
    && RunFrame(g0, g, n)
    && RunAt(g, n, |g.sources[n]|, Ret(v))
    && g.dirty[n] == Clean
    && (g.kinds[n].MemoNode? ==> g.cache[n] == Some(v))
  }

  // ----- packaged for the methods of the graph -----

  /** The start of `SourceBinder::update`: the node's own mark goes to Clean. */
  lemma RunBegins(g: G, c: Ctx, n: nat)
    requires Inv(g, c) && Live(g, n) && Above(c, n) && g.dirty[n] != Clean
    ensures Lengths(g)
    ensures Inv(Settle(g, n), Enter(c, n)) && Within(Enter(c, n), n)
    ensures RunFrame(g, Settle(g, n), n)
    ensures Announced(Settle(g, n), Enter(c, n), n)
  {
    SettleKeeps(g, c, n);
    SettleFrame(g, n);
    DirtyIsAnnounced(g, c, n);
  }

  /** After the reads: the result is stored (or an equal one kept). */
  lemma ResultStored(g0: G, g1: G, g: G, c: Ctx, n: nat, len: nat, v: Value, isDirty: bool)
    requires Inv(g, c) && n in c.running
    requires RunFrame(g0, g1, n) && Running(g1, g, n, len, Ret(v)) && Announced(g1, c, n)
    requires isDirty ==> g.kinds[n].MemoNode?
    ensures Lengths(g)
    ensures var g' := if isDirty then WriteCache(g, n, v) else g;
      Inv(g', if isDirty then Replaced(c, n) else c) && RunFrame(g0, g', n) && RunAt(g', n, len, Ret(v))
  {
    RunningFacts(g1, g, n, len, Ret(v));
    ReturnedTrans(g0, g1, g, n, len, v);
    if isDirty {
      WriteCacheKeeps(g, c, n, v);
      StoredFrame(g, n, v);
      StoredAt(g, n, v, len, Ret(v));
      FrameTrans(g0, g, WriteCache(g, n, v), n);
    }
  }

  lemma RunEnds(g0: G, g: G, g': G, c: Ctx, n: nat, len: nat, v: Value)
    requires RunFrame(g0, g, n) && RunAt(g, n, len, Ret(v)) && g.dirty[n] == Clean
    requires g.kinds[n].MemoNode? ==> g.cache[n] == Some(v)
    requires Drained(g, g', c, n, len) && |g'.sources[n]| == len
    ensures RunDone(g0, g', n, v)
  {
    DrainedFrame(g, g', n, len, v);
    FrameTrans(g0, g, g', n);
  }

  /** The final drain plays no part in the log: it is the same with the log as it was before the run was noted. */
  lemma DrainedUnlogged(g: G, g': G, c: Ctx, n: nat, len: nat)
    requires Drained(Logged(g, n), g', c, n, len)
    ensures Drained(g, g'.(ran := g.ran), c, n, len) && g' == Logged(g'.(ran := g.ran), n)
  {
    hide Inv, Evolves, Coherent, Queued;
    LogKeeps(g', c, g.ran);
    EvolvesSame(Logged(g, n), g', n, n + 1);
    EvolvesUnlogged(g, g', n);
    UnloggedPrefix(g, g', n, len);
  }

  lemma UnloggedPrefix(g: G, g': G, n: nat, len: nat)
    requires Lengths(g) && Lengths(g') && n < Size(g) && n < Size(g') && SamePrefix(Logged(g, n), g', n, len)
    ensures SamePrefix(g, g'.(ran := g.ran), n, len)
  {
    SettledUnlogged(g, Logged(g, n), n, len);
    SettledUnlogged(g', g'.(ran := g.ran), n, len);
    hide SettledTo;
  }

  lemma SettledUnlogged(g: G, g': G, n: nat, len: nat)
    requires Lengths(g) && n < Size(g) && len <= |g.sources[n]| && g' == g.(ran := g'.ran)
    ensures SettledTo(g, n, len) == SettledTo(g', n, len)
  {
    assert forall i :: 0 <= i < len ==> Settled(g, n, i) == Settled(g', n, i);
  }

  /** The sources of `n` before position `i` were checked since `g0` and are unchanged. */
  ghost predicate CheckedTo(g0: G, g: G, n: nat, i: nat) {
    && RunFrame(g0, g, n)
    && Live(g, n) && !g.kinds[n].StateNode?
    && g.dirty[n] == g0.dirty[n] && g.cache[n] == g0.cache[n]
    && g.sources[n] == g0.sources[n] && g.seen[n] == g0.seen[n]
    && i <= |g.sources[n]| && SettledTo(g, n, i)
    && TracedAt(g, n)
    && Inspects(g0, g, n)
  }

  /** The bindings that `n` has at its sources were resolved exactly, or not touched. */
  ghost predicate Inspects(g0: G, g: G, n: nat)
    requires Lengths(g0) && Lengths(g) && |g.kinds| == |g0.kinds|
  {
    forall s, k :: 0 <= s < Size(g0) && s < n && k in g0.sinks[s] && g0.sinks[s][k].sink == n ==>
      InspectedAt(g0, g, s, k)
  }

  ghost predicate InspectedAt(g0: G, g: G, s: nat, k: nat)
    requires Lengths(g0) && Lengths(g) && |g.kinds| == |g0.kinds| && s < Size(g0) && k in g0.sinks[s]
  {
    BindingKept(g0, g, s, k) && Exact(g0, g, s, k)
  }

  lemma InspectStep(g0: G, g: G, g': G, n: nat, s: nat)
    requires Evolves(g0, g, n, n + 1) && s < n < Size(g0) && Inspects(g0, g, n)
    requires Evolves(g, g', s + 1, s + 1) && ExactAt(g, g', s) && g'.dirty[s] == Clean
    ensures Inspects(g0, g', n)
  {
    hide Evolves, ExactAt, BindingKept, Exact;
    EvolvesSame(g0, g, n, n + 1);
    EvolvesSame(g, g', s + 1, s + 1);
    EvolvesWiden(g, g', s, n);
    forall t, k | 0 <= t < Size(g0) && t < n && k in g0.sinks[t] && g0.sinks[t][k].sink == n
      ensures InspectedAt(g0, g', t, k)
    {
      assert InspectedAt(g0, g, t, k);
      InspectTwice(g0, g, g', n, s, t, k);
    }
  }

  lemma InspectTwice(g0: G, g: G, g': G, n: nat, s: nat, t: nat, k: nat)
    requires Evolves(g0, g, n, n + 1) && s < n < Size(g0)
    requires Evolves(g, g', s + 1, s + 1) && Evolves(g, g', n, n + 1) && ExactAt(g, g', s)
    requires t < n && k in g0.sinks[t] && g0.sinks[t][k].sink == n && InspectedAt(g0, g, t, k)
    ensures InspectedAt(g0, g', t, k)
  {
    hide Evolves, ExactAt, Exact;
    EvolvesSame(g0, g, n, n + 1);
    EvolvesSame(g, g', n, n + 1);
    InspectOne(g, g', n, s, t, k);
    ExactTrans(g0, g, g', n, n + 1, t, k);
  }

  lemma InspectOne(g: G, g': G, n: nat, s: nat, t: nat, k: nat)
    requires Evolves(g, g', s + 1, s + 1) && s < n < Size(g) && ExactAt(g, g', s)
    requires t < n && k in g.sinks[t] && g.sinks[t][k].sink == n
    ensures BindingKept(g, g', t, k) && Exact(g, g', t, k)
  {
    assert Outer(g', s + 1, s + 1, n);
    if t > s {
      assert SameNode(g, g', t);
    }
  }

  lemma CheckStart(g: G, c: Ctx, n: nat)
    requires Inv(g, c) && Live(g, n) && !g.kinds[n].StateNode? && g.dirty[n] == MaybeDirty && Above(c, n)
    ensures CheckedTo(g, g, n, 0)
  {
    RunningStart(g, c, n);
    assert TracedAt(g, n);
  }

  lemma CheckNext(g0: G, g: G, c: Ctx, n: nat, i: nat)
    requires CheckedTo(g0, g, n, i) && Inv(g, c) && Above(c, n) && i < |g.sources[n]|
    ensures Lengths(g) && n < Size(g)
    ensures var s := g.sources[n][i].node;
      && s < n && Live(g, s) && Above(c, s)
      && (g.kinds[s].StateNode? || g.kinds[s].MemoNode?)
  {
    SourceIsLive(g, c, n, i);
  }

  lemma CheckUpdated(g0: G, g: G, g': G, n: nat, i: nat)
    requires CheckedTo(g0, g, n, i) && i < |g.sources[n]| && g.sources[n][i].node < n
    requires Updated(g, g', g.sources[n][i].node)
    requires Need(g.kinds, g.vals, g.sources[n][i].node) <= Need(g.kinds, g.vals, n)
    ensures CheckedTo(g0, g', n, i)
  {
    hide Evolves, Inspects, ExactAt, TracedAt, SettledTo, RanWithin;
    var s := g.sources[n][i].node;
    EvolvesSame(g0, g, n, n + 1);
    EvolvesSame(g, g', s + 1, s + 1);
    RunStepUpdated(g0, g, g', n, s);
    SettledAndTraced(g, g', n, i, s);
    InspectStep(g0, g, g', n, s);
  }

  lemma SettledAndTraced(g: G, g': G, n: nat, i: nat, s: nat)
    requires Lengths(g) && n < Size(g) && !g.kinds[n].StateNode? && Live(g, n) && Forward(g) && s < n
    requires i <= |g.sources[n]| && SettledTo(g, n, i) && TracedAt(g, n)
    requires Evolves(g, g', s + 1, s + 1)
    ensures i <= |g'.sources[n]| && SettledTo(g', n, i) && TracedAt(g', n) && Live(g', n)
  {
    EvolvesSettled(g, g', s, n, i);
    assert SameNode(g, g', n);
  }

  predicate IsDirty(g: G, src: Source)
    requires Lengths(g) && src.node < Size(g) && src.key in g.sinks[src.node]
  {
    g.sinks[src.node][src.key].dirty == Dirty
  }

  /** Once source `i` is up to date, `is_dirty` may be asked, and a clean answer settles it. */
  lemma CheckAsked(g0: G, g: G, g': G, c: Ctx, n: nat, i: nat)
    requires CheckedTo(g0, g, n, i) && Inv(g, c) && Inv(g', c) && Above(c, n) && i < |g.sources[n]|
    requires if g.kinds[g.sources[n][i].node].MemoNode? then Updated(g, g', g.sources[n][i].node) else g' == g
    ensures Lengths(g') && n < Size(g') && g'.sources[n] == g.sources[n]
    ensures var src := g.sources[n][i];
      && src.node < Size(g') && src.key in g'.sinks[src.node]
      && g'.sinks[src.node][src.key].dirty != MaybeDirty
    ensures CheckedTo(g0, g', n, if IsDirty(g', g.sources[n][i]) then i else i + 1)
    ensures IsDirty(g', g.sources[n][i]) ==> FoundDirty(g', n, i)
  {
    hide Shape, Coherent, Queued, Evolves, Inspects, TracedAt, SettledTo, RanWithin, Need, Program, Values, Updated;
    CheckRefreshed(g0, g, g', c, n, i);
    CheckBinding(g0, g', c, n, i);
  }

  lemma CheckRefreshed(g0: G, g: G, g': G, c: Ctx, n: nat, i: nat)
    requires CheckedTo(g0, g, n, i) && Shape(g, c) && Coherent(g, c) && Above(c, n) && i < |g.sources[n]|
    requires if g.kinds[g.sources[n][i].node].MemoNode? then Updated(g, g', g.sources[n][i].node) else g' == g
    ensures CheckedTo(g0, g', n, i) && Lengths(g') && n < Size(g') && g'.sources[n] == g.sources[n]
    ensures g.sources[n][i].node < Size(g') && g'.dirty[g.sources[n][i].node] == Clean
  {
    hide Evolves, Inspects, TracedAt, SettledTo, RanWithin, Need, Program, Values;
    var s := g.sources[n][i].node;
    EvolvesSame(g0, g, n, n + 1);
    SourceIsLive(g, c, n, i);
    if g.kinds[s].MemoNode? {
      CheckNeed(g, c, n, i);
      CheckUpdated(g0, g, g', n, i);
      EvolvesAbove(g, g', s, n);
    } else {
      assert NodeOk(g, s);
    }
  }

  lemma CheckBinding(g0: G, g: G, c: Ctx, n: nat, i: nat)
    requires CheckedTo(g0, g, n, i) && Shape(g, c) && Coherent(g, c) && Above(c, n) && i < |g.sources[n]|
    requires g.sources[n][i].node < Size(g) && g.dirty[g.sources[n][i].node] == Clean
    ensures Linked(g, g.sources[n][i], n)
    ensures g.sinks[g.sources[n][i].node][g.sources[n][i].key].dirty != MaybeDirty
    ensures g.sinks[g.sources[n][i].node][g.sources[n][i].key].dirty == Clean ==> CheckedTo(g0, g, n, i + 1)
  {
    assert Linked(g, g.sources[n][i], n);
    CheckedSource(g, c, n, i);
  }

  /** Source `i` of `n` was found to have really changed. */
  predicate FoundDirty(g: G, n: nat, i: nat)
    requires Lengths(g)
  {
    && n < Size(g) && i < |g.sources[n]|
    && g.sources[n][i].node < Size(g) && g.sources[n][i].key in g.sinks[g.sources[n][i].node]
    && IsDirty(g, g.sources[n][i])
  }

  // ----- why a function is run -----

  /** A binding that the check found dirty is a reason to run. */
  lemma FoundIsReason(g0: G, g: G, c: Ctx, n: nat, i: nat)
    requires Shape(g0, c) && CheckedTo(g0, g, n, i) && FoundDirty(g, n, i)
    ensures HasReason(g0, g.ran, n)
  {
    var src := g0.sources[n][i];
    assert Linked(g0, src, n);
    assert InspectedAt(g0, g, src.node, src.key);
    assert Differs(g0, g.ran, n, i);
  }

  /** If no binding turned out dirty there was no reason to run, and all sources are unchanged. */
  lemma NothingFound(g0: G, g: G, c: Ctx, n: nat)
    requires Base(g0) && n < Size(g0) && Shape(g, c) && Coherent(g, c) && Above(c, n)
    requires CheckedTo(g0, g, n, |g0.sources[n]|)
    requires g0.dirty[n] == MaybeDirty
    ensures !RanSince(g0.ran, g.ran, n) && Decided(g0, g, n)
  {
    NothingDiffers(g0, g, n);
    SettledIsFresh(g, c, n, |g.sources[n]|);
    assert !RanSince(g0.ran, g.ran, n);
    assert SettledTo(g, n, |g.sources[n]|);
  }

  lemma NothingDiffers(g0: G, g: G, n: nat)
    requires Base(g0) && n < Size(g0) && CheckedTo(g0, g, n, |g0.sources[n]|) && g0.dirty[n] == MaybeDirty
    ensures !HasReason(g0, g.ran, n)
    ensures forall i ::
      0 <= i < |g0.sources[n]| ==> g0.sources[n][i].node < Size(g) && g.dirty[g0.sources[n][i].node] == Clean
  {
    forall i | 0 <= i < |g0.sources[n]|
      ensures !Differs(g0, g.ran, n, i) && g0.sources[n][i].node < Size(g) && g.dirty[g0.sources[n][i].node] == Clean
    {
      var src := g0.sources[n][i];
      assert Linked(g0, src, n);
      assert Settled(g, n, i);
      assert InspectedAt(g0, g, src.node, src.key);
    }
  }

  // ----- leaving a node -----

  /** The check or run of `n` is complete; only its own bindings still wait to be resolved. */
  ghost predicate Complete(g: G, n: nat) {
    && Lengths(g)
    && Live(g, n) && !g.kinds[n].StateNode?
    && g.dirty[n] == Clean
    && SettledTo(g, n, |g.sources[n]|)
    && TracedAt(g, n)
    && (Unheard(g, n) ==> g.scheduled[n])
    && (g.kinds[n].EffectNode? ==> n !in g.pending)
  }

  lemma ResolveLeaves(g: G, c: Ctx, n: nat, isDirty: bool)
    requires Inv(g, if isDirty then Replaced(Enter(c, n), n) else Enter(c, n)) && Above(c, n) && Complete(g, n)
    ensures Inv(Resolve(g, n, isDirty), c)
  {
    var c1 := if isDirty then Replaced(Enter(c, n), n) else Enter(c, n);
    ResolveKeeps(g, c1, n, isDirty);
    var g' := Resolve(g, n, isDirty);
    var c2 := c1.(resolved := c1.resolved - {n});
    ResolveComplete(g, c1, n, isDirty);
    LeaveKeeps(g', c2, n);
    assert Leave(c2, n) == c;
  }

  lemma ResolveComplete(g: G, c: Ctx, n: nat, isDirty: bool)
    requires Complete(g, n) && Forward(g)
    requires forall k :: k in Resolve(g, n, isDirty).sinks[n] ==> Resolve(g, n, isDirty).sinks[n][k].dirty != MaybeDirty
    ensures Finished(Resolve(g, n, isDirty), n)
  {
    var g' := Resolve(g, n, isDirty);
    forall i | 0 <= i < |g.sources[n]| ensures Settled(g', n, i) {
      assert Settled(g, n, i) && Linked(g, g.sources[n][i], n);
    }
  }

  lemma ResolveNothing(g: G, n: nat, isDirty: bool)
    requires Lengths(g) && n < Size(g) && g.sinks[n] == map[]
    ensures Resolve(g, n, isDirty) == g
  {
    assert Resolve(g, n, isDirty).sinks[n] == g.sinks[n];
    assert Resolve(g, n, isDirty).sinks == g.sinks;
  }

  // ----- check, then run if needed -----

  /** A check that found a real change leaves the node marked Dirty. */
  function Raise(g: G, n: nat): G
    requires Lengths(g) && n < Size(g)
  {
    g.(dirty := g.dirty[n := Dirty])
  }

  lemma RaiseKeeps(g: G, c: Ctx, n: nat)
    requires Inv(g, c) && n < Size(g) && g.dirty[n] != Clean
    ensures Inv(Raise(g, n), c)
  {
    var g' := Raise(g, n);
    forall b: nat | b < Size(g') ensures NodeOk(g', b) {
      assert NodeOk(g, b);
    }
    assert Kinds(g');
    SameLinksKeeps(g, g', c);
    RaiseCoherent(g, c, n);
  }

  lemma RaiseCoherent(g: G, c: Ctx, n: nat)
    requires Coherent(g, c) && Queued(g, c) && n < Size(g) && g.dirty[n] != Clean
    ensures Coherent(Raise(g, n), c) && Queued(Raise(g, n), c)
  {
  }

  /** `n` was checked, and run if that was needed; its own bindings are not yet resolved. */
  ghost predicate Evaluated(g0: G, g: G, n: nat) {
    && UpdateFrame(g0, g, n)
    && g.dirty[n] == Clean
    && Live(g, n) && !g.kinds[n].StateNode?
    && SettledTo(g, n, |g.sources[n]|)
    && TracedAt(g, n)
    && g.sinks[n] == g0.sinks[n] && g.scheduled[n] == g0.scheduled[n]
  }

  lemma EvaluatedByCheck(g0: G, g: G, c: Ctx, n: nat)
    requires Lengths(g0) && n < Size(g0) && CheckedTo(g0, g, n, |g0.sources[n]|) && Inv(g, c)
    requires g0.dirty[n] == MaybeDirty
    requires Above(c, n)
    ensures n < Size(g) && Lengths(g) && Inv(Settle(g, n), Enter(c, n))
    ensures Evaluated(g0, Settle(g, n), n)
    ensures !RanSince(g0.ran, g.ran, n) && g.cache[n] == g0.cache[n]
  {
    SettleKeeps(g, c, n);
    NothingFound(g0, g, c, n);
    EvaluatedByCheckFrame(g0, g, n);
  }

  lemma EvaluatedByCheckFrame(g0: G, g: G, n: nat)
    requires Lengths(g0) && n < Size(g0) && CheckedTo(g0, g, n, |g0.sources[n]|) && g0.dirty[n] != Clean
    requires Lengths(g) && Decided(g0, g, n)
    ensures Evaluated(g0, Settle(g, n), n)
  {
    hide Evolves, RanWithin, Need, Program, Values, Decided, TracedAt, SettledTo, Inspects;
    var g' := Settle(g, n);
    SettleFrame(g, n);
    FrameTrans(g0, g, g', n);
    EvolvesSame(g0, g', n, n + 1);
    SettleDecides(g0, g, n);
    SettleSettles(g, n);
    CheckEvolves(g0, g', n);
  }

  lemma SettleDecides(g0: G, g: G, n: nat)
    requires Lengths(g0) && Lengths(g) && n < Size(g0) && Size(g) == Size(g0) && Decided(g0, g, n)
    ensures Decided(g0, Settle(g, n), n)
  {
    hide RunsWhenNeeded;
  }

  lemma SettleSettles(g: G, n: nat)
    requires Lengths(g) && n < Size(g) && !g.kinds[n].StateNode? && SettledTo(g, n, |g.sources[n]|) && TracedAt(g, n)
    ensures SettledTo(Settle(g, n), n, |g.sources[n]|) && TracedAt(Settle(g, n), n)
  {
    hide Advance;
    forall i | 0 <= i < |g.sources[n]| ensures Settled(Settle(g, n), n, i) {
      assert Settled(g, n, i);
    }
  }

  lemma RaisedFrame(g0: G, g: G, n: nat, i: nat)
    requires CheckedTo(g0, g, n, i)
    ensures RunFrame(g0, Raise(g, n), n)
  {
    var g' := Raise(g, n);
    assert Forward(g') by {
      forall a, j | 0 <= a < Size(g) && 0 <= j < |g'.sources[a]| ensures Linked(g', g'.sources[a][j], a) {
        assert Linked(g, g.sources[a][j], a);
      }
    }
    RaiseEvolves(g, n);
    FrameTrans(g0, g, g', n);
  }

  lemma RaiseEvolves(g: G, n: nat)
    requires Lengths(g) && n < Size(g)
    ensures Evolves(g, Raise(g, n), n, n + 1)
  {
  }

  lemma EvaluatedByRun(g0: G, g1: G, h: G, n: nat, v: Value)
    requires RunFrame(g0, g1, n) && RunDone(g1, h, n, v) && g0.dirty[n] != Clean
    requires g0.kinds[n].KeepNode? || HasReason(g0, g1.ran, n)
    ensures Evaluated(g0, Logged(h, n), n)
  {
    hide AllDecided, Exact, RanOnce;
    FrameTrans(g0, g1, h, n);
    if !g0.kinds[n].KeepNode? {
      ReasonStays(g0, g1.ran, h.ran, n);
    }
    RunEvolves(g0, h, n);
    LoggedIsBase(h, n);
    var g := Logged(h, n);
    forall i | 0 <= i < |g.sources[n]| ensures Settled(g, n, i) {
      assert Settled(h, n, i);
    }
  }

  lemma LoggedIsBase(h: G, n: nat)
    requires Base(h)
    ensures Base(Logged(h, n))
  {
    var g := Logged(h, n);
    forall a, i | 0 <= a < Size(g) && 0 <= i < |g.sources[a]| ensures Linked(g, g.sources[a][i], a) {
      assert Linked(h, h.sources[a][i], a);
    }
  }

  // ----- the whole of an update -----

  lemma UpdatedRefl(g: G, c: Ctx, n: nat)
    requires Inv(g, c) && n < Size(g) && g.dirty[n] == Clean
    ensures Updated(g, g, n)
  {
  }

  /** The state after `try_schedule_discard`, the first step of an update. */
  lemma UpdateBegins(g: G, c: Ctx, n: nat)
    requires Inv(g, c) && n < Size(g) && g.dirty[n] != Clean
    ensures Lengths(g) && Inv(TrySchedule(g, n), c)
    ensures UpdateFrame(g, TrySchedule(g, n), n)
    ensures Unheard(TrySchedule(g, n), n) ==> TrySchedule(g, n).scheduled[n]
  {
    TryScheduleKeeps(g, c, n);
    UpdateBeginsFrame(g, c, n);
  }

  lemma UpdateBeginsFrame(g: G, c: Ctx, n: nat)
    requires Shape(g, c) && n < Size(g)
    ensures UpdateFrame(g, TrySchedule(g, n), n)
  {
    TryScheduleShape(g, c, n);
  }

  ghost predicate UpdateFrame(g0: G, g: G, n: nat) {
    && Base(g0) && Base(g)
    && n < Size(g0)
    && Evolves(g0, g, n + 1, n + 1)
    && RanWithin(g0, g, Need(g0.kinds, g0.vals, n))
  }

  lemma UpdateFrameTrans(g0: G, g1: G, g: G, n: nat)
    requires UpdateFrame(g0, g1, n) && UpdateFrame(g1, g, n)
    ensures UpdateFrame(g0, g, n)
  {
    hide AllDecided, Exact, RanOnce;
    EvolvesTrans(g0, g1, g, n + 1, n + 1);
    RanWithinTrans(g0, g1, g, Need(g0.kinds, g0.vals, n));
  }

  lemma ResolveUpdateFrame(g: G, n: nat, isDirty: bool)
    requires Base(g) && n < Size(g) && g.dirty[n] == Clean
    ensures UpdateFrame(g, Resolve(g, n, isDirty), n)
  {
    var g' := Resolve(g, n, isDirty);
    assert Forward(g') by {
      forall a, j | 0 <= a < Size(g) && 0 <= j < |g'.sources[a]| ensures Linked(g', g'.sources[a][j], a) {
        assert Linked(g, g.sources[a][j], a);
      }
    }
  }

  /** From the last step of an update to its contract. */
  lemma UpdateEnds(g0: G, g1: G, g: G, c: Ctx, n: nat, isDirty: bool)
    requires UpdateFrame(g0, g1, n) && Evaluated(g1, g, n)
    requires Unheard(g1, n) ==> g1.scheduled[n]
    requires g.kinds[n].EffectNode? ==> n !in g.pending
    requires Filters(g1, n) ==> (isDirty <==> g.cache[n] != g1.cache[n])
    requires g1.kinds[n].MemoNode? && !Filters(g1, n) ==> (isDirty <==> RanSince(g1.ran, g.ran, n))
    requires Inv(g, if isDirty then Replaced(Enter(c, n), n) else Enter(c, n)) && Above(c, n)
    requires g1.cache == g0.cache && g1.sinks == g0.sinks && g1.ran == g0.ran
    ensures Lengths(g) && Inv(Resolve(g, n, isDirty), c)
    ensures Updated(g0, Resolve(g, n, isDirty), n)
  {
    UpdateLeaves(g1, g, c, n, isDirty);
    UpdateIsExact(g1, g, c, n, isDirty);
    hide Inv;
    ExactFrom(g0, g1, Resolve(g, n, isDirty), n);
    hide Evolves, ExactAt;
    UpdateIsFramed(g0, g1, g, n, isDirty);
  }

  lemma ExactFrom(g0: G, g1: G, g: G, n: nat)
    requires UpdateFrame(g0, g1, n) && g1.cache == g0.cache && g1.sinks == g0.sinks && g1.ran == g0.ran
    requires Lengths(g) && n < Size(g) && ExactAt(g1, g, n)
    ensures ExactAt(g0, g, n)
  {
    assert Outdated(g0, n) == Outdated(g1, n);
    forall k | k in g0.sinks[n] && n < g0.sinks[n][k].sink ensures Exact(g0, g, n, k) {
      assert Exact(g1, g, n, k);
    }
  }

  lemma UpdateIsFramed(g0: G, g1: G, g: G, n: nat, isDirty: bool)
    requires UpdateFrame(g0, g1, n) && UpdateFrame(g1, g, n) && g.dirty[n] == Clean
    ensures UpdateFrame(g0, Resolve(g, n, isDirty), n)
  {
    hide AllDecided, Exact, RanOnce;
    ResolveUpdateFrame(g, n, isDirty);
    UpdateFrameTrans(g0, g1, g, n);
    UpdateFrameTrans(g0, g, Resolve(g, n, isDirty), n);
  }

  lemma UpdateLeaves(g1: G, g: G, c: Ctx, n: nat, isDirty: bool)
    requires Evaluated(g1, g, n)
    requires Unheard(g1, n) ==> g1.scheduled[n]
    requires g.kinds[n].EffectNode? ==> n !in g.pending
    requires Inv(g, if isDirty then Replaced(Enter(c, n), n) else Enter(c, n)) && Above(c, n)
    ensures Lengths(g) && n < Size(g) && Inv(Resolve(g, n, isDirty), c)
  {
    ResolveLeaves(g, c, n, isDirty);
  }

  lemma UpdateIsExact(g1: G, g: G, c: Ctx, n: nat, isDirty: bool)
    requires Evaluated(g1, g, n) && Above(c, n)
    requires Inv(Resolve(g, n, isDirty), c)
    requires Filters(g1, n) ==> (isDirty <==> g.cache[n] != g1.cache[n])
    requires g1.kinds[n].MemoNode? && !Filters(g1, n) ==> (isDirty <==> RanSince(g1.ran, g.ran, n))
    ensures ExactAt(g1, Resolve(g, n, isDirty), n)
  {
    var g' := Resolve(g, n, isDirty);
    assert NodeOk(g', n);
    if g1.kinds[n].MemoNode? {
      CleanIsFresh(g', c, n);
      assert Outdated(g1, n) == (g1.cache[n] != g.cache[n]);
    } else {
      assert forall k :: k in g.sinks[n] ==> k in g'.sinks[n];
      assert g.sinks[n] == map[];
    }
    hide Inv;
    ResolveExact(g1, g, n, isDirty);
  }

  lemma ResolveExact(g0: G, g: G, n: nat, isDirty: bool)
    requires Lengths(g0) && Lengths(g) && n < Size(g0) && g.kinds == g0.kinds && g.dirty[n] == Clean
    requires g.sinks[n] == g0.sinks[n]
    requires Filters(g0, n) ==> (isDirty <==> Outdated(g0, n))
    requires g0.kinds[n].MemoNode? && !Filters(g0, n) ==> (isDirty <==> RanSince(g0.ran, g.ran, n))
    requires !g0.kinds[n].MemoNode? ==> g0.sinks[n] == map[]
    ensures ExactAt(g0, Resolve(g, n, isDirty), n)
  {
  }

  /** `SourceBinder::check` said that `n` has to be run. */
  ghost predicate MustRun(g0: G, g: G, n: nat) {
    && RunFrame(g0, g, n)
    && Live(g, n) && g.kinds == g0.kinds
    && g.dirty[n] == Dirty && g0.dirty[n] != Clean
    && g.cache[n] == g0.cache[n]
    && HasReason(g0, g.ran, n)
  }

  lemma MustRunAtOnce(g: G, c: Ctx, n: nat)
    requires Inv(g, c) && Live(g, n) && g.dirty[n] == Dirty && !g.kinds[n].StateNode?
    ensures MustRun(g, g, n)
  {
    RunningStart(g, c, n);
  }

  lemma MustRunAfterCheck(g0: G, g: G, c: Ctx, n: nat, i: nat)
    requires Inv(g0, c) && Inv(g, c) && CheckedTo(g0, g, n, i) && FoundDirty(g, n, i)
    requires n < Size(g0) && g0.dirty[n] != Clean
    ensures Lengths(g) && n < Size(g) && Inv(Raise(g, n), c)
    ensures MustRun(g0, Raise(g, n), n)
  {
    RaiseKeeps(g, c, n);
    RaisedFrame(g0, g, n, i);
    FoundIsReason(g0, g, c, n, i);
  }

  lemma MustRunFacts(g0: G, g: G, n: nat)
    requires MustRun(g0, g, n)
    ensures Lengths(g) && Live(g, n) && g.kinds == g0.kinds && g.dirty[n] != Clean && g0.dirty[n] != Clean
    ensures Lengths(g0) && n < Size(g0) && g.cache[n] == g0.cache[n]
  {
  }

  lemma MustRunIsRun(g0: G, g1: G, h: G, n: nat, v: Value)
    requires MustRun(g0, g1, n) && RunDone(g1, h, n, v)
    ensures Evaluated(g0, Logged(h, n), n) && RanSince(g0.ran, Logged(h, n).ran, n) && Lengths(Logged(h, n))
    ensures Lengths(h) && n < Size(h) && (h.kinds[n].MemoNode? ==> h.cache[n] == Some(v))
  {
    EvaluatedByRun(g0, g1, h, n, v);
    LogOne(g0.ran, h.ran, n, n);
  }

  /** An evaluated node was run exactly if it had a reason. */
  lemma EvaluatedIsDecided(g0: G, g: G, n: nat)
    requires Evaluated(g0, g, n) && g0.dirty[n] != Clean && !g0.kinds[n].KeepNode?
    ensures Lengths(g0) && Lengths(g) && n < Size(g0) && Size(g) == Size(g0) && Decided(g0, g, n)
  {
  }

  // ----- nodes without bindings of their own: effects and keep nodes -----

  lemma SinkEnds(g0: G, g: G, c: Ctx, n: nat)
    requires Inv(g0, c) && Evaluated(g0, g, n) && Inv(g, Enter(c, n)) && Above(c, n)
    requires g.kinds[n].EffectNode? ==> n !in g.pending
    requires !g.kinds[n].MemoNode?
    ensures Inv(g, c) && Updated(g0, g, n)
  {
    UpdateFrameRefl(g0, c, n);
    UpdateEnds(g0, g0, g, c, n, false);
    assert NodeOk(g, n);
    ResolveNothing(g, n, false);
  }

  lemma UpdateFrameRefl(g: G, c: Ctx, n: nat)
    requires Inv(g, c) && n < Size(g)
    ensures UpdateFrame(g, g, n)
  {
  }

  lemma KeepRead(g0: G, g1: G, g: G, c: Ctx, n: nat, v: Value)
    requires Inv(g1, c) && Live(g1, n) && g1.kinds[n].KeepNode?
    requires RunFrame(g0, g1, n) && ReadDone(g1, g, n, 0, g1.kinds[n].signal, v)
    ensures RunFrame(g0, g, n) && RunAt(g, n, 1, Ret(v)) && g.dirty[n] == g1.dirty[n] && Live(g, n)
    ensures 1 <= |g.sources[n]|
  {
    hide Evolves, RanWithin, Need, Program, Values, SettledTo, ReadsOnly, NeedComp, Advance, Shape, Queued;
    RunningStart(g1, c, n);
    var comp := CompOf(g1.kinds[n]);
    assert comp.next[v] == Ret(v);
    RunningStep(g1, g1, g, n, 0, comp, v);
    FrameTrans(g0, g1, g, n);
  }

  lemma KeepEnds(g0: G, g2: G, h: G, c: Ctx, n: nat, v: Value)
    requires Inv(g0, c) && Inv(h, Enter(c, n)) && Above(c, n) && Live(g0, n) && g0.kinds[n].KeepNode?
    requires g0.dirty[n] != Clean
    requires RunFrame(g0, g2, n) && RunAt(g2, n, 1, Ret(v)) && g2.dirty[n] == Clean
    requires Drained(g2, h, Enter(c, n), n, 1) && |h.sources[n]| == 1
    ensures Inv(Logged(h, n), c) && Updated(g0, Logged(h, n), n)
  {
    RunEnds(g0, g2, h, Enter(c, n), n, 1, v);
    RunningStart(g0, c, n);
    EvaluatedByRun(g0, g0, h, n, v);
    LogKeeps(h, Enter(c, n), h.ran + [n]);
    SinkEnds(g0, Logged(h, n), c, n);
  }
}
