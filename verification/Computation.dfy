// Programs of the reactive graph and their from-scratch meaning.
//
// A node function is a finite read tree: it either returns, or reads one node and continues
// with a subtree chosen by the value it read, so the set of dependencies may differ from run
// to run. Nodes are numbered so that a function only reads smaller numbers (acyclicity).
module Computation {
  import opened Options

  // The values held by states and memos; only equality is used.
  type Value(==, !new)

  datatype Comp =
    | Ret(value: Value)
    | Read(source: nat, next: imap<Value, Comp>)

  datatype Kind =
    | StateNode
    | MemoNode(comp: Comp, filter: bool, pinned: bool)
    | EffectNode(comp: Comp, phase: int)
    | KeepNode(signal: nat)

  /** Every read on every path of `c` goes to a node in `allowed`. */
  ghost predicate ReadsOnly(c: Comp, allowed: set<nat>) {
    match c
    case Ret(_) => true
    case Read(s, k) => s in allowed && forall v :: v in k && ReadsOnly(k[v], allowed)
  }

  lemma {:induction false} ReadsOnlyMono(c: Comp, small: set<nat>, big: set<nat>)
    requires ReadsOnly(c, small) && small <= big
    ensures ReadsOnly(c, big)
  {
    match c
    case Ret(_) =>
    case Read(s, k) =>
      forall v ensures v in k && ReadsOnly(k[v], big) {
        assert v in k && ReadsOnly(k[v], small);
        ReadsOnlyMono(k[v], small, big);
      }
  }

  /** The function of a node; a keep node just reads its signal. */
  ghost function CompOf(kind: Kind): Comp
    requires !kind.StateNode?
  {
    match kind
    case MemoNode(c, _, _) => c
    case EffectNode(c, _) => c
    case KeepNode(s) => Read(s, imap v :: Ret(v))
  }

  /** The nodes that node `a` may read. */
  ghost function Below(kinds: seq<Kind>, a: nat): set<nat> {
    set s: nat | s < a && s < |kinds| && !kinds[s].EffectNode?
  }

  ghost predicate Program(kinds: seq<Kind>) {
    forall a: nat :: a < |kinds| && !kinds[a].StateNode? ==>
      ReadsOnly(CompOf(kinds[a]), Below(kinds, a))
  }

  ghost predicate Values(kinds: seq<Kind>, vals: map<nat, Value>) {
    forall a: nat :: a < |kinds| && kinds[a].StateNode? ==> a in vals
  }

  // ----- evaluation from scratch -----

  /** The value of node `n` computed from the current state values alone. */
  ghost function Eval(kinds: seq<Kind>, vals: map<nat, Value>, n: nat): Value
    requires Program(kinds) && Values(kinds, vals) && n < |kinds|
    decreases n, 1
  {
    if kinds[n].StateNode? then vals[n]
    else EvalComp(kinds, vals, CompOf(kinds[n]), n)
  }

  ghost function EvalComp(kinds: seq<Kind>, vals: map<nat, Value>, c: Comp, n: nat): Value
    requires Program(kinds) && Values(kinds, vals) && n <= |kinds|
    requires ReadsOnly(c, Below(kinds, n))
    decreases n, 0, c
  {
    match c
    case Ret(v) => v
    case Read(s, k) => EvalComp(kinds, vals, k[Eval(kinds, vals, s)], n)
  }

  /** The nodes whose functions evaluation from scratch of node `n` runs or reads. */
  ghost function Need(kinds: seq<Kind>, vals: map<nat, Value>, n: nat): set<nat>
    requires Program(kinds) && Values(kinds, vals) && n < |kinds|
    decreases n, 1
  {
    {n} + if kinds[n].StateNode? then {} else NeedComp(kinds, vals, CompOf(kinds[n]), n)
  }

  ghost function NeedComp(kinds: seq<Kind>, vals: map<nat, Value>, c: Comp, n: nat): set<nat>
    requires Program(kinds) && Values(kinds, vals) && n <= |kinds|
    requires ReadsOnly(c, Below(kinds, n))
    decreases n, 0, c
  {
    match c
    case Ret(v) => {}
    case Read(s, k) => Need(kinds, vals, s) + NeedComp(kinds, vals, k[Eval(kinds, vals, s)], n)
  }

  /** Nothing reads an effect, so evaluating `n` needs no effect but `n` itself. */
  lemma {:induction false} NeedsNoEffect(kinds: seq<Kind>, vals: map<nat, Value>, n: nat, m: nat)
    requires Program(kinds) && Values(kinds, vals) && n < |kinds|
    requires m in Need(kinds, vals, n) && m < |kinds| && kinds[m].EffectNode?
    ensures m == n
    decreases n, 1
  {
    if m != n {
      CompNeedsNoEffect(kinds, vals, CompOf(kinds[n]), n, m);
    }
  }

  lemma {:induction false} CompNeedsNoEffect(kinds: seq<Kind>, vals: map<nat, Value>, c: Comp, n: nat, m: nat)
    requires Program(kinds) && Values(kinds, vals) && n <= |kinds| && ReadsOnly(c, Below(kinds, n))
    requires m < |kinds| && kinds[m].EffectNode?
    ensures m !in NeedComp(kinds, vals, c, n)
    decreases n, 0, c
  {
    if c.Read? {
      CompNeedsNoEffect(kinds, vals, c.next[Eval(kinds, vals, c.source)], n, m);
      if m in Need(kinds, vals, c.source) {
        NeedsNoEffect(kinds, vals, c.source, m);
      }
    }
  }

  /** Evaluation from scratch of `c` reads node `s` itself. */
  ghost predicate ReadsNow(kinds: seq<Kind>, vals: map<nat, Value>, c: Comp, n: nat, s: nat)
    requires Program(kinds) && Values(kinds, vals) && n <= |kinds| && ReadsOnly(c, Below(kinds, n))
    decreases c
  {
    c.Read? && (c.source == s || ReadsNow(kinds, vals, c.next[Eval(kinds, vals, c.source)], n, s))
  }

  /** From `n` each node of the path is read by the one before, and the last one is `m`. */
  ghost predicate ReadPath(kinds: seq<Kind>, vals: map<nat, Value>, n: nat, path: seq<nat>, m: nat)
    requires Program(kinds) && Values(kinds, vals) && n < |kinds|
    decreases |path|
  {
    if path == [] then n == m
    else
      && !kinds[n].StateNode? && path[0] < |kinds| && ReadsNow(kinds, vals, CompOf(kinds[n]), n, path[0])
      && ReadPath(kinds, vals, path[0], path[1..], m)
  }

  /** What evaluation from scratch needs is exactly what a chain of reads leads to. */
  lemma NeedIsReached(kinds: seq<Kind>, vals: map<nat, Value>, n: nat, m: nat)
    requires Program(kinds) && Values(kinds, vals) && n < |kinds|
    ensures m in Need(kinds, vals, n) <==> exists path :: ReadPath(kinds, vals, n, path, m)
  {
    hide ReadPath, Need;
    if m in Need(kinds, vals, n) {
      var path := NeededPath(kinds, vals, n, m);
      assert ReadPath(kinds, vals, n, path, m);
      assert exists path :: ReadPath(kinds, vals, n, path, m);
    }
    forall path | ReadPath(kinds, vals, n, path, m) ensures m in Need(kinds, vals, n) {
      PathIsNeeded(kinds, vals, n, path, m);
    }
  }

  lemma {:induction false} NeededPath(kinds: seq<Kind>, vals: map<nat, Value>, n: nat, m: nat) returns (path: seq<nat>)
    requires Program(kinds) && Values(kinds, vals) && n < |kinds| && m in Need(kinds, vals, n)
    ensures ReadPath(kinds, vals, n, path, m)
    decreases n, 1
  {
    path := [];
    if m != n {
      var s := NeededRead(kinds, vals, CompOf(kinds[n]), n, m);
      path := NeededPath(kinds, vals, s, m);
      path := [s] + path;
    }
  }

  lemma {:induction false} NeededRead(kinds: seq<Kind>, vals: map<nat, Value>, c: Comp, n: nat, m: nat)
    returns (s: nat)
    requires Program(kinds) && Values(kinds, vals) && n <= |kinds| && ReadsOnly(c, Below(kinds, n))
    requires m in NeedComp(kinds, vals, c, n)
    ensures s < n && s < |kinds| && ReadsNow(kinds, vals, c, n, s) && m in Need(kinds, vals, s)
    decreases n, 0, c
  {
    s := c.source;
    if m !in Need(kinds, vals, s) {
      s := NeededRead(kinds, vals, c.next[Eval(kinds, vals, s)], n, m);
    }
  }

  lemma {:induction false} PathIsNeeded(kinds: seq<Kind>, vals: map<nat, Value>, n: nat, path: seq<nat>, m: nat)
    requires Program(kinds) && Values(kinds, vals) && n < |kinds| && ReadPath(kinds, vals, n, path, m)
    ensures m in Need(kinds, vals, n)
    decreases |path|
  {
    if path != [] {
      PathIsNeeded(kinds, vals, path[0], path[1..], m);
      ReadIsNeeded(kinds, vals, CompOf(kinds[n]), n, path[0]);
    }
  }

  lemma {:induction false} ReadIsNeeded(kinds: seq<Kind>, vals: map<nat, Value>, c: Comp, n: nat, s: nat)
    requires Program(kinds) && Values(kinds, vals) && n <= |kinds| && ReadsOnly(c, Below(kinds, n))
    requires s < |kinds| && ReadsNow(kinds, vals, c, n, s)
    ensures Need(kinds, vals, s) <= NeedComp(kinds, vals, c, n)
    decreases c
  {
    if c.source != s {
      ReadIsNeeded(kinds, vals, c.next[Eval(kinds, vals, c.source)], n, s);
    }
  }

  /** The node that is bound when `n` is read: keep nodes are transparent. */
  function Target(kinds: seq<Kind>, n: nat): (t: nat)
    requires n < |kinds|
    ensures t <= n
  {
    if kinds[n].KeepNode? && kinds[n].signal < n then Target(kinds, kinds[n].signal) else n
  }

  lemma {:induction false} TargetMeaning(kinds: seq<Kind>, vals: map<nat, Value>, n: nat)
    requires Program(kinds) && Values(kinds, vals) && n < |kinds|
    ensures !kinds[Target(kinds, n)].KeepNode?
    ensures Eval(kinds, vals, Target(kinds, n)) == Eval(kinds, vals, n)
    ensures Need(kinds, vals, Target(kinds, n)) <= Need(kinds, vals, n)
    ensures !kinds[n].EffectNode? ==> !kinds[Target(kinds, n)].EffectNode?
  {
    if kinds[n].KeepNode? {
      var s := kinds[n].signal;
      assert ReadsOnly(CompOf(kinds[n]), Below(kinds, n));
      TargetMeaning(kinds, vals, s);
      KeepMeaning(kinds, vals, n);
    }
  }

  lemma KeepMeaning(kinds: seq<Kind>, vals: map<nat, Value>, n: nat)
    requires Program(kinds) && Values(kinds, vals) && n < |kinds| && kinds[n].KeepNode?
    ensures kinds[n].signal < n && !kinds[kinds[n].signal].EffectNode?
    ensures Eval(kinds, vals, n) == Eval(kinds, vals, kinds[n].signal)
    ensures Need(kinds, vals, kinds[n].signal) <= Need(kinds, vals, n)
    ensures Target(kinds, n) == Target(kinds, kinds[n].signal)
  {
    var s := kinds[n].signal;
    var c := CompOf(kinds[n]);
    assert ReadsOnly(c, Below(kinds, n));
    var v := Eval(kinds, vals, s);
    assert c.next[v] == Ret(v);
    assert EvalComp(kinds, vals, c, n) == EvalComp(kinds, vals, c.next[v], n);
    assert NeedComp(kinds, vals, c, n) == Need(kinds, vals, s) + NeedComp(kinds, vals, c.next[v], n);
  }

  // ----- recorded runs -----

  /** One recorded dependency: the node that was read and the key of the binding held there. */
  datatype Source = Source(node: nat, key: nat)

  /**
   * What is left of `c` after its first `len` reads went to `sources` and returned `seen`;
   * None when that is not how `c` runs.
   */
  ghost function Advance(kinds: seq<Kind>, c: Comp, sources: seq<Source>, seen: seq<Value>, len: nat): Option<Comp>
    requires len <= |sources| && len <= |seen|
  {
    if len == 0 then Some(c)
    else
      match Advance(kinds, c, sources, seen, len - 1)
      case Some(Read(s, k)) =>
        if s < |kinds| && Target(kinds, s) == sources[len - 1].node && seen[len - 1] in k
        then Some(k[seen[len - 1]]) else None
      case _ => None
  }

  lemma AdvanceNext(kinds: seq<Kind>, c: Comp, sources: seq<Source>, seen: seq<Value>, len: nat, comp: Comp)
    requires len < |sources| && len < |seen| && Advance(kinds, c, sources, seen, len) == Some(comp) && comp.Read?
    requires comp.source < |kinds| && Target(kinds, comp.source) == sources[len].node && seen[len] in comp.next
    ensures Advance(kinds, c, sources, seen, len + 1) == Some(comp.next[seen[len]])
  {
    hide Target;
  }

  lemma {:induction false} AdvanceAgrees(kinds: seq<Kind>, c: Comp, sources: seq<Source>, seen: seq<Value>,
                                         sources': seq<Source>, seen': seq<Value>, len: nat)
    requires len <= |sources| && len <= |seen| && len <= |sources'| && len <= |seen'|
    requires forall i :: 0 <= i < len ==> sources[i].node == sources'[i].node && seen[i] == seen'[i]
    ensures Advance(kinds, c, sources, seen, len) == Advance(kinds, c, sources', seen', len)
  {
    if len > 0 {
      AdvanceAgrees(kinds, c, sources, seen, sources', seen', len - 1);
    }
  }

  lemma {:induction false} AdvancePrefix(kinds: seq<Kind>, c: Comp, sources: seq<Source>, seen: seq<Value>,
                                         i: nat, len: nat)
    requires i <= len <= |sources| && len <= |seen|
    requires Advance(kinds, c, sources, seen, len).Some?
    ensures Advance(kinds, c, sources, seen, i).Some?
  {
    if i < len {
      AdvancePrefix(kinds, c, sources, seen, i, len - 1);
    }
  }

  /**
   * If a recorded prefix agrees with evaluation from scratch, evaluation from scratch of `c` goes
   * through the same reads: it has the value of the remaining computation and needs its nodes.
   */
  lemma {:induction false} AdvanceMeaning(kinds: seq<Kind>, vals: map<nat, Value>, c: Comp, n: nat,
                                          sources: seq<Source>, seen: seq<Value>, len: nat)
    requires Program(kinds) && Values(kinds, vals) && n <= |kinds|
    requires ReadsOnly(c, Below(kinds, n))
    requires len <= |sources| && len <= |seen|
    requires forall i :: 0 <= i < len ==> sources[i].node < |kinds| && Eval(kinds, vals, sources[i].node) == seen[i]
    requires Advance(kinds, c, sources, seen, len).Some?
    ensures ReadsOnly(Advance(kinds, c, sources, seen, len).value, Below(kinds, n))
    ensures EvalComp(kinds, vals, c, n) == EvalComp(kinds, vals, Advance(kinds, c, sources, seen, len).value, n)
    ensures NeedComp(kinds, vals, Advance(kinds, c, sources, seen, len).value, n) <= NeedComp(kinds, vals, c, n)
    ensures forall i ::
      0 <= i < len ==> sources[i].node < n && Need(kinds, vals, sources[i].node) <= NeedComp(kinds, vals, c, n)
  {
    if len > 0 {
      AdvanceMeaning(kinds, vals, c, n, sources, seen, len - 1);
      var Read(s, k) := Advance(kinds, c, sources, seen, len - 1).value;
      TargetMeaning(kinds, vals, s);
    }
  }

  // ----- adding a node at the end of the table -----

  lemma {:induction false} TargetExtends(kinds: seq<Kind>, kind: Kind, n: nat)
    requires n < |kinds|
    ensures Target(kinds + [kind], n) == Target(kinds, n)
  {
    if kinds[n].KeepNode? && kinds[n].signal < n {
      TargetExtends(kinds, kind, kinds[n].signal);
    }
  }

  lemma {:induction false} AdvanceExtends(kinds: seq<Kind>, kind: Kind, c: Comp, sources: seq<Source>, seen: seq<Value>,
      len: nat)
    requires len <= |sources| && len <= |seen|
    requires Advance(kinds, c, sources, seen, len).Some?
    ensures Advance(kinds + [kind], c, sources, seen, len) == Advance(kinds, c, sources, seen, len)
  {
    if len > 0 {
      AdvanceExtends(kinds, kind, c, sources, seen, len - 1);
      TargetExtends(kinds, kind, Advance(kinds, c, sources, seen, len - 1).value.source);
    }
  }

  lemma ProgramExtends(kinds: seq<Kind>, kind: Kind)
    requires Program(kinds)
    requires !kind.StateNode? ==> ReadsOnly(CompOf(kind), Below(kinds, |kinds|))
    ensures Program(kinds + [kind])
  {
    var kinds' := kinds + [kind];
    forall a: nat | a < |kinds'| && !kinds'[a].StateNode? ensures ReadsOnly(CompOf(kinds'[a]), Below(kinds', a)) {
      assert Below(kinds', a) == Below(kinds, a);
    }
  }

  /** Nodes added later, and later values of other states, do not matter to evaluation. */
  lemma {:induction false} EvalExtends(kinds: seq<Kind>, kinds': seq<Kind>, vals: map<nat, Value>,
      vals': map<nat, Value>, n: nat)
    requires Program(kinds) && Values(kinds, vals) && Program(kinds') && Values(kinds', vals') && n < |kinds|
    requires kinds <= kinds'
    requires forall a: nat :: a < |kinds| && kinds[a].StateNode? ==> vals'[a] == vals[a]
    ensures Eval(kinds', vals', n) == Eval(kinds, vals, n)
    decreases n, 1
  {
    if !kinds[n].StateNode? {
      assert Below(kinds', n) == Below(kinds, n);
      EvalCompExtends(kinds, kinds', vals, vals', CompOf(kinds[n]), n);
    }
  }

  lemma {:induction false} EvalCompExtends(kinds: seq<Kind>, kinds': seq<Kind>, vals: map<nat, Value>,
      vals': map<nat, Value>,
                                           c: Comp, n: nat)
    requires Program(kinds) && Values(kinds, vals) && Program(kinds') && Values(kinds', vals') && n <= |kinds|
    requires kinds <= kinds'
    requires forall a: nat :: a < |kinds| && kinds[a].StateNode? ==> vals'[a] == vals[a]
    requires ReadsOnly(c, Below(kinds, n)) && ReadsOnly(c, Below(kinds', n))
    ensures EvalComp(kinds', vals', c, n) == EvalComp(kinds, vals, c, n)
    decreases n, 0, c
  {
    match c
    case Ret(_) =>
    case Read(s, k) =>
      EvalExtends(kinds, kinds', vals, vals', s);
      EvalCompExtends(kinds, kinds', vals, vals', k[Eval(kinds, vals, s)], n);
  }
}
