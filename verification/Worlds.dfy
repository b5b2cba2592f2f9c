// What a user of the graph is promised: a program of operations means the same as on a world that
// holds nothing but the nodes' functions and the current state values, where every read evaluates
// from scratch.
module Worlds {
  import opened Options
  import opened Computation
  import opened GraphState
  import opened StateGuard

  datatype World = World(kinds: seq<Kind>, vals: map<nat, Value>, alive: seq<bool>)

  function WorldOf(g: G): World { World(g.kinds, g.vals, g.alive) }

  /**
   * Create a node (a state starts with `initial`); set a state, always or only to a new value; edit a state
   * through a guard; read; run the reactions of one phase or of all; discard unused caches; drop an
   * effect or a keep node.
   */
  datatype Op =
    | Create(kind: Kind, initial: Value)
    | Set(state: nat, value: Value)
    | SetDedup(state: nat, value: Value)
    | Edit(state: nat, uses: seq<Use>, loose: bool)
    | Get(node: nat)
    | React(phase: Option<int>)
    | Discard
    | Drop(sink: nat)

  ghost predicate Valid(w: World) {
    |w.alive| == |w.kinds| && Program(w.kinds) && Values(w.kinds, w.vals)
  }

  predicate Lives(w: World, n: nat) { n < |w.kinds| == |w.alive| && w.alive[n] }

  ghost function Usable(w: World, a: nat): set<nat> {
    set s: nat | s < a && Lives(w, s) && !w.kinds[s].EffectNode?
  }

  /** What the types of the library ask for: handles exist, and functions only capture existing signals. */
  ghost predicate Allowed(w: World, op: Op) {
    match op
    case Create(kind, _) => !kind.StateNode? ==> ReadsOnly(CompOf(kind), Usable(w, |w.kinds|))
    case Set(s, _) => Lives(w, s) && w.kinds[s].StateNode?
    case SetDedup(s, _) => Lives(w, s) && w.kinds[s].StateNode?
    case Edit(s, _, _) => Lives(w, s) && w.kinds[s].StateNode?
    case Get(n) => Lives(w, n) && !w.kinds[n].EffectNode?
    case React(_) => true
    case Discard => true
    case Drop(a) => Lives(w, a) && (w.kinds[a].EffectNode? || w.kinds[a].KeepNode?) && NotCaptured(w, a)
  }

  ghost predicate NotCaptured(w: World, a: nat) {
    forall b: nat :: b != a && Lives(w, b) && !w.kinds[b].StateNode? ==>
      ReadsOnly(CompOf(w.kinds[b]), Usable(w, b) - {a})
  }

  function Step(w: World, op: Op): World {
    match op
    case Create(kind, v) =>
      World(w.kinds + [kind], if kind.StateNode? then w.vals[|w.kinds| := v] else w.vals, w.alive + [true])
    case Set(s, v) => w.(vals := w.vals[s := v])
    case SetDedup(s, v) => w.(vals := w.vals[s := v])
    case Edit(s, uses, _) => if s in w.vals then w.(vals := w.vals[s := Written(uses, w.vals[s])]) else w
    case Drop(a) => if a < |w.alive| then w.(alive := w.alive[a := false]) else w
    case _ => w
  }

  /** A guarded edit stores the value that was written last. */
  lemma EditStores(w: World, s: nat, uses: seq<Use>, loose: bool, i: nat)
    requires s in w.vals && LastWrite(uses, i)
    ensures Step(w, Edit(s, uses, loose)) == w.(vals := w.vals[s := uses[i].value])
  {
    WrittenIsLast(uses, w.vals[s]);
  }

  lemma StepIsValid(w: World, op: Op)
    requires Valid(w) && Allowed(w, op)
    ensures Valid(Step(w, op))
  {
    if op.Create? {
      if !op.kind.StateNode? {
        ReadsOnlyMono(CompOf(op.kind), Usable(w, |w.kinds|), Below(w.kinds, |w.kinds|));
      }
      ProgramExtends(w.kinds, op.kind);
    }
  }

  /** A run of operations each of which is allowed when its turn comes. */
  ghost predicate Feasible(w: World, ops: seq<Op>)
    decreases |ops|
  {
    ops == [] || (Allowed(w, ops[0]) && Feasible(Step(w, ops[0]), ops[1..]))
  }

  function Final(w: World, ops: seq<Op>): World
    decreases |ops|
  {
    if ops == [] then w else Final(Step(w, ops[0]), ops[1..])
  }

  /** What an operation returns when every read evaluates from scratch. */
  ghost function Answer(w: World, op: Op): Option<Value>
    requires Valid(w) && Allowed(w, op)
  {
    if op.Get? then Some(Eval(w.kinds, w.vals, op.node)) else None
  }

  ghost function Answers(w: World, ops: seq<Op>): seq<Option<Value>>
    requires Valid(w) && Feasible(w, ops)
    decreases |ops|
  {
    if ops == [] then []
    else
      StepIsValid(w, ops[0]);
      [Answer(w, ops[0])] + Answers(Step(w, ops[0]), ops[1..])
  }
}
