// Whole runs of a derived change feed: source notifications, scheduled notifications, reads, checks and direct edits in
// any order.
module DerivedFeedRuns {
  import opened Options
  import opened DirtyLattice
  import opened FeedState
  import opened DerivedFeeds

  /** An evaluation is told whether a source changed and what the scan then records. */
  datatype Op<T> =
    | Notify(level: DirtyLevel)
    | Announce
    | Watch(key: nat, sourceChanged: bool, scanned: seq<T>)
    | Check(key: nat, sourceChanged: bool, scanned: seq<T>)
    | Unbind(key: nat)
    | Edit(edits: seq<T>, loose: bool, sourceChanged: bool, scanned: seq<T>)

  /** The history, where it ended when each dependant was bound, and whether a source was announced; no marks. */
  datatype World<T> = World(log: seq<T>, boundAt: map<nat, nat>, hasScan: bool, asked: bool)

  /** A source was announced and has changed: the scan runs. */
  function Evaluated<T>(w: World<T>, sourceChanged: bool, scanned: seq<T>): World<T> {
    w.(log := w.log + if w.asked && sourceChanged then scanned else [], asked := false)
  }

  /** Only a dependant that is bound is checked. */
  function Step<T>(w: World<T>, op: Op<T>): World<T> {
    match op
    case Notify(_) => w.(asked := w.asked || w.hasScan)
    case Announce => w
    case Watch(k, changed, scanned) =>
      var e := Evaluated(w, changed, scanned);
      e.(boundAt := e.boundAt[k := |e.log|])
    case Check(k, changed, scanned) => if k in w.boundAt then Evaluated(w, changed, scanned) else w
    case Unbind(k) => w.(boundAt := w.boundAt - {k})
    case Edit(edits, _, changed, scanned) =>
      var e := Evaluated(w, changed, scanned);
      e.(log := e.log + edits)
  }

  /** A check says whether anything was recorded since the dependant was bound. */
  function Answer<T>(w: World<T>, op: Op<T>): Option<bool> {
    if op.Check? && op.key in w.boundAt then Some(w.boundAt[op.key] < |Step(w, op).log|) else None
  }

  function Final<T>(w: World<T>, ops: seq<Op<T>>): World<T>
    decreases |ops|
  {
    if ops == [] then w else Final(Step(w, ops[0]), ops[1..])
  }

  function Answers<T>(w: World<T>, ops: seq<Op<T>>): (answers: seq<Option<bool>>)
    decreases |ops|
  {
    if ops == [] then [] else [Answer(w, ops[0])] + Answers(Step(w, ops[0]), ops[1..])
  }

  /** How many changes an operation may record. */
  function Cost<T>(op: Op<T>): nat {
    match op
    case Watch(_, _, scanned) => |scanned|
    case Check(_, _, scanned) => |scanned|
    case Edit(edits, _, _, scanned) => |edits| + |scanned|
    case _ => 0
  }

  function Costs<T>(ops: seq<Op<T>>): nat
    decreases |ops|
  {
    if ops == [] then 0 else Cost(ops[0]) + Costs(ops[1..])
  }

  ghost function WorldOf<T>(d: DerivedFeed<T>): World<T>
    reads d, d.feed
  {
    World(d.feed.log, d.readAt, d.hasScan, d.mark != Clean)
  }

  // ----- the node carries out every run -----

  method PerformWatch<T>(d: DerivedFeed<T>, k: nat, changed: bool, scanned: seq<T>)
    requires d.Valid() && Free(d.feed.View()) && |d.feed.items| + |scanned| < WORD
    modifies d, d.feed
    ensures d.Valid() && Free(d.feed.View()) && |d.feed.items| <= |old(d.feed.items)| + |scanned|
    ensures WorldOf(d) == Step(old(WorldOf(d)), Watch(k, changed, scanned))
  {
    hide Ok;
    d.ApplyAll();
    d.Watch(k, changed, scanned);
  }

  method PerformCheck<T>(d: DerivedFeed<T>, k: nat, changed: bool, scanned: seq<T>) returns (dirty: bool)
    requires d.Valid() && Free(d.feed.View()) && |d.feed.items| + |scanned| < WORD && k in d.readAt
    modifies d, d.feed
    ensures d.Valid() && Free(d.feed.View()) && |d.feed.items| <= |old(d.feed.items)| + |scanned|
    ensures WorldOf(d) == Step(old(WorldOf(d)), Op.Check(k, changed, scanned))
    ensures Some(dirty) == Answer(old(WorldOf(d)), Op.Check(k, changed, scanned))
  {
    hide Ok;
    d.ApplyAll();
    dirty := d.Check(k, changed, scanned);
  }

  /** A source that a feed without a scan could be told of does not exist. */
  method PerformNotify<T>(d: DerivedFeed<T>, level: DirtyLevel)
    requires d.Valid()
    modifies d
    ensures d.Valid() && WorldOf(d) == Step(old(WorldOf(d)), Notify(level))
  {
    hide Ok;
    if d.hasScan {
      d.OnSourceNotify(level);
    }
  }

  method Perform<T>(d: DerivedFeed<T>, op: Op<T>) returns (answer: Option<bool>)
    requires d.Valid() && Free(d.feed.View()) && |d.feed.items| + Cost(op) < WORD
    modifies d, d.feed
    ensures d.Valid() && Free(d.feed.View()) && |d.feed.items| <= |old(d.feed.items)| + Cost(op)
    ensures WorldOf(d) == Step(old(WorldOf(d)), op) && answer == Answer(old(WorldOf(d)), op)
  {
    hide Ok;
    answer := None;
    match op {
      case Notify(level) => PerformNotify(d, level);
      case Announce => d.ApplyAll();
      case Watch(k, changed, scanned) => PerformWatch(d, k, changed, scanned);
      case Check(k, changed, scanned) =>
        if k in d.sinks {
          var dirty := PerformCheck(d, k, changed, scanned);
          answer := Some(dirty);
        }
      case Unbind(k) => d.Unbind(k);
      case Edit(edits, loose, changed, scanned) => d.EditDirectly(edits, loose, changed, scanned);
    }
  }

  /** In any run every check answers dirty exactly if a change was recorded since that dependant was bound. */
  method Execute<T>(d: DerivedFeed<T>, ops: seq<Op<T>>) returns (answers: seq<Option<bool>>)
    requires d.Valid() && Free(d.feed.View()) && |d.feed.items| + Costs(ops) < WORD
    modifies d, d.feed
    ensures d.Valid() && Free(d.feed.View())
    ensures WorldOf(d) == Final(old(WorldOf(d)), ops) && answers == Answers(old(WorldOf(d)), ops)
    decreases |ops|
  {
    hide Ok, Step, Answer, Cost;
    answers := [];
    if ops != [] {
      var answer := Perform(d, ops[0]);
      var rest := Execute(d, ops[1..]);
      answers := [answer] + rest;
    }
  }
}
