// Scheduling and dispatching actions (src/core.rs): nothing is lost, repeated or reordered within a
// phase, and while a runtime is active only phases of its configuration are queued.
module ActionDispatch {
  import opened Options
  import opened PhaseBuckets

  datatype Task = Task(phase: int, id: nat)

  /** The tasks of one phase, in order. */
  function Of(ts: seq<Task>, p: int): seq<Task> {
    if ts == [] then []
    else Of(ts[..|ts| - 1], p) + if ts[|ts| - 1].phase == p then [ts[|ts| - 1]] else []
  }

  lemma NoneOf(p: int)
    ensures Of([], p) == []
  {
  }

  lemma OneMore(scheduled: seq<Task>, t: Task, done: seq<Task>, queue: seq<Task>)
    requires done + queue == Of(scheduled, t.phase)
    ensures done + (queue + [t]) == Of(scheduled + [t], t.phase)
  {
    OfOne(scheduled, t, t.phase);
    assert done + (queue + [t]) == done + queue + [t];
  }

  lemma NoneMore(scheduled: seq<Task>, t: Task, p: int)
    requires p != t.phase
    ensures Of(scheduled + [t], p) == Of(scheduled, p)
  {
    OfOne(scheduled, t, p);
  }

  lemma OfOne(ts: seq<Task>, t: Task, p: int)
    ensures Of(ts + [t], p) == Of(ts, p) + if t.phase == p then [t] else []
  {
    assert (ts + [t])[..|ts|] == ts;
  }

  lemma {:induction false} OfConcat(a: seq<Task>, b: seq<Task>, p: int)
    ensures Of(a + b, p) == Of(a, p) + Of(b, p)
  {
    hide Of;
    NoneOf(p);
    if b == [] {
      assert a + b == a && Of(a, p) + [] == Of(a, p);
    } else {
      var rest, t := b[..|b| - 1], b[|b| - 1];
      var one := if t.phase == p then [t] else [];
      OfConcat(a, rest, p);
      OfOne(a + rest, t, p);
      OfOne(rest, t, p);
      assert b == rest + [t] && a + b == (a + rest) + [t];
      assert Of(a, p) + (Of(rest, p) + one) == (Of(a, p) + Of(rest, p)) + one;
    }
  }

  lemma {:induction false} OfPure(ts: seq<Task>, q: int, p: int)
    requires forall i :: 0 <= i < |ts| ==> ts[i].phase == q
    ensures Of(ts, p) == if p == q then ts else []
  {
    if ts != [] {
      OfPure(ts[..|ts| - 1], q, p);
    }
  }

  /** The phases of a runtime (`RuntimeConfig`). */
  datatype Config = Config(actions: set<int>, reactions: set<int>)

  /** Everything queued is of one of the phases. */
  ghost predicate QueuedIn(queue: Buckets<Task>, phases: set<int>)
    reads queue, queue.buckets
  {
    forall p :: queue.Queue(p) != [] ==> p in phases
  }

  /** One of the loops of `prepare_runtime`. */
  method AllQueuedIn(queue: Buckets<Task>, phases: set<int>) returns (ok: bool)
    requires queue.Valid()
    ensures ok == QueuedIn(queue, phases)
  {
    var ids := queue.Ids();
    ok := true;
    for i := 0 to |ids|
      invariant ok == forall j :: 0 <= j < i ==> ids[j] in phases
    {
      ok := ok && ids[i] in phases;
    }
    if ok {
      assert forall p :: queue.Queue(p) != [] ==> p in ids;
    } else {
      var j :| 0 <= j < |ids| && ids[j] !in phases;
      assert queue.Queue(ids[j]) != [];
    }
  }

  class Dispatcher {
    const actions: Buckets<Task>
    const reactions: Buckets<Task>
    var buffer: seq<Task>
    // the phases of the active runtime, if there is one
    var config: Option<Config>
    ghost var scheduled: seq<Task>
    ghost var ran: seq<Task>

    /** For every phase: what ran, what is in the batch and what is queued make up what was scheduled, in order. */
    ghost predicate Conserved(p: int)
      reads this, actions, actions.buckets
    {
      Of(ran, p) + Of(buffer, p) + actions.Queue(p) == Of(scheduled, p)
    }

    ghost predicate Valid()
      reads this, actions, actions.buckets, reactions, reactions.buckets
    {
      && actions != reactions && actions.buckets != reactions.buckets
      && actions.Valid() && reactions.Valid()
      && (forall p, i :: 0 <= i < |actions.Queue(p)| ==> actions.Queue(p)[i].phase == p)
      && (forall p :: Conserved(p))
      && (config.Some? ==> QueuedIn(actions, config.value.actions) && QueuedIn(reactions, config.value.reactions))
    }

    constructor ()
      ensures Valid() && fresh(actions) && fresh(actions.buckets) && fresh(reactions) && fresh(reactions.buckets)
      ensures config == None && scheduled == [] && ran == [] && buffer == []
    {
      actions := new Buckets();
      reactions := new Buckets();
      buffer, config, scheduled, ran := [], None, [], [];
    }

    /** `prepare_runtime` and `activate_runtime`: a configuration that does not fit what is queued is refused. */
    method Activate(phases: Config) returns (ok: bool)
      requires Valid()
      modifies `config
      ensures Valid()
      ensures ok == (old(config) == None && QueuedIn(actions, phases.actions) && QueuedIn(reactions, phases.reactions))
      ensures config == if ok then Some(phases) else old(config)
    {
      hide Of;
      if config.Some? {
        return false;
      }
      var first := AllQueuedIn(actions, phases.actions);
      var second := AllQueuedIn(reactions, phases.reactions);
      ok := first && second;
      if ok {
        config := Some(phases);
      }
      forall p ensures Conserved(p) {
        assert old(Conserved(p));
      }
    }

    /** `schedule_reaction`: refused, without any effect, for a phase that the active runtime does not have. */
    method ScheduleReaction(t: Task) returns (ok: bool)
      requires Valid() && ISIZE_MIN <= t.phase < ISIZE_MAX
      modifies reactions, reactions.buckets
      ensures Valid() && ok == (config.Some? ==> t.phase in config.value.reactions)
      ensures reactions.Queue(t.phase)
        == if ok then old(reactions.Queue(t.phase)) + [t] else old(reactions.Queue(t.phase))
      ensures forall p :: p != t.phase ==> reactions.Queue(p) == old(reactions.Queue(p))
    {
      if config.Some? && t.phase !in config.value.reactions {
        return false;
      }
      hide Of;
      reactions.Push(t.phase, t);
      ok := true;
      forall p ensures Conserved(p) {
        assert old(Conserved(p));
      }
    }

    /** `schedule_action`: refused, without any effect, for a phase that the active runtime does not have. */
    method Schedule(t: Task) returns (ok: bool)
      requires Valid() && ISIZE_MIN <= t.phase < ISIZE_MAX
      modifies `scheduled, actions, actions.buckets
      ensures Valid() && ok == (config.Some? ==> t.phase in config.value.actions)
      ensures scheduled == if ok then old(scheduled) + [t] else old(scheduled)
      ensures actions.Queue(t.phase) == if ok then old(actions.Queue(t.phase)) + [t] else old(actions.Queue(t.phase))
      ensures forall p :: p != t.phase ==> actions.Queue(p) == old(actions.Queue(p))
    {
      if config.Some? && t.phase !in config.value.actions {
        return false;
      }
      Enqueue(t);
      ok := true;
    }

    method Enqueue(t: Task)
      requires Valid() && ISIZE_MIN <= t.phase < ISIZE_MAX && (config.Some? ==> t.phase in config.value.actions)
      modifies `scheduled, actions, actions.buckets
      ensures Valid() && scheduled == old(scheduled) + [t]
      ensures actions.Queue(t.phase) == old(actions.Queue(t.phase)) + [t]
      ensures forall p :: p != t.phase ==> actions.Queue(p) == old(actions.Queue(p))
    {
      hide Of;
      actions.Push(t.phase, t);
      scheduled := scheduled + [t];
      assert Conserved(t.phase) by {
        assert old(Conserved(t.phase));
        OneMore(old(scheduled), t, Of(ran, t.phase) + Of(buffer, t.phase), old(actions.Queue(t.phase)));
      }
      forall p ensures Conserved(p) {
        if p != t.phase {
          assert old(Conserved(p));
          NoneMore(old(scheduled), t, p);
        }
      }
    }

    /** `dispatch_action`: run the oldest action of one phase. */
    method DispatchOne(phase: int) returns (handled: bool)
      requires Valid() && buffer == []
      modifies `ran, actions, actions.buckets
      ensures Valid() && handled == (old(actions.Queue(phase)) != [])
      ensures ran == if handled then old(ran) + [old(actions.Queue(phase))[0]] else old(ran)
      ensures actions.Queue(phase) == if handled then old(actions.Queue(phase))[1..] else []
      ensures forall p :: p != phase ==> actions.Queue(p) == old(actions.Queue(p))
    {
      hide Of;
      var t := actions.PopFront(phase);
      handled := t.Some?;
      if handled {
        ran := ran + [t.value];
      }
      forall p ensures Conserved(p) {
        assert old(Conserved(p));
        if t.Some? {
          PopsOne(old(ran), old(actions.Queue(p)), actions.Queue(p), t.value, p, Of(scheduled, p));
        }
      }
    }

    /** `get_actions`: everything of one phase, or of all, becomes the batch. */
    method TakeBatch(phase: Option<int>) returns (any: bool)
      requires Valid() && buffer == []
      modifies `buffer, actions, actions.buckets
      ensures Valid() && any == (buffer != [])
      ensures phase.Some? ==> buffer == old(actions.Queue(phase.value))
      ensures phase == None ==> forall p :: Of(buffer, p) == old(actions.Queue(p))
      ensures phase == None ==> forall i, j :: 0 <= i < j < |buffer| ==> buffer[i].phase <= buffer[j].phase
      ensures forall p :: actions.Queue(p) == if phase == None || phase == Some(p) then [] else old(actions.Queue(p))
    {
      match phase {
        case Some(p) => TakeOne(p);
        case None => TakeAll();
      }
      any := buffer != [];
    }

    method TakeOne(phase: int)
      requires Valid() && buffer == []
      modifies `buffer, actions, actions.buckets
      ensures Valid() && buffer == old(actions.Queue(phase))
      ensures forall p :: actions.Queue(p) == if p == phase then [] else old(actions.Queue(p))
    {
      hide Of;
      buffer := actions.DrainOne(phase);
      forall p ensures Conserved(p) {
        assert old(Conserved(p));
        NoneOf(p);
        OfPure(buffer, phase, p);
        assert Of(ran, p) + [] == Of(ran, p);
      }
    }

    method TakeAll()
      requires Valid() && buffer == []
      modifies `buffer, actions, actions.buckets
      ensures Valid() && forall p :: Of(buffer, p) == old(actions.Queue(p))
      ensures forall i, j :: 0 <= i < j < |buffer| ==> buffer[i].phase <= buffer[j].phase
      ensures forall p :: actions.Queue(p) == []
    {
      hide Of;
      BatchHas();
      UptoAscends(actions.start, actions.last);
      buffer := actions.DrainAll();
      NothingLeft();
      forall p ensures Conserved(p) {
        assert old(Conserved(p));
        NoneOf(p);
        assert Of(ran, p) + [] == Of(ran, p);
      }
    }

    lemma NothingLeft()
      requires forall p :: actions.Queue(p) == []
      ensures forall p, i :: 0 <= i < |actions.Queue(p)| ==> actions.Queue(p)[i].phase == p
    {
    }

    lemma BatchHas()
      requires Valid()
      ensures forall p :: Of(actions.Upto(actions.start, actions.last), p) == actions.Queue(p)
    {
      forall p ensures Of(actions.Upto(actions.start, actions.last), p) == actions.Queue(p) {
        OfUpto(actions.start, actions.last, p);
        assert actions.Queue(p) == actions.buckets.At(p);
      }
    }

    lemma {:induction false} OfUpto(lo: int, hi: int, p: int)
      requires forall q, i :: 0 <= i < |actions.Queue(q)| ==> actions.Queue(q)[i].phase == q
      ensures Of(actions.Upto(lo, hi), p) == if lo <= p <= hi then actions.Queue(p) else []
      decreases hi - lo
    {
      hide Of;
      NoneOf(p);
      if lo <= hi {
        var none: seq<Task> := [];
        OfUpto(lo, hi - 1, p);
        OfConcat(actions.Upto(lo, hi - 1), actions.Queue(hi), p);
        OfPure(actions.Queue(hi), hi, p);
        assert none + actions.Queue(p) == actions.Queue(p) && actions.Queue(p) + none == actions.Queue(p);
      }
    }

    lemma {:induction false} UptoAscends(lo: int, hi: int)
      requires forall q, i :: 0 <= i < |actions.Queue(q)| ==> actions.Queue(q)[i].phase == q
      ensures forall i :: 0 <= i < |actions.Upto(lo, hi)| ==> actions.Upto(lo, hi)[i].phase <= hi
      ensures forall i, j ::
        0 <= i < j < |actions.Upto(lo, hi)| ==> actions.Upto(lo, hi)[i].phase <= actions.Upto(lo, hi)[j].phase
      decreases hi - lo
    {
      if lo <= hi {
        UptoAscends(lo, hi - 1);
      }
    }

    /** The next action of the batch runs; what it schedules is a `Schedule` of its own. */
    method RunNext()
      requires Valid() && buffer != []
      modifies `buffer, `ran
      ensures Valid() && buffer == old(buffer)[1..] && ran == old(ran) + [old(buffer)[0]]
    {
      var t := buffer[0];
      buffer, ran := buffer[1..], ran + [t];
      forall p ensures Conserved(p) {
        assert old(Conserved(p));
        FirstMoves(old(ran), old(buffer), p);
      }
    }
  }

  /** The oldest task of its phase runs; nothing waits in a batch. */
  lemma PopsOne(ran: seq<Task>, queue: seq<Task>, queue': seq<Task>, t: Task, p: int, all: seq<Task>)
    requires Of(ran, p) + Of([], p) + queue == all
    requires if t.phase == p then queue != [] && queue[0] == t && queue' == queue[1..] else queue' == queue
    ensures Of(ran + [t], p) + Of([], p) + queue' == all
  {
    hide Of;
    NoneOf(p);
    assert Of(ran, p) + [] == Of(ran, p) && Of(ran + [t], p) + [] == Of(ran + [t], p);
    if t.phase == p {
      FrontMoves(ran, queue, p);
    } else {
      FrontMoves(ran, [t], p);
    }
  }

  lemma FrontMoves(ran: seq<Task>, queue: seq<Task>, p: int)
    requires queue != []
    ensures queue[0].phase == p ==> Of(ran + [queue[0]], p) + queue[1..] == Of(ran, p) + queue
    ensures queue[0].phase != p ==> Of(ran + [queue[0]], p) == Of(ran, p)
  {
    hide Of;
    OfOne(ran, queue[0], p);
    assert Of(ran, p) + [] == Of(ran, p);
    assert (Of(ran, p) + [queue[0]]) + queue[1..] == Of(ran, p) + queue;
  }

  lemma FirstMoves(ran: seq<Task>, batch: seq<Task>, p: int)
    requires batch != []
    ensures Of(ran + [batch[0]], p) + Of(batch[1..], p) == Of(ran, p) + Of(batch, p)
  {
    hide Of;
    var t, rest := batch[0], batch[1..];
    var one: seq<Task> := if t.phase == p then [t] else [];
    OfConcat([t], rest, p);
    assert [t] + rest == batch && [] + [t] == [t] && [] + one == one;
    OfOne(ran, t, p);
    OfOne([], t, p);
    NoneOf(p);
    assert (Of(ran, p) + one) + Of(rest, p) == Of(ran, p) + (one + Of(rest, p));
  }
}
