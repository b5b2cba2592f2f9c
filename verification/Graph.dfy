// The node table of the reactive graph and the methods that work on it in place.
module ReactiveGraph {
  import opened DirtyLattice
  import opened Options
  import opened Computation
  import opened GraphState
  import opened BindingSteps
  import opened EvaluationSteps
  import opened Evolution
  import opened Runs
  import opened MarkingSteps
  import opened LifetimeSteps
  import opened AtRest
  import opened Discarding
  import opened Causes
  import opened ReactionOrder
  import opened Worlds
  import opened StateGuard
  import opened Traces

  lemma FreshKeyExists(m: map<nat, Binding>)
    ensures exists k: nat :: k !in m
  {
    var bound := KeyBound(m.Keys);
    assert bound !in m;
  }

  ghost function KeyBound(keys: set<nat>): (bound: nat)
    ensures forall k :: k in keys ==> k < bound
  {
    if keys == {} then 0
    else
      var k :| k in keys;
      var rest := KeyBound(keys - {k});
      assert keys == keys - {k} + {k};
      if k < rest then rest else k + 1
  }

  class Graph {
    var kinds: seq<Kind>
    var vals: map<nat, Value>
    var alive: seq<bool>
    var dirty: seq<Dirty>
    var cache: seq<Option<Value>>
    var sources: seq<seq<Source>>
    var sinks: seq<map<nat, Binding>>
    var scheduled: seq<bool>
    var discards: seq<nat>
    var unbinds: seq<Source>
    var notifys: seq<nat>
    var reactions: seq<nat>
    var reactionsBuffer: seq<nat>
    // For the proof: what each node read, which functions ran, and the reaction that is being run.
    ghost var seen: seq<seq<Value>>
    ghost var ran: seq<nat>
    ghost var calling: seq<nat>

    ghost function View(): G
      reads this
    {
      G(kinds, vals, alive, dirty, cache, sources, sinks, scheduled, discards, unbinds, notifys,
        calling + reactionsBuffer + reactions, seen, ran)
    }

    // ----- bindings -----

    /** `try_schedule_discard`. */
    method TryScheduleDiscard(m: nat)
      requires Lengths(View()) && m < |kinds|
      modifies `scheduled, `discards
      ensures View() == TrySchedule(old(View()), m)
      ensures
        if kinds[m].MemoNode? && !kinds[m].pinned && alive[m] && sinks[m] == map[] && !old(scheduled)[m] then
          scheduled == old(scheduled)[m := true] && discards == old(discards) + [m]
        else View() == old(View())
    {
      if kinds[m].MemoNode? && !kinds[m].pinned && alive[m] && sinks[m] == map[] && !scheduled[m] {
        scheduled := scheduled[m := true];
        discards := discards + [m];
      }
    }

    /** `BindSource::unbind` on the node of `src`. */
    method UnbindSource(src: Source)
      requires Lengths(View()) && src.node < |kinds|
      modifies `sinks, `scheduled, `discards
      ensures View() == Unbind(old(View()), src)
    {
      sinks := sinks[src.node := sinks[src.node] - {src.key}];
      TryScheduleDiscard(src.node);
    }

    /** `SinkBindings::bind`: record that `n` reads `s` at its source position `i`. */
    method BindSource(n: nat, s: nat, i: nat, ghost v: Value)
      returns (ghost key: nat)
      requires Lengths(View()) && Live(View(), n) && i <= |sources[n]|
      requires s < n && alive[s] && (kinds[s].StateNode? || kinds[s].MemoNode?)
      requires i < |sources[n]| ==> Linked(View(), sources[n][i], n)
      modifies `dirty, `cache, `sources, `sinks, `scheduled, `discards, `seen, `ran
      ensures
        if i < |old(sources)[n]| && old(sources)[n][i].node == s then View() == Reuse(old(View()), n, i, v)
        else Insertable(old(View()), n, Source(s, key)) && View() == Bound(old(View()), n, i, Source(s, key), v)
    {
      if i < |sources[n]| && sources[n][i].node == s {
        sinks := sinks[s := SetEntry(sinks[s], sources[n][i].key, Binding(n, Clean))];
        seen := seen[n := seen[n][i := v]];
        key := sources[n][i].key;
        return;
      }
      FreshKeyExists(sinks[s]);
      var unused: nat :| unused !in sinks[s];
      key := unused;
      sinks := sinks[s := SetEntry(sinks[s], unused, Binding(n, Clean))];
      if i < |sources[n]| {
        var displaced := sources[n][i];
        sources := sources[n := sources[n][i := Source(s, unused)]];
        seen := seen[n := seen[n][i := v]];
        UnbindSource(displaced);
      } else {
        sources := sources[n := sources[n] + [Source(s, unused)]];
        seen := seen[n := seen[n] + [v]];
      }
    }

    /** The first `i` sources of `n` are recorded; record `s` next. */
    method Depend(n: nat, s: nat, i: nat, ghost v: Value, ghost c: Ctx)
      requires Inv(View(), c) && c.loose == {} && n in c.running && Live(View(), n) && !kinds[n].StateNode?
      requires s < n && alive[s] && (kinds[s].StateNode? || kinds[s].MemoNode?)
      requires i <= |sources[n]|
      modifies `dirty, `cache, `sources, `sinks, `scheduled, `discards, `seen, `ran
      ensures Inv(View(), c)
      ensures Evolves(old(View()), View(), n, n + 1) && SamePrefix(old(View()), View(), n, i)
      ensures i < |sources[n]| && sources[n][i].node == s && seen[n][i] == v
      ensures Linked(View(), sources[n][i], n) && sinks[s][sources[n][i].key].dirty == Clean
      ensures dirty == old(dirty) && cache == old(cache) && ran == old(ran)
    {
      hide Evolves, SamePrefix, Coherent, Queued;
      ghost var g := View();
      if i < |sources[n]| {
        assert Linked(g, sources[n][i], n);
      }
      ghost var key := BindSource(n, s, i, v);
      if i < |g.sources[n]| && g.sources[n][i].node == s {
        ReuseKeeps(g, c, n, i, v);
        ReuseEvolves(g, n, i, v);
      } else {
        var src := Source(s, key);
        BoundKeeps(g, c, n, i, src, v);
        BoundEvolves(g, c, n, i, src, v);
        BoundAt(g, n, i, src, v);
      }
    }

    /** Take the source at position `len` out of the list of `n` and unbind it. */
    method DrainOne(n: nat, len: nat)
      requires Lengths(View()) && n < |kinds| && len < |sources[n]| && sources[n][len].node < |kinds|
      modifies `dirty, `cache, `sources, `sinks, `scheduled, `discards, `seen, `ran
      ensures View() == DrainAt(old(View()), n, len)
    {
      var src := sources[n][len];
      sources := sources[n := RemoveAt(sources[n], len)];
      seen := seen[n := RemoveAt(seen[n], len)];
      UnbindSource(src);
    }

    /** `drain(len..)` on the sources of `n`: everything past the first `len` is unbound. */
    method DrainFrom(n: nat, len: nat, ghost c: Ctx)
      requires Inv(View(), c) && c.loose == {} && n in c.running && Live(View(), n) && len <= |sources[n]|
      modifies `dirty, `cache, `sources, `sinks, `scheduled, `discards, `seen, `ran
      ensures Drained(old(View()), View(), c, n, len) && |sources[n]| == len
      ensures OnlyUnbound(old(View()), View(), n)
    {
      ghost var g0 := View();
      DrainedRefl(g0, c, n, len);
      OnlyUnboundRefl(g0, n);
      while len < |sources[n]|
        invariant Drained(g0, View(), c, n, len) && OnlyUnbound(g0, View(), n)
        decreases |sources[n]|
      {
        ghost var g := View();
        hide Evolves, SamePrefix, OnlyUnbound;
        DrainStep(g, c, n, len);
        DrainAtSame(g, n, len);
        OnlyUnboundNext(g0, g, n, len);
        DrainOne(n, len);
        DrainedStep(g0, g, View(), c, n, len);
      }
    }

    // ----- evaluation -----

    /** Read node `s` inside the function of `n`, as its read number `i`. */
    method ReadIn(s: nat, n: nat, i: nat, ghost c: Ctx) returns (v: Value)
      requires Inv(View(), c) && Within(c, n) && c.resolved == {} && Live(View(), n) && !kinds[n].StateNode?
      requires s in Readable(View(), n)
      requires i <= |sources[n]|
      modifies `dirty, `cache, `sources, `sinks, `scheduled, `discards, `seen, `ran
      ensures Inv(View(), c)
      ensures ReadDone(old(View()), View(), n, i, s, v)
      decreases s, 6
    {
      hide AllDecided, Exact, RanOnce, Need;
      ghost var g0 := View();
      match kinds[s] {
        case KeepNode(signal) =>
          KeepReadable(g0, c, s);
          UpdateKeep(s, c);
          ghost var g1 := View();
          assert SameNode(g0, g1, n);
          v := ReadIn(signal, n, i, c);
          ReadKeep(g0, g1, View(), n, i, s, v);
        case StateNode =>
          v := vals[s];
          Depend(n, s, i, v, c);
          assert NodeOk(View(), s);
          ReadState(g0, View(), n, i, s, v);
        case MemoNode(_, _, _) =>
          v := ReadMemoIn(s, n, i, c);
        case EffectNode(_, _) =>
          assert false;
      }
    }

    /** A memo is bound before it is brought up to date. */
    method ReadMemoIn(s: nat, n: nat, i: nat, ghost c: Ctx) returns (v: Value)
      requires Inv(View(), c) && Within(c, n) && c.resolved == {} && Live(View(), n) && !kinds[n].StateNode?
      requires s in Readable(View(), n) && kinds[s].MemoNode?
      requires i <= |sources[n]|
      modifies `dirty, `cache, `sources, `sinks, `scheduled, `discards, `seen, `ran
      ensures Inv(View(), c)
      ensures ReadDone(old(View()), View(), n, i, s, v)
      decreases s, 5
    {
      ghost var g0 := View();
      ghost var w := Eval(kinds, vals, s);
      Depend(n, s, i, w, c);
      ghost var g1 := View();
      DependFacts(g0, g1, c, n, i, s, w);
      hide Inv, Evolves, DependDone, Updated, ReadDone;
      Update(s, c);
      ReadMemoEnds(g0, g1, View(), c, n, i, s);
      v := cache[s].value;
    }

    /** Run the function of `n` from its first read; its reads are recorded from position 0, and the run is logged. */
    method RunReads(n: nat, ghost c: Ctx) returns (len: nat, v: Value, ghost h: G)
      requires Inv(View(), c) && Within(c, n) && c.resolved == {} && Live(View(), n)
      requires kinds[n].MemoNode? || kinds[n].EffectNode?
      modifies `dirty, `cache, `sources, `sinks, `scheduled, `discards, `seen, `ran
      ensures Inv(h, c) && View() == Logged(h, n)
      ensures Running(old(View()), h, n, len, Ret(v))
      decreases n, 0
    {
      hide Inv, Running, ReadDone, Readable;
      ghost var g0 := View();
      RunningStart(g0, c, n);
      var comp := kinds[n].comp;
      len := 0;
      while comp.Read?
        invariant Inv(View(), c) && Running(g0, View(), n, len, comp)
        decreases comp
      {
        ghost var g := View();
        RunningFacts(g0, g, n, len, comp);
        v := ReadIn(comp.source, n, len, c);
        RunningStep(g0, g, View(), n, len, comp, v);
        comp := comp.next[v];
        len := len + 1;
      }
      v := comp.value;
      h := View();
      LogRun(n);
    }

    /** What the closure of a memo does with the new value: a filtering memo keeps an equal one. */
    method StoreResult(n: nat, v: Value) returns (isDirty: bool)
      requires Lengths(View()) && n < |kinds|
      modifies `dirty, `cache, `sources, `sinks, `scheduled, `discards, `seen, `ran
      ensures kinds == old(kinds) && isDirty == (kinds[n].MemoNode? && !(kinds[n].filter && old(cache)[n] == Some(v)))
      ensures View() == if isDirty then WriteCache(old(View()), n, v) else old(View())
    {
      isDirty := false;
      if kinds[n].MemoNode? && !(kinds[n].filter && cache[n] == Some(v)) {
        cache := cache[n := Some(v)];
        isDirty := true;
      }
    }

    /** The binder's own mark. */
    method SetMark(n: nat, d: Dirty)
      requires Lengths(View()) && n < |kinds|
      modifies `dirty
      ensures View() == old(View()).(dirty := old(dirty)[n := d])
    {
      dirty := dirty[n := d];
    }

    /** For the proof: the function of `n` has run; only what runs functions calls this. */
    ghost method LogRun(n: nat)
      modifies `ran
      ensures View() == Logged(old(View()), n)
    {
      ran := ran + [n];
    }

    /** `SourceBinder::update` with the closure of a memo or an effect. */
    method Run(n: nat, ghost c: Ctx) returns (isDirty: bool, v: Value, ghost h: G)
      requires Inv(View(), c) && Live(View(), n) && (kinds[n].MemoNode? || kinds[n].EffectNode?)
      requires dirty[n] != Clean && Above(c, n)
      modifies `dirty, `cache, `sources, `sinks, `scheduled, `discards, `seen, `ran
      ensures Inv(h, if isDirty then Replaced(Enter(c, n), n) else Enter(c, n)) && View() == Logged(h, n)
      ensures RunDone(old(View()), h, n, v)
      ensures kinds == old(kinds) && isDirty == (kinds[n].MemoNode? && !(kinds[n].filter && old(cache)[n] == Some(v)))
      decreases n, 1
    {
      ghost var g0 := View();
      ghost var c1 := Enter(c, n);
      RunBegins(g0, c, n);
      hide Inv, Running, RunFrame, RunAt, RunDone, Drained, Announced, OnlyUnbound;
      SetMark(n, Clean);
      ghost var g1 := View();
      var len;
      ghost var g2;
      len, v, g2 := RunReads(n, c1);
      isDirty := StoreResult(n, v);
      ghost var g3 := if isDirty then WriteCache(g2, n, v) else g2;
      ResultStored(g0, g1, g2, c1, n, len, v, isDirty);
      ghost var c3 := if isDirty then Replaced(c1, n) else c1;
      LogKeeps(g3, c3, g3.ran + [n]);
      DrainFrom(n, len, c3);
      h := View().(ran := g3.ran);
      DrainedUnlogged(g3, View(), c3, n, len);
      RunEnds(g0, g3, h, c3, n, len, v);
    }

    /**
     * `SinkBindings::is_dirty`. The source panics on a binding that is only possibly dirty;
     * the precondition says that no caller ever asks about one.
     */
    method BindingIsDirty(s: nat, key: nat) returns (d: bool)
      requires s < |sinks| && key in sinks[s] && sinks[s][key].dirty != MaybeDirty
      ensures d <==> sinks[s][key].dirty == Dirty
    {
      match sinks[s][key].dirty {
        case Clean => d := false;
        case MaybeDirty => assert false;
        case Dirty => d := true;
      }
    }

    /** The first half of `BindSource::check`: a state is always up to date, a memo is updated. */
    method Refresh(s: nat, ghost c: Ctx)
      requires Inv(View(), c) && Live(View(), s) && Above(c, s) && (kinds[s].StateNode? || kinds[s].MemoNode?)
      modifies `dirty, `cache, `sources, `sinks, `scheduled, `discards, `seen, `ran
      ensures Inv(View(), c)
      ensures if old(kinds)[s].MemoNode? then Updated(old(View()), View(), s) else View() == old(View())
      decreases s, 5
    {
      hide Inv, Updated;
      if kinds[s].MemoNode? {
        Update(s, c);
      }
    }

    /** `BindSource::check`: bring the source up to date, then look at the binding's mark. */
    method Check(s: nat, key: nat, ghost g0: G, ghost n: nat, ghost i: nat, ghost c: Ctx) returns (changed: bool)
      requires Inv(View(), c) && CheckedTo(g0, View(), n, i) && Above(c, n)
      requires i < |sources[n]| && sources[n][i] == Source(s, key)
      modifies `dirty, `cache, `sources, `sinks, `scheduled, `discards, `seen, `ran
      ensures Inv(View(), c) && CheckedTo(g0, View(), n, if changed then i else i + 1)
      ensures changed ==> FoundDirty(View(), n, i)
      decreases n, 0
    {
      ghost var g := View();
      CheckNext(g0, g, c, n, i);
      hide Inv, CheckedTo, Updated, FoundDirty;
      Refresh(s, c);
      CheckAsked(g0, g, View(), c, n, i);
      changed := BindingIsDirty(s, key);
    }

    /** `SourceBindings::check`: ask the sources in order until one has really changed. */
    method CheckSources(n: nat, ghost c: Ctx) returns (changed: bool, ghost i: nat)
      requires Inv(View(), c) && Live(View(), n) && !kinds[n].StateNode? && dirty[n] == MaybeDirty && Above(c, n)
      modifies `dirty, `cache, `sources, `sinks, `scheduled, `discards, `seen, `ran
      ensures Inv(View(), c) && CheckedTo(old(View()), View(), n, i)
      ensures if changed then FoundDirty(View(), n, i) else i == |sources[n]|
      decreases n, 1
    {
      ghost var g0 := View();
      CheckStart(g0, c, n);
      var j := 0;
      while j < |sources[n]|
        invariant Inv(View(), c) && CheckedTo(g0, View(), n, j)
        decreases |g0.sources[n]| - j
      {
        changed := Check(sources[n][j].node, sources[n][j].key, g0, n, j, c);
        if changed {
          i := j;
          return;
        }
        j := j + 1;
      }
      i := j;
      changed := false;
    }

    /** `SourceBinder::check`. */
    method CheckBinder(n: nat, ghost c: Ctx) returns (changed: bool)
      requires Inv(View(), c) && Live(View(), n) && !kinds[n].StateNode? && dirty[n] != Clean && Above(c, n)
      modifies `dirty, `cache, `sources, `sinks, `scheduled, `discards, `seen, `ran
      ensures Inv(View(), if changed then c else Enter(c, n))
      ensures
        if changed then MustRun(old(View()), View(), n)
        else Evaluated(old(View()), View(), n) && !RanSince(old(ran), ran, n)
      ensures n < |cache| && cache[n] == old(cache)[n]
      decreases n, 2
    {
      ghost var g0 := View();
      if dirty[n] == Dirty {
        MustRunAtOnce(g0, c, n);
        return true;
      }
      ghost var i;
      changed, i := CheckSources(n, c);
      ghost var g := View();
      hide Inv, CheckedTo, Evaluated, MustRun, RanSince;
      if changed {
        MustRunAfterCheck(g0, g, c, n, i);
      } else {
        EvaluatedByCheck(g0, g, c, n);
      }
      SetMark(n, FromIsDirty(changed));
    }

    /** `SourceBinder::check` followed, if it says so, by `SourceBinder::update`. */
    method Evaluate(n: nat, ghost c: Ctx) returns (isDirty: bool)
      requires Inv(View(), c) && Live(View(), n) && (kinds[n].MemoNode? || kinds[n].EffectNode?)
      requires dirty[n] != Clean && Above(c, n)
      modifies `dirty, `cache, `sources, `sinks, `scheduled, `discards, `seen, `ran
      ensures Inv(View(), if isDirty then Replaced(Enter(c, n), n) else Enter(c, n))
      ensures Evaluated(old(View()), View(), n) && (isDirty ==> kinds[n].MemoNode?)
      ensures Lengths(View()) && Decided(old(View()), View(), n)
      ensures n < |kinds| && (kinds[n].MemoNode? && !kinds[n].filter ==> (isDirty <==> RanSince(old(ran), ran, n)))
      ensures n < |cache| && (kinds[n].MemoNode? && kinds[n].filter ==> (isDirty <==> cache[n] != old(cache)[n]))
      decreases n, 3
    {
      hide Inv, Evaluated, MustRun, RunDone, Decided, RanSince;
      ghost var g0 := View();
      var changed := CheckBinder(n, c);
      if !changed {
        EvaluatedIsDecided(g0, View(), n);
        return false;
      }
      ghost var g := View();
      MustRunFacts(g0, g, n);
      var v;
      ghost var h;
      isDirty, v, h := Run(n, c);
      MustRunIsRun(g0, g, h, n, v);
      LogKeeps(h, if isDirty then Replaced(Enter(c, n), n) else Enter(c, n), h.ran + [n]);
      EvaluatedIsDecided(g0, View(), n);
    }

    /** `ScanNode::update`. */
    method Update(n: nat, ghost c: Ctx)
      requires Inv(View(), c) && Live(View(), n) && kinds[n].MemoNode? && Above(c, n)
      modifies `dirty, `cache, `sources, `sinks, `scheduled, `discards, `seen, `ran
      ensures Inv(View(), c)
      ensures Updated(old(View()), View(), n)
      ensures old(dirty)[n] == Clean ==> View() == old(View())
      decreases n, 4
    {
      ghost var g0 := View();
      if dirty[n] == Clean {
        UpdatedRefl(g0, c, n);
        return;
      }
      UpdateBegins(g0, c, n);
      hide Inv, Updated, Evaluated, UpdateFrame, Decided, RanSince;
      TryScheduleDiscard(n);
      ghost var g1 := View();
      var isDirty := Evaluate(n, c);
      ghost var g2 := View();
      UpdateEnds(g0, g1, g2, c, n, isDirty);
      UpdateSinks(n, isDirty);
    }

    /** `SinkBindings::update`. */
    method UpdateSinks(n: nat, isDirty: bool)
      requires Lengths(View()) && n < |kinds|
      modifies `sinks
      ensures View() == Resolve(old(View()), n, isDirty)
    {
      sinks := sinks[n := ResolveAll(sinks[n], isDirty)];
    }

    /** `KeepNode::update`. */
    method UpdateKeep(n: nat, ghost c: Ctx)
      requires Inv(View(), c) && Live(View(), n) && kinds[n].KeepNode? && Above(c, n)
      modifies `dirty, `cache, `sources, `sinks, `scheduled, `discards, `seen, `ran
      ensures Inv(View(), c)
      ensures Updated(old(View()), View(), n)
      ensures old(dirty)[n] == Clean ==> View() == old(View())
      decreases n, 4
    {
      ghost var g0 := View();
      if dirty[n] == Clean {
        UpdatedRefl(g0, c, n);
        return;
      }
      RunKeep(n, c);
    }

    /** `SourceBinder::update` with the closure of a keep node, which reads its signal. */
    method RunKeep(n: nat, ghost c: Ctx)
      requires Inv(View(), c) && Live(View(), n) && kinds[n].KeepNode? && Above(c, n) && dirty[n] != Clean
      modifies `dirty, `cache, `sources, `sinks, `scheduled, `discards, `seen, `ran
      ensures Inv(View(), c)
      ensures Updated(old(View()), View(), n)
      decreases n, 3
    {
      hide Evolves, Coherent, Queued, ExactAt, RanWithin;
      ghost var g0 := View();
      ghost var c1 := Enter(c, n);
      var signal := kinds[n].signal;
      KeepReadable(g0, c, n);
      RunBegins(g0, c, n);
      hide Inv, RunFrame, RunAt, ReadDone, Drained, Announced, Updated, OnlyUnbound;
      SetMark(n, Clean);
      ghost var g1 := View();
      assert Readable(g1, n) == Readable(g0, n);
      var v := ReadIn(signal, n, 0, c1);
      ghost var g2 := View();
      LogRun(n);
      KeepRead(g0, g1, g2, c1, n, v);
      LogKeeps(g2, c1, g2.ran + [n]);
      DrainFrom(n, 1, c1);
      DrainedUnlogged(g2, View(), c1, n, 1);
      KeepEnds(g0, g2, View().(ran := g2.ran), c, n, v);
    }

    // ----- notification -----

    /** `SourceBinder::on_notify` of a live sink together with its `schedule`; true if sinks must be told. */
    method OnNotify(a: nat, level: DirtyLevel) returns (needsNotify: bool)
      requires Lengths(View()) && a < |kinds|
      modifies `dirty, `sinks, `reactions
      ensures View() == NotifyStep(old(View()), a, level)
      ensures needsNotify == (old(dirty)[a] == Clean)
      ensures dirty == old(dirty)[a := dirty[a]] && Rank(dirty[a]) >= Rank(FromLevel(level))
      ensures dirty[a] == old(dirty)[a] || (dirty[a] == FromLevel(level) && Rank(dirty[a]) > Rank(old(dirty)[a]))
      ensures View().pending
        == if kinds[a].EffectNode? && needsNotify then old(View()).pending + [a] else old(View()).pending
    {
      needsNotify := dirty[a] == Clean;
      dirty := dirty[a := RaiseTo(dirty[a], level)];
      if needsNotify && kinds[a].EffectNode? {
        Schedule(a);
      }
    }

    /** `BindSink::notify` through a weak reference: nothing happens to a dropped node. */
    method NotifyNode(a: nat, level: DirtyLevel, ghost c: Ctx)
      requires Inv(View(), c) && MarkingBelow(c, a) && a < |kinds| && (alive[a] ==> !kinds[a].StateNode?)
      modifies `dirty, `sinks, `reactions
      ensures Inv(View(), c)
      ensures Reached(old(View()), View(), a, level)
      decreases |kinds| - a, 3, 1
    {
      ghost var g0 := View();
      if !alive[a] {
        ReachedDead(g0, a, level);
        return;
      }
      hide Reached, Spread;
      if dirty[a] != Clean || !kinds[a].MemoNode? {
        NotifyRests(g0, c, a, level);
        var _ := OnNotify(a, level);
      } else {
        NotifyMemo(a, level, c);
      }
      ReachedLive(g0, View(), a, level);
    }

    /** `ScanNode::notify` on a clean memo: its own sinks are told too. */
    method NotifyMemo(a: nat, level: DirtyLevel, ghost c: Ctx)
      requires Inv(View(), c) && MarkingBelow(c, a) && a < |kinds| && alive[a] && kinds[a].MemoNode?
      requires dirty[a] == Clean
      modifies `dirty, `sinks, `reactions
      ensures Inv(View(), c)
      ensures Spread(old(View()), View(), a, level)
      ensures a < |dirty| && Rank(FromLevel(level)) <= Rank(dirty[a])
      ensures level == DirtyLevel && !kinds[a].filter ==> Lengths(View()) && AllDirty(View(), a)
      decreases |kinds| - a, 3, 0
    {
      hide Inv, Spread, MarkingBelow;
      ghost var g0 := View();
      NotifyGoesOn(g0, c, a, level);
      var filter := kinds[a].filter;
      var _ := OnNotify(a, level);
      ghost var g1 := View();
      NotifySinks(a, MaybeIf(level, filter), Marking(c, a));
      NotifyArrives(g0, g1, View(), a, level, filter);
    }

    /** One round of the loop in `SinkBindings::notify`, first half: tell the sink if it was clean. */
    method TellSink(s: nat, k: nat, level: DirtyLevel, ghost g0: G, ghost todo: set<nat>, ghost c: Ctx)
      requires Inv(View(), c) && MarkedSoFar(g0, View(), s, level, todo) && k in todo && MarkingBelow(c, s + 1)
      requires level == DirtyLevel ==> !Filters(View(), s)
      modifies `dirty, `sinks, `reactions
      ensures Inv(View(), c) && SinkTold(old(View()), View(), s, k, level)
      decreases |kinds| - s, 0
    {
      ghost var g := View();
      MarkedFacts(g0, g, c, s, level, todo, k);
      if sinks[s][k].dirty != Clean {
        NeedsNoTelling(g0, g, c, s, level, todo, k);
        return;
      }
      hide Inv, MarkedSoFar, Reached, SinkTold;
      var a := sinks[s][k].sink;
      NotifyNode(a, level, c);
      IsTold(g, View(), s, k, a, level);
    }

    /** One round of the loop in `SinkBindings::notify`. */
    method NotifyBinding(s: nat, k: nat, level: DirtyLevel, ghost g0: G, ghost todo: set<nat>, ghost c: Ctx)
      requires Inv(View(), c) && MarkedSoFar(g0, View(), s, level, todo) && k in todo && MarkingBelow(c, s + 1)
      requires level == DirtyLevel || g0.dirty[s] != Clean
      requires level == DirtyLevel ==> !Filters(g0, s)
      modifies `dirty, `sinks, `reactions
      ensures Inv(View(), c) && MarkedSoFar(g0, View(), s, level, todo - {k})
      decreases |kinds| - s, 1
    {
      ghost var g := View();
      TellSink(s, k, level, g0, todo, c);
      MarkedOne(g0, g, View(), c, s, level, todo, k);
      hide Inv, MarkedSoFar;
      MarkBinding(s, k, level);
    }

    method MarkBinding(s: nat, k: nat, level: DirtyLevel)
      requires Lengths(View()) && s < |kinds| && k in sinks[s]
      modifies `sinks
      ensures View() == RaiseBinding(old(View()), s, k, level)
    {
      var b := sinks[s][k];
      sinks := sinks[s := SetEntry(sinks[s], k, b.(dirty := RaiseTo(b.dirty, level)))];
    }

    /** `SinkBindings::notify` on the bindings of `s`, in any order. */
    method NotifySinks(s: nat, level: DirtyLevel, ghost c: Ctx)
      requires Inv(View(), c) && MarkingBelow(c, s + 1) && s < |kinds|
      requires level == DirtyLevel || dirty[s] != Clean
      requires level == DirtyLevel ==> !Filters(View(), s)
      modifies `dirty, `sinks, `reactions
      ensures Inv(View(), Told(c, s)) && Spread(old(View()), View(), s, level)
      ensures s < |dirty| && dirty[s] == old(dirty)[s]
      ensures level == DirtyLevel ==> AllDirty(View(), s)
      decreases |kinds| - s, 2
    {
      ghost var g0 := View();
      MarkedNone(g0, s, level);
      var todo := sinks[s].Keys;
      while todo != {}
        invariant Inv(View(), c) && MarkedSoFar(g0, View(), s, level, todo)
        decreases todo
      {
        var k :| k in todo;
        NotifyBinding(s, k, level, g0, todo, c);
        todo := todo - {k};
      }
      MarkedDone(g0, View(), c, s, level);
    }

    // ----- operations -----

    constructor ()
      ensures Ok(View()) && kinds == [] && calling == []
    {
      kinds, vals, alive, dirty, cache, sources, sinks := [], map[], [], [], [], [], [];
      scheduled, discards, unbinds, notifys, reactions, reactionsBuffer := [], [], [], [], [], [];
      seen, ran, calling := [], [], [];
    }

    /** `State::set`: the value is stored and every reader told, whether or not it is a new value. */
    method Set(s: nat, v: Value)
      requires Ok(View()) && s < |kinds| && kinds[s].StateNode? && alive[s]
      modifies `vals, `dirty, `sinks, `reactions
      ensures Ok(View()) && vals == old(vals)[s := v]
      ensures Spread(SetValue(old(View()), s, v), View(), s, DirtyLevel) && ToldAll(View(), s)
    {
      ghost var g0 := View();
      SetBegins(g0, s, v);
      vals := vals[s := v];
      NotifySinks(s, DirtyLevel, SetCtx(g0, s));
      SetEnds(g0, View(), s);
      DirtyIsTold(View(), s);
    }

    /** `State::set_dedup`: nothing happens, and nobody is told, when the value is the same. */
    method SetDedup(s: nat, v: Value)
      requires Ok(View()) && s < |kinds| && kinds[s].StateNode? && alive[s] && s in vals
      modifies `vals, `dirty, `sinks, `reactions
      ensures Ok(View())
      ensures
        if old(vals)[s] == v then View() == old(View())
        else Spread(SetValue(old(View()), s, v), View(), s, DirtyLevel) && ToldAll(View(), s)
      ensures vals == old(vals)[s := v]
    {
      if vals[s] != v {
        Set(s, v);
      }
    }

    /** Dropping a changed loose guard: the value is new, the notification only scheduled. */
    method EditLoose(s: nat, v: Value)
      requires Ok(View()) && s < |kinds| && kinds[s].StateNode? && alive[s]
      modifies `vals, `notifys
      ensures Ok(View())
      ensures View() == PushNotify(SetValue(old(View()), s, v), s)
      ensures vals == old(vals)[s := v] && notifys == old(notifys) + [s]
    {
      LooseKeeps(View(), s, v);
      vals := vals[s := v];
      notifys := notifys + [s];
    }

    /** Everything between `borrow_mut` or `borrow_mut_loose` and the drop of the guard. */
    method EditGuarded(s: nat, uses: seq<Use>, loose: bool)
      requires Ok(View()) && s < |kinds| && kinds[s].StateNode? && alive[s] && s in vals
      modifies `vals, `dirty, `sinks, `reactions, `notifys
      ensures Ok(View())
      ensures
        if !Announces(uses, old(vals)[s]) then View() == old(View())
        else if loose then View() == PushNotify(SetValue(old(View()), s, Written(uses, old(vals)[s])), s)
        else
          && Spread(SetValue(old(View()), s, Written(uses, old(vals)[s])), View(), s, DirtyLevel)
          && ToldAll(View(), s)
      ensures vals == old(vals)[s := Written(uses, old(vals)[s])]
      ensures forall i :: LastWrite(uses, i) ==> vals == old(vals)[s := uses[i].value]
      ensures !HasWrite(uses) ==> View() == old(View())
      ensures uses != [] && uses[0].Write? ==> if loose then notifys == old(notifys) + [s] else ToldAll(View(), s)
      ensures uses != [] && uses[0].Dedup? && vals[s] == old(vals)[s] ==> View() == old(View())
    {
      var changed, value := UseGuard(uses, vals[s]);
      if changed && loose {
        EditLoose(s, value);
      } else if changed {
        Set(s, value);
      }
    }

    /** The life of a guard on a state that holds `found`; nobody else sees the value meanwhile. */
    method UseGuard(uses: seq<Use>, found: Value) returns (changed: bool, value: Value)
      ensures value == Written(uses, found) && (changed <==> Announces(uses, found))
      ensures forall i :: LastWrite(uses, i) ==> value == uses[i].value
      ensures uses == [] ==> !changed
      ensures uses != [] && uses[0].Write? ==> changed
      ensures !changed ==> value == found
      ensures uses != [] && uses[0].Dedup? ==> (changed <==> value != found)
    {
      FirstDecides(uses, found);
      WrittenIsLast(uses, found);
      MarkOfNone(found);
      hide Written, MarkOf, HasWrite, DedupFirst, LastWrite, Announces, Advanced, Changed;
      var mark := Unused;
      value := found;
      for i := 0 to |uses|
        invariant value == Written(uses[..i], found) && mark == MarkOf(uses[..i], found)
      {
        MarkAdvances(uses[..i], uses[i], found);
        assert uses[..i] + [uses[i]] == uses[..i + 1];
        mark := Advanced(mark, uses[i], value);
        if uses[i].Write? {
          value := uses[i].value;
        }
      }
      assert uses[..|uses|] == uses;
      MarkDecides(uses, found);
      changed := Changed(mark, value);
    }

    /** One element of the deferred unbind queue. */
    method UnbindNext()
      requires Ok(View()) && unbinds != []
      modifies `sinks, `scheduled, `discards, `unbinds
      ensures Ok(View()) && Unbound(old(View()), View()) && unbinds == old(unbinds)[1..]
    {
      ghost var g := View();
      UnbindFirstKeeps(g);
      UnbindFirstSame(g);
      hide Ok, Unbind;
      var u := unbinds[0];
      unbinds := unbinds[1..];
      UnbindSource(u);
    }

    /** `RawRuntime::apply_unbind`; the queued groups are kept as one list. */
    method ApplyUnbind() returns (handled: bool)
      requires Ok(View())
      modifies `sinks, `scheduled, `discards, `unbinds
      ensures Ok(View()) && Unbound(old(View()), View()) && unbinds == []
      ensures handled == (old(unbinds) != [])
      ensures !handled ==> View() == old(View())
    {
      handled := unbinds != [];
      UnboundRefl(View());
      while unbinds != []
        invariant Ok(View()) && Unbound(old(View()), View())
        invariant !handled ==> View() == old(View())
        decreases |unbinds|
      {
        ghost var g := View();
        UnbindNext();
        UnboundTrans(old(View()), g, View());
      }
    }

    /** The next scheduled notification of a loose edit. */
    method NotifyNext()
      requires Ok(View()) && notifys != []
      modifies `dirty, `sinks, `reactions, `notifys
      ensures Ok(View()) && notifys == old(notifys)[1..] && unbinds == old(unbinds)
      ensures Spread(PopNotify(old(View())), View(), old(notifys)[0], DirtyLevel)
      ensures ToldAll(View(), old(notifys)[0])
    {
      ghost var g0 := View();
      NotifyBegins(g0);
      hide Ok, Inv, Spread, ToldAll, NotifyCtx;
      var s := notifys[0];
      if !alive[s] {
        NotifyDead(g0);
        notifys := notifys[1..];
        return;
      }
      notifys := notifys[1..];
      NotifySinks(s, DirtyLevel, NotifyCtx(g0, s));
      NotifyEnds(g0, View());
      DirtyIsTold(View(), s);
    }

    /**
     * `RawRuntime::apply_notify`: every reader of the states in the queue is told, and a mark goes up only downstream
     * of one of these states.
     */
    method ApplyNotify()
      requires Ok(View())
      modifies `dirty, `sinks, `reactions, `notifys, `scheduled, `discards, `unbinds
      ensures Ok(View()) && notifys == [] && unbinds == []
      ensures OnlyAnnounced(old(View()), View()) && ToldFirst(old(View()), View(), |old(notifys)|)
      ensures old(notifys) == [] ==> Unbound(old(View()), View())
    {
      hide Ok, Unbound, OnlyAnnounced, ToldFirst, ToldAll, Spread;
      ghost var g0 := View();
      var _ := ApplyUnbind();
      assert notifys == old(notifys);
      UnboundIsAnnounced(g0, View());
      ghost var i := 0;
      while notifys != []
        invariant Ok(View()) && unbinds == [] && i <= |g0.notifys| && notifys == g0.notifys[i..]
        invariant OnlyAnnounced(g0, View()) && ToldFirst(g0, View(), i)
        invariant i == 0 ==> Unbound(g0, View())
        decreases |notifys|
      {
        ghost var g := View();
        NotifyNext();
        AnnounceOne(g0, g, View(), i);
        ToldNext(g0, g, View(), i);
        i := i + 1;
      }
    }

    /** Borrow a node without a sink, once everything queued has been announced. */
    method Fetch(n: nat) returns (v: Value)
      requires Inv(View(), IDLE) && Ok(View()) && notifys == [] && n < |kinds| && alive[n] && !kinds[n].EffectNode?
      modifies `dirty, `cache, `sources, `sinks, `scheduled, `discards, `seen, `ran
      ensures Inv(View(), IDLE) && Ok(View())
      ensures v == Eval(kinds, vals, n)
      ensures Fetched(old(View()), View(), n)
      ensures UpToDate(View(), n) && (UpToDate(old(View()), n) ==> View() == old(View()))
      decreases n
    {
      ghost var g0 := View();
      QuietIsIdle(g0);
      match kinds[n] {
        case StateNode =>
          FetchState(g0, n);
          v := vals[n];
        case MemoNode(_, _, _) =>
          Update(n, IDLE);
          UpdatedIsFresh(g0, View(), n);
          FetchMemo(g0, View(), n);
          IdleIsQuiet(View());
          v := cache[n].value;
        case KeepNode(s) =>
          KeepSignal(g0, n);
          UpdateKeep(n, IDLE);
          ghost var g1 := View();
          IdleIsQuiet(g1);
          v := Fetch(s);
          FetchKeep(g0, g1, View(), n, s);
      }
    }

    /**
     * A read from outside (`Runtime::sc` and `borrow`): whatever happened before, the value is the one
     * that evaluation from scratch gives on the current state values, and the functions that ran are
     * among those that evaluation from scratch of this node would run, each at most once. In the state
     * `ready`, once everything queued was announced, each of them had to run; this node ran exactly if it had to.
     * Only nodes ran that were not clean or that an announcement was going to come down to; a node that was up to
     * date is read without running anything, and after a read it is up to date.
     */
    method Read(n: nat) returns (v: Value, ghost ready: G)
      requires Ok(View()) && n < |kinds| && alive[n] && !kinds[n].EffectNode?
      modifies `dirty, `cache, `sources, `sinks, `scheduled, `discards, `seen, `ran, `reactions, `notifys, `unbinds
      ensures Ok(View()) && notifys == [] && UpToDate(View(), n)
      ensures Ready(old(View()), ready)
      ensures v == Eval(kinds, vals, n)
      ensures old(ran) <= ran
      ensures forall i :: |old(ran)| <= i < |ran| ==> ran[i] in Need(kinds, vals, n)
      ensures forall i, j :: |old(ran)| <= i < j < |ran| ==> ran[i] != ran[j]
      ensures ReadAsNeeded(ready, View(), n)
      ensures OnlySuspectsRan(old(View()), ran) && (UpToDate(old(View()), n) ==> ran == old(ran))
    {
      ghost var g0 := View();
      ApplyNotify();
      ready := View();
      QuietIsIdle(ready);
      v := Fetch(n);
      hide Ok, Inv, Suspect, OnlyAnnounced;
      FetchedFacts(ready, View(), n);
      SuspectsRan(g0, ready, ran);
      ReadIsExact(ready, View(), n);
      if UpToDate(g0, n) {
        StaysUpToDate(g0, ready, n);
      }
    }

    // ----- reactions -----

    /** Take the next reaction out of the batch; it stays pending until its call is over. */
    method BeginCall() returns (e: nat)
      requires calling == [] && reactionsBuffer != []
      modifies `calling, `reactionsBuffer
      ensures e == old(reactionsBuffer)[0] && calling == [e] && reactionsBuffer == old(reactionsBuffer)[1..]
      ensures View() == old(View()) && View().pending != [] && View().pending[0] == e
    {
      e := reactionsBuffer[0];
      reactionsBuffer := reactionsBuffer[1..];
      calling := [e];
      assert calling + reactionsBuffer + reactions == old(calling + reactionsBuffer + reactions);
    }

    ghost method EndCall()
      requires |calling| == 1
      modifies `calling
      ensures calling == [] && View().pending == old(View()).pending[1..]
      ensures old(View()).pending != [] && View() == PopPending(old(View()))
    {
      calling := [];
      assert calling + reactionsBuffer + reactions == old(calling + reactionsBuffer + reactions)[1..];
    }

    /** `EffectNode::call`. */
    method CallEffect(e: nat)
      requires Ok(View()) && notifys == [] && calling == [e] && e < |kinds| && alive[e] && kinds[e].EffectNode?
      requires dirty[e] != Clean
      modifies `dirty, `cache, `sources, `sinks, `scheduled, `discards, `seen, `ran, `calling
      ensures Ok(View()) && calling == []
      ensures Called(old(View()), View(), e)
      ensures Lengths(old(View())) && RunsWhenNeeded(old(View()), ran, e)
    {
      ghost var g0 := View();
      QuietIsIdle(g0);
      hide Ok, Inv, Evaluated, Called, RunsWhenNeeded;
      var _ := Evaluate(e, IDLE);
      ghost var g := View();
      assert g.pending == g0.pending;
      CallEnds(g0, g, e);
      EndCall();
    }

    /** The next reaction of the batch; the reaction of a dropped effect does nothing. */
    method RunReaction(ghost g0: G, ghost phase: Option<int>)
      requires Ok(View()) && notifys == [] && calling == [] && reactionsBuffer != [] && Dispatched(g0, View(), phase)
      requires AllEffects(kinds, reactionsBuffer) && InPhase(kinds, reactionsBuffer[0], phase)
      modifies `dirty, `cache, `sources, `sinks, `scheduled, `discards, `seen, `ran, `calling, `reactionsBuffer
      ensures Ok(View()) && calling == [] && reactionsBuffer == old(reactionsBuffer)[1..]
      ensures Dispatched(g0, View(), phase)
      ensures RanOnly(kinds, old(reactionsBuffer)[0], old(ran), ran)
    {
      ghost var g := View();
      ReactionFacts(g);
      DispatchedInputs(g0, g, phase);
      hide Ok, Dispatched, Called, RunsWhenNeeded, RanOnly;
      NobodyRanOnly(kinds, reactionsBuffer[0], ran);
      var e := BeginCall();
      if alive[e] {
        CallEffect(e);
        DispatchedCall(g0, g, View(), e, phase);
        CalledRunsOnly(g, View(), e);
      } else {
        DropsReaction(g0, g, phase);
        EndCall();
      }
    }

    /** `Globals::get_reactions`. */
    method TakeBatch(phase: Option<int>)
      requires calling == [] && reactionsBuffer == [] && AllEffects(kinds, View().pending)
      modifies `reactions, `reactionsBuffer
      ensures View()
        == old(View()).(pending := Batch(kinds, old(View()).pending, phase) + Rest(kinds, old(View()).pending, phase))
      ensures reactions == Rest(kinds, old(View()).pending, phase) && AllInPhase(kinds, reactionsBuffer, phase)
      ensures reactionsBuffer == Batch(kinds, old(View()).pending, phase)
    {
      hide Batch, Rest, AllInPhase;
      assert View().pending == reactions;
      BatchInPhase(kinds, reactions, phase);
      reactionsBuffer, reactions := Batch(kinds, reactions, phase), Rest(kinds, reactions, phase);
      assert calling + reactionsBuffer + reactions == reactionsBuffer + reactions;
    }

    /**
     * `dispatch_reactions` for one phase, or `dispatch_all_reactions`. Relative to `ready`, the state once everything
     * queued was announced: afterwards every live effect of the phase is clean, it was run exactly if it had
     * to be, and if not, all its sources are unchanged; each function ran at most once, and only functions
     * that evaluation from scratch of these effects needs, of nodes that were not clean or that an announcement
     * was going to come down to. Effects ran by ascending phase and in the order they were scheduled, and those of
     * other phases are left in their order.
     */
    method DispatchReactions(phase: Option<int>) returns (handled: bool, ghost ready: G)
      requires Ok(View()) && calling == [] && reactionsBuffer == []
      modifies `dirty, `cache, `sources, `sinks, `scheduled, `discards, `seen, `ran, `reactions, `reactionsBuffer
      modifies `notifys, `unbinds, `calling
      ensures Ok(View()) && calling == [] && reactionsBuffer == [] && notifys == []
      ensures Ready(old(View()), ready)
      ensures RanAsNeeded(ready, View(), phase)
      ensures OnlySuspectsRan(old(View()), ran)
      ensures old(ran) <= ran
      ensures forall i, j :: |old(ran)| <= i < j < |ran| ==> ran[i] != ran[j]
      ensures forall i :: |old(ran)| <= i < |ran| ==> NeededInPhase(ready, phase, ran[i])
      ensures EffectsInTurn(kinds, ready.pending, ran, |old(ran)|) && Left(kinds, ready.pending, View().pending, phase)
      ensures handled <==> exists e :: e in ready.pending && InPhase(kinds, e, phase)
    {
      ghost var g0 := View();
      ApplyNotify();
      ready := View();
      handled := DispatchPending(phase);
      SuspectsRan(g0, ready, ran);
    }

    method DispatchPending(phase: Option<int>) returns (handled: bool)
      requires Ok(View()) && calling == [] && reactionsBuffer == [] && notifys == []
      modifies `dirty, `cache, `sources, `sinks, `scheduled, `discards, `seen, `ran, `reactions, `reactionsBuffer
      modifies `calling
      ensures Ok(View()) && calling == [] && reactionsBuffer == []
      ensures Base(old(View())) && RanAsNeeded(old(View()), View(), phase) && RanUnclean(old(View()), ran)
      ensures old(ran) <= ran
      ensures forall i, j :: |old(ran)| <= i < j < |ran| ==> ran[i] != ran[j]
      ensures RanForPhase(old(View()), View(), phase)
      ensures EffectsInTurn(kinds, old(View()).pending, ran, |old(ran)|)
      ensures Left(kinds, old(View()).pending, View().pending, phase)
      ensures handled <==> exists e :: e in old(View()).pending && InPhase(kinds, e, phase)
    {
      hide Ok, Dispatched, Batch, Rest, RunsWhenNeeded, InBatch, RanForPhase, RanAsNeeded;
      hide EffectsInTurn, RanInOrder, Left, InPhase;
      ghost var g0 := View();
      TakesBatch(g0, phase);
      DispatchedRefl(g0, Batch(kinds, g0.pending, phase) + Rest(kinds, g0.pending, phase), phase);
      TakeBatch(phase);
      BatchIsEmpty(kinds, g0.pending, phase);
      handled := reactionsBuffer != [];
      RunBatch(g0, phase);
      BatchRanInTurn(kinds, g0.pending, phase, ran, |g0.ran|);
      RestIsLeft(kinds, g0.pending, phase);
      assert View().pending == reactions;
      DispatchEnds(g0, View(), phase);
      DispatchedInputs(g0, View(), phase);
      DispatchIsExact(g0, View(), phase);
    }

    /** Run the whole batch. */
    method RunBatch(ghost g0: G, ghost phase: Option<int>)
      requires Ok(View()) && notifys == [] && calling == [] && Dispatched(g0, View(), phase)
      requires AllInPhase(kinds, reactionsBuffer, phase)
      modifies `dirty, `cache, `sources, `sinks, `scheduled, `discards, `seen, `ran, `calling, `reactionsBuffer
      ensures Ok(View()) && calling == [] && reactionsBuffer == [] && Dispatched(g0, View(), phase)
      ensures RanInOrder(kinds, old(reactionsBuffer), ran, |old(ran)|)
    {
      NobodyRan(kinds, ran);
      hide Ok, Dispatched, RanInOrder, RanOnly;
      ghost var batch, start, done: seq<nat> := reactionsBuffer, |ran|, [];
      while reactionsBuffer != []
        invariant Ok(View()) && calling == [] && Dispatched(g0, View(), phase)
        invariant AllInPhase(kinds, reactionsBuffer, phase)
        invariant batch == done + reactionsBuffer && start <= |ran| && RanInOrder(kinds, done, ran, start)
        decreases |reactionsBuffer|
      {
        ghost var e, before := reactionsBuffer[0], ran;
        RunReaction(g0, phase);
        RanGrew(kinds, e, before, ran);
        OneMoreRan(kinds, done, e, before, ran, start);
        done := done + [e];
      }
      assert done == batch;
    }

    // ----- discards -----

    /** Pop the last scheduled discard and reset its flag. */
    method TakeDiscard() returns (m: nat)
      requires Lengths(View()) && discards != [] && discards[|discards| - 1] < |kinds|
      modifies `discards, `scheduled
      ensures m == old(discards)[|old(discards)| - 1] && View() == PopDiscard(old(View()))
    {
      m := discards[|discards| - 1];
      discards := discards[..|discards| - 1];
      scheduled := scheduled[m := false];
    }

    /** `ScanNode::discard` for the discard scheduled last. */
    method DiscardNext()
      requires Ok(View()) && discards != []
      modifies `dirty, `cache, `sources, `sinks, `scheduled, `discards, `seen, `ran
      ensures Ok(View())
      ensures Discarded(old(View()), View(), old(discards)[|old(discards)| - 1])
      ensures Total(sources) <= Total(old(sources))
      ensures Total(sources) == Total(old(sources)) ==> |discards| < |old(discards)|
    {
      ghost var g0 := View();
      DiscardBegins(g0);
      hide Ok, Inv, Drained, Total, OnlyUnbound, Discarded;
      var m := TakeDiscard();
      if sinks[m] != map[] {
        DiscardHeard(g0);
        return;
      }
      cache := cache[m := None];
      ghost var g1 := View();
      DrainFrom(m, 0, Enter(RestCtx(g0), m));
      DiscardEnds(g0, g1, View(), m);
      DiscardUnheard(g0, g1, View(), m);
      SetMark(m, Dirty);
    }

    /** One round of the loop in `dispatch_discards`. */
    method DiscardRound(ghost g0: G) returns (handled: bool)
      requires Ok(View()) && Cleared(g0, View())
      modifies `dirty, `cache, `sources, `sinks, `scheduled, `discards, `seen, `ran, `unbinds
      ensures Ok(View()) && Cleared(g0, View())
      ensures handled <==> old(discards) != [] || old(unbinds) != []
      ensures !handled ==> View() == old(View())
      ensures handled ==>
        || Total(sources) + |unbinds| < Total(old(sources)) + |old(unbinds)|
        || (Total(sources) + |unbinds| == Total(old(sources)) + |old(unbinds)| && |discards| < |old(discards)|)
    {
      hide Ok, Total, Unbound, Cleared, Discarded;
      ghost var g := View();
      if discards != [] {
        DiscardNext();
        ClearedDiscard(g0, g, View(), g.discards[|g.discards| - 1]);
        return true;
      }
      handled := ApplyUnbind();
      SameSources(g, View());
      ClearedUnbound(g0, g, View());
    }

    /**
     * `RawRuntime::dispatch_discards`: afterwards a live memo holds something exactly if it did before and was pinned
     * or listened to, over live listeners, by a root; those keep all they had, and so does everything that is no memo.
     */
    method DispatchDiscards() returns (handled: bool)
      requires Ok(View())
      modifies `dirty, `cache, `sources, `sinks, `scheduled, `discards, `seen, `ran, `unbinds
      ensures Ok(View()) && discards == [] && unbinds == []
      ensures Cleared(old(View()), View()) && HoldsIfWanted(old(View()), View())
      ensures handled <==> old(discards) != [] || old(unbinds) != []
      ensures Lengths(View())
      ensures forall n: nat ::
        n < |kinds| && kinds[n].MemoNode? && alive[n] && Holds(View(), n) ==> ReachesRoot(View(), n)
    {
      ghost var g0 := View();
      ClearedRefl(g0);
      hide Ok, Total, Holds, ReachesRoot, Cleared, HoldsIfWanted;
      handled := false;
      var more := true;
      while more
        invariant Ok(View()) && Cleared(g0, View())
        invariant if handled then old(discards) != [] || old(unbinds) != [] else View() == g0
        invariant !more ==> discards == [] && unbinds == []
        decreases Total(sources) + |unbinds|, |discards|, more
      {
        more := DiscardRound(g0);
        if more {
          handled := true;
        }
      }
      AllDiscarded(View());
      DiscardsAreExact(g0, View());
    }

    // ----- creating and dropping nodes -----

    /** A new state, memo, keep node or effect at the end of the table; an effect is scheduled at once. */
    method AddNode(kind: Kind, v: Value)
      requires Ok(View()) && Lengths(View()) && Addable(View(), kind)
      modifies `kinds, `vals, `alive, `dirty, `cache, `sources, `sinks, `scheduled, `reactions, `seen
      ensures Ok(View()) && View() == LifetimeSteps.AddNode(old(View()), kind, v)
      ensures kinds == old(kinds) + [kind] && alive == old(alive) + [true]
      ensures dirty == old(dirty) + [if kind.StateNode? then Clean else Dirty]
      ensures vals == if kind.StateNode? then old(vals)[|old(kinds)| := v] else old(vals)
    {
      AddRests(View(), kind, v);
      hide Ok, Addable, Lengths;
      AppendNode(kind, v);
    }

    /** The new row of the table. */
    method AppendNode(kind: Kind, v: Value)
      modifies `kinds, `vals, `alive, `dirty, `cache, `sources, `sinks, `scheduled, `reactions, `seen
      ensures View() == LifetimeSteps.AddNode(old(View()), kind, v)
    {
      if kind.EffectNode? {
        Schedule(|kinds|);
      }
      AppendRow(kind, v);
    }

    method AppendRow(kind: Kind, v: Value)
      modifies `kinds, `vals, `alive, `dirty, `cache, `sources, `sinks, `scheduled, `seen
      ensures View() == LifetimeSteps.AddNode(old(View()), kind, v).(pending := old(View()).pending)
    {
      vals := if kind.StateNode? then vals[|kinds| := v] else vals;
      dirty := dirty + [if kind.StateNode? then Clean else Dirty];
      kinds := kinds + [kind];
      AppendEmpty();
      AppendFresh();
    }

    method AppendEmpty()
      modifies `sources, `sinks, `seen
      ensures View()
        == old(View()).(sources := old(sources) + [[]], sinks := old(sinks) + [map[]], seen := old(seen) + [[]])
    {
      sources, sinks, seen := sources + [[]], sinks + [map[]], seen + [[]];
    }

    method AppendFresh()
      modifies `alive, `cache, `scheduled
      ensures View()
        == old(View()).(alive := old(alive) + [true], cache := old(cache) + [None],
                        scheduled := old(scheduled) + [false])
    {
      alive, cache, scheduled := alive + [true], cache + [None], scheduled + [false];
    }

    /** `EffectNode::schedule`: push a reaction. */
    method Schedule(e: nat)
      modifies `reactions
      ensures View() == old(View()).(pending := old(View()).pending + [e])
    {
      assert calling + reactionsBuffer + (reactions + [e]) == calling + reactionsBuffer + reactions + [e];
      reactions := reactions + [e];
    }

    /** The last reference to a node is gone: its dependencies wait in the deferred unbind queue. */
    method DropNode(a: nat)
      requires Ok(View()) && Lengths(View()) && Unreferenced(View(), a)
      modifies `alive, `unbinds, `sources, `seen
      ensures Ok(View()) && View() == LifetimeSteps.DropNode(old(View()), a)
      ensures alive == old(alive)[a := false] && unbinds == old(unbinds) + old(sources)[a]
      ensures sources == old(sources)[a := []]
    {
      DropRests(View(), a);
      hide Ok, Unreferenced;
      alive, unbinds, sources, seen := alive[a := false], unbinds + sources[a], sources[a := []], seen[a := []];
    }

    // ----- whole runs -----

    /** The operations on the value of a state. */
    method ChangeValue(op: Op)
      requires Ok(View()) && Valid(WorldOf(View())) && Allowed(WorldOf(View()), op)
      requires op.Set? || op.SetDedup? || op.Edit?
      modifies `vals, `dirty, `sinks, `reactions, `notifys
      ensures Ok(View()) && WorldOf(View()) == Step(old(WorldOf(View())), op)
      ensures Did(old(View()), op, View())
    {
      PerformFacts(View(), op);
      match op {
        case Set(s, v) => Set(s, v);
        case SetDedup(s, v) => SetDedup(s, v);
        case Edit(s, uses, loose) => EditGuarded(s, uses, loose);
      }
    }

    /** The operations that create and drop nodes. */
    method ChangeNodes(op: Op)
      requires Ok(View()) && Valid(WorldOf(View())) && Allowed(WorldOf(View()), op)
      requires op.Create? || op.Drop?
      modifies `kinds, `vals, `alive, `dirty, `cache, `sources, `sinks, `scheduled, `reactions, `seen, `unbinds
      ensures Ok(View()) && WorldOf(View()) == Step(old(WorldOf(View())), op)
      ensures Did(old(View()), op, View())
    {
      PerformFacts(View(), op);
      match op {
        case Create(kind, v) => AddNode(kind, v);
        case Drop(a) => DropNode(a);
      }
    }

    /** The operations that leave the world alone. */
    method Observe(op: Op) returns (answer: Option<Value>)
      requires Ok(View()) && calling == [] && reactionsBuffer == []
      requires Valid(WorldOf(View())) && Allowed(WorldOf(View()), op)
      requires op.Get? || op.React? || op.Discard?
      modifies `dirty, `cache, `sources, `sinks, `scheduled, `discards, `seen, `ran, `reactions, `reactionsBuffer
      modifies `calling, `notifys, `unbinds
      ensures Ok(View()) && calling == [] && reactionsBuffer == []
      ensures answer == Answer(old(WorldOf(View())), op)
      ensures Did(old(View()), op, View())
    {
      hide Ok, Ready, ReadAsNeeded, RanAsNeeded, OnlySuspectsRan, UpToDate, Valid;
      hide Cleared, HoldsIfWanted, EffectsInTurn, Left;
      answer := None;
      match op {
        case Get(n) =>
          var v, ready := Read(n);
          TablesFit(old(View()));
          TablesFit(View());
          assert DidRead(old(View()), ready, n, View());
          answer := Some(v);
        case React(phase) =>
          var _, ready := DispatchReactions(phase);
          TablesFit(old(View()));
          assert DidReact(old(View()), ready, phase, View());
        case Discard => var _ := DispatchDiscards();
      }
    }

    /** One operation; the world changes as it should, and a read answers with the from-scratch value. */
    method Perform(op: Op) returns (answer: Option<Value>)
      requires Ok(View()) && calling == [] && reactionsBuffer == []
      requires Valid(WorldOf(View())) && Allowed(WorldOf(View()), op)
      modifies this
      ensures Ok(View()) && calling == [] && reactionsBuffer == []
      ensures WorldOf(View()) == Step(old(WorldOf(View())), op)
      ensures answer == Answer(old(WorldOf(View())), op)
      ensures Did(old(View()), op, View())
    {
      hide Ok, Valid, Allowed, Did;
      if op.Get? || op.React? || op.Discard? {
        answer := Observe(op);
      } else {
        answer := None;
        if op.Create? || op.Drop? {
          ChangeNodes(op);
        } else {
          ChangeValue(op);
        }
      }
    }

    /**
     * Any run of operations answers exactly as if every read evaluated its node from scratch on the
     * state values of that moment; and `trace`, the states in between, shows what each operation did.
     */
    method Execute(ops: seq<Op>) returns (answers: seq<Option<Value>>, ghost trace: seq<G>)
      requires Ok(View()) && calling == [] && reactionsBuffer == []
      requires Valid(WorldOf(View())) && Feasible(WorldOf(View()), ops)
      modifies this
      ensures Ok(View()) && calling == [] && reactionsBuffer == []
      ensures WorldOf(View()) == Final(old(WorldOf(View())), ops)
      ensures answers == Answers(old(WorldOf(View())), ops)
      ensures Follows(old(View()), ops, trace) && View() == Ends(old(View()), trace)
    {
      hide Ok, Allowed, Did;
      answers, trace := [], [];
      if ops == [] {
        return;
      }
      ghost var g := View();
      StepIsValid(WorldOf(g), ops[0]);
      var answer := Perform(ops[0]);
      ghost var g1 := View();
      var rest;
      rest, trace := Execute(ops[1..]);
      FollowsFirst(g, ops[0], g1, ops[1..], trace);
      assert [ops[0]] + ops[1..] == ops;
      answers, trace := [answer] + rest, [g1] + trace;
    }
  }
}
