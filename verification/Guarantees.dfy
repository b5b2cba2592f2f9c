// What the invariant of the graph means for its users: consequences that hold in every reachable state.
module Guarantees {
  import opened DirtyLattice
  import opened Options
  import opened Computation
  import opened GraphState
  import opened EvaluationSteps
  import opened Evolution
  import opened Runs
  import opened MarkingSteps
  import opened AtRest

  // ----- bindings -----

  /** All dependencies that nodes hold. */
  function Held(sources: seq<seq<Source>>): multiset<Source> {
    if sources == [] then multiset{} else Held(sources[..|sources| - 1]) + multiset(sources[|sources| - 1])
  }

  lemma {:induction false} HeldNone(sources: seq<seq<Source>>, src: Source)
    requires forall a :: 0 <= a < |sources| ==> src !in sources[a]
    ensures Held(sources)[src] == 0
  {
    if sources != [] {
      HeldNone(sources[..|sources| - 1], src);
      assert src !in sources[|sources| - 1];
    }
  }

  lemma {:induction false} HeldAt(sources: seq<seq<Source>>, src: Source, a: nat)
    requires a < |sources|
    requires forall b :: 0 <= b < |sources| && b != a ==> src !in sources[b]
    ensures Held(sources)[src] == multiset(sources[a])[src]
  {
    var last := |sources| - 1;
    if a == last {
      HeldNone(sources[..last], src);
    } else {
      HeldAt(sources[..last], src, a);
      assert src !in sources[last];
    }
  }

  lemma {:induction false} OnceInDistinct(s: seq<Source>, src: Source)
    requires forall i, j :: 0 <= i < j < |s| ==> s[i] != s[j]
    ensures multiset(s)[src] == if src in s then 1 else 0
  {
    if s != [] {
      OnceInDistinct(s[1..], src);
      assert s == [s[0]] + s[1..];
      assert forall j :: 0 <= j < |s[1..]| ==> s[1..][j] == s[j + 1];
    }
  }

  predicate Entry(g: G, src: Source)
    requires Lengths(g)
  {
    src.node < Size(g) && src.key in g.sinks[src.node]
  }

  /**
   * Conservation of bindings: every entry in a source's table is held by exactly one source position of
   * exactly one node, or waits exactly once in the deferred unbind queue; and nothing else is held.
   */
  lemma BindingsAreConserved(g: G, src: Source)
    requires Ok(g) && Lengths(g)
    ensures (Held(g.sources) + multiset(g.unbinds))[src] == if Entry(g, src) then 1 else 0
  {
    QueuedOnce(g, src);
    hide Ok;
    if Entry(g, src) {
      EntryIsHeld(g, src);
      HeldOnce(g, src, g.sinks[src.node][src.key].sink);
    } else {
      HeldNowhere(g, src);
    }
  }

  lemma QueuedOnce(g: G, src: Source)
    requires Ok(g) && Lengths(g)
    ensures multiset(g.unbinds)[src] == if src in g.unbinds then 1 else 0
    ensures src in g.unbinds ==> Entry(g, src)
  {
    OnceInDistinct(g.unbinds, src);
  }

  lemma EntryIsHeld(g: G, src: Source)
    requires Ok(g) && Lengths(g) && Entry(g, src)
    ensures var a := g.sinks[src.node][src.key].sink; a < Size(g) && (src in g.sources[a] <==> src !in g.unbinds)
  {
    var a := g.sinks[src.node][src.key].sink;
    assert Owned(g, RestCtx(g), src.node, src.key);
    assert NodeOk(g, a);
    QueuedIsDead(g, src);
  }

  lemma HeldOnce(g: G, src: Source, a: nat)
    requires Ok(g) && Lengths(g) && a < Size(g) && Entry(g, src) && g.sinks[src.node][src.key].sink == a
    ensures Held(g.sources)[src] == if src in g.sources[a] then 1 else 0
  {
    forall b | 0 <= b < Size(g) && b != a ensures src !in g.sources[b] {
      if src in g.sources[b] {
        OnlyItsSink(g, src, b);
      }
    }
    HeldAt(g.sources, src, a);
    DistinctAt(g, a);
    OnceInDistinct(g.sources[a], src);
  }

  lemma HeldNowhere(g: G, src: Source)
    requires Ok(g) && Lengths(g) && !Entry(g, src)
    ensures Held(g.sources)[src] == 0
  {
    forall b | 0 <= b < Size(g) ensures src !in g.sources[b] {
      if src in g.sources[b] {
        OnlyItsSink(g, src, b);
      }
    }
    HeldNone(g.sources, src);
  }

  lemma DistinctAt(g: G, a: nat)
    requires Ok(g) && Lengths(g) && a < Size(g)
    ensures forall i, j :: 0 <= i < j < |g.sources[a]| ==> g.sources[a][i] != g.sources[a][j]
  {
  }

  lemma OnlyItsSink(g: G, src: Source, b: nat)
    requires Ok(g) && Lengths(g) && b < Size(g) && src in g.sources[b]
    ensures Entry(g, src) && g.sinks[src.node][src.key].sink == b
  {
    var i :| 0 <= i < |g.sources[b]| && g.sources[b][i] == src;
    assert Linked(g, g.sources[b][i], b);
  }

  /** After `apply_unbind` no entry of a dropped node is left anywhere. */
  lemma NoOrphans(g: G, s: nat, k: nat)
    requires Ok(g) && Lengths(g) && g.unbinds == [] && s < Size(g) && k in g.sinks[s]
    ensures var a := g.sinks[s][k].sink; s < a < Size(g) && g.alive[a] && Source(s, k) in g.sources[a]
  {
    assert Owned(g, RestCtx(g), s, k);
  }

  // ----- marks -----

  /** Marks spread all the way down: whatever is downstream of a node that is not clean is not clean. */
  lemma {:induction false} MarksReachDown(g: G, s: nat, a: nat)
    requires Ok(g) && Lengths(g) && s < Size(g) && a < Size(g) && g.dirty[s] != Clean && Downstream(g, s, a, false)
    ensures g.dirty[a] != Clean
    decreases a
  {
    if s != a {
      var m: nat :| s <= m < a && Feeds(g, m, a, false) && Downstream(g, s, m, false);
      MarksReachDown(g, s, m);
      var k: nat :| k in g.sinks[m] && g.sinks[m][k].sink == a;
      assert Marked(g, RestCtx(g), m, k);
    }
  }

  /** After a set, or an announced edit, everything strictly downstream of the state is marked. */
  lemma {:induction false} SetReachesDown(g: G, s: nat, a: nat)
    requires Ok(g) && ToldAll(g, s) && s < a < Size(g) && Downstream(g, s, a, false)
    ensures g.dirty[a] != Clean
    decreases a
  {
    var m: nat :| s <= m < a && Feeds(g, m, a, false) && Downstream(g, s, m, false);
    if s < m {
      SetReachesDown(g, s, m);
      var k: nat :| k in g.sinks[m] && g.sinks[m][k].sink == a;
      assert Marked(g, RestCtx(g), m, k);
    }
  }

  /** Nothing is downstream of a node without readers. */
  lemma {:induction false} NobodyBelow(g: G, s: nat, a: nat, hard: bool)
    requires Lengths(g) && s < Size(g) && g.sinks[s] == map[] && s != a
    ensures !Downstream(g, s, a, hard)
    decreases a
  {
    if Downstream(g, s, a, hard) {
      var m: nat :| s <= m < a && Feeds(g, m, a, hard) && Downstream(g, s, m, hard);
      if m != s {
        NobodyBelow(g, s, m, hard);
      }
      assert false;
    }
  }

  /** A set makes suspects only of what is downstream of its state: nobody else will run for it. */
  lemma SetElsewhere(g: G, g': G, s: nat, v: Value, a: nat)
    requires Lengths(g) && a < Size(g) && Spread(SetValue(g, s, v), g', s, DirtyLevel)
    requires !Suspect(g, a) && !Downstream(g, s, a, false)
    ensures !Suspect(g', a)
  {
    var h := SetValue(g, s, v);
    assert Thinner(g, h);
    BeforeBoth(g, h, s, a);
    assert NodeFrom(h, g', s, DirtyLevel, a);
    NotifiedIsThinner(h, g', s);
    assert Thinner(g, g');
    forall i | 0 <= i < |g'.notifys| ensures !Downstream(g', g'.notifys[i], a, false) {
      BeforeBoth(g, g', g'.notifys[i], a);
    }
  }

  /** The same for a loose edit, whose notification is only queued. */
  lemma LooseEditElsewhere(g: G, s: nat, v: Value, a: nat)
    requires Lengths(g) && a < Size(g) && !Suspect(g, a) && !Downstream(g, s, a, false)
    ensures !Suspect(PushNotify(SetValue(g, s, v), s), a)
  {
    var g' := PushNotify(SetValue(g, s, v), s);
    assert Thinner(g, g');
    forall i | 0 <= i < |g'.notifys| ensures !Downstream(g', g'.notifys[i], a, false) {
      BeforeBoth(g, g', g'.notifys[i], a);
    }
  }

  /** After a set everything strictly downstream is a suspect: together, exactly the suspects there were and those. */
  lemma SetMakesSuspects(g: G, g': G, s: nat, v: Value, a: nat)
    requires Ok(g) && Ok(g') && Lengths(g) && s < a < Size(g) && Spread(SetValue(g, s, v), g', s, DirtyLevel)
    requires ToldAll(g', s)
    ensures Suspect(g', a) <==> Suspect(g, a) || Downstream(g, s, a, false)
  {
    hide Ok;
    if !Suspect(g, a) && !Downstream(g, s, a, false) {
      SetElsewhere(g, g', s, v, a);
    } else if Downstream(g, s, a, false) {
      SameDownstream(SetValue(g, s, v), g', s, s, a);
      assert Thinner(SetValue(g, s, v), g);
      BeforeBoth(SetValue(g, s, v), g, s, a);
      SetReachesDown(g', s, a);
    } else {
      ValueIsOutside(g, s, v, a);
      StaysSuspect(SetValue(g, s, v), g', s, a);
    }
  }

  lemma ValueIsOutside(g: G, s: nat, v: Value, a: nat)
    requires Lengths(g) && Suspect(g, a)
    ensures Suspect(SetValue(g, s, v), a)
  {
    if g.dirty[a] == Clean {
      var i :| 0 <= i < |g.notifys| && Downstream(g, g.notifys[i], a, false);
      assert Thinner(SetValue(g, s, v), g);
      BeforeBoth(SetValue(g, s, v), g, g.notifys[i], a);
    }
  }

  lemma SameDownstream(g: G, g': G, lo: nat, s: nat, a: nat)
    requires Notified(g, g', lo) && a < Size(g)
    ensures Downstream(g, s, a, false) <==> Downstream(g', s, a, false)
  {
    forall m | 0 <= m < Size(g) ensures g'.sinks[m].Keys == g.sinks[m].Keys {
      assert TableRaised(g.sinks[m], g'.sinks[m]);
    }
    NotifiedIsThinner(g, g', lo);
    forall m, k | 0 <= m < Size(g) && k in g.sinks[m] ensures k in g'.sinks[m].Keys {
    }
    assert Thinner(g', g);
    BeforeBoth(g, g', s, a);
    BeforeBoth(g', g, s, a);
  }

  lemma StaysSuspect(g: G, g': G, lo: nat, a: nat)
    requires Notified(g, g', lo) && a < Size(g) && Suspect(g, a)
    ensures Suspect(g', a)
  {
    if g.dirty[a] == Clean {
      var i :| 0 <= i < |g.notifys| && Downstream(g, g.notifys[i], a, false);
      SameDownstream(g, g', lo, g.notifys[i], a);
    }
  }

  /** Once everything queued is announced, exactly the suspects are not clean. */
  lemma ReadyMarksSuspects(g: G, ready: G, a: nat)
    requires Ok(g) && Lengths(g) && Ready(g, ready) && a < Size(g) && !g.kinds[a].StateNode?
    ensures a < |ready.dirty| && (ready.dirty[a] != Clean <==> Suspect(g, a))
  {
    assert NodeAnnounced(g, ready, a);
    if g.dirty[a] == Clean && Awaits(g, a, false) {
      var i :| 0 <= i < |g.notifys| && Downstream(g, g.notifys[i], a, false);
      StaysDownstream(g, ready, g.notifys[i], a);
      assert ToldAll(ready, g.notifys[i]);
      DownstreamIsUp(g, g.notifys[i], a);
      hide Ok;
      SetReachesDown(ready, g.notifys[i], a);
    }
  }

  lemma DownstreamIsUp(g: G, s: nat, a: nat)
    requires Lengths(g) && Downstream(g, s, a, false)
    ensures s <= a
  {
  }

  /** Queued unbinds are those of dropped nodes, so they cut nothing off. */
  lemma {:induction false} StaysDownstream(g: G, ready: G, s: nat, a: nat)
    requires Ok(g) && OnlyAnnounced(g, ready) && Downstream(g, s, a, false)
    ensures Downstream(ready, s, a, false)
    decreases a
  {
    if s != a {
      var m: nat :| s <= m < a && Feeds(g, m, a, false) && Downstream(g, s, m, false);
      StaysDownstream(g, ready, s, m);
      StaysFed(g, ready, m, a);
    }
  }

  lemma StaysFed(g: G, ready: G, m: nat, a: nat)
    requires Ok(g) && OnlyAnnounced(g, ready) && Feeds(g, m, a, false)
    ensures Feeds(ready, m, a, false)
  {
    var k: nat :| k in g.sinks[m] && g.sinks[m][k].sink == a;
    assert BindingAnnounced(g, ready, m, k);
    QueuedIsDead(g, Source(m, k));
  }

  lemma QueuedIsDead(g: G, src: Source)
    requires Ok(g) && Lengths(g)
    ensures src in g.unbinds ==>
      Entry(g, src) && var a := g.sinks[src.node][src.key].sink; a < Size(g) && !g.alive[a]
  {
    if src in g.unbinds {
      var i :| 0 <= i < |g.unbinds| && g.unbinds[i] == src;
      assert Orphan(g, g.unbinds[i]);
    }
  }

  /** A node that is not clean has no clean binding; a clean node, and every state, has no MaybeDirty one. */
  lemma MarksAgree(g: G, s: nat, k: nat)
    requires Ok(g) && Lengths(g) && s < Size(g) && k in g.sinks[s]
    ensures g.dirty[s] != Clean ==> g.sinks[s][k].dirty != Clean
    ensures g.dirty[s] == Clean || g.kinds[s].StateNode? ==> g.sinks[s][k].dirty != MaybeDirty
    ensures var a := g.sinks[s][k].sink; a < Size(g) && g.alive[a] && g.sinks[s][k].dirty != Clean ==>
      g.dirty[a] != Clean
  {
    assert Marked(g, RestCtx(g), s, k);
    assert NodeOk(g, s);
  }

  // ----- values -----

  /** Once loose edits are announced, a clean memo already holds the from-scratch value. */
  lemma CleanMemoIsCurrent(g: G, n: nat)
    requires Ok(g) && g.notifys == [] && Lengths(g) && Live(g, n) && g.kinds[n].MemoNode? && g.dirty[n] == Clean
    ensures g.cache[n] == Some(Eval(g.kinds, g.vals, n))
  {
    QuietIsIdle(g);
    CleanIsFresh(g, IDLE, n);
  }

  /** The computation that node `e` went through when it last ran. */
  ghost function LastRun(g: G, e: nat): Option<Comp>
    requires Lengths(g) && e < Size(g) && !g.kinds[e].StateNode?
  {
    Advance(g.kinds, CompOf(g.kinds[e]), g.sources[e], g.seen[e], |g.sources[e]|)
  }

  /**
   * A clean effect last ran on what is now the latest state: it saw the current values and computed the current result.
   */
  lemma CleanEffectSawLatest(g: G, e: nat)
    requires Ok(g) && g.notifys == [] && Lengths(g) && Live(g, e) && g.kinds[e].EffectNode? && g.dirty[e] == Clean
    ensures LastRun(g, e) == Some(Ret(Eval(g.kinds, g.vals, e)))
    ensures forall i :: 0 <= i < |g.sources[e]| ==>
      g.sources[e][i].node < Size(g) && g.seen[e][i] == Eval(g.kinds, g.vals, g.sources[e][i].node)
  {
    QuietIsIdle(g);
    forall i | 0 <= i < |g.sources[e]| ensures Settled(g, e, i) {
      CleanIsSettled(g, IDLE, e, i);
    }
    SettledIsFresh(g, IDLE, e, |g.sources[e]|);
    assert TracedAt(g, e);
    AdvanceMeaning(g.kinds, g.vals, CompOf(g.kinds[e]), e, g.sources[e], g.seen[e], |g.sources[e]|);
  }

  /** A live effect has exactly one pending reaction while it is not clean, and none when it is. */
  lemma {:induction false} OneReactionEach(g: G, e: nat)
    requires Ok(g) && Lengths(g) && Live(g, e) && g.kinds[e].EffectNode?
    ensures multiset(g.pending)[e] == if g.dirty[e] == Clean then 0 else 1
  {
    OnceInQueue(g.pending, e);
  }

  lemma {:induction false} OnceInQueue(s: seq<nat>, e: nat)
    requires forall i, j :: 0 <= i < j < |s| ==> s[i] != s[j]
    ensures multiset(s)[e] == if e in s then 1 else 0
  {
    if s != [] {
      OnceInQueue(s[1..], e);
      assert s == [s[0]] + s[1..];
      assert forall j :: 0 <= j < |s[1..]| ==> s[1..][j] == s[j + 1];
    }
  }

  /** An unpinned memo that holds a cache or dependencies while nobody listens has exactly one discard scheduled. */
  lemma OneDiscardEach(g: G, m: nat)
    requires Ok(g) && Lengths(g) && m < Size(g) && Unheard(g, m) && Holds(g, m)
    ensures multiset(g.discards)[m] == 1
  {
    OnceInQueue(g.discards, m);
  }
}
