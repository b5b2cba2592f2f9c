// The wake-up protocol between the runtime's thread and wakers on other threads (src/core.rs): a state
// machine whose steps are the sections that run under one lock, in any interleaving.
module WakeProtocol {
  import opened Options

  /** Where the runtime's thread is between two of its locked sections. */
  datatype Place = Idle | Polling | Firing

  /**
   * reactions: what each key of the wake table stands for, a registration;
   * handles: the wakers that exist, with their keys;
   * wakes, drops: the shared request lists;
   * waker: whether a waiter's waker is stored with the requests;
   * queued: actions, reactions and notifications that wait; unbinds: deferred unbinds; discards: scheduled discards.
   * The rest is for the proof: the registrations behind the requests, whether the last poll returned
   * Pending and its waker has not fired since, and who was woken on whose request.
   */
  datatype State = State(
    reactions: map<nat, nat>,
    registered: nat,
    handles: map<nat, nat>,
    wakes: seq<nat>,
    drops: seq<nat>,
    waker: bool,
    needWake: bool,
    queued: nat,
    unbinds: nat,
    discards: nat,
    place: Place,
    wakesOf: seq<nat>,
    dropsOf: seq<nat>,
    waiting: bool,
    delivered: seq<(nat, nat)>)

  const INITIAL := State(map[], 0, map[], [], [], false, false, 0, 0, 0, Idle, [], [], false, [])

  datatype Step =
    | Register(key: nat)       // `WakeTable::insert`; the slab picks a free key
    | Wake(registration: nat)  // `RawWake::wake`, on any thread
    | Drop(registration: nat)  // `Drop for RawWake`, on any thread
    | Schedule                 // `schedule_action`, `schedule_reaction`, `push_notify`, up to the test of `need_wake`
    | Fire                     // the rest of `Globals::wake`
    | PushUnbind               // `Drop for SourceBindings`
    | ApplyWake                // `apply_wake`
    | Dispatch                 // whatever waits is taken
    | Unbind                   // `apply_unbind`
    | ScheduleDiscard          // `schedule_discard`
    | Discard                  // `dispatch_discards`, which also applies deferred unbinds
    | PollLocal                // `wait_for_ready`, up to taking the lock
    | PollLocked               // the rest of `wait_for_ready`

  predicate Enabled(s: State, step: Step) {
    match step
    case Register(k) => s.place.Idle? && k !in s.reactions
    case Wake(r) => r in s.handles
    case Drop(r) => r in s.handles
    case Fire => s.place.Firing?
    case PollLocked => s.place.Polling?
    case _ => s.place.Idle?
  }

  /** `apply_wake` on the wake requests: whoever a key stands for now is notified. */
  function Deliver(reactions: map<nat, nat>, wakes: seq<nat>, asked: seq<nat>): seq<(nat, nat)>
  {
    if wakes == [] || asked == [] then []
    else
      var key, who := wakes[|wakes| - 1], asked[|asked| - 1];
      Deliver(reactions, wakes[..|wakes| - 1], asked[..|asked| - 1])
        + if key in reactions then [(who, reactions[key])] else []
  }

  function After(s: State, step: Step): State
    requires Enabled(s, step)
  {
    match step
    case Register(k) =>
      s.(reactions := s.reactions[k := s.registered], handles := s.handles[s.registered := k],
         registered := s.registered + 1)
    case Wake(r) =>
      s.(wakes := s.wakes + [s.handles[r]], wakesOf := s.wakesOf + [r], waker := false, waiting := false)
    case Drop(r) =>
      s.(drops := s.drops + [s.handles[r]], dropsOf := s.dropsOf + [r], handles := s.handles - {r})
    case Schedule =>
      s.(queued := s.queued + 1, needWake := false, place := if s.needWake then Firing else Idle)
    case Fire => s.(waker := false, waiting := false, place := Idle)
    case PushUnbind => s.(unbinds := s.unbinds + 1)
    case ApplyWake =>
      var reactions := s.reactions - (set k | k in s.drops);
      var woken := Deliver(reactions, s.wakes, s.wakesOf);
      s.(reactions := reactions, drops := [], dropsOf := [], wakes := [], wakesOf := [],
         queued := s.queued + |woken|, delivered := s.delivered + woken)
    case Dispatch => s.(queued := 0)
    case Unbind => s.(unbinds := 0)
    case ScheduleDiscard => s.(discards := s.discards + 1)
    case Discard => s.(discards := 0, unbinds := 0)
    case PollLocal =>
      s.(needWake := false, waiting := false, place := if s.queued > 0 || s.unbinds > 0 then Idle else Polling)
    case PollLocked =>
      if s.drops != [] || s.wakes != [] then s.(place := Idle)
      else s.(waker := true, needWake := true, waiting := true, place := Idle)
  }

  // ----- no wake-up is lost -----

  predicate Alert(s: State) {
    && (s.waiting ==> s.waker && s.wakes == [] && !s.place.Polling?)
    && (s.waiting && s.place.Idle? ==> s.needWake && s.queued == 0)
    && (s.place.Polling? ==> s.queued == 0 && s.unbinds == 0)
  }

  /** `Fire` and `Wake` fire a stored waker, and nothing else takes it away. */
  lemma AlertKept(s: State, step: Step)
    requires Alert(s) && Enabled(s, step)
    ensures Alert(After(s, step))
  {
  }

  // ----- a wake reaches only the registration it was meant for -----

  predicate Matching(s: State) {
    |s.wakes| == |s.wakesOf| && |s.drops| == |s.dropsOf|
  }

  predicate HandlesKnown(s: State) {
    forall r :: r in s.handles ==>
      r < s.registered && s.handles[r] in s.reactions && s.reactions[s.handles[r]] == r && s.handles[r] !in s.drops
  }

  predicate DropsKnown(s: State)
    requires Matching(s)
  {
    forall i :: 0 <= i < |s.drops| ==>
      && s.dropsOf[i] < s.registered && s.dropsOf[i] !in s.handles
      && s.drops[i] in s.reactions && s.reactions[s.drops[i]] == s.dropsOf[i]
  }

  predicate Dropped(s: State, r: nat, k: nat)
    requires Matching(s)
  {
    exists i :: 0 <= i < |s.drops| && s.drops[i] == k && s.dropsOf[i] == r
  }

  predicate WakeKnown(s: State, i: nat)
    requires Matching(s) && i < |s.wakes|
  {
    var r, k := s.wakesOf[i], s.wakes[i];
    if r in s.handles then s.handles[r] == k else Dropped(s, r, k)
  }

  predicate WakesKnown(s: State)
    requires Matching(s)
  {
    forall i :: 0 <= i < |s.wakes| ==> WakeKnown(s, i)
  }

  /** No entry of the table is forgotten: its waker exists, or its removal is requested. */
  predicate NoneForgotten(s: State) {
    forall k :: k in s.reactions ==>
      s.reactions[k] < s.registered && ((s.reactions[k] in s.handles && s.handles[s.reactions[k]] == k) || k in s.drops)
  }

  predicate Faithful(s: State) {
    forall i :: 0 <= i < |s.delivered| ==> s.delivered[i].0 == s.delivered[i].1
  }

  predicate Inv(s: State) {
    Alert(s) && Matching(s) && HandlesKnown(s) && DropsKnown(s) && WakesKnown(s) && NoneForgotten(s) && Faithful(s)
  }

  lemma InvKept(s: State, step: Step)
    requires Inv(s) && Enabled(s, step)
    ensures Inv(After(s, step))
  {
    AlertKept(s, step);
    hide Alert, HandlesKnown, DropsKnown, WakesKnown, NoneForgotten, Faithful, Deliver, After;
    match step
    case Wake(r) => WakeKept(s, r);
    case Drop(r) => DropKept(s, r);
    case ApplyWake => ApplyWakeKept(s);
    case Register(k) => RegisterKept(s, k);
    case _ => OtherKept(s, step);
  }

  /** The steps that have nothing to do with wakers. */
  lemma OtherKept(s: State, step: Step)
    requires Inv(s) && Enabled(s, step)
    requires !step.Wake? && !step.Drop? && !step.ApplyWake? && !step.Register?
    ensures var s' := After(s, step);
      && Matching(s') && HandlesKnown(s') && DropsKnown(s') && WakesKnown(s') && NoneForgotten(s') && Faithful(s')
  {
    hide Alert, HandlesKnown, DropsKnown, WakesKnown, NoneForgotten, Faithful;
    SameTables(s, After(s, step));
  }

  lemma WakeKept(s: State, r: nat)
    requires Inv(s) && r in s.handles
    ensures var s' := After(s, Wake(r));
      && Matching(s') && HandlesKnown(s') && DropsKnown(s') && WakesKnown(s') && NoneForgotten(s') && Faithful(s')
  {
    var s' := After(s, Wake(r));
    forall i | 0 <= i < |s'.wakes| ensures WakeKnown(s', i) {
      if i < |s.wakes| {
        assert WakeKnown(s, i);
        assert Dropped(s, s.wakesOf[i], s.wakes[i]) ==> Dropped(s', s.wakesOf[i], s.wakes[i]);
      }
    }
  }

  lemma SameTables(s: State, t: State)
    requires Matching(s) && HandlesKnown(s) && DropsKnown(s) && WakesKnown(s) && NoneForgotten(s) && Faithful(s)
    requires t.reactions == s.reactions && t.handles == s.handles && t.registered == s.registered
    requires t.wakes == s.wakes && t.wakesOf == s.wakesOf && t.drops == s.drops && t.dropsOf == s.dropsOf
    requires t.delivered == s.delivered
    ensures Matching(t) && HandlesKnown(t) && DropsKnown(t) && WakesKnown(t) && NoneForgotten(t) && Faithful(t)
  {
    forall i | 0 <= i < |t.wakes| ensures WakeKnown(t, i) {
      assert WakeKnown(s, i);
      assert Dropped(s, s.wakesOf[i], s.wakes[i]) ==> Dropped(t, s.wakesOf[i], s.wakes[i]);
    }
  }

  lemma RegisterKept(s: State, k: nat)
    requires Inv(s) && Enabled(s, Register(k))
    ensures var s' := After(s, Register(k));
      && Matching(s') && HandlesKnown(s') && DropsKnown(s') && WakesKnown(s') && NoneForgotten(s') && Faithful(s')
  {
    var s' := After(s, Register(k));
    forall i | 0 <= i < |s'.wakes| ensures WakeKnown(s', i) {
      assert WakeKnown(s, i);
      if s.wakesOf[i] !in s.handles {
        var j :| 0 <= j < |s.drops| && s.drops[j] == s.wakes[i] && s.dropsOf[j] == s.wakesOf[i];
        assert s'.drops[j] == s.wakes[i] && s'.dropsOf[j] == s.wakesOf[i];
      }
    }
    assert k !in s.drops;
  }

  lemma DropKept(s: State, r: nat)
    requires Inv(s) && r in s.handles
    ensures var s' := After(s, Drop(r));
      && Matching(s') && HandlesKnown(s') && DropsKnown(s') && WakesKnown(s') && NoneForgotten(s') && Faithful(s')
  {
    var s' := After(s, Drop(r));
    forall i | 0 <= i < |s'.wakes| ensures WakeKnown(s', i) {
      assert WakeKnown(s, i);
      var q, k := s.wakesOf[i], s.wakes[i];
      if q == r {
        assert s'.drops[|s.drops|] == k && s'.dropsOf[|s.drops|] == q;
      } else if q !in s.handles {
        var j :| 0 <= j < |s.drops| && s.drops[j] == k && s.dropsOf[j] == q;
        assert s'.drops[j] == k && s'.dropsOf[j] == q;
      }
    }
    forall q | q in s'.handles ensures s'.handles[q] !in s'.drops {
      assert s.reactions[s.handles[q]] == q && s.reactions[s.handles[r]] == r;
    }
    forall k | k in s'.reactions
      ensures (s'.reactions[k] in s'.handles && s'.handles[s'.reactions[k]] == k) || k in s'.drops
    {
      if k !in s.drops && s.reactions[k] == r {
        assert s'.drops[|s.drops|] == k;
      }
    }
  }

  /** The requests of wakers that still exist, in order. */
  function StillThere(handles: map<nat, nat>, asked: seq<nat>): seq<(nat, nat)> {
    if asked == [] then []
    else
      var last := asked[|asked| - 1];
      StillThere(handles, asked[..|asked| - 1]) + if last in handles then [(last, last)] else []
  }

  /** Requests are served in the order in which they were made, and each on its own. */
  lemma {:induction false} ServedInOrder(handles: map<nat, nat>, first: seq<nat>, r: nat, rest: seq<nat>)
    ensures StillThere(handles, first + [r] + rest)
         == StillThere(handles, first) + (if r in handles then [(r, r)] else []) + StillThere(handles, rest)
  {
    var asked := first + [r] + rest;
    if rest == [] {
      assert asked == first + [r] && asked[..|asked| - 1] == first;
    } else {
      ServedInOrder(handles, first, r, rest[..|rest| - 1]);
      assert asked[..|asked| - 1] == first + [r] + rest[..|rest| - 1];
    }
  }

  /** Exactly the wakers that still exist are served, each for itself, however keys were reused. */
  lemma {:induction false} DeliverIsExact(s: State, n: nat)
    requires Matching(s) && HandlesKnown(s) && DropsKnown(s) && WakesKnown(s) && n <= |s.wakes|
    ensures Deliver(s.reactions - (set k | k in s.drops), s.wakes[..n], s.wakesOf[..n])
         == StillThere(s.handles, s.wakesOf[..n])
  {
    if n > 0 {
      DeliverIsExact(s, n - 1);
      assert s.wakes[..n][..n - 1] == s.wakes[..n - 1] && s.wakesOf[..n][..n - 1] == s.wakesOf[..n - 1];
      assert WakeKnown(s, n - 1);
    }
  }

  lemma {:induction false} StillThereIsFaithful(handles: map<nat, nat>, asked: seq<nat>)
    ensures forall i ::
      0 <= i < |StillThere(handles, asked)| ==> StillThere(handles, asked)[i].0 == StillThere(handles, asked)[i].1
  {
    if asked != [] {
      StillThereIsFaithful(handles, asked[..|asked| - 1]);
    }
  }

  lemma ApplyWakeKept(s: State)
    requires Inv(s) && Enabled(s, ApplyWake)
    ensures var s' := After(s, ApplyWake);
      && Matching(s') && HandlesKnown(s') && DropsKnown(s') && WakesKnown(s') && NoneForgotten(s') && Faithful(s')
      && s'.delivered == s.delivered + StillThere(s.handles, s.wakesOf)
  {
    DeliverIsExact(s, |s.wakes|);
    assert s.wakes[..|s.wakes|] == s.wakes && s.wakesOf[..|s.wakes|] == s.wakesOf;
    StillThereIsFaithful(s.handles, s.wakesOf);
  }

  // ----- over whole runs -----

  /** The state that a run of steps leads to, if it is possible. */
  function Reached(steps: seq<Step>): Option<State> {
    if steps == [] then Some(INITIAL)
    else
      match Reached(steps[..|steps| - 1])
      case None => None
      case Some(s) => if Enabled(s, steps[|steps| - 1]) then Some(After(s, steps[|steps| - 1])) else None
  }

  lemma ReachedNext(steps: seq<Step>, step: Step)
    ensures Reached(steps + [step]) ==
      match Reached(steps) case None => None case Some(s) => if Enabled(s, step) then Some(After(s, step)) else None
  {
    assert (steps + [step])[..|steps|] == steps;
  }

  lemma {:induction false} InvOverRuns(steps: seq<Step>, t: State)
    requires Reached(steps) == Some(t)
    ensures Inv(t)
  {
    if steps != [] {
      var s := Reached(steps[..|steps| - 1]).value;
      InvOverRuns(steps[..|steps| - 1], s);
      InvKept(s, steps[|steps| - 1]);
    }
  }

  /**
   * In every interleaving: if the waiter's last poll returned Pending, its waker has not fired since, and no
   * one is about to fire it, then no action, reaction, notification or wake request waits. And every
   * reaction that was ever woken was the one whose waker asked for it.
   */
  lemma NoLostWakeUp(steps: seq<Step>, t: State)
    requires Reached(steps) == Some(t)
    ensures t.waiting && !t.place.Firing? ==> t.queued == 0 && t.wakes == []
    ensures forall i :: 0 <= i < |t.delivered| ==> t.delivered[i].0 == t.delivered[i].1
  {
    InvOverRuns(steps, t);
  }

  // ----- what is queued -----

  /** The last dispatch of the run is the step before step `k`; if there was none, `k` is the start. */
  ghost predicate SinceDispatch(steps: seq<Step>, k: nat) {
    && k <= |steps| && (k == 0 || steps[k - 1] == Dispatch)
    && forall j :: k <= j < |steps| ==> steps[j] != Dispatch
  }

  function Schedules(steps: seq<Step>): nat {
    if steps == [] then 0
    else Schedules(steps[..|steps| - 1]) + if steps[|steps| - 1] == Schedule then 1 else 0
  }

  /** Besides a dispatch only `Schedule` and a served wake request change what is queued, by one each. */
  lemma QueuedStep(s: State, step: Step)
    requires Enabled(s, step)
    ensures var t := After(s, step);
      && s.delivered <= t.delivered
      && (step == Dispatch ==> t.queued == 0)
      && (step != Dispatch ==>
            t.queued == s.queued + (if step == Schedule then 1 else 0) + |t.delivered| - |s.delivered|)
  {
    hide Deliver;
  }

  lemma {:induction false} ReachedBefore(steps: seq<Step>, k: nat)
    requires k <= |steps| && Reached(steps).Some?
    ensures Reached(steps[..k]).Some?
  {
    if k < |steps| {
      var prefix := steps[..|steps| - 1];
      ReachedBefore(prefix, k);
      assert prefix[..k] == steps[..k];
    } else {
      assert steps[..k] == steps;
    }
  }

  /** In every run what is queued is exactly what was scheduled and who was served since the last dispatch. */
  lemma {:induction false} QueuedIsExact(steps: seq<Step>, k: nat, s: State, t: State)
    requires SinceDispatch(steps, k) && Reached(steps[..k]) == Some(s) && Reached(steps) == Some(t)
    ensures s.delivered <= t.delivered
    ensures t.queued == Schedules(steps[k..]) + |t.delivered| - |s.delivered|
  {
    hide Enabled, After;
    if k == |steps| {
      assert steps[..k] == steps && steps[k..] == [];
      if k > 0 {
        LastStep(steps, t);
        QueuedStep(Reached(steps[..k - 1]).value, Dispatch);
      }
    } else {
      var prefix, last := steps[..|steps| - 1], steps[|steps| - 1];
      LastStep(steps, t);
      var u := Reached(prefix).value;
      assert prefix[..k] == steps[..k];
      QueuedIsExact(prefix, k, s, u);
      QueuedStep(u, last);
      var since := steps[k..];
      assert since[..|since| - 1] == prefix[k..] && since[|since| - 1] == last;
    }
  }

  /**
   * What is queued stays queued until the next dispatch, and meanwhile nobody waits whose waker is not being fired.
   */
  lemma {:induction false} QueuedStays(before: seq<Step>, after: seq<Step>, s: State, t: State)
    requires Reached(before) == Some(s) && s.queued > 0
    requires Reached(before + after) == Some(t) && Dispatch !in after
    ensures t.queued > 0 && !(t.waiting && !t.place.Firing?)
  {
    hide Enabled, After, Inv;
    if after == [] {
      assert before + after == before;
    } else {
      var rest, last := after[..|after| - 1], after[|after| - 1];
      var steps := before + after;
      assert steps[..|steps| - 1] == before + rest && steps[|steps| - 1] == last;
      LastStep(steps, t);
      var u := Reached(before + rest).value;
      QueuedStays(before, rest, s, u);
      QueuedStep(u, last);
    }
    NoLostWakeUp(before + after, t);
  }

  // ----- what does wait together with the waiter -----

  /** Step `i` of the run satisfies `made`, and none after it `gone`. */
  ghost predicate Remains(steps: seq<Step>, made: Step -> bool, gone: Step -> bool) {
    exists i :: RemainsAt(steps, made, gone, i)
  }

  ghost predicate RemainsAt(steps: seq<Step>, made: Step -> bool, gone: Step -> bool, i: int) {
    0 <= i < |steps| && made(steps[i]) && forall j :: i < j < |steps| ==> !gone(steps[j])
  }

  lemma RemainsNext(steps: seq<Step>, made: Step -> bool, gone: Step -> bool)
    requires steps != []
    ensures var last := steps[|steps| - 1];
      Remains(steps, made, gone) <==> made(last) || (!gone(last) && Remains(steps[..|steps| - 1], made, gone))
  {
    var n := |steps| - 1;
    if made(steps[n]) {
      assert RemainsAt(steps, made, gone, n);
    }
    if Remains(steps, made, gone) && !made(steps[n]) {
      var i :| RemainsAt(steps, made, gone, i);
      assert !gone(steps[n]) && RemainsAt(steps[..n], made, gone, i);
    }
    if !gone(steps[n]) && Remains(steps[..n], made, gone) {
      var i :| RemainsAt(steps[..n], made, gone, i);
      assert RemainsAt(steps, made, gone, i);
    }
  }

  /** A deferred unbind was pushed since the last poll and not applied. */
  ghost predicate UnbindRemains(steps: seq<Step>) {
    Remains(steps, (s: Step) => s.PushUnbind?, (s: Step) => s.Unbind? || s.Discard? || s.PollLocked?)
  }

  /** A waker was dropped since the last poll and its removal not applied. */
  ghost predicate DropRemains(steps: seq<Step>) {
    Remains(steps, (s: Step) => s.Drop?, (s: Step) => s.ApplyWake? || s.PollLocked?)
  }

  /** A discard was scheduled, before or after the last poll, and not dispatched. */
  ghost predicate DiscardRemains(steps: seq<Step>) {
    Remains(steps, (s: Step) => s.ScheduleDiscard?, (s: Step) => s.Discard?)
  }

  lemma {:induction false} UnbindsWait(steps: seq<Step>, t: State)
    requires Reached(steps) == Some(t)
    ensures t.unbinds > 0 <==> UnbindRemains(steps)
  {
    if steps != [] {
      var s := Reached(steps[..|steps| - 1]).value;
      UnbindsWait(steps[..|steps| - 1], s);
      InvOverRuns(steps[..|steps| - 1], s);
      UnbindsStep(s, steps[|steps| - 1]);
      hide After, Inv;
      RemainsNext(steps, (s: Step) => s.PushUnbind?, (s: Step) => s.Unbind? || s.Discard? || s.PollLocked?);
    }
  }

  lemma UnbindsStep(s: State, step: Step)
    requires Inv(s) && Enabled(s, step)
    ensures After(s, step).unbinds > 0
      <==> step.PushUnbind? || (!step.Unbind? && !step.Discard? && !step.PollLocked? && s.unbinds > 0)
  {
  }

  lemma DropsStep(s: State, step: Step)
    requires Inv(s) && Enabled(s, step) && After(s, step).waiting
    ensures !step.PollLocked? ==> s.waiting
    ensures After(s, step).drops != [] <==> step.Drop? || (!step.ApplyWake? && !step.PollLocked? && s.drops != [])
  {
  }

  lemma DiscardsStep(s: State, step: Step)
    requires Enabled(s, step)
    ensures After(s, step).discards > 0 <==> step.ScheduleDiscard? || (!step.Discard? && s.discards > 0)
  {
  }

  lemma {:induction false} DropsWait(steps: seq<Step>, t: State)
    requires Reached(steps) == Some(t) && t.waiting
    ensures t.drops != [] <==> DropRemains(steps)
  {
    if steps != [] {
      var s := Reached(steps[..|steps| - 1]).value;
      InvOverRuns(steps[..|steps| - 1], s);
      DropsStep(s, steps[|steps| - 1]);
      hide After, Inv;
      if s.waiting {
        DropsWait(steps[..|steps| - 1], s);
      }
      RemainsNext(steps, (s: Step) => s.Drop?, (s: Step) => s.ApplyWake? || s.PollLocked?);
    }
  }

  lemma {:induction false} DiscardsWait(steps: seq<Step>, t: State)
    requires Reached(steps) == Some(t)
    ensures t.discards > 0 <==> DiscardRemains(steps)
  {
    if steps != [] {
      var s := Reached(steps[..|steps| - 1]).value;
      DiscardsWait(steps[..|steps| - 1], s);
      DiscardsStep(s, steps[|steps| - 1]);
      hide After;
      RemainsNext(steps, (s: Step) => s.ScheduleDiscard?, (s: Step) => s.Discard?);
    }
  }

  /** Nothing at all that `flush` or `apply_wake` would work on. */
  predicate NothingWaits(t: State) {
    t.queued == 0 && t.wakes == [] && t.unbinds == 0 && t.drops == [] && t.discards == 0
  }

  /**
   * While the waiter waits there is really nothing to do exactly if no deferred unbind was pushed and no waker
   * dropped since the last poll, and no scheduled discard was left over.
   */
  lemma WaitsWithNothingToDo(steps: seq<Step>, t: State)
    requires Reached(steps) == Some(t) && t.waiting && !t.place.Firing?
    ensures NothingWaits(t) <==> !UnbindRemains(steps) && !DropRemains(steps) && !DiscardRemains(steps)
    ensures (t.unbinds > 0 <==> UnbindRemains(steps)) && (t.drops != [] <==> DropRemains(steps))
    ensures t.discards > 0 <==> DiscardRemains(steps)
  {
    NoLostWakeUp(steps, t);
    UnbindsWait(steps, t);
    DropsWait(steps, t);
    DiscardsWait(steps, t);
  }

  lemma Follows(steps: seq<Step>, s: State, step: Step, more: seq<Step>)
    requires Reached(steps) == Some(s) && Enabled(s, step) && more == steps + [step]
    ensures Reached(more) == Some(After(s, step))
  {
    ReachedNext(steps, step);
  }

  /** A possible run after which all three wait together with the waiter. */
  lemma QuietRequests()
    ensures var run := [Register(0), ScheduleDiscard, PollLocal, PollLocked, PushUnbind, Drop(0)];
      && Reached(run).Some?
      && var t := Reached(run).value; t.waiting && t.place.Idle? && t.unbinds == 1 && t.drops == [0] && t.discards == 1
  {
    var run := [Register(0), ScheduleDiscard, PollLocal, PollLocked, PushUnbind, Drop(0)];
    var s1 := After(INITIAL, Register(0));
    var s2 := After(s1, ScheduleDiscard);
    var s3 := After(s2, PollLocal);
    var s4 := After(s3, PollLocked);
    var s5 := After(s4, PushUnbind);
    var s6 := After(s5, Drop(0));
    assert Reached([]) == Some(INITIAL);
    hide Reached;
    Follows([], INITIAL, Register(0), [Register(0)]);
    Follows([Register(0)], s1, ScheduleDiscard, [Register(0), ScheduleDiscard]);
    Follows([Register(0), ScheduleDiscard], s2, PollLocal, [Register(0), ScheduleDiscard, PollLocal]);
    Follows([Register(0), ScheduleDiscard, PollLocal], s3, PollLocked,
      [Register(0), ScheduleDiscard, PollLocal, PollLocked]);
    Follows([Register(0), ScheduleDiscard, PollLocal, PollLocked], s4, PushUnbind,
      [Register(0), ScheduleDiscard, PollLocal, PollLocked, PushUnbind]);
    Follows([Register(0), ScheduleDiscard, PollLocal, PollLocked, PushUnbind], s5, Drop(0), run);
    assert s6.waiting && s6.place.Idle? && s6.unbinds == 1 && s6.drops == [0] && s6.discards == 1;
  }

  // ----- which wake requests are served -----

  /** A waker that is woken and dropped before the requests are applied wakes nobody. */
  lemma DroppedWakerIsNotServed()
    ensures var run := [Register(0), Wake(0), Drop(0), ApplyWake];
      && Reached(run).Some?
      && var t := Reached(run).value; t.delivered == [] && t.queued == 0 && t.wakes == [] && t.reactions == map[]
  {
    var s1 := After(INITIAL, Register(0));
    var s2 := After(s1, Wake(0));
    var s3 := After(s2, Drop(0));
    var s4 := After(s3, ApplyWake);
    assert Reached([]) == Some(INITIAL);
    hide Reached;
    Follows([], INITIAL, Register(0), [Register(0)]);
    Follows([Register(0)], s1, Wake(0), [Register(0), Wake(0)]);
    Follows([Register(0), Wake(0)], s2, Drop(0), [Register(0), Wake(0), Drop(0)]);
    Follows([Register(0), Wake(0), Drop(0)], s3, ApplyWake, [Register(0), Wake(0), Drop(0), ApplyWake]);
    assert s3.wakes == [0] && s3.wakesOf == [0] && s3.drops == [0] && s3.reactions == map[0 := 0];
    assert s4.reactions == map[];
    NobodyIsServed(s3.wakes, s3.wakesOf);
  }

  lemma {:induction false} NobodyIsServed(wakes: seq<nat>, asked: seq<nat>)
    ensures Deliver(map[], wakes, asked) == []
  {
    if wakes != [] && asked != [] {
      NobodyIsServed(wakes[..|wakes| - 1], asked[..|asked| - 1]);
    }
  }

  /** Between a wake request and the next application its waker exists exactly if it was not dropped. */
  lemma {:induction false} RequestStays(before: seq<Step>, r: nat, between: seq<Step>, t: State)
    requires Reached(before + [Wake(r)] + between) == Some(t) && ApplyWake !in between
    ensures r in t.wakesOf && r < t.registered && (r in t.handles <==> Drop(r) !in between)
  {
    hide Reached, Enabled, After, Inv;
    var steps := before + [Wake(r)] + between;
    var prefix := steps[..|steps| - 1];
    LastStep(steps, t);
    var s := Reached(prefix).value;
    if between == [] {
      assert prefix == before;
      InvOverRuns(prefix, s);
      RequestMade(s, r);
    } else {
      var rest, last := between[..|between| - 1], between[|between| - 1];
      assert prefix == before + [Wake(r)] + rest;
      assert between == rest + [last] && steps[|steps| - 1] == last;
      RequestStays(before, r, rest, s);
      RequestStep(s, last, r);
    }
  }

  lemma LastStep(steps: seq<Step>, t: State)
    requires Reached(steps) == Some(t) && steps != []
    ensures Reached(steps[..|steps| - 1]).Some?
    ensures Enabled(Reached(steps[..|steps| - 1]).value, steps[|steps| - 1])
    ensures t == After(Reached(steps[..|steps| - 1]).value, steps[|steps| - 1])
  {
    hide Enabled, After;
  }

  lemma RequestMade(s: State, r: nat)
    requires Inv(s) && Enabled(s, Wake(r))
    ensures var t := After(s, Wake(r)); r in t.wakesOf && r < t.registered && r in t.handles
  {
    assert (s.wakesOf + [r])[|s.wakesOf|] == r;
  }

  lemma RequestStep(s: State, step: Step, r: nat)
    requires Enabled(s, step) && step != ApplyWake && r in s.wakesOf && r < s.registered
    ensures var t := After(s, step);
      && r in t.wakesOf && r < t.registered
      && (r in t.handles <==> r in s.handles && step != Drop(r))
  {
    hide Deliver;
    match step
    case Wake(q) => assert After(s, step).wakesOf == s.wakesOf + [q];
    case _ =>
  }

  lemma {:induction false} StillThereHas(handles: map<nat, nat>, asked: seq<nat>, r: nat)
    ensures (r, r) in StillThere(handles, asked) <==> r in asked && r in handles
  {
    if asked != [] {
      StillThereHas(handles, asked[..|asked| - 1], r);
      assert asked == asked[..|asked| - 1] + [asked[|asked| - 1]];
    }
  }

  /**
   * A wake request is served by the next application of the requests exactly if the waker was not
   * dropped in between.
   */
  lemma ServedUnlessDropped(before: seq<Step>, r: nat, between: seq<Step>, s: State, t: State)
    requires Reached(before + [Wake(r)] + between) == Some(s) && ApplyWake !in between
    requires Enabled(s, ApplyWake) && t == After(s, ApplyWake)
    ensures s.delivered <= t.delivered
    ensures (r, r) in t.delivered[|s.delivered|..] <==> Drop(r) !in between
  {
    InvOverRuns(before + [Wake(r)] + between, s);
    RequestStays(before, r, between, s);
    ApplyWakeKept(s);
    StillThereHas(s.handles, s.wakesOf, r);
    assert t.delivered[|s.delivered|..] == StillThere(s.handles, s.wakesOf);
  }

  /**
   * A wake-up is not lost after it was served either: until the next dispatch the woken reaction is queued, and no
   * waiter waits unless its waker is being fired.
   */
  lemma WokenIsQueued(before: seq<Step>, r: nat, between: seq<Step>, after: seq<Step>, t: State)
    requires ApplyWake !in between && Drop(r) !in between && Dispatch !in after
    requires Reached(before + [Wake(r)] + between + [ApplyWake] + after) == Some(t)
    ensures t.queued > 0 && !(t.waiting && !t.place.Firing?)
  {
    hide Enabled, After;
    var asked := before + [Wake(r)] + between;
    var served := asked + [ApplyWake];
    ReachedBefore(served + after, |served|);
    assert (served + after)[..|served|] == served && served[..|served| - 1] == asked;
    var u := Reached(served).value;
    LastStep(served, u);
    var s := Reached(asked).value;
    ServedUnlessDropped(before, r, between, s, u);
    QueuedStep(s, ApplyWake);
    assert (r, r) in u.delivered[|s.delivered|..];
    QueuedStays(served, after, u, t);
  }

  // ----- wakers on other threads -----

  /** A request may come between the two halves of a poll; the poll then does not return Pending. */
  lemma WakeWhilePolling()
    ensures var run := [Register(0), PollLocal, Wake(0), PollLocked];
      && Reached(run).Some?
      && var t := Reached(run).value; !t.waiting && t.place.Idle? && t.wakes == [0]
  {
    var run := [Register(0), PollLocal, Wake(0), PollLocked];
    var s1 := After(INITIAL, Register(0));
    var s2 := After(s1, PollLocal);
    var s3 := After(s2, Wake(0));
    var s4 := After(s3, PollLocked);
    assert Reached([]) == Some(INITIAL);
    hide Reached;
    Follows([], INITIAL, Register(0), [Register(0)]);
    Follows([Register(0)], s1, PollLocal, [Register(0), PollLocal]);
    Follows([Register(0), PollLocal], s2, Wake(0), [Register(0), PollLocal, Wake(0)]);
    Follows([Register(0), PollLocal, Wake(0)], s3, PollLocked, run);
    assert !s4.waiting && s4.wakes == [0];
  }

  /** A request, and even the drop of a waker, may come while another one is being fired. */
  lemma WakeWhileFiring()
    ensures var run := [Register(0), PollLocal, PollLocked, Schedule, Wake(0), Drop(0), Fire];
      && Reached(run).Some?
      && var t := Reached(run).value; !t.waiting && t.queued == 1 && t.wakes == [0] && t.drops == [0]
  {
    var run := [Register(0), PollLocal, PollLocked, Schedule, Wake(0), Drop(0), Fire];
    var s1 := After(INITIAL, Register(0));
    var s2 := After(s1, PollLocal);
    var s3 := After(s2, PollLocked);
    var s4 := After(s3, Schedule);
    var s5 := After(s4, Wake(0));
    var s6 := After(s5, Drop(0));
    var s7 := After(s6, Fire);
    assert Reached([]) == Some(INITIAL);
    hide Reached;
    Follows([], INITIAL, Register(0), [Register(0)]);
    Follows([Register(0)], s1, PollLocal, [Register(0), PollLocal]);
    Follows([Register(0), PollLocal], s2, PollLocked, [Register(0), PollLocal, PollLocked]);
    Follows([Register(0), PollLocal, PollLocked], s3, Schedule, [Register(0), PollLocal, PollLocked, Schedule]);
    Follows([Register(0), PollLocal, PollLocked, Schedule], s4, Wake(0),
      [Register(0), PollLocal, PollLocked, Schedule, Wake(0)]);
    Follows([Register(0), PollLocal, PollLocked, Schedule, Wake(0)], s5, Drop(0),
      [Register(0), PollLocal, PollLocked, Schedule, Wake(0), Drop(0)]);
    Follows([Register(0), PollLocal, PollLocked, Schedule, Wake(0), Drop(0)], s6, Fire, run);
    assert !s7.waiting && s7.queued == 1 && s7.wakes == [0] && s7.drops == [0];
  }

  // ----- when somebody waits -----

  /** Step `i` is a poll that found no request and returned Pending. */
  ghost predicate Pended(steps: seq<Step>, i: int) {
    && 0 <= i < |steps| && steps[i] == PollLocked && Reached(steps[..i]).Some?
    && var s := Reached(steps[..i]).value; s.drops == [] && s.wakes == []
  }

  /** The poll at step `i` returned Pending, and nothing that `ends` that came after it. */
  ghost predicate PendedAt(steps: seq<Step>, ends: Step -> bool, i: int) {
    Pended(steps, i) && forall j :: i < j < |steps| ==> !ends(steps[j])
  }

  ghost predicate PendedSince(steps: seq<Step>, ends: Step -> bool) {
    exists i :: PendedAt(steps, ends, i)
  }

  lemma PendedNext(steps: seq<Step>, ends: Step -> bool)
    requires steps != []
    ensures var n := |steps| - 1;
      PendedSince(steps, ends) <==> Pended(steps, n) || (!ends(steps[n]) && PendedSince(steps[..n], ends))
  {
    hide Reached;
    var n := |steps| - 1;
    if Pended(steps, n) {
      assert PendedAt(steps, ends, n);
    }
    if PendedSince(steps, ends) && !Pended(steps, n) {
      var i :| PendedAt(steps, ends, i);
      assert steps[..n][..i] == steps[..i];
      assert !ends(steps[n]) && PendedAt(steps[..n], ends, i);
    }
    if !ends(steps[n]) && PendedSince(steps[..n], ends) {
      var i :| PendedAt(steps[..n], ends, i);
      assert steps[..n][..i] == steps[..i];
      assert PendedAt(steps, ends, i);
    }
  }

  /** A new poll begins, or a stored waker is fired. */
  predicate EndsWaiting(step: Step) { step.PollLocal? || step.Fire? || step.Wake? }

  /** A new poll begins, or something is scheduled. */
  predicate EndsNeed(step: Step) { step.PollLocal? || step.Schedule? }

  predicate TakesWaker(step: Step) { step.Fire? || step.Wake? }

  lemma WaitingStep(s: State, step: Step)
    requires Enabled(s, step)
    ensures var t, pends := After(s, step), step == PollLocked && s.drops == [] && s.wakes == [];
      && (t.waiting <==> pends || (!EndsWaiting(step) && s.waiting))
      && (t.needWake <==> pends || (!EndsNeed(step) && s.needWake))
      && (t.waker <==> pends || (!TakesWaker(step) && s.waker))
  {
  }

  /**
   * Over all runs: somebody waits exactly if a poll returned Pending and since then no poll began and no waker was
   * fired; the next schedule fires exactly if since then no poll began and nothing was scheduled; and a waker is
   * stored exactly if since then none was fired.
   */
  lemma {:induction false} WaitingIs(steps: seq<Step>, t: State)
    requires Reached(steps) == Some(t)
    ensures t.waiting <==> PendedSince(steps, EndsWaiting)
    ensures t.needWake <==> PendedSince(steps, EndsNeed)
    ensures t.waker <==> PendedSince(steps, TakesWaker)
  {
    if steps != [] {
      var prefix := steps[..|steps| - 1];
      LastStep(steps, t);
      var s := Reached(prefix).value;
      WaitingIs(prefix, s);
      WaitingStep(s, steps[|steps| - 1]);
      hide Reached, After, Enabled, PendedSince;
      PendedNext(steps, EndsWaiting);
      PendedNext(steps, EndsNeed);
      PendedNext(steps, TakesWaker);
    }
  }
}
