// What the marks on the bindings of a slab map say about its history.
module SlabMarks {
  import opened Options
  import opened DirtyLattice
  import opened GraphState
  import opened SlabHistory
  import opened SlabSinks

  /** What a dependant listens to: one key, or the whole map. */
  datatype Slot = OfKey(key: nat) | OfAll

  /** A change in `slot` was recorded at or after position `at`. */
  predicate ChangedSince(log: seq<KeyChange>, at: nat, slot: Slot) {
    exists p :: at <= p < |log| && (slot.OfKey? ==> log[p].key == slot.key)
  }

  predicate Touches(keys: seq<nat>, slot: Slot) {
    match slot
    case OfKey(k) => k in keys
    case OfAll => keys != []
  }

  lemma ChangedMore(log: seq<KeyChange>, more: seq<KeyChange>, at: nat, slot: Slot)
    requires at <= |log|
    ensures ChangedSince(log + more, at, slot) <==> ChangedSince(log, at, slot) || Touches(KeysOf(more), slot)
  {
    if ChangedSince(log, at, slot) {
      var p :| at <= p < |log| && (slot.OfKey? ==> log[p].key == slot.key);
      assert (log + more)[p] == log[p];
    }
    if Touches(KeysOf(more), slot) {
      var i :| 0 <= i < |more| && (slot.OfKey? ==> KeysOf(more)[i] == slot.key);
      assert (log + more)[|log| + i] == more[i];
    }
    if ChangedSince(log + more, at, slot) {
      var p :| at <= p < |log + more| && (slot.OfKey? ==> (log + more)[p].key == slot.key);
      if p < |log| {
        assert log[p] == (log + more)[p];
      } else {
        assert KeysOf(more)[p - |log|] == (log + more)[p].key;
      }
    }
  }

  lemma NotYetChanged(log: seq<KeyChange>, slot: Slot)
    ensures !ChangedSince(log, |log|, slot)
  {
  }

  /** The mark of a binding says exactly whether there was a change, as far as that has been decided. */
  predicate MarkExact(d: Dirty, mark: Dirty, changed: bool) {
    (d == Dirty <==> changed) && (d == Clean <==> !changed && mark == Clean)
  }

  /** The bindings of one slot; `at` says where the history ended when each of them was made. */
  predicate TableExact(m: map<nat, Binding>, at: map<nat, nat>, mark: Dirty, log: seq<KeyChange>, slot: Slot) {
    && m.Keys == at.Keys
    && forall b :: b in m ==> at[b] <= |log| && MarkExact(m[b].dirty, mark, ChangedSince(log, at[b], slot))
  }

  /** The bindings of every key. */
  predicate TablesExact(items: seq<map<nat, Binding>>, at: seq<map<nat, nat>>, mark: Dirty, log: seq<KeyChange>) {
    && |items| == |at|
    && forall k :: 0 <= k < |items| ==> TableExact(items[k], at[k], mark, log, OfKey(k))
  }

  /** Sources may have changed, so every open question is open again. */
  lemma RaiseKeepsTable(m: map<nat, Binding>, at: map<nat, nat>, mark: Dirty, log: seq<KeyChange>, slot: Slot)
    requires TableExact(m, at, Clean, log, slot) && mark != Clean
    ensures TableExact(RaiseAll(m, MaybeLevel), at, mark, log, slot)
  {
    hide ChangedSince;
  }

  lemma StillOpen(m: map<nat, Binding>, at: map<nat, nat>, mark: Dirty, mark': Dirty, log: seq<KeyChange>, slot: Slot)
    requires TableExact(m, at, mark, log, slot) && (mark == Clean <==> mark' == Clean)
    ensures TableExact(m, at, mark', log, slot)
  {
    hide ChangedSince;
  }

  /** The changes `more` were recorded, and the dependants that they do not touch have nothing to fear. */
  lemma SettleTable(m: map<nat, Binding>, m': map<nat, Binding>, at: map<nat, nat>, mark: Dirty, log: seq<KeyChange>,
                    more: seq<KeyChange>, slot: Slot)
    requires TableExact(m, at, mark, log, slot) && mark != Clean && m'.Keys == m.Keys
    requires forall b :: b in m ==> m'[b] == m[b].(dirty := Decided(m[b].dirty, Touches(KeysOf(more), slot)))
    ensures TableExact(m', at, Clean, log + more, slot)
  {
    hide ChangedSince, Touches;
    forall b | b in m'
      ensures at[b] <= |log + more| && MarkExact(m'[b].dirty, Clean, ChangedSince(log + more, at[b], slot))
    {
      ChangedMore(log, more, at[b], slot);
    }
  }

  /** The changes `more` were recorded and those whom they touch were told at once. */
  lemma TellTable(m: map<nat, Binding>, at: map<nat, nat>, log: seq<KeyChange>, more: seq<KeyChange>, slot: Slot)
    requires TableExact(m, at, Clean, log, slot)
    ensures TableExact(if Touches(KeysOf(more), slot) then RaiseAll(m, DirtyLevel) else m, at, Clean, log + more, slot)
  {
    hide ChangedSince, Touches;
    forall b | b in m
      ensures at[b] <= |log + more|
      ensures ChangedSince(log + more, at[b], slot) <==>
              ChangedSince(log, at[b], slot) || Touches(KeysOf(more), slot)
    {
      ChangedMore(log, more, at[b], slot);
    }
  }

  /** A new binding at the end of the history. */
  lemma BindTable(m: map<nat, Binding>, at: map<nat, nat>, log: seq<KeyChange>, slot: Slot, b: nat, sink: nat)
    requires TableExact(m, at, Clean, log, slot)
    ensures TableExact(m + map[b := Binding(sink, Clean)], at + map[b := |log|], Clean, log, slot)
  {
    NotYetChanged(log, slot);
    hide ChangedSince;
  }

  lemma UnbindTable(m: map<nat, Binding>, at: map<nat, nat>, mark: Dirty, log: seq<KeyChange>, slot: Slot, b: nat)
    requires TableExact(m, at, mark, log, slot)
    ensures TableExact(m - {b}, at - {b}, mark, log, slot)
  {
    hide ChangedSince;
  }

  lemma EmptyTable(mark: Dirty, log: seq<KeyChange>, slot: Slot)
    ensures TableExact(map[], map[], mark, log, slot)
  {
  }

  // ----- where everybody was bound -----

  /** Tables up to key `k`. */
  function Extended(at: seq<map<nat, nat>>, k: nat): (r: seq<map<nat, nat>>)
    ensures |r| == if |at| <= k then k + 1 else |at|
    ensures forall j :: 0 <= j < |r| ==> r[j] == if j < |at| then at[j] else map[]
  {
    seq(if |at| <= k then k + 1 else |at|, j requires 0 <= j => if j < |at| then at[j] else map[])
  }

  /** A binding `b` of key `k` made at position `p`. */
  function WithBinding(at: seq<map<nat, nat>>, k: nat, b: nat, p: nat): seq<map<nat, nat>> {
    var r := Extended(at, k);
    r[k := r[k] + map[b := p]]
  }

  function WithoutBinding(at: seq<map<nat, nat>>, k: nat, b: nat): seq<map<nat, nat>> {
    if k < |at| then at[k := at[k] - {b}] else at
  }

  lemma BindTables(items: seq<map<nat, Binding>>, items': seq<map<nat, Binding>>, at: seq<map<nat, nat>>,
                   log: seq<KeyChange>, k: nat, b: nat, sink: nat)
    requires TablesExact(items, at, Clean, log)
    requires |items'| == (if |items| <= k then k + 1 else |items|)
    requires forall j :: 0 <= j < |items'| ==>
      items'[j] == (if j < |items| then items[j] else map[])
                     + if j == k then map[b := Binding(sink, Clean)] else map[]
    ensures TablesExact(items', WithBinding(at, k, b, |log|), Clean, log)
  {
    hide TableExact;
    forall j | 0 <= j < |items'|
      ensures TableExact(items'[j], WithBinding(at, k, b, |log|)[j], Clean, log, OfKey(j))
    {
      EmptyTable(Clean, log, OfKey(j));
      var m: map<nat, Binding> := if j < |items| then items[j] else map[];
      var a: map<nat, nat> := if j < |at| then at[j] else map[];
      BindTable(m, a, log, OfKey(j), b, sink);
      assert m + map[] == m;
    }
  }

  /** Where the binding `b` in `slot` was made, if there is one. */
  function BoundAt(itemAt: seq<map<nat, nat>>, anyAt: map<nat, nat>, slot: Slot, b: nat): Option<nat> {
    match slot
    case OfKey(k) => if k < |itemAt| && b in itemAt[k] then Some(itemAt[k][b]) else None
    case OfAll => if b in anyAt then Some(anyAt[b]) else None
  }

  /** Everybody is bound where they were, but `b` in `slot` at `p`, or no longer. */
  ghost predicate Rebound(itemAt: seq<map<nat, nat>>, anyAt: map<nat, nat>, slot: Slot, b: nat, p: Option<nat>,
                          itemAt': seq<map<nat, nat>>, anyAt': map<nat, nat>)
  {
    forall s: Slot, c: nat ::
      BoundAt(itemAt', anyAt', s, c) == (if s == slot && c == b then p else BoundAt(itemAt, anyAt, s, c))
  }
}
