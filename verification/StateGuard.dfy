// The mutable guard of a state: it remembers whether it was used, and for a deduplicating guard the
// value it found, so that dropping it announces a change only when there is one.
module StateGuard {
  import opened Options
  import opened Computation

  datatype Mark = Unused | DedupUnused | DedupUsed(found: Value) | Touched

  /** What the holder of a guard does: write through it, or turn it into a deduplicating one. */
  datatype Use = Write(value: Value) | Dedup

  /** `StateRefMutDirty::set_dedup` and `set_used`. */
  function Advanced(m: Mark, use: Use, value: Value): Mark {
    match use
    case Dedup => if m.Unused? then DedupUnused else m
    case Write(_) =>
      match m
      case Unused => Touched
      case DedupUnused => DedupUsed(value)
      case _ => m
  }

  /** `StateRefMutDirty::check_dirty`. */
  predicate Changed(m: Mark, value: Value) {
    m.Touched? || (m.DedupUsed? && m.found != value)
  }

  predicate HasWrite(uses: seq<Use>) {
    exists i :: 0 <= i < |uses| && uses[i].Write?
  }

  /** Use `i` is a write, and nothing is written after it. */
  predicate LastWrite(uses: seq<Use>, i: int) {
    0 <= i < |uses| && uses[i].Write? && forall j :: i < j < |uses| ==> !uses[j].Write?
  }

  /** The value when the guard is dropped: the one that was written last, or the one that was found. */
  function Written(uses: seq<Use>, found: Value): (value: Value)
    ensures forall i :: LastWrite(uses, i) ==> value == uses[i].value
    ensures !HasWrite(uses) ==> value == found
  {
    if uses == [] then found
    else
      var last := uses[|uses| - 1];
      var before := Written(uses[..|uses| - 1], found);
      FewerUses(uses);
      if last.Write? then last.value else before
  }

  lemma FewerUses(uses: seq<Use>)
    requires uses != []
    ensures HasWrite(uses[..|uses| - 1]) ==> HasWrite(uses)
    ensures forall i :: LastWrite(uses, i) && !uses[|uses| - 1].Write? ==> LastWrite(uses[..|uses| - 1], i)
  {
    forall i | LastWrite(uses, i) && !uses[|uses| - 1].Write? ensures LastWrite(uses[..|uses| - 1], i) {
      assert i < |uses| - 1;
    }
    if HasWrite(uses[..|uses| - 1]) {
      var i :| 0 <= i < |uses| - 1 && uses[..|uses| - 1][i].Write?;
      assert uses[i].Write?;
    }
  }

  /** Whoever writes anything through a guard writes something last. */
  lemma {:induction false} SomeLastWrite(uses: seq<Use>) returns (i: nat)
    requires HasWrite(uses)
    ensures LastWrite(uses, i)
  {
    i := |uses| - 1;
    if !uses[i].Write? {
      var k :| 0 <= k < |uses| && uses[k].Write?;
      assert uses[..|uses| - 1][k].Write?;
      i := SomeLastWrite(uses[..|uses| - 1]);
      assert uses[i] == uses[..|uses| - 1][i];
    }
  }

  /** The guard was deduplicating before anything was written through it. */
  predicate DedupFirst(uses: seq<Use>) {
    exists i :: 0 <= i < |uses| && uses[i].Dedup? && forall j :: 0 <= j < i ==> uses[j].Dedup?
  }

  /** A drop announces a change iff something was written and, for a deduplicating guard, the value is another one. */
  predicate Announces(uses: seq<Use>, value: Value) {
    HasWrite(uses) && (DedupFirst(uses) ==> Written(uses, value) != value)
  }

  /** The first use decides: after a write any drop announces, a deduplicating guard announces only another value. */
  lemma FirstDecides(uses: seq<Use>, value: Value)
    ensures uses == [] ==> !Announces(uses, value)
    ensures uses != [] && uses[0].Write? ==> Announces(uses, value)
    ensures uses != [] && uses[0].Dedup? ==> (Announces(uses, value) <==> Written(uses, value) != value)
  {
    hide Written;
    if uses != [] && uses[0].Dedup? {
      assert DedupFirst(uses);
      WrittenIsLast(uses, value);
    }
  }

  /** The mark that belongs to the uses so far. */
  function MarkOf(uses: seq<Use>, value: Value): Mark {
    if DedupFirst(uses) then (if HasWrite(uses) then DedupUsed(value) else DedupUnused)
    else if HasWrite(uses) then Touched
    else Unused
  }

  lemma MarkAdvances(uses: seq<Use>, use: Use, value: Value)
    ensures Advanced(MarkOf(uses, value), use, Written(uses, value)) == MarkOf(uses + [use], value)
    ensures Written(uses + [use], value) == if use.Write? then use.value else Written(uses, value)
  {
    var more := uses + [use];
    assert more[..|uses|] == uses;
    assert more[|uses|] == use;
    if DedupFirst(uses) {
      var i :| 0 <= i < |uses| && uses[i].Dedup? && forall j :: 0 <= j < i ==> uses[j].Dedup?;
      assert more[i].Dedup? && forall j :: 0 <= j < i ==> more[j].Dedup?;
    }
    if HasWrite(uses) {
      var i :| 0 <= i < |uses| && uses[i].Write?;
      assert more[i].Write?;
    } else {
      assert forall j :: 0 <= j < |uses| ==> uses[j].Dedup?;
      if uses != [] {
        assert uses[0].Dedup?;
      }
    }
    assert DedupFirst(more) ==> more[0].Dedup?;
    assert !HasWrite(uses) && HasWrite(more) ==> use.Write?;
  }

  lemma WrittenIsLast(uses: seq<Use>, found: Value)
    ensures forall i :: LastWrite(uses, i) ==> Written(uses, found) == uses[i].value
    ensures !HasWrite(uses) ==> Written(uses, found) == found
  {
  }

  lemma MarkOfNone(found: Value)
    ensures MarkOf([], found) == Unused && Written([], found) == found
  {
  }

  /** Checking the mark at the end is exactly the announcement rule; unannounced means unchanged. */
  lemma MarkDecides(uses: seq<Use>, value: Value)
    ensures Changed(MarkOf(uses, value), Written(uses, value)) <==> Announces(uses, value)
    ensures !Announces(uses, value) ==> Written(uses, value) == value
  {
  }
}
