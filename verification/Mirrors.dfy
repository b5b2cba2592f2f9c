// What the readers of a change feed have read last, compared with what there was at their positions.
module Mirrors {
  import opened Options
  import opened FeedState

  /** A reader that has not read has `nothing`; any other has what there was at its position. */
  ghost predicate MirrorOk<C>(nothing: C, mirror: C, at: Option<nat>, end: nat, contents: seq<C>) {
    match at
    case None => mirror == nothing
    case Some(p) => p <= end && p < |contents| && mirror == contents[p]
  }

  ghost predicate MirrorsOk<C>(nothing: C, mirror: seq<C>, readers: seq<Reader>, at: seq<Option<nat>>, end: nat,
                               contents: seq<C>) {
    && |mirror| == |readers| == |at|
    && forall r :: 0 <= r < |mirror| && !readers[r].Dropped? ==> MirrorOk(nothing, mirror[r], at[r], end, contents)
  }

  lemma MirrorsGrow<C>(nothing: C, mirror: seq<C>, readers: seq<Reader>, at: seq<Option<nat>>, end: nat,
                       contents: seq<C>, next: C)
    requires MirrorsOk(nothing, mirror, readers, at, end, contents)
    ensures MirrorsOk(nothing, mirror, readers, at, end, contents + [next])
    ensures MirrorsOk(nothing, mirror, readers, at, end + 1, contents + [next])
    ensures MirrorsOk(nothing, mirror, readers, at, end + 1, contents)
  {
    forall r | 0 <= r < |mirror| && !readers[r].Dropped?
      ensures MirrorOk(nothing, mirror[r], at[r], end, contents + [next])
      ensures MirrorOk(nothing, mirror[r], at[r], end + 1, contents + [next])
      ensures MirrorOk(nothing, mirror[r], at[r], end + 1, contents)
    {
      assert MirrorOk(nothing, mirror[r], at[r], end, contents);
    }
  }

  // ----- what the holders of readers and borrows see -----

  /**
   * The current value; for every reader handle what it read last, or None once it is dropped; for every
   * borrow what its changes build on, or None once it is closed.
   */
  datatype Seen<C> = Seen(now: C, readers: seq<Option<C>>, borrows: seq<Option<C>>)

  function WithReader<C>(w: Seen<C>, value: C): Seen<C> { w.(readers := w.readers + [Some(value)]) }

  function WithBorrow<C>(w: Seen<C>, base: C): Seen<C> { w.(borrows := w.borrows + [Some(base)]) }

  function Holds<C>(xs: seq<Option<C>>, i: nat): bool { i < |xs| && xs[i].Some? }

  function WithoutReader<C>(w: Seen<C>, r: nat): Seen<C>
    requires r < |w.readers|
  {
    w.(readers := w.readers[r := None])
  }

  function WithoutBorrow<C>(w: Seen<C>, g: nat): Seen<C>
    requires g < |w.borrows|
  {
    w.(borrows := w.borrows[g := None])
  }

  /**
   * `read` as everybody sees it: a borrow that builds on what `r` read last, and `r` has now read the current value.
   */
  function AfterRead<C>(w: Seen<C>, r: nat): (w': Seen<C>)
    requires Holds(w.readers, r)
    ensures w'.now == w.now && |w'.readers| == |w.readers| && |w'.borrows| == |w.borrows| + 1
    ensures forall q :: 0 <= q < |w.readers| ==> w'.readers[q] == if q == r then Some(w.now) else w.readers[q]
    ensures forall g ::
      0 <= g <= |w.borrows| ==> w'.borrows[g] == if g < |w.borrows| then w.borrows[g] else w.readers[r]
  {
    WithBorrow(w, w.readers[r].value).(readers := w.readers[r := Some(w.now)])
  }

  function LastRead<C>(mirror: seq<C>, readers: seq<Reader>, r: nat): Option<C>
    requires r < |readers|
  {
    if readers[r].Dropped? || r >= |mirror| then None else Some(mirror[r])
  }

  function BaseOf<C>(nothing: C, at: Option<nat>, contents: seq<C>): C {
    match at
    case None => nothing
    case Some(p) => if p < |contents| then contents[p] else nothing
  }

  function BorrowBase<C>(nothing: C, guards: seq<Guard>, at: seq<Option<nat>>, contents: seq<C>, g: nat): Option<C>
    requires g < |guards|
  {
    if guards[g].Closed? || g >= |at| then None else Some(BaseOf(nothing, at[g], contents))
  }

  function SeenBy<C>(nothing: C, now: C, mirror: seq<C>, readers: seq<Reader>, guards: seq<Guard>,
                     at: seq<Option<nat>>, contents: seq<C>): (w: Seen<C>)
    ensures w.now == now && |w.readers| == |readers| && |w.borrows| == |guards|
  {
    Seen(now,
         seq(|readers|, r requires 0 <= r < |readers| => LastRead(mirror, readers, r)),
         seq(|guards|, g requires 0 <= g < |guards| => BorrowBase(nothing, guards, at, contents, g)))
  }

  /** One reader more. */
  lemma SeenMoreReaders<C>(nothing: C, now: C, mirror: seq<C>, readers: seq<Reader>, guards: seq<Guard>,
                           at: seq<Option<nat>>, contents: seq<C>, value: C, reader: Reader)
    requires |mirror| == |readers| && !reader.Dropped?
    ensures SeenBy(nothing, now, mirror + [value], readers + [reader], guards, at, contents)
         == WithReader(SeenBy(nothing, now, mirror, readers, guards, at, contents), value)
  {
  }

  /** Reader `r` is dropped, or has read `value`. */
  lemma SeenReader<C>(nothing: C, now: C, mirror: seq<C>, readers: seq<Reader>, guards: seq<Guard>,
                      at: seq<Option<nat>>, contents: seq<C>, r: nat, value: C, reader: Reader)
    requires |mirror| == |readers| && r < |readers|
    ensures SeenBy(nothing, now, mirror[r := value], readers[r := reader], guards, at, contents).readers
         == SeenBy(nothing, now, mirror, readers, guards, at, contents).readers
              [r := if reader.Dropped? then None else Some(value)]
  {
  }

  /** One borrow more. */
  lemma SeenMoreBorrows<C>(nothing: C, now: C, mirror: seq<C>, readers: seq<Reader>, guards: seq<Guard>,
                           at: seq<Option<nat>>, contents: seq<C>, guards': seq<Guard>, at': seq<Option<nat>>)
    requires |guards| == |at| && |guards'| == |guards| + 1 == |at'|
    requires guards'[..|guards|] == guards && at'[..|guards|] == at && guards'[|guards|].Open?
    ensures SeenBy(nothing, now, mirror, readers, guards', at', contents)
         == WithBorrow(SeenBy(nothing, now, mirror, readers, guards, at, contents),
                       BaseOf(nothing, at'[|guards|], contents))
  {
    assert forall g :: 0 <= g < |guards| ==> guards'[g] == guards'[..|guards|][g] && at'[g] == at'[..|guards|][g];
  }

  lemma SeenClosed<C>(nothing: C, now: C, mirror: seq<C>, readers: seq<Reader>, guards: seq<Guard>,
                      at: seq<Option<nat>>, contents: seq<C>, g: nat)
    requires g < |guards|
    ensures SeenBy(nothing, now, mirror, readers, guards[g := Closed], at, contents)
         == WithoutBorrow(SeenBy(nothing, now, mirror, readers, guards, at, contents), g)
  {
    var w := SeenBy(nothing, now, mirror, readers, guards, at, contents);
    assert SeenBy(nothing, now, mirror, readers, guards[g := Closed], at, contents).borrows == w.borrows[g := None];
  }

  lemma SeenDropped<C>(nothing: C, now: C, mirror: seq<C>, readers: seq<Reader>, guards: seq<Guard>,
                       at: seq<Option<nat>>, contents: seq<C>, r: nat)
    requires r < |readers|
    ensures SeenBy(nothing, now, mirror, readers[r := Dropped], guards, at, contents)
         == WithoutReader(SeenBy(nothing, now, mirror, readers, guards, at, contents), r)
  {
    var w := SeenBy(nothing, now, mirror, readers, guards, at, contents);
    assert SeenBy(nothing, now, mirror, readers[r := Dropped], guards, at, contents).readers == w.readers[r := None];
  }

  /** A read whose borrow is closed again. */
  lemma ReadThenClosed<C>(w: Seen<C>, r: nat)
    requires Holds(w.readers, r)
    ensures Holds(AfterRead(w, r).borrows, |w.borrows|)
    ensures AfterRead(w, r).borrows[|w.borrows|].value == w.readers[r].value && AfterRead(w, r).now == w.now
    ensures WithoutBorrow(AfterRead(w, r), |w.borrows|) == AfterRead(w, r).(borrows := w.borrows + [None])
  {
    assert (w.borrows + [Some(w.readers[r].value)])[|w.borrows| := None] == w.borrows + [None];
  }

  /** Without an open borrow the history of contents does not matter. */
  lemma SeenNoBorrows<C>(nothing: C, now: C, now': C, mirror: seq<C>, readers: seq<Reader>, guards: seq<Guard>,
                         at: seq<Option<nat>>, contents: seq<C>, contents': seq<C>)
    requires Outstanding(guards) == 0
    ensures SeenBy(nothing, now', mirror, readers, guards, at, contents')
         == SeenBy(nothing, now, mirror, readers, guards, at, contents).(now := now')
  {
    NoneOutstanding(guards);
  }

  lemma {:induction false} AllClosed(guards: seq<Guard>)
    requires forall i :: 0 <= i < |guards| ==> guards[i].Closed?
    ensures Outstanding(guards) == 0
  {
    if guards != [] {
      AllClosed(guards[..|guards| - 1]);
    }
  }
}
