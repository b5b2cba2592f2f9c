// What the holders of readers and borrows may do with a feed, and what they then see.
module FeedUse {
  import opened Options
  import opened Mirrors

  datatype Use =
    | Subscribe
    | Clone(reader: nat)
    | Unsubscribe(reader: nat)
    | Read(reader: nat)
    | Peek(reader: nat)
    | Borrow
    | Close(borrow: nat)
    | Show(borrow: nat)

  /** Handles exist until they are dropped. */
  predicate Usable<C>(w: Seen<C>, use: Use) {
    match use
    case Clone(r) => Holds(w.readers, r)
    case Unsubscribe(r) => Holds(w.readers, r)
    case Read(r) => Holds(w.readers, r)
    case Peek(r) => Holds(w.readers, r)
    case Close(g) => Holds(w.borrows, g)
    case Show(g) => Holds(w.borrows, g)
    case _ => true
  }

  function AfterUse<C>(nothing: C, w: Seen<C>, use: Use): Seen<C>
    requires Usable(w, use)
  {
    match use
    case Subscribe => WithReader(w, nothing)
    case Clone(r) => WithReader(w, w.readers[r].value)
    case Unsubscribe(r) => WithoutReader(w, r)
    case Read(r) => AfterRead(w, r)
    case Peek(r) => WithBorrow(w, w.readers[r].value)
    case Borrow => WithBorrow(w, w.now)
    case Close(g) => WithoutBorrow(w, g)
    case Show(_) => w
  }

  /** No borrow is open, so the value may be edited. */
  predicate NoBorrows<C>(w: Seen<C>) {
    forall g :: 0 <= g < |w.borrows| ==> w.borrows[g].None?
  }
}
