/**
 * Reads that delete an expired entry (memory and file stores) against reads that
 * leave it (etcd): when the difference can be observed, and when it cannot.
 */
module LeasePruning {
  import opened Wrappers
  import opened Leases

  /* Readings in order. */

  /** The two layouts differ at most by an entry that has expired by `now`. */
  predicate SameButExpired<H(==), P(==)>(pruned: Cell<H, P>, lazy: Cell<H, P>, now: Time) {
    pruned.counter == lazy.counter &&
    (pruned.current == lazy.current ||
     (pruned.current.None? && lazy.current.Some? && Expired(lazy.current.value, now)))
  }

  lemma {:induction false} PruningKeepsCells<H, P>(inPlace: bool, run: seq<Event<H, P>>, i: nat)
    requires Nondecreasing(run) && i <= |run|
    ensures
      var p, l := Before(Rules(inPlace, true), run, i), Before(Rules(inPlace, false), run, i);
      if i == 0 then p == l else SameButExpired(p, l, run[i - 1].now)
  {
    if i == 0 {
    } else {
      PruningKeepsCells(inPlace, run, i - 1);
    }
  }

  /** Every reply is the same whether or not reads delete expired entries. */
  lemma PruningIsUnobservable<H, P>(inPlace: bool, run: seq<Event<H, P>>, i: nat)
    requires Nondecreasing(run) && i < |run|
    ensures ReplyAt(Rules(inPlace, true), run, i) == ReplyAt(Rules(inPlace, false), run, i)
  {
    PruningKeepsCells(inPlace, run, i);
  }

  /** With a clock that goes back it is observable. */
  lemma PruningShowsWhenClockGoesBack<H, P>(inPlace: bool, h: H, info: P)
    ensures
      var run := [Event(Acquire(h, info, 10), 0, 0), Event(Read, 50, 50), Event(Renew(h, 1, 10), 5, 60)];
      ReplyAt(Rules(inPlace, true), run, 2).Refused? && ReplyAt(Rules(inPlace, false), run, 2).Renewed?
  {
    var run := [Event(Acquire(h, info, 10), 0, 0), Event(Read, 50, 50), Event(Renew(h, 1, 10), 5, 60)];
    var l := Issue(h, info, 1, 0, 10);
    forall prunes: bool
      ensures Before(Rules(inPlace, prunes), run, 2) == Cell(if prunes then None else Some(l), 1)
    {
      assert Before(Rules(inPlace, prunes), run, 0) == Empty<H, P>();
      assert Before(Rules(inPlace, prunes), run, 1) == Cell(Some(l), 1);
    }
  }

  /* Readings in any order. */

  /** `e` is a read that takes the entry for expired. */
  predicate FindsExpired<H, P>(c: Cell<H, P>, e: Event<H, P>) {
    e.op.Read? && c.current.Some? && Expired(c.current.value, e.now)
  }

  /** The entry before event `n` has been found expired by a read, and not replaced or released since. */
  predicate Condemned<H(==), P(==)>(inPlace: bool, run: seq<Event<H, P>>, n: nat)
    requires n <= |run|
  {
    if n == 0 then false
    else
      var before, after := Before(Rules(inPlace, false), run, n - 1), Before(Rules(inPlace, false), run, n);
      || FindsExpired(before, run[n - 1])
      || (Condemned(inPlace, run, n - 1) && after.current == before.current)
  }

  /** The event goes by the entry as one that has not expired. */
  predicate Consults<H(==), P>(inPlace: bool, c: Cell<H, P>, e: Event<H, P>) {
    c.current.Some? &&
    match e.op
    case Read => !Expired(c.current.value, e.now)
    case Renew(holder, epoch, ttl) => ttl > 0 && Owns(c, holder, epoch) && !Expired(c.current.value, e.now)
    case Acquire(holder, _, ttl) => ttl > 0 && Live(c, e.now) && (c.current.value.holder != holder || inPlace)
    case _ => false
  }

  /** Up to event `n` nothing goes by a condemned entry. */
  predicate CondemnedIsIgnored<H(==), P(==)>(inPlace: bool, run: seq<Event<H, P>>, n: nat)
    requires n <= |run|
  {
    forall i :: 0 <= i < n ==>
      !(Condemned(inPlace, run, i) && Consults(inPlace, Before(Rules(inPlace, false), run, i), run[i]))
  }

  /** What the pruning layout holds when the lazy one holds `lazy`. */
  predicate Pruned<H(==), P(==)>(pruned: Cell<H, P>, lazy: Cell<H, P>, condemned: bool) {
    && Sound(lazy) && pruned.counter == lazy.counter
    && (condemned ==> lazy.current.Some?)
    && pruned.current == if condemned then None else lazy.current
  }

  lemma StepTells<H, P>(inPlace: bool, pruned: Cell<H, P>, lazy: Cell<H, P>, condemned: bool, e: Event<H, P>)
    requires Pruned(pruned, lazy, condemned)
    ensures Step(Rules(inPlace, true), pruned, e).1 == Step(Rules(inPlace, false), lazy, e).1 <==>
      !(condemned && Consults(inPlace, lazy, e))
  {
  }

  lemma StepKeepsPruned<H, P>(inPlace: bool, pruned: Cell<H, P>, lazy: Cell<H, P>, condemned: bool, e: Event<H, P>)
    requires Pruned(pruned, lazy, condemned) && !(condemned && Consults(inPlace, lazy, e))
    ensures
      var p, l := Step(Rules(inPlace, true), pruned, e).0, Step(Rules(inPlace, false), lazy, e).0;
      Pruned(p, l, FindsExpired(lazy, e) || (condemned && l.current == lazy.current))
  {
  }

  lemma {:induction false} CellsStayPruned<H, P>(inPlace: bool, run: seq<Event<H, P>>, n: nat)
    requires n <= |run| && CondemnedIsIgnored(inPlace, run, n)
    ensures
      Pruned(Before(Rules(inPlace, true), run, n), Before(Rules(inPlace, false), run, n), Condemned(inPlace, run, n))
  {
    if n == 0 {
    } else {
      CellsStayPruned(inPlace, run, n - 1);
      hide Step, Consults, Pruned, FindsExpired;
      StepKeepsPruned(
        inPlace, Before(Rules(inPlace, true), run, n - 1), Before(Rules(inPlace, false), run, n - 1),
        Condemned(inPlace, run, n - 1), run[n - 1]);
    }
  }

  lemma ReplyTells<H, P>(inPlace: bool, run: seq<Event<H, P>>, i: nat)
    requires i < |run| && CondemnedIsIgnored(inPlace, run, i)
    ensures ReplyAt(Rules(inPlace, true), run, i) == ReplyAt(Rules(inPlace, false), run, i) <==>
      !(Condemned(inPlace, run, i) && Consults(inPlace, Before(Rules(inPlace, false), run, i), run[i]))
  {
    hide Step, Consults, Pruned, Condemned, Before;
    CellsStayPruned(inPlace, run, i);
    StepTells(
      inPlace, Before(Rules(inPlace, true), run, i), Before(Rules(inPlace, false), run, i),
      Condemned(inPlace, run, i), run[i]);
  }

  predicate SameReplies<H(==), P(==)>(inPlace: bool, run: seq<Event<H, P>>) {
    forall i :: 0 <= i < |run| ==> ReplyAt(Rules(inPlace, true), run, i) == ReplyAt(Rules(inPlace, false), run, i)
  }

  lemma {:induction false} SameRepliesIgnore<H, P>(inPlace: bool, run: seq<Event<H, P>>, n: nat)
    requires n <= |run| && SameReplies(inPlace, run)
    ensures CondemnedIsIgnored(inPlace, run, n)
  {
    if n == 0 {
    } else {
      hide ReplyAt, Consults, Condemned, Before;
      SameRepliesIgnore(inPlace, run, n - 1);
      ReplyTells(inPlace, run, n - 1);
    }
  }

  /**
   * Deleting on read cannot be told from leaving, whatever the readings are,
   * exactly if nothing goes by an entry that a read has found expired before.
   */
  lemma PruningShowsExactly<H, P>(inPlace: bool, run: seq<Event<H, P>>)
    ensures SameReplies(inPlace, run) <==> CondemnedIsIgnored(inPlace, run, |run|)
  {
    hide ReplyAt, Consults, Condemned;
    if SameReplies(inPlace, run) {
      SameRepliesIgnore(inPlace, run, |run|);
    }
    if CondemnedIsIgnored(inPlace, run, |run|) {
      forall i | 0 <= i < |run|
        ensures ReplyAt(Rules(inPlace, true), run, i) == ReplyAt(Rules(inPlace, false), run, i)
      {
        ReplyTells(inPlace, run, i);
      }
    }
  }
}
