/**
 * One lease key of the control plane, as the leader lease, every task lease and
 * every profile lease are kept: the current entry and the ever-growing counter
 * its epochs are drawn from.
 *
 * The three families differ in what identifies a holder (`H`: the owner, or the
 * owner and the assigned instance), in what else an entry carries (`P`), and in
 * the two rules of `Rules`.  Everything is proved once, for every `H` and `P`.
 */
module Leases {
  import opened Wrappers

  /** Nanoseconds; 0 is the zero time. */
  type Time = int

  datatype Lease<H, P> = Lease(
    holder: H, info: P, epoch: int,
    acquiredAt: Time, lastHeartbeatAt: Time, expiresAt: Time)

  datatype Cell<H, P> = Cell(current: Option<Lease<H, P>>, counter: int)

  /**
   * `inPlace`: acquiring one's own live lease extends it under its old epoch
   * (profile leases) instead of issuing a new epoch (leader and task leases).
   * `prunes`: a read deletes an expired entry (memory and file stores) instead
   * of leaving it where it is (etcd).
   */
  datatype Rules = Rules(inPlace: bool, prunes: bool)

  /** `Elsewhere` is an operation on some other key. */
  datatype Op<H, P> =
    | Acquire(holder: H, info: P, ttl: int)
    | Renew(holder: H, epoch: int, ttl: int)
    | Read
    | Release(holder: H, epoch: int)
    | Elsewhere

  /** `Refused` stands for every error, whatever its text. */
  datatype Reply<H, P> =
    | Granted(lease: Lease<H, P>)
    | Held(lease: Lease<H, P>)
    | Renewed(lease: Lease<H, P>)
    | Found(lease: Lease<H, P>)
    | Absent
    | Done
    | Refused

  /** `now` is what the operation works with, read before it gets the lock; at `locked` it has the lock. */
  datatype Event<H, P> = Event(op: Op<H, P>, now: Time, locked: Time)

  function Empty<H, P>(): Cell<H, P> {
    Cell(None, 0)
  }

  predicate Live<H, P>(c: Cell<H, P>, now: Time) {
    c.current.Some? && c.current.value.expiresAt > now
  }

  predicate Expired<H, P>(l: Lease<H, P>, now: Time) {
    l.expiresAt < now
  }

  function Extend<H, P>(l: Lease<H, P>, now: Time, ttl: int): Lease<H, P> {
    l.(lastHeartbeatAt := now, expiresAt := now + ttl)
  }

  function Issue<H, P>(holder: H, info: P, epoch: int, now: Time, ttl: int): Lease<H, P> {
    Lease(holder, info, epoch, now, now, now + ttl)
  }

  /** The holder and epoch a caller presents are those of the entry. */
  predicate Owns<H(==), P>(c: Cell<H, P>, holder: H, epoch: int) {
    c.current.Some? && c.current.value.holder == holder && c.current.value.epoch == epoch
  }

  function Step<H(==), P>(rules: Rules, c: Cell<H, P>, e: Event<H, P>): (Cell<H, P>, Reply<H, P>) {
    match e.op
    case Acquire(holder, info, ttl) =>
      if ttl <= 0 then (c, Refused)
      else if Live(c, e.now) && c.current.value.holder != holder then
        (c, Held(c.current.value))
      else if Live(c, e.now) && rules.inPlace then
        var l := Extend(c.current.value, e.now, ttl);
        (c.(current := Some(l)), Granted(l))
      else
        var l := Issue(holder, info, c.counter + 1, e.now, ttl);
        (Cell(Some(l), l.epoch), Granted(l))
    case Renew(holder, epoch, ttl) =>
      if ttl <= 0 || !Owns(c, holder, epoch) || Expired(c.current.value, e.now) then (c, Refused)
      else
        var l := Extend(c.current.value, e.now, ttl);
        (c.(current := Some(l)), Renewed(l))
    case Read =>
      if c.current.None? then (c, Absent)
      else if Expired(c.current.value, e.now) then
        (if rules.prunes then c.(current := None) else c, Absent)
      else (c, Found(c.current.value))
    case Release(holder, epoch) =>
      (if Owns(c, holder, epoch) then c.(current := None) else c, Done)
    case Elsewhere => (c, Done)
  }

  /* Runs: the cell before event `i` of a run, and the reply to it. */

  function Before<H(==), P>(rules: Rules, run: seq<Event<H, P>>, i: nat): Cell<H, P>
    requires i <= |run|
  {
    if i == 0 then Empty() else Step(rules, Before(rules, run, i - 1), run[i - 1]).0
  }

  function ReplyAt<H(==), P>(rules: Rules, run: seq<Event<H, P>>, i: nat): Reply<H, P>
    requires i < |run|
  {
    Step(rules, Before(rules, run, i), run[i]).1
  }

  /** The copy of an entry a reply hands out, to its holder or to anyone asking. */
  function Token<H, P>(r: Reply<H, P>): Option<Lease<H, P>> {
    match r
    case Granted(l) => Some(l)
    case Held(l) => Some(l)
    case Renewed(l) => Some(l)
    case Found(l) => Some(l)
    case _ => None
  }

  /** Event `i` issued a new epoch. */
  predicate FreshAt<H(==), P>(rules: Rules, run: seq<Event<H, P>>, i: nat)
    requires i < |run|
  {
    ReplyAt(rules, run, i).Granted? &&
    Before(rules, run, i + 1).counter != Before(rules, run, i).counter
  }

  /* Epoch fencing: no clock assumption at all. */

  predicate Sound<H, P>(c: Cell<H, P>) {
    c.counter >= 0 && (c.current.Some? ==> c.current.value.epoch == c.counter > 0)
  }

  lemma {:induction false} AlwaysSound<H, P>(rules: Rules, run: seq<Event<H, P>>, i: nat)
    requires i <= |run|
    ensures Sound(Before(rules, run, i))
  {
    if i == 0 {
    } else {
      AlwaysSound(rules, run, i - 1);
    }
  }

  /** A cell still answers for epoch `l.epoch` as `l` does, or has gone past it. */
  predicate Remembers<H(==), P(==)>(c: Cell<H, P>, l: Lease<H, P>) {
    l.epoch <= c.counter &&
    (c.current.Some? && c.counter == l.epoch ==>
      && c.current.value.holder == l.holder
      && c.current.value.info == l.info
      && c.current.value.acquiredAt == l.acquiredAt)
  }

  lemma {:induction false} TokenIsRemembered<H, P>(
    rules: Rules, run: seq<Event<H, P>>, i: nat, j: nat, l: Lease<H, P>)
    requires i < j <= |run|
    requires Token(ReplyAt(rules, run, i)) == Some(l)
    ensures Remembers(Before(rules, run, j), l)
    decreases j
  {
    AlwaysSound(rules, run, j - 1);
    if i < j - 1 { TokenIsRemembered(rules, run, i, j - 1, l); }
  }

  lemma {:induction false} CounterGrows<H, P>(rules: Rules, run: seq<Event<H, P>>, i: nat, j: nat)
    requires i <= j <= |run|
    ensures Before(rules, run, i).counter <= Before(rules, run, j).counter
    decreases j
  {
    if i < j { CounterGrows(rules, run, i, j - 1); }
  }

  /** Epochs only grow, across releases, expiries and prunings. */
  lemma FreshEpochsIncrease<H, P>(rules: Rules, run: seq<Event<H, P>>, i: nat, j: nat)
    requires i < j < |run|
    requires FreshAt(rules, run, i) && FreshAt(rules, run, j)
    ensures ReplyAt(rules, run, i).lease.epoch < ReplyAt(rules, run, j).lease.epoch
  {
    CounterGrows(rules, run, i + 1, j);
  }

  /** An epoch belongs for ever to one holder and to one grant. */
  lemma EpochBindsHolder<H, P>(rules: Rules, run: seq<Event<H, P>>, i: nat, j: nat)
    requires i <= j < |run|
    requires Token(ReplyAt(rules, run, i)).Some? && Token(ReplyAt(rules, run, j)).Some?
    requires Token(ReplyAt(rules, run, i)).value.epoch == Token(ReplyAt(rules, run, j)).value.epoch
    ensures
      var s, t := Token(ReplyAt(rules, run, i)).value, Token(ReplyAt(rules, run, j)).value;
      s.holder == t.holder && s.info == t.info && s.acquiredAt == t.acquiredAt
  {
    var s := Token(ReplyAt(rules, run, i)).value;
    AlwaysSound(rules, run, j);
    TokenIsRemembered(rules, run, i, j + 1, s);
  }

  /**
   * Once a later epoch has been issued an old token is dead for good: it can
   * neither renew nor release, at any later point and at any clock reading.
   */
  lemma SupersededTokenIsDead<H, P>(
    rules: Rules, run: seq<Event<H, P>>, i: nat, j: nat, k: nat, e: Event<H, P>)
    requires i < j <= k <= |run|
    requires Token(ReplyAt(rules, run, i)).Some?
    requires Token(ReplyAt(rules, run, i)).value.epoch < Before(rules, run, j).counter
    requires e.op.Renew? || e.op.Release?
    requires e.op.epoch == Token(ReplyAt(rules, run, i)).value.epoch
    ensures Step(rules, Before(rules, run, k), e) ==
            (Before(rules, run, k), if e.op.Renew? then Refused else Done)
  {
    AlwaysSound(rules, run, k);
    CounterGrows(rules, run, j, k);
  }

  /**
   * A read that finds the epoch of the grant at `i` proves that no later grant
   * has been made: whoever holds that token is still the last one granted.
   */
  lemma FoundMeansNotSuperseded<H, P>(rules: Rules, run: seq<Event<H, P>>, i: nat, j: nat, k: nat)
    requires i < k < j < |run|
    requires Token(ReplyAt(rules, run, i)).Some?
    requires ReplyAt(rules, run, j).Found?
    requires ReplyAt(rules, run, j).lease.epoch == Token(ReplyAt(rules, run, i)).value.epoch
    ensures !FreshAt(rules, run, k)
  {
    AlwaysSound(rules, run, i);
    AlwaysSound(rules, run, k);
    AlwaysSound(rules, run, j);
    CounterGrows(rules, run, i + 1, k);
    CounterGrows(rules, run, k + 1, j);
  }

  /* Clocks. */

  /** The readings that operations work with do not go back. */
  predicate Nondecreasing<H, P>(run: seq<Event<H, P>>) {
    forall i, j :: 0 <= i <= j < |run| ==> run[i].now <= run[j].now
  }

  /** The clock does not go back: it is read before the lock is taken, and locks are taken one after the other. */
  predicate Clocked<H, P>(run: seq<Event<H, P>>) {
    && (forall i :: 0 <= i < |run| ==> run[i].now <= run[i].locked)
    && (forall i, j :: 0 <= i <= j < |run| ==> run[i].locked <= run[j].locked)
  }

  lemma BeforeNext<H, P>(rules: Rules, run: seq<Event<H, P>>, j: nat)
    requires 0 < j <= |run|
    ensures Before(rules, run, j) == Step(rules, Before(rules, run, j - 1), run[j - 1]).0
  {
  }

  /** What lies ahead does not matter. */
  lemma {:induction false} BeforePrefix<H, P>(rules: Rules, run: seq<Event<H, P>>, other: seq<Event<H, P>>, n: nat)
    requires n <= |run| && n <= |other| && run[..n] == other[..n]
    ensures Before(rules, run, n) == Before(rules, other, n)
  {
    if n == 0 {
    } else {
      assert run[n - 1] == run[..n][n - 1] == other[n - 1];
      assert run[..n - 1] == run[..n][..n - 1] == other[..n - 1];
      BeforePrefix(rules, run, other, n - 1);
    }
  }
}
