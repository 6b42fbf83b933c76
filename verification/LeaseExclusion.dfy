/**
 * Timed mutual exclusion of one lease key.  Operations read the clock before they
 * take the lock, so their readings may be out of order although the clock does not
 * go back; what counts when a key is granted is the time at which that is done.
 */
module LeaseExclusion {
  import opened Wrappers
  import opened Leases

  /** The expiry an operation asks for, if it asks for one. */
  function Asks<H, P>(e: Event<H, P>): Option<Time> {
    match e.op
    case Acquire(_, _, ttl) => Some(e.now + ttl)
    case Renew(_, _, ttl) => Some(e.now + ttl)
    case _ => None
  }

  /** The operation is one with which the current holder sets the expiry of the entry. */
  predicate Extends<H(==), P>(c: Cell<H, P>, e: Event<H, P>) {
    match e.op
    case Acquire(holder, _, ttl) => ttl > 0 && c.current.Some? && c.current.value.holder == holder
    case Renew(holder, epoch, ttl) => ttl > 0 && Owns(c, holder, epoch)
    case _ => false
  }

  /**
   * The current holder asks, while its entry lasts, for an earlier expiry than the
   * stored one: the guard that would have to be checked before setting the expiry.
   */
  predicate Shortens<H(==), P>(c: Cell<H, P>, e: Event<H, P>) {
    && Extends(c, e)
    && Asks(e).value < c.current.value.expiresAt
    && e.locked < c.current.value.expiresAt
  }

  /** None of the first `n` events shortens. */
  predicate ShortensNowhere<H(==), P>(rules: Rules, run: seq<Event<H, P>>, n: nat)
    requires n <= |run|
  {
    forall k :: 0 <= k < n ==> !Shortens(Before(rules, run, k), run[k])
  }

  /** Event `k` took the entry of `holder` away at its own request. */
  predicate ReleasedAt<H(==), P>(rules: Rules, run: seq<Event<H, P>>, k: nat, holder: H)
    requires k < |run|
  {
    run[k].op.Release? && run[k].op.holder == holder &&
    Owns(Before(rules, run, k), holder, run[k].op.epoch)
  }

  /** The token of event `i` has run out when event `j` happens, or its holder has released the key in between. */
  predicate ExcludedAt<H(==), P>(rules: Rules, run: seq<Event<H, P>>, i: nat, j: nat)
    requires i < j < |run| && Token(ReplyAt(rules, run, i)).Some?
  {
    var l := Token(ReplyAt(rules, run, i)).value;
    l.expiresAt <= run[j].locked || exists k :: i < k < j && ReleasedAt(rules, run, k, l.holder)
  }

  /** At no grant of a run does anybody else hold a token that is still good. */
  predicate Excluding<H(==), P>(rules: Rules, run: seq<Event<H, P>>) {
    forall i, j :: 0 <= i < j < |run| && Token(ReplyAt(rules, run, i)).Some? && ReplyAt(rules, run, j).Granted?
      && Token(ReplyAt(rules, run, i)).value.holder != ReplyAt(rules, run, j).lease.holder
      ==> ExcludedAt(rules, run, i, j)
  }

  /* As long as nothing is shortened. */

  /** A copy is out of date, or the stored entry is its holder's and lasts at least as long. */
  predicate Dominated<H(==), P>(c: Cell<H, P>, l: Lease<H, P>, time: Time) {
    || l.expiresAt <= time
    || (c.current.Some? && c.current.value.holder == l.holder && l.expiresAt <= c.current.value.expiresAt)
  }

  lemma TokenIsDominated<H, P>(rules: Rules, c: Cell<H, P>, e: Event<H, P>, l: Lease<H, P>)
    requires Token(Step(rules, c, e).1) == Some(l)
    ensures Dominated(Step(rules, c, e).0, l, e.locked)
  {
  }

  lemma StaysDominated<H, P>(rules: Rules, c: Cell<H, P>, e: Event<H, P>, l: Lease<H, P>, before: Time)
    requires Dominated(c, l, before) && before <= e.locked && e.now <= e.locked && !Shortens(c, e)
    requires e.op.Release? && e.op.holder == l.holder ==> !Owns(c, l.holder, e.op.epoch)
    ensures Dominated(Step(rules, c, e).0, l, e.locked)
  {
  }

  /**
   * A token handed out at `i` is, until its holder gives the key back, either
   * out of date or dominated by the stored entry of the same holder.
   */
  lemma {:induction false} StoredExpiryDominates<H, P>(
    rules: Rules, run: seq<Event<H, P>>, i: nat, j: nat, l: Lease<H, P>)
    requires i < j <= |run|
    requires Clocked(run) && ShortensNowhere(rules, run, j)
    requires Token(ReplyAt(rules, run, i)) == Some(l)
    requires forall k :: i < k < j ==> !ReleasedAt(rules, run, k, l.holder)
    ensures Dominated(Before(rules, run, j), l, run[j - 1].locked)
    decreases j
  {
    hide Step, Before, Dominated, Shortens, Token, Owns, Asks;
    BeforeNext(rules, run, j);
    if i == j - 1 {
      TokenIsDominated(rules, Before(rules, run, i), run[i], l);
    } else {
      StoredExpiryDominates(rules, run, i, j - 1, l);
      assert !ReleasedAt(rules, run, j - 1, l.holder);
      assert !Shortens(Before(rules, run, j - 1), run[j - 1]);
      StaysDominated(rules, Before(rules, run, j - 1), run[j - 1], l, run[j - 2].locked);
    }
  }

  /** Nobody else can be granted the key before the stored entry has run out. */
  lemma GrantToAnother<H, P>(rules: Rules, c: Cell<H, P>, e: Event<H, P>, l: Lease<H, P>, before: Time)
    requires Dominated(c, l, before) && before <= e.locked && e.now <= e.locked
    requires Step(rules, c, e).1.Granted? && Step(rules, c, e).1.lease.holder != l.holder
    ensures l.expiresAt <= e.locked
  {
  }

  /**
   * When the key is granted to someone, every token ever handed out for anyone
   * else has run out by then, unless its holder has released the key since.
   */
  lemma MutualExclusion<H, P>(rules: Rules, run: seq<Event<H, P>>, i: nat, j: nat)
    requires i < j < |run|
    requires Clocked(run) && ShortensNowhere(rules, run, j)
    requires Token(ReplyAt(rules, run, i)).Some? && ReplyAt(rules, run, j).Granted?
    requires Token(ReplyAt(rules, run, i)).value.holder != ReplyAt(rules, run, j).lease.holder
    ensures ExcludedAt(rules, run, i, j)
  {
    hide Step, Before, Dominated;
    var l := Token(ReplyAt(rules, run, i)).value;
    if forall k :: i < k < j ==> !ReleasedAt(rules, run, k, l.holder) {
      StoredExpiryDominates(rules, run, i, j, l);
      GrantToAnother(rules, Before(rules, run, j), run[j], l, run[j - 1].locked);
    }
  }

  /* The condition is exact. */

  /** The stored entry was handed out, and has been where it is ever since. */
  lemma {:induction false} StoredWasHandedOut<H, P>(rules: Rules, run: seq<Event<H, P>>, j: nat) returns (i: nat)
    requires j <= |run| && Before(rules, run, j).current.Some?
    ensures i < j && Token(ReplyAt(rules, run, i)) == Before(rules, run, j).current
    ensures forall m :: i < m <= j ==> Before(rules, run, m).current == Before(rules, run, j).current
  {
    if Before(rules, run, j - 1).current == Before(rules, run, j).current {
      i := StoredWasHandedOut(rules, run, j - 1);
    } else {
      i := j - 1;
    }
  }

  lemma StaysUnreleased<H, P>(rules: Rules, c: Cell<H, P>, e: Event<H, P>)
    requires c.current.Some? && Step(rules, c, e).0.current == c.current
    ensures e.op.Release? ==> !Owns(c, e.op.holder, e.op.epoch)
  {
  }

  /** While an entry stays where it is, its holder does not release it. */
  lemma NotReleasedMeanwhile<H, P>(rules: Rules, run: seq<Event<H, P>>, i: nat, k: nat, l: Lease<H, P>)
    requires i < k < |run|
    requires forall m :: i < m <= k ==> Before(rules, run, m).current == Some(l)
    ensures forall m :: i < m < k ==> !ReleasedAt(rules, run, m, l.holder)
  {
    hide Before, Step, Owns;
    forall m | i < m < k ensures !ReleasedAt(rules, run, m, l.holder) {
      BeforeNext(rules, run, m + 1);
      StaysUnreleased(rules, Before(rules, run, m), run[m]);
    }
  }

  /** Someone else asking for the key as soon as the shortened entry has run out. */
  function Intruder<H, P>(e: Event<H, P>, b: H, info: P): Event<H, P> {
    var time := if Asks(e).Some? && Asks(e).value > e.locked then Asks(e).value else e.locked;
    Event(Acquire(b, info, 1), time, time)
  }

  /** That is before the copy that was handed out does, and the key is free. */
  lemma ShorteningOpens<H, P>(rules: Rules, c: Cell<H, P>, e: Event<H, P>, b: H, info: P)
    requires Shortens(c, e) && e.now <= e.locked
    ensures
      var intruder := Intruder(e, b, info);
      var r := Step(rules, Step(rules, c, e).0, intruder).1;
      && c.current.Some? && !e.op.Release?
      && e.locked <= intruder.locked < c.current.value.expiresAt
      && r.Granted? && r.lease.holder == b
  {
  }

  /** The intruder ends a run in which exclusion does not hold. */
  lemma IntruderBreaksExclusion<H, P>(rules: Rules, run: seq<Event<H, P>>, i: nat, l: Lease<H, P>)
    requires i < |run| - 1 && Token(ReplyAt(rules, run, i)) == Some(l)
    requires forall m :: i < m < |run| - 1 ==> !ReleasedAt(rules, run, m, l.holder)
    requires ReplyAt(rules, run, |run| - 1).Granted? && ReplyAt(rules, run, |run| - 1).lease.holder != l.holder
    requires run[|run| - 1].locked < l.expiresAt
    ensures !Excluding(rules, run)
  {
    hide Token, ReplyAt, ReleasedAt;
    assert !ExcludedAt(rules, run, i, |run| - 1);
  }

  /** What happens up to there is the same in the run that the intruder ends. */
  lemma IntruderIsGranted<H, P>(rules: Rules, run: seq<Event<H, P>>, k: nat, b: H, info: P)
    requires Clocked(run) && k < |run| && Shortens(Before(rules, run, k), run[k])
    ensures
      var all := run[..k + 1] + [Intruder(run[k], b, info)];
      && Clocked(all) && !run[k].op.Release? && Before(rules, run, k).current.Some?
      && (forall n :: 0 <= n <= k + 1 ==> Before(rules, all, n) == Before(rules, run, n))
      && all[k + 1].locked < Before(rules, run, k).current.value.expiresAt
      && ReplyAt(rules, all, k + 1).Granted? && ReplyAt(rules, all, k + 1).lease.holder == b
  {
    hide Before, Step, Shortens, Owns;
    var all := run[..k + 1] + [Intruder(run[k], b, info)];
    forall n | 0 <= n <= k + 1 ensures Before(rules, all, n) == Before(rules, run, n) {
      BeforePrefix(rules, all, run, n);
    }
    BeforeNext(rules, run, k + 1);
    ShorteningOpens(rules, Before(rules, run, k), run[k], b, info);
  }

  lemma ShorteningExposes<H, P>(rules: Rules, run: seq<Event<H, P>>, k: nat, b: H, info: P)
    requires Clocked(run) && k < |run| && Shortens(Before(rules, run, k), run[k])
    requires b != Before(rules, run, k).current.value.holder
    ensures Clocked(run[..k + 1] + [Intruder(run[k], b, info)])
    ensures !Excluding(rules, run[..k + 1] + [Intruder(run[k], b, info)])
  {
    hide Before, Step, Shortens, Owns, Token, Excluding, Clocked, Intruder;
    IntruderIsGranted(rules, run, k, b, info);
    var all := run[..k + 1] + [Intruder(run[k], b, info)];
    var l := Before(rules, run, k).current.value;
    var i := StoredWasHandedOut(rules, run, k);
    NotReleasedMeanwhile(rules, all, i, k, l);
    IntruderBreaksExclusion(rules, all, i, l);
  }

  lemma NoShorteningExcludes<H, P>(rules: Rules, run: seq<Event<H, P>>, n: nat, e: Event<H, P>)
    requires n <= |run| && ShortensNowhere(rules, run, n) && Clocked(run[..n] + [e])
    ensures Excluding(rules, run[..n] + [e])
  {
    var all := run[..n] + [e];
    forall m | 0 <= m <= n ensures Before(rules, all, m) == Before(rules, run, m) {
      BeforePrefix(rules, all, run, m);
    }
    assert ShortensNowhere(rules, all, n);
    forall i, j | 0 <= i < j < |all| && Token(ReplyAt(rules, all, i)).Some? && ReplyAt(rules, all, j).Granted?
      && Token(ReplyAt(rules, all, i)).value.holder != ReplyAt(rules, all, j).lease.holder
      ensures ExcludedAt(rules, all, i, j)
    {
      MutualExclusion(rules, all, i, j);
    }
  }

  /** Whenever in a run, or after it, anyone asks for the key, exclusion holds. */
  ghost predicate AnyoneMayAsk<H(!new), P(!new)>(rules: Rules, run: seq<Event<H, P>>) {
    forall n: nat, e: Event<H, P> ::
      n <= |run| && e.op.Acquire? && Clocked(run[..n] + [e]) ==> Excluding(rules, run[..n] + [e])
  }

  /**
   * Exclusion holds whenever anyone may ask exactly if the current holder never
   * asked, while its entry lasted, for less than the stored expiry; however the
   * readings before the lock are ordered.  `other` only says that there is somebody else.
   */
  lemma ExclusionExactlyUnlessShortened<H(!new), P(!new)>(
    rules: Rules, run: seq<Event<H, P>>, other: H -> H, info: P)
    requires Clocked(run) && forall h :: other(h) != h
    ensures ShortensNowhere(rules, run, |run|) <==> AnyoneMayAsk(rules, run)
  {
    if ShortensNowhere(rules, run, |run|) {
      forall n: nat, e: Event<H, P> | n <= |run| && e.op.Acquire? && Clocked(run[..n] + [e])
        ensures Excluding(rules, run[..n] + [e])
      {
        NoShorteningExcludes(rules, run, n, e);
      }
    } else {
      var k :| 0 <= k < |run| && Shortens(Before(rules, run, k), run[k]);
      var b := other(Before(rules, run, k).current.value.holder);
      ShorteningExposes(rules, run, k, b, info);
    }
  }

  /* One TTL. */

  predicate FixedTTL<H, P>(run: seq<Event<H, P>>, ttl: int) {
    forall i :: 0 <= i < |run| && Asks(run[i]).Some? ==> Asks(run[i]).value == run[i].now + ttl
  }

  /** The stored expiry is the TTL after the reading of the operation that set it. */
  lemma {:induction false} ExpiryIsTTLAway<H, P>(rules: Rules, run: seq<Event<H, P>>, j: nat, ttl: int)
    requires j <= |run| && FixedTTL(run, ttl)
    ensures
      var c := Before(rules, run, j);
      c.current.Some? ==>
        && c.current.value.expiresAt == c.current.value.lastHeartbeatAt + ttl
        && exists k :: 0 <= k < j && run[k].now == c.current.value.lastHeartbeatAt
  {
    if j == 0 {
    } else {
      ExpiryIsTTLAway(rules, run, j - 1, ttl);
      var c, d := Before(rules, run, j - 1), Before(rules, run, j);
      if d.current.Some? && d.current != c.current {
        assert Asks(run[j - 1]) == Some(d.current.value.expiresAt);
        assert run[j - 1].now == d.current.value.lastHeartbeatAt;
      }
    }
  }

  /** With one TTL the holder shortens its entry exactly with a reading older than the one that set it. */
  lemma OneTTLShortensExactlyLate<H, P>(rules: Rules, run: seq<Event<H, P>>, k: nat, ttl: int)
    requires k < |run| && FixedTTL(run, ttl)
    ensures
      var c := Before(rules, run, k);
      Shortens(c, run[k]) <==>
        Extends(c, run[k]) && run[k].now < c.current.value.lastHeartbeatAt && run[k].locked < c.current.value.expiresAt
  {
    ExpiryIsTTLAway(rules, run, k, ttl);
  }

  /** So it never does if the readings are in order. */
  lemma FixedTTLNeverShortens<H, P>(rules: Rules, run: seq<Event<H, P>>, ttl: int)
    requires Nondecreasing(run) && FixedTTL(run, ttl)
    ensures ShortensNowhere(rules, run, |run|)
  {
    forall k | 0 <= k < |run| ensures !Shortens(Before(rules, run, k), run[k]) {
      ExpiryIsTTLAway(rules, run, k, ttl);
      OneTTLShortensExactlyLate(rules, run, k, ttl);
    }
  }

  /** The run as if every operation had taken the lock at once. */
  function AtOnce<H, P>(run: seq<Event<H, P>>): (r: seq<Event<H, P>>)
    ensures |r| == |run| && forall i :: 0 <= i < |run| ==> r[i] == run[i].(locked := run[i].now)
  {
    seq(|run|, i requires 0 <= i < |run| => run[i].(locked := run[i].now))
  }

  lemma {:induction false} AtOnceIsTheSame<H, P>(rules: Rules, run: seq<Event<H, P>>, n: nat)
    requires n <= |run|
    ensures Before(rules, AtOnce(run), n) == Before(rules, run, n)
    ensures n < |run| ==> ReplyAt(rules, AtOnce(run), n) == ReplyAt(rules, run, n)
  {
    if n == 0 {
    } else {
      AtOnceIsTheSame(rules, run, n - 1);
    }
  }

  /** With one TTL and readings in order, copies have even run out at the reading of the grant. */
  lemma ExclusionAtReadings<H, P>(rules: Rules, run: seq<Event<H, P>>, ttl: int, i: nat, j: nat)
    requires i < j < |run| && Nondecreasing(run) && FixedTTL(run, ttl)
    requires Token(ReplyAt(rules, run, i)).Some? && ReplyAt(rules, run, j).Granted?
    requires Token(ReplyAt(rules, run, i)).value.holder != ReplyAt(rules, run, j).lease.holder
    ensures
      var l := Token(ReplyAt(rules, run, i)).value;
      l.expiresAt <= run[j].now || exists k :: i < k < j && ReleasedAt(rules, run, k, l.holder)
  {
    hide Before, ReplyAt, Shortens, Owns, Token, Asks;
    var once := AtOnce(run);
    AtOnceIsTheSame(rules, run, i);
    AtOnceIsTheSame(rules, run, j);
    AtOnceHasOneTTL(run, ttl);
    FixedTTLNeverShortens(rules, once, ttl);
    MutualExclusion(rules, once, i, j);
    var l := Token(ReplyAt(rules, run, i)).value;
    if k: nat :| i < k < j && ReleasedAt(rules, once, k, l.holder) {
      AtOnceIsTheSame(rules, run, k);
      assert ReleasedAt(rules, run, k, l.holder);
    }
  }

  lemma AtOnceHasOneTTL<H, P>(run: seq<Event<H, P>>, ttl: int)
    requires Nondecreasing(run) && FixedTTL(run, ttl)
    ensures Nondecreasing(AtOnce(run)) && Clocked(AtOnce(run)) && FixedTTL(AtOnce(run), ttl)
  {
    assert forall i :: 0 <= i < |run| ==> Asks(AtOnce(run)[i]) == Asks(run[i]);
  }

  /* Two ways of shortening. */

  /** A renewal with a shorter TTL leaves the older copy of the token valid after the key has gone to someone else. */
  lemma ShorterRenewalBreaksExclusion<H, P>(rules: Rules, a: H, b: H, info: P)
    requires a != b
    ensures
      var run := [Event(Acquire(a, info, 100), 0, 0), Event(Renew(a, 1, 10), 1, 1),
                  Event(Acquire(b, info, 100), 20, 20)];
      && Clocked(run) && Nondecreasing(run)
      && ReplyAt(rules, run, 0).Granted? && ReplyAt(rules, run, 2).Granted?
      && ReplyAt(rules, run, 2).lease.holder != ReplyAt(rules, run, 0).lease.holder
      && !ExcludedAt(rules, run, 0, 2)
  {
    var run := [Event(Acquire(a, info, 100), 0, 0), Event(Renew(a, 1, 10), 1, 1),
                Event(Acquire(b, info, 100), 20, 20)];
    assert Before(rules, run, 0) == Empty<H, P>();
    assert Before(rules, run, 1) == Cell(Some(Issue(a, info, 1, 0, 100)), 1);
    assert Before(rules, run, 2) == Cell(Some(Issue(a, info, 1, 0, 100).(lastHeartbeatAt := 1, expiresAt := 11)), 1);
  }

  /** With one TTL a renewal that read the clock early and got the lock late does the same. */
  lemma LateRenewalBreaksExclusion<H, P>(rules: Rules, a: H, b: H, info: P)
    requires a != b
    ensures
      var run := [Event(Acquire(a, info, 100), 0, 0), Event(Renew(a, 1, 100), 50, 50),
                  Event(Renew(a, 1, 100), 5, 60), Event(Acquire(b, info, 100), 120, 120)];
      && Clocked(run) && FixedTTL(run, 100)
      && ReplyAt(rules, run, 1).Renewed? && ReplyAt(rules, run, 3).Granted?
      && ReplyAt(rules, run, 3).lease.holder != ReplyAt(rules, run, 1).lease.holder
      && !ExcludedAt(rules, run, 1, 3)
  {
    var run := [Event(Acquire(a, info, 100), 0, 0), Event(Renew(a, 1, 100), 50, 50),
                Event(Renew(a, 1, 100), 5, 60), Event(Acquire(b, info, 100), 120, 120)];
    var l := Issue(a, info, 1, 0, 100);
    assert Before(rules, run, 0) == Empty<H, P>();
    assert Before(rules, run, 1) == Cell(Some(l), 1);
    assert Before(rules, run, 2) == Cell(Some(l.(lastHeartbeatAt := 50, expiresAt := 150)), 1);
    assert Before(rules, run, 3) == Cell(Some(l.(lastHeartbeatAt := 5, expiresAt := 105)), 1);
  }
}
