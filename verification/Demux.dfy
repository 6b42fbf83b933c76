/**
 * The scheduler's demultiplexer: agents' answers arrive on one stream and are
 * handed to whichever goroutine waits for the task they name, or kept aside
 * until one does.
 */
module Demux {
  import opened Wrappers

  type TaskID = string

  datatype Kind = TaskResult | UserQuery | Escalation | OtherKind

  /**
   * A message as the demultiplexer sees it.  `id` tells message objects apart;
   * `task` is the task ID of the metadata, or None where there is no metadata.
   */
  datatype Message = Message(id: nat, task: Option<TaskID>, kind: Kind, nonce: string)

  /** Channels are named by number, in the order in which they are made. */
  datatype State = State(
    waiters: map<TaskID, nat>, channels: map<nat, seq<Message>>, made: nat, overflow: seq<Message>)

  const EMPTY := State(map[], map[], 0, [])

  /** The capacity of a waiter's channel. */
  const CAPACITY := 16

  function Own(ms: seq<Message>, t: TaskID): seq<Message> {
    if ms == [] then []
    else if ms[0].task == Some(t) then [ms[0]] + Own(ms[1..], t) else Own(ms[1..], t)
  }

  function Others(ms: seq<Message>, t: TaskID): seq<Message> {
    if ms == [] then []
    else if ms[0].task == Some(t) then Others(ms[1..], t) else [ms[0]] + Others(ms[1..], t)
  }

  /** Subscribing sends the stored messages into a channel nobody reads yet. */
  predicate SubscribeReturns(d: State, t: TaskID) {
    |Own(d.overflow, t)| <= CAPACITY
  }

  function Subscribed(d: State, t: TaskID): State {
    State(d.waiters[t := d.made], d.channels[d.made := Own(d.overflow, t)], d.made + 1, Others(d.overflow, t))
  }

  /** Where a call to subscribe stops for good: its channel is full, and the stored messages are still there. */
  function BlockedIn(d: State, t: TaskID): State
    requires !SubscribeReturns(d, t)
  {
    d.(waiters := d.waiters[t := d.made],
       channels := d.channels[d.made := Own(d.overflow, t)[..CAPACITY]], made := d.made + 1)
  }

  function Cleared(d: State, t: TaskID): State {
    d.(overflow := Others(d.overflow, t))
  }

  function Unsubscribed(d: State, t: TaskID): State {
    d.(waiters := d.waiters - {t}, overflow := Others(d.overflow, t))
  }

  /** The channel a message is to go to: the waiter's, if there is one with room. */
  function Target(d: State, m: Message): Option<nat> {
    if m.task.Some? && m.task.value != "" && m.task.value in d.waiters
       && |At(d.channels, d.waiters[m.task.value])| < CAPACITY
    then Some(d.waiters[m.task.value]) else None
  }

  function Routed(d: State, m: Message): State {
    match Target(d, m)
    case Some(c) => d.(channels := d.channels[c := At(d.channels, c) + [m]])
    case None => d.(overflow := d.overflow + [m])
  }

  function At(channels: map<nat, seq<Message>>, c: nat): seq<Message> {
    if c in channels then channels[c] else []
  }

  /* Filtering. */

  lemma {:induction false} SnocOwn(ms: seq<Message>, m: Message, t: TaskID)
    ensures Own(ms + [m], t) == if m.task == Some(t) then Own(ms, t) + [m] else Own(ms, t)
    ensures Others(ms + [m], t) == if m.task == Some(t) then Others(ms, t) else Others(ms, t) + [m]
  {
    if ms == [] {
      assert ms + [m] == [m];
    } else {
      assert (ms + [m])[1..] == ms[1..] + [m];
      SnocOwn(ms[1..], m, t);
    }
  }

  lemma {:induction false} OwnPrefix(ms: seq<Message>, i: nat, t: TaskID)
    requires i <= |ms|
    ensures Own(ms[..i], t) <= Own(ms, t)
  {
    if i == |ms| {
      assert ms[..i] == ms;
    } else {
      var last := |ms| - 1;
      assert ms == ms[..last] + [ms[last]] && ms[..last][..i] == ms[..i];
      SnocOwn(ms[..last], ms[last], t);
      OwnPrefix(ms[..last], i, t);
    }
  }

  /** One message more than fit into the channel. */
  lemma TooMany(ms: seq<Message>, i: nat, t: TaskID)
    requires i < |ms| && ms[i].task == Some(t) && |Own(ms[..i], t)| == CAPACITY
    ensures |Own(ms, t)| > CAPACITY && Own(ms[..i], t) == Own(ms, t)[..CAPACITY]
  {
    assert ms[..i + 1] == ms[..i] + [ms[i]];
    SnocOwn(ms[..i], ms[i], t);
    OwnPrefix(ms, i, t);
    OwnPrefix(ms, i + 1, t);
  }

  lemma {:induction false} OwnMembers(ms: seq<Message>, t: TaskID)
    ensures forall m :: m in Own(ms, t) <==> m in ms && m.task == Some(t)
    ensures forall m :: m in Others(ms, t) <==> m in ms && m.task != Some(t)
  {
    if ms == [] {
    } else {
      OwnMembers(ms[1..], t);
      assert ms == [ms[0]] + ms[1..];
    }
  }

  predicate Increasing(ms: seq<Message>) {
    forall i, j :: 0 <= i < j < |ms| ==> ms[i].id < ms[j].id
  }

  lemma {:induction false} OwnIncreasing(ms: seq<Message>, t: TaskID)
    requires Increasing(ms)
    ensures Increasing(Own(ms, t)) && Increasing(Others(ms, t))
  {
    if ms == [] {
    } else {
      OwnIncreasing(ms[1..], t);
      OwnMembers(ms[1..], t);
      assert forall m :: m in ms[1..] ==> ms[0].id < m.id;
      hide Increasing;
      if ms[0].task == Some(t) {
        ConsIncreasing(ms[0], Own(ms[1..], t));
      } else {
        ConsIncreasing(ms[0], Others(ms[1..], t));
      }
    }
  }

  lemma ConsIncreasing(m: Message, ms: seq<Message>)
    requires Increasing(ms) && forall x :: x in ms ==> m.id < x.id
    ensures Increasing([m] + ms)
  {
  }

  lemma SnocIncreasing(ms: seq<Message>, m: Message)
    requires Increasing(ms) && forall x :: x in ms ==> x.id < m.id
    ensures Increasing(ms + [m])
  {
  }

  /** A message that has been taken out of a list is not in it again. */
  lemma OnceOnly(before: seq<Message>, q: seq<Message>)
    requires q != [] && Increasing(before + q)
    ensures q[0] !in q[1..]
  {
    forall j | 0 <= j < |q[1..]| ensures q[1..][j] != q[0] {
      var k := |before|;
      assert (before + q)[k] == q[0] && (before + q)[k + 1 + j] == q[1..][j];
    }
  }

  /** What is dropped for one task leaves another's messages as they were, in order. */
  lemma {:induction false} OthersKeep(ms: seq<Message>, t: TaskID, u: TaskID)
    requires t != u
    ensures Own(Others(ms, t), u) == Own(ms, u)
  {
    if ms == [] {
    } else {
      OthersKeep(ms[1..], t, u);
      if ms[0].task != Some(t) {
        assert Others(ms, t)[1..] == Others(ms[1..], t);
      }
    }
  }

  /* The operations, under the lock. */

  class Demultiplexer {
    var waiters: map<TaskID, nat>
    var channels: map<nat, seq<Message>>
    var made: nat
    var overflow: seq<Message>

    function View(): State
      reads this
    {
      State(waiters, channels, made, overflow)
    }

    constructor ()
      ensures View() == EMPTY
    {
      waiters, channels, made, overflow := map[], map[], 0, [];
    }

    /** A send into the full channel, which nobody can read before the call returns, is where it blocks. */
    method Subscribe(t: TaskID) returns (ch: nat, blocked: bool)
      modifies this
      ensures blocked <==> !SubscribeReturns(old(View()), t)
      ensures ch == old(made)
      ensures !blocked ==> View() == Subscribed(old(View()), t)
      ensures blocked ==> View() == BlockedIn(old(View()), t)
    {
      ch, blocked := made, false;
      made := made + 1;
      channels := channels[ch := []];
      waiters := waiters[t := ch];
      var remaining := [];
      var i := 0;
      assert Own(overflow[..0], t) == [] && Others(overflow[..0], t) == [];
      hide Own, Others;
      while i < |overflow|
        invariant 0 <= i <= |overflow| && overflow == old(overflow)
        invariant waiters == old(waiters)[t := ch] && made == ch + 1
        invariant channels == old(channels)[ch := Own(overflow[..i], t)] && |channels[ch]| <= CAPACITY
        invariant remaining == Others(overflow[..i], t)
      {
        assert overflow[..i + 1] == overflow[..i] + [overflow[i]];
        SnocOwn(overflow[..i], overflow[i], t);
        if overflow[i].task == Some(t) {
          if |channels[ch]| == CAPACITY {
            TooMany(overflow, i, t);
            return ch, true;
          }
          channels := channels[ch := channels[ch] + [overflow[i]]];
        } else {
          remaining := remaining + [overflow[i]];
        }
        i := i + 1;
      }
      assert overflow[..i] == overflow;
      overflow := remaining;
    }

    method ClearOverflow(t: TaskID)
      modifies this
      ensures View() == Cleared(old(View()), t)
    {
      var remaining := [];
      var i := 0;
      while i < |overflow|
        invariant 0 <= i <= |overflow| && View() == old(View())
        invariant remaining == Others(overflow[..i], t)
      {
        assert overflow[..i + 1] == overflow[..i] + [overflow[i]];
        SnocOwn(overflow[..i], overflow[i], t);
        if overflow[i].task != Some(t) {
          remaining := remaining + [overflow[i]];
        }
        i := i + 1;
      }
      assert overflow[..i] == overflow;
      overflow := remaining;
    }

    method Unsubscribe(t: TaskID)
      modifies this
      ensures View() == Unsubscribed(old(View()), t)
    {
      waiters := waiters - {t};
      ClearOverflow(t);
    }

    method Route(m: Message)
      modifies this
      ensures View() == Routed(old(View()), m)
    {
      var t := if m.task.Some? then m.task.value else "";
      if t != "" && t in waiters {
        var ch := waiters[t];
        if |At(channels, ch)| < CAPACITY {
          channels := channels[ch := At(channels, ch) + [m]];
        } else {
          overflow := overflow + [m];
        }
        return;
      }
      overflow := overflow + [m];
    }
  }

  /* Whole runs. */

  datatype Action =
    | Arrive(task: Option<TaskID>, kind: Kind, nonce: string)
    | Subscribe(t: TaskID)
    | Unsubscribe(t: TaskID)
    | ClearOverflow(t: TaskID)
    | Receive(c: nat)
    | Abandon(c: nat)   // whoever waited on the channel is gone

  /**
   * The demultiplexer with its history: every message routed so far (a message's
   * `id` is its place in that list), whose each channel is, what has been received
   * from each, and which task's call threw a message away.
   */
  datatype Run = Run(
    d: State, stuck: bool, routed: seq<Message>,
    owner: map<nat, TaskID>, received: map<nat, seq<Message>>, discarded: map<Message, TaskID>)

  const BEGIN := Run(EMPTY, false, [], map[], map[], map[])

  function Dropped(r: Run, t: TaskID): map<Message, TaskID> {
    r.discarded + map m | m in Own(r.d.overflow, t) :: t
  }

  /** What an abandoned channel still holds is lost to its task. */
  function LeftIn(r: Run, c: nat): map<Message, TaskID>
    requires c in r.owner
  {
    map m | m in At(r.d.channels, c) :: r.owner[c]
  }

  /**
   * Waiting ends with unsubscribing, and then nobody reads the channel any more.  A
   * call that blocks while it holds the lock leaves nothing possible but reading.
   */
  function Step(r: Run, a: Action): Run {
    match a
    case Receive(c) =>
      if At(r.d.channels, c) == [] then r
      else r.(
        d := r.d.(channels := r.d.channels[c := r.d.channels[c][1..]]),
        received := r.received[c := At(r.received, c) + [r.d.channels[c][0]]])
    case Abandon(c) =>
      if c !in r.owner then r
      else r.(d := r.d.(channels := r.d.channels[c := []]), discarded := r.discarded + LeftIn(r, c))
    case Arrive(task, kind, nonce) =>
      if r.stuck then r
      else
        var m := Message(|r.routed|, task, kind, nonce);
        r.(d := Routed(r.d, m), routed := r.routed + [m])
    case Subscribe(t) =>
      if r.stuck then r
      else if !SubscribeReturns(r.d, t) then r.(stuck := true)
      else r.(d := Subscribed(r.d, t), owner := r.owner[r.d.made := t], received := r.received[r.d.made := []])
    case Unsubscribe(t) =>
      if r.stuck then r else r.(d := Unsubscribed(r.d, t), discarded := Dropped(r, t))
    case ClearOverflow(t) =>
      if r.stuck then r else r.(d := Cleared(r.d, t), discarded := Dropped(r, t))
  }

  function After(actions: seq<Action>): Run {
    if actions == [] then BEGIN
    else Step(After(actions[..|actions| - 1]), actions[|actions| - 1])
  }

  /** Everything a channel ever held, in the order in which it was put there. */
  function History(r: Run, c: nat): seq<Message> {
    At(r.received, c) + At(r.d.channels, c)
  }

  predicate Known(r: Run, m: Message) {
    m.id < |r.routed| && r.routed[m.id] == m
  }

  predicate NumbersRouted(r: Run) {
    forall n :: 0 <= n < |r.routed| ==> r.routed[n].id == n
  }

  predicate OverflowFine(r: Run) {
    Increasing(r.d.overflow) && forall m :: m in r.d.overflow ==> Known(r, m)
  }

  predicate ChannelFine(r: Run, c: nat)
    requires c in r.owner
  {
    && Increasing(History(r, c))
    && (forall m :: m in History(r, c) ==> Known(r, m) && m.task == Some(r.owner[c]))
    && |At(r.d.channels, c)| <= CAPACITY
  }

  /** Channels have owners and names below the next one, and a waiter's channel is its task's. */
  predicate ChannelNames(r: Run) {
    && r.d.channels.Keys == r.owner.Keys && r.received.Keys == r.owner.Keys
    && (forall c :: c in r.owner ==> c < r.d.made)
    && (forall t :: t in r.d.waiters ==> r.d.waiters[t] in r.owner && r.owner[r.d.waiters[t]] == t)
  }

  predicate ChannelsFine(r: Run) {
    ChannelNames(r) && forall c :: c in r.owner ==> ChannelFine(r, c)
  }

  predicate DiscardsFine(r: Run) {
    forall m :: m in r.discarded ==> Known(r, m) && m.task == Some(r.discarded[m])
  }

  /** Where a message can be. */
  datatype Place = Stored | Queued(c: nat) | Received(c: nat) | Discarded

  /** Message `m` is at `p` and nowhere else. */
  predicate IsAt(r: Run, m: Message, p: Place) {
    && (m in r.d.overflow <==> p == Stored)
    && (forall c :: c in r.d.channels ==> (m in r.d.channels[c] <==> p == Queued(c)))
    && (forall c :: c in r.received ==> (m in r.received[c] <==> p == Received(c)))
    && (m in r.discarded <==> p == Discarded)
    && (p.Queued? ==> p.c in r.d.channels)
    && (p.Received? ==> p.c in r.received)
  }

  /** `place` says of every message where it is. */
  predicate Placed(r: Run, place: seq<Place>) {
    |place| == |r.routed| && forall n :: 0 <= n < |r.routed| ==> IsAt(r, r.routed[n], place[n])
  }

  ghost predicate Conserved(r: Run) {
    exists place: seq<Place> :: Placed(r, place)
  }

  ghost predicate Inv(r: Run) {
    NumbersRouted(r) && OverflowFine(r) && ChannelsFine(r) && DiscardsFine(r) && Conserved(r)
  }

  /* Each step keeps this. */

  lemma ArriveKeepsPlaces(r: Run, a: Action, place: seq<Place>) returns (place': seq<Place>)
    requires a.Arrive? && !r.stuck
    requires NumbersRouted(r) && OverflowFine(r) && ChannelsFine(r) && DiscardsFine(r) && Placed(r, place)
    ensures Placed(Step(r, a), place')
  {
    var m := Message(|r.routed|, a.task, a.kind, a.nonce);
    var n := Step(r, a);
    var p := match Target(r.d, m) case Some(c) => Queued(c) case None => Stored;
    place' := place + [p];
    assert !Known(r, m);
    forall i | 0 <= i < |r.routed| ensures IsAt(n, n.routed[i], place'[i]) {
      assert IsAt(r, r.routed[i], place[i]);
      assert n.routed[i] == r.routed[i] != m;
    }
    forall c | c in r.owner ensures m !in At(r.received, c) && m !in At(r.d.channels, c) {
      assert ChannelFine(r, c);
      assert m !in History(r, c);
    }
    assert IsAt(n, m, p);
  }

  /** Taking `m` off channel `c` moves `m` and nothing else. */
  lemma ReceiveMoves(r: Run, c: nat, x: Message, p: Place)
    requires At(r.d.channels, c) != [] && r.d.channels.Keys == r.received.Keys
    requires r.d.channels[c][0] !in r.d.channels[c][1..] && IsAt(r, x, p)
    ensures IsAt(Step(r, Receive(c)), x, if x == r.d.channels[c][0] then Received(c) else p)
  {
    var q := r.d.channels[c];
    assert q == [q[0]] + q[1..];
  }

  lemma ReceiveKeepsPlaces(r: Run, c: nat, place: seq<Place>) returns (place': seq<Place>)
    requires At(r.d.channels, c) != []
    requires NumbersRouted(r) && ChannelsFine(r) && Placed(r, place)
    ensures Placed(Step(r, Receive(c)), place')
  {
    var q := r.d.channels[c];
    var m := q[0];
    var n := Step(r, Receive(c));
    assert ChannelFine(r, c);
    assert m in History(r, c) && Known(r, m);
    OnceOnly(At(r.received, c), q);
    place' := place[m.id := Received(c)];
    hide ChannelFine, History, IsAt;
    forall i | 0 <= i < |r.routed| ensures IsAt(n, n.routed[i], place'[i]) {
      ReceiveMoves(r, c, r.routed[i], place[i]);
      assert r.routed[i] == m <==> i == m.id;
    }
  }

  lemma SubscribeKeepsPlaces(r: Run, t: TaskID, place: seq<Place>) returns (place': seq<Place>)
    requires !r.stuck && SubscribeReturns(r.d, t)
    requires NumbersRouted(r) && ChannelsFine(r) && Placed(r, place)
    ensures Placed(Step(r, Subscribe(t)), place')
  {
    var n := Step(r, Subscribe(t));
    OwnMembers(r.d.overflow, t);
    place' := seq(|place|, i requires 0 <= i < |place| =>
      if place[i] == Stored && r.routed[i].task == Some(t) then Queued(r.d.made) else place[i]);
    assert r.d.made !in r.d.channels && r.d.made !in r.received;
    forall i | 0 <= i < |r.routed| ensures IsAt(n, n.routed[i], place'[i]) {
      assert IsAt(r, r.routed[i], place[i]);
    }
  }

  lemma DropKeepsPlaces(r: Run, a: Action, place: seq<Place>) returns (place': seq<Place>)
    requires (a.Unsubscribe? || a.ClearOverflow?) && !r.stuck
    requires NumbersRouted(r) && OverflowFine(r) && Placed(r, place)
    ensures Placed(Step(r, a), place')
  {
    var n := Step(r, a);
    OwnMembers(r.d.overflow, a.t);
    place' := seq(|place|, i requires 0 <= i < |place| =>
      if place[i] == Stored && r.routed[i].task == Some(a.t) then Discarded else place[i]);
    forall i | 0 <= i < |r.routed| ensures IsAt(n, n.routed[i], place'[i]) {
      var m := r.routed[i];
      assert IsAt(r, m, place[i]);
      assert m in n.discarded <==> m in r.discarded || m in Own(r.d.overflow, a.t);
    }
  }

  lemma AbandonKeepsPlaces(r: Run, c: nat, place: seq<Place>) returns (place': seq<Place>)
    requires c in r.owner && NumbersRouted(r) && ChannelsFine(r) && Placed(r, place)
    ensures Placed(Step(r, Abandon(c)), place')
  {
    var n := Step(r, Abandon(c));
    place' := seq(|place|, i requires 0 <= i < |place| => if place[i] == Queued(c) then Discarded else place[i]);
    forall i | 0 <= i < |r.routed| ensures IsAt(n, n.routed[i], place'[i]) {
      assert IsAt(r, r.routed[i], place[i]);
    }
  }

  lemma PlacesKept(r: Run, a: Action)
    requires Inv(r)
    ensures Conserved(Step(r, a))
  {
    hide Placed, NumbersRouted, OverflowFine, ChannelsFine, DiscardsFine;
    var n := Step(r, a);
    var place: seq<Place> :| Placed(r, place);
    if n.(stuck := r.stuck) == r {
      assert Placed(n, place) by { StuckIsInvisible(r, n, place); }
    } else {
      var place';
      match a
      case Arrive(_, _, _) => place' := ArriveKeepsPlaces(r, a, place);
      case Receive(c) => place' := ReceiveKeepsPlaces(r, c, place);
      case Abandon(c) => place' := AbandonKeepsPlaces(r, c, place);
      case Subscribe(t) => place' := SubscribeKeepsPlaces(r, t, place);
      case _ => place' := DropKeepsPlaces(r, a, place);
      assert Placed(n, place');
    }
  }

  lemma StuckIsInvisible(r: Run, n: Run, place: seq<Place>)
    requires n.(stuck := r.stuck) == r && Placed(r, place)
    ensures Placed(n, place)
  {
    forall i | 0 <= i < |n.routed| ensures IsAt(n, n.routed[i], place[i]) {
      assert IsAt(r, r.routed[i], place[i]);
    }
  }

  lemma FilteredKept(r: Run, n: Run, t: TaskID)
    requires OverflowFine(r) && n.routed == r.routed && n.d.overflow == Others(r.d.overflow, t)
    ensures OverflowFine(n)
  {
    OwnMembers(r.d.overflow, t);
    OwnIncreasing(r.d.overflow, t);
    hide Others, Own, Increasing;
  }

  lemma ArrivalKept(r: Run, a: Action)
    requires a.Arrive? && NumbersRouted(r) && OverflowFine(r)
    ensures NumbersRouted(Step(r, a)) && OverflowFine(Step(r, a))
  {
    SnocIncreasing(r.d.overflow, Message(|r.routed|, a.task, a.kind, a.nonce));
    hide Increasing;
  }

  lemma OverflowKept(r: Run, a: Action)
    requires NumbersRouted(r) && OverflowFine(r)
    ensures NumbersRouted(Step(r, a)) && OverflowFine(Step(r, a))
  {
    hide OverflowFine, Own, Others, Increasing, At, Dropped, LeftIn;
    var n := Step(r, a);
    if a.Arrive? {
      ArrivalKept(r, a);
    } else if !a.Receive? && !a.Abandon? && n.d != r.d {
      FilteredKept(r, n, a.t);
    } else {
      SameOverflow(r, n);
    }
  }

  lemma SameOverflow(r: Run, n: Run)
    requires OverflowFine(r) && n.routed == r.routed && n.d.overflow == r.d.overflow
    ensures OverflowFine(n)
  {
  }

  lemma ReceiveKeepsChannel(r: Run, c: nat)
    requires c in r.owner && ChannelFine(r, c) && At(r.d.channels, c) != []
    ensures ChannelFine(Step(r, Receive(c)), c)
  {
    assert History(Step(r, Receive(c)), c) == History(r, c);
  }

  lemma AbandonKeepsChannel(r: Run, c: nat)
    requires c in r.owner && ChannelFine(r, c)
    ensures ChannelFine(Step(r, Abandon(c)), c)
  {
    var all := History(r, c);
    assert History(Step(r, Abandon(c)), c) == all[..|At(r.received, c)|];
  }

  lemma ArriveKeepsChannel(r: Run, m: Message, c: nat)
    requires c in r.owner && ChannelFine(r, c)
    requires m.id == |r.routed| && Target(r.d, m) == Some(c) && m.task == Some(r.owner[c])
    ensures ChannelFine(r.(d := Routed(r.d, m), routed := r.routed + [m]), c)
  {
    assert History(r.(d := Routed(r.d, m), routed := r.routed + [m]), c) == History(r, c) + [m];
    SnocIncreasing(History(r, c), m);
  }

  /** A step that leaves the channel alone. */
  lemma OtherKeepsChannel(r: Run, n: Run, c: nat)
    requires c in r.owner && ChannelFine(r, c) && c in n.owner && n.owner[c] == r.owner[c]
    requires At(n.received, c) == At(r.received, c) && At(n.d.channels, c) == At(r.d.channels, c)
    requires r.routed <= n.routed
    ensures ChannelFine(n, c)
  {
    hide At, Increasing;
  }

  lemma ChannelKept(r: Run, a: Action, c: nat)
    requires ChannelsFine(r) && c in r.owner
    ensures c in Step(r, a).owner && ChannelFine(Step(r, a), c)
  {
    hide ChannelFine;
    var n := Step(r, a);
    assert ChannelFine(r, c);
    if n == r {
    } else if a == Receive(c) {
      ReceiveKeepsChannel(r, c);
    } else if a == Abandon(c) {
      AbandonKeepsChannel(r, c);
    } else if a.Arrive? && Target(r.d, Message(|r.routed|, a.task, a.kind, a.nonce)) == Some(c) {
      ArriveKeepsChannel(r, Message(|r.routed|, a.task, a.kind, a.nonce), c);
    } else {
      OtherKeepsChannel(r, n, c);
    }
  }

  lemma ChannelsKept(r: Run, a: Action)
    requires NumbersRouted(r) && OverflowFine(r) && ChannelsFine(r)
    ensures ChannelsFine(Step(r, a))
  {
    hide ChannelFine, OverflowFine, NumbersRouted, Others, Dropped, LeftIn;
    var n := Step(r, a);
    ChannelNamesKept(r, a);
    forall c | c in n.owner ensures ChannelFine(n, c) {
      if c in r.owner {
        ChannelKept(r, a, c);
      } else {
        NewChannelFine(r, a.t);
      }
    }
    hide Step;
  }

  lemma ChannelNamesKept(r: Run, a: Action)
    requires ChannelNames(r)
    ensures ChannelNames(Step(r, a))
  {
    hide Own, Others, Dropped, LeftIn;
  }

  lemma NewChannelFine(r: Run, t: TaskID)
    requires !r.stuck && SubscribeReturns(r.d, t) && OverflowFine(r)
    ensures ChannelFine(Step(r, Subscribe(t)), r.d.made)
  {
    OwnMembers(r.d.overflow, t);
    OwnIncreasing(r.d.overflow, t);
    assert History(Step(r, Subscribe(t)), r.d.made) == Own(r.d.overflow, t);
  }

  lemma LeftAreItsOwn(r: Run, c: nat)
    requires c in r.owner && ChannelFine(r, c)
    ensures forall m :: m in LeftIn(r, c) ==> Known(r, m) && m.task == Some(r.owner[c]) == Some(LeftIn(r, c)[m])
  {
    forall m | m in LeftIn(r, c) ensures m in History(r, c) {
      assert m in At(r.d.channels, c);
    }
  }

  lemma DroppedAreItsOwn(r: Run, t: TaskID)
    requires OverflowFine(r)
    ensures forall m :: m in Own(r.d.overflow, t) ==> Known(r, m) && m.task == Some(t)
  {
    OwnMembers(r.d.overflow, t);
  }

  lemma DiscardsKept(r: Run, a: Action)
    requires NumbersRouted(r) && OverflowFine(r) && ChannelsFine(r) && DiscardsFine(r)
    ensures DiscardsFine(Step(r, a))
  {
    hide ChannelFine, Increasing, OverflowFine, Own, Others, LeftIn, Dropped, At, Target, DiscardsFine;
    if a.Abandon? && a.c in r.owner {
      LeftAreItsOwn(r, a.c);
      DiscardsGrow(r, Step(r, a), LeftIn(r, a.c));
    } else if (a.Unsubscribe? || a.ClearOverflow?) && !r.stuck {
      DroppedAreItsOwn(r, a.t);
      DiscardsGrow(r, Step(r, a), map m | m in Own(r.d.overflow, a.t) :: a.t) by { DroppedIs(r, a.t); }
    } else {
      assert r.discarded + map[] == r.discarded;
      DiscardsGrow(r, Step(r, a), map[]);
    }
  }

  lemma DroppedIs(r: Run, t: TaskID)
    ensures Dropped(r, t) == r.discarded + map m | m in Own(r.d.overflow, t) :: t
  {
  }

  lemma DiscardsGrow(r: Run, n: Run, more: map<Message, TaskID>)
    requires DiscardsFine(r) && r.routed <= n.routed && n.discarded == r.discarded + more
    requires forall m :: m in more ==> Known(r, m) && m.task == Some(more[m])
    ensures DiscardsFine(n)
  {
  }

  lemma {:induction false} AlwaysConserved(actions: seq<Action>)
    ensures Inv(After(actions))
  {
    if actions == [] {
      assert Placed(BEGIN, []);
    } else {
      var r, a := After(actions[..|actions| - 1]), actions[|actions| - 1];
      AlwaysConserved(actions[..|actions| - 1]);
      hide Step, Conserved, NumbersRouted, OverflowFine, ChannelsFine, DiscardsFine;
      PlacesKept(r, a);
      OverflowKept(r, a);
      ChannelsKept(r, a);
      DiscardsKept(r, a);
    }
  }

  /* What that is worth. */

  /** No message is duplicated or gets out of sight: it is in exactly one place, and there only once. */
  lemma EveryMessageIsInOnePlace(actions: seq<Action>, n: nat)
    requires n < |After(actions).routed|
    ensures exists p :: IsAt(After(actions), After(actions).routed[n], p)
    ensures Increasing(After(actions).d.overflow)
    ensures forall c :: c in After(actions).owner ==>
      Increasing(History(After(actions), c)) && |At(After(actions).d.channels, c)| <= 16
  {
    var r := After(actions);
    AlwaysConserved(actions);
    var place: seq<Place> :| Placed(r, place);
    assert IsAt(r, r.routed[n], place[n]);
    forall c | c in r.owner ensures Increasing(History(r, c)) && |At(r.d.channels, c)| <= 16 {
      assert ChannelFine(r, c);
    }
  }

  /** A message is only ever thrown away on behalf of the task it names. */
  lemma OnlyItsOwnTaskDiscards(actions: seq<Action>, m: Message)
    requires m in After(actions).discarded
    ensures m.task == Some(After(actions).discarded[m])
  {
    AlwaysConserved(actions);
  }

  /** What one subscription receives: messages for its task, in the order of their arrival. */
  lemma ReceivedInOrder(actions: seq<Action>, c: nat, i: nat, j: nat)
    requires c in After(actions).owner && i < j < |At(After(actions).received, c)|
    ensures
      var r := After(actions);
      var got := At(r.received, c);
      && got[i].id < got[j].id < |r.routed|
      && r.routed[got[i].id] == got[i] && r.routed[got[j].id] == got[j]
      && got[i].task == got[j].task == Some(r.owner[c])
  {
    var r := After(actions);
    AlwaysConserved(actions);
    assert ChannelFine(r, c);
    var got, all := At(r.received, c), History(r, c);
    assert all[i] == got[i] && all[j] == got[j];
    assert got[i] in all && got[j] in all;
  }

  /** The task whose messages an action is about. */
  function Concerns(r: Run, a: Action): Option<TaskID> {
    match a
    case Arrive(task, _, _) => task
    case Receive(c) => if c in r.owner then Some(r.owner[c]) else None
    case Abandon(c) => if c in r.owner then Some(r.owner[c]) else None
    case Subscribe(t) => Some(t)
    case Unsubscribe(t) => Some(t)
    case ClearOverflow(t) => Some(t)
  }

  /** All that the demultiplexer holds for a task: its stored messages and its waiter's channel. */
  function HeldFor(r: Run, u: TaskID): (seq<Message>, Option<nat>, seq<Message>) {
    (Own(r.d.overflow, u), Find(r.d.waiters, u),
     if u in r.d.waiters then At(r.d.channels, r.d.waiters[u]) else [])
  }

  /** Nothing done for one task loses, duplicates or reorders another's messages. */
  lemma OthersUntouched(actions: seq<Action>, a: Action, u: TaskID)
    requires Concerns(After(actions), a) != Some(u)
    ensures HeldFor(Step(After(actions), a), u) == HeldFor(After(actions), u)
  {
    var r := After(actions);
    AlwaysConserved(actions);
    hide After, Conserved;
    match a
    case Arrive(task, kind, nonce) =>
      SnocOwn(r.d.overflow, Message(|r.routed|, task, kind, nonce), u);
    case Receive(c) =>
    case Abandon(c) =>
    case _ => OthersKeep(r.d.overflow, a.t, u);
  }

  /* Who gets a message. */

  /** How many channels have been made. */
  function Subscriptions(actions: seq<Action>): nat {
    if actions == [] then 0
    else
      var before, a := actions[..|actions| - 1], actions[|actions| - 1];
      Subscriptions(before) + if a.Subscribe? && !After(actions).stuck then 1 else 0
  }

  /** The channel made for the task's last call to subscribe, unless it has unsubscribed since. */
  function WaitsOn(actions: seq<Action>, t: TaskID): Option<nat> {
    if actions == [] then None
    else
      var before, a := actions[..|actions| - 1], actions[|actions| - 1];
      if After(actions).stuck then WaitsOn(before, t)
      else if a == Subscribe(t) then Some(Subscriptions(before))
      else if a == Unsubscribe(t) then None
      else WaitsOn(before, t)
  }

  lemma {:induction false} WaitersAreKnown(actions: seq<Action>, t: TaskID)
    ensures After(actions).d.made == Subscriptions(actions)
    ensures Find(After(actions).d.waiters, t) == WaitsOn(actions, t)
  {
    if actions != [] {
      WaitersAreKnown(actions[..|actions| - 1], t);
      StepOnWaiter(After(actions[..|actions| - 1]), actions[|actions| - 1], t);
      hide Step;
    }
  }

  lemma StepOnWaiter(r: Run, a: Action, t: TaskID)
    ensures
      var n := Step(r, a);
      && n.d.made == r.d.made + (if a.Subscribe? && !n.stuck then 1 else 0)
      && Find(n.d.waiters, t) ==
           if n.stuck then Find(r.d.waiters, t)
           else if a == Subscribe(t) then Some(r.d.made)
           else if a == Unsubscribe(t) then None
           else Find(r.d.waiters, t)
  {
    hide Own, Others, Target, Dropped, LeftIn;
  }

  /**
   * A message that arrives for a task somebody waits for goes last into that one's channel
   * if there is room for it; any other is stored last, and nothing else changes.
   */
  lemma DeliveredOrStored(actions: seq<Action>, task: Option<TaskID>, kind: Kind, nonce: string)
    requires !After(actions).stuck
    ensures
      var r, n := After(actions), After(actions + [Arrive(task, kind, nonce)]);
      var m := Message(|r.routed|, task, kind, nonce);
      var waiter := if task.Some? && task.value != "" then WaitsOn(actions, task.value) else None;
      && n.routed == r.routed + [m] && n.received == r.received && n.d.waiters == r.d.waiters
      && (if waiter.Some? && |At(r.d.channels, waiter.value)| < 16 then
            && n.d.overflow == r.d.overflow
            && n.d.channels == r.d.channels[waiter.value := At(r.d.channels, waiter.value) + [m]]
          else n.d.overflow == r.d.overflow + [m] && n.d.channels == r.d.channels)
  {
    assert (actions + [Arrive(task, kind, nonce)])[..|actions|] == actions;
    if task.Some? { WaitersAreKnown(actions, task.value); }
  }

  /** A new subscriber finds all that was stored for its task, and nothing of it stays stored. */
  lemma SubscriberGetsWhatWasStored(actions: seq<Action>, t: TaskID)
    requires !After(actions).stuck && !After(actions + [Subscribe(t)]).stuck
    ensures
      var r, n := After(actions), After(actions + [Subscribe(t)]);
      var c := Subscriptions(actions);
      && c !in r.d.channels && c in n.d.channels && WaitsOn(actions + [Subscribe(t)], t) == Some(c)
      && Increasing(n.d.channels[c]) && Increasing(n.d.overflow)
      && (forall m :: m in n.d.channels[c] <==> m in r.d.overflow && m.task == Some(t))
      && (forall m :: m in n.d.overflow <==> m in r.d.overflow && m.task != Some(t))
  {
    var r := After(actions);
    assert (actions + [Subscribe(t)])[..|actions|] == actions;
    WaitersAreKnown(actions, t);
    AlwaysConserved(actions);
    OwnMembers(r.d.overflow, t);
    OwnIncreasing(r.d.overflow, t);
    hide Own, Others, Increasing, Conserved, ChannelFine, DiscardsFine, NumbersRouted, After;
  }

  /** After a task has unsubscribed, or its stored messages are cleared, none is stored for it. */
  lemma NothingStaysStored(actions: seq<Action>, t: TaskID, a: Action)
    requires !After(actions).stuck && a in {Unsubscribe(t), ClearOverflow(t)}
    ensures
      var r, n := After(actions), After(actions + [a]);
      && (forall m :: m in n.d.overflow <==> m in r.d.overflow && m.task != Some(t))
      && (a.Unsubscribe? ==> WaitsOn(actions + [a], t) == None)
  {
    assert (actions + [a])[..|actions|] == actions;
    OwnMembers(After(actions).d.overflow, t);
  }

  /* When subscribing blocks. */

  /** `n` messages of one task, none of which anybody waits for. */
  function Arrivals(t: TaskID, n: nat): seq<Action> {
    seq(n, i => Arrive(Some(t), OtherKind, ""))
  }

  lemma {:induction false} ArrivalsPileUp(t: TaskID, n: nat)
    ensures var r := After(Arrivals(t, n));
      !r.stuck && r.d.waiters == map[] && |Own(r.d.overflow, t)| == n
  {
    if n == 0 {
    } else {
      ArrivalsPileUp(t, n - 1);
      assert Arrivals(t, n)[..n - 1] == Arrivals(t, n - 1);
      var r := After(Arrivals(t, n - 1));
      SnocOwn(r.d.overflow, Message(|r.routed|, Some(t), OtherKind, ""), t);
    }
  }

  /** Subscribing never returns once more than a channel's worth of messages is stored for the task. */
  lemma SubscribingCanBlock(t: TaskID, n: nat)
    ensures After(Arrivals(t, n) + [Subscribe(t)]).stuck <==> n > CAPACITY
  {
    ArrivalsPileUp(t, n);
    assert (Arrivals(t, n) + [Subscribe(t)])[..n] == Arrivals(t, n);
  }

  /** After that the demultiplexer takes in nothing more, for any task. */
  lemma {:induction false} StuckForGood(before: seq<Action>, more: seq<Action>)
    requires After(before).stuck
    ensures After(before + more).stuck && After(before + more).routed == After(before).routed
  {
    if more == [] {
      assert before + more == before;
    } else {
      var k := |more| - 1;
      StuckForGood(before, more[..k]);
      assert (before + more)[..|before + more| - 1] == before + more[..k];
    }
  }

  /* Waiting for a result. */

  /** What the select of the waiting loop can come back with. */
  datatype Event =
    | Cancelled
    | TimedOut
    | Closed
    | Tick(healthy: bool)
    | Heard(m: Message, forwarded: bool)   // `forwarded`: passing a user's query on succeeded

  datatype Failure = Cancellation | Timeout | Unhealthy | ForwardFailed | ChannelClosed

  datatype Outcome = Got(m: Message) | Failed(why: Failure) | StillWaiting

  /** A result of an earlier dispatch of the same task. */
  predicate Stale(m: Message, expected: string) {
    expected != "" && m.kind.TaskResult? && m.nonce != "" && m.nonce != expected
  }

  /** The waiting loop goes on after this. */
  predicate Ignored(e: Event, expected: string) {
    match e
    case Tick(healthy) => healthy
    case Heard(m, forwarded) => Stale(m, expected) || m.kind.OtherKind? || (m.kind.UserQuery? && forwarded)
    case _ => false
  }

  /** Which failure ends the wait with `e`, if it does end it without a message. */
  predicate EndsWith(e: Event, why: Failure) {
    match why
    case Cancellation => e.Cancelled?
    case Timeout => e.TimedOut?
    case ChannelClosed => e.Closed?
    case Unhealthy => e == Tick(false)
    case ForwardFailed => e.Heard? && e.m.kind.UserQuery? && !e.forwarded
  }

  /** `i` is the first event that is not ignored. */
  predicate Decides(events: seq<Event>, expected: string, i: nat) {
    i < |events| && !Ignored(events[i], expected) && forall j :: 0 <= j < i ==> Ignored(events[j], expected)
  }

  method WaitForResult(events: seq<Event>, expected: string) returns (r: Outcome)
    ensures r.StillWaiting? <==> forall i :: 0 <= i < |events| ==> Ignored(events[i], expected)
    ensures r.Got? ==> !Stale(r.m, expected) && (r.m.kind.TaskResult? || r.m.kind.Escalation?)
    ensures r.Got? ==>
      exists i: nat :: Decides(events, expected, i) && events[i].Heard? && events[i].m == r.m
    ensures r.Failed? ==> exists i: nat :: Decides(events, expected, i) && EndsWith(events[i], r.why)
  {
    for i := 0 to |events|
      invariant forall j :: 0 <= j < i ==> Ignored(events[j], expected)
    {
      var e := events[i];
      assert !Ignored(e, expected) ==> Decides(events, expected, i);
      match e
      case Cancelled => return Failed(Cancellation);
      case TimedOut => return Failed(Timeout);
      case Closed => return Failed(ChannelClosed);
      case Tick(healthy) =>
        if !healthy { return Failed(Unhealthy); }
      case Heard(m, forwarded) =>
        if expected != "" && m.kind.TaskResult? {
          if m.nonce != "" && m.nonce != expected { continue; }
        }
        if m.kind.UserQuery? {
          if !forwarded { return Failed(ForwardFailed); }
          continue;
        }
        if m.kind.TaskResult? || m.kind.Escalation? { return Got(m); }
    }
    return StillWaiting;
  }

  /**
   * What ends a wait: being cancelled, running out of time, a closed channel or a failed health
   * check; a user's query that cannot be passed on; an escalation; and a task result, unless it
   * carries a nonce that is not the one expected.
   */
  lemma WhatEndsTheWait(e: Event, expected: string)
    ensures !Ignored(e, expected) <==>
      || e.Cancelled? || e.TimedOut? || e.Closed? || e == Tick(false)
      || (e.Heard? && e.m.kind.UserQuery? && !e.forwarded)
      || (e.Heard? && e.m.kind.Escalation?)
      || (e.Heard? && e.m.kind.TaskResult? && (expected == "" || e.m.nonce in {"", expected}))
    ensures forall why :: EndsWith(e, why) ==>
      && !Ignored(e, expected)
      && why == if e.Cancelled? then Cancellation else if e.TimedOut? then Timeout
                else if e.Closed? then ChannelClosed else if e.Tick? then Unhealthy else ForwardFailed
  {
  }

  /** The messages a wait took from its channel. */
  function HeardIn(events: seq<Event>): seq<Message> {
    if events == [] then []
    else if events[0].Heard? then [events[0].m] + HeardIn(events[1..]) else HeardIn(events[1..])
  }

  lemma {:induction false} HeardAreHeard(events: seq<Event>, i: nat)
    requires i < |events| && events[i].Heard?
    ensures events[i].m in HeardIn(events)
  {
    if i == 0 {
    } else {
      HeardAreHeard(events[1..], i - 1);
    }
  }

  /**
   * A task result that ends a wait is one that was routed for that very task, and
   * if every dispatch has a nonce of its own it does not carry an earlier one's.
   */
  lemma ResultIsOfThisDispatch(
      actions: seq<Action>, c: nat, events: seq<Event>, i: nat, nonces: seq<string>, mine: nat, its: nat)
    requires c in After(actions).owner && HeardIn(events) <= History(After(actions), c)
    requires mine < |nonces| && its < |nonces|
    requires forall j :: 0 <= j < |nonces| ==> nonces[j] != ""
    requires forall j, k :: 0 <= j < k < |nonces| ==> nonces[j] != nonces[k]
    requires Decides(events, nonces[mine], i) && events[i].Heard? && events[i].m.kind.TaskResult?
    requires events[i].m.nonce == nonces[its]
    ensures its == mine
    ensures events[i].m.task == Some(After(actions).owner[c]) && events[i].m in After(actions).routed
  {
    var r := After(actions);
    AlwaysConserved(actions);
    assert ChannelFine(r, c);
    HeardAreHeard(events, i);
    var k :| 0 <= k < |HeardIn(events)| && HeardIn(events)[k] == events[i].m;
    assert History(r, c)[k] == events[i].m;
  }
}
