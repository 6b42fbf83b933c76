/**
 * The local development certificate authority that several processes share
 * through a directory.  Every load of it may replace the active CA; a replaced CA
 * stays in the trust bundle for a while, so that the certificates it has signed
 * can still be verified.  Times and durations are in nanoseconds.
 */
module CARotation {
  import opened Wrappers

  const HOUR: int := 3_600_000_000_000

  const DEFAULT_TTL := 24 * HOUR
  const MAX_LEAF_TTL := 24 * HOUR
  const ROTATION_WINDOW := 30 * 24 * HOUR
  const RETIRED_ROOT_TTL := MAX_LEAF_TTL + HOUR

  datatype CA = CA(pem: string, notAfter: int)

  datatype Root = Root(pem: string, retireAfter: int)

  datatype State = State(active: Option<CA>, retired: seq<Root>)

  const EMPTY := State(None, [])

  /** One load of the shared issuer: when, and the CA it makes if it needs a new one. */
  datatype Load = Load(now: int, made: CA)

  function RequestedTTL(value: int): (r: int)
    ensures 0 < r <= MAX_LEAF_TTL
    ensures 0 < value <= MAX_LEAF_TTL ==> r == value
    ensures value <= 0 || value > MAX_LEAF_TTL ==> r == 24 * HOUR
  {
    if value <= 0 then DEFAULT_TTL else if value > MAX_LEAF_TTL then MAX_LEAF_TTL else value
  }

  predicate ShouldRotate(ca: CA, now: int) {
    ca.notAfter - now <= ROTATION_WINDOW
  }

  /** A time made from a count of nanoseconds is never the zero time, so only the comparison matters. */
  predicate KeepRoot(x: Root, now: int) {
    x.pem != "" && x.retireAfter > now
  }

  function Pruned(roots: seq<Root>, now: int): seq<Root> {
    if roots == [] then []
    else if KeepRoot(roots[0], now) then [roots[0]] + Pruned(roots[1..], now) else Pruned(roots[1..], now)
  }

  function Ensured(s: State, l: Load): State {
    var active := if s.active.Some? then s.active.value else l.made;
    var kept := Pruned(s.retired, l.now);
    if !ShouldRotate(active, l.now) then State(Some(active), kept)
    else State(
      Some(l.made),
      if active.notAfter > l.now then kept + [Root(active.pem, l.now + RETIRED_ROOT_TTL)] else kept)
  }

  function After(loads: seq<Load>): State {
    if loads == [] then EMPTY else Ensured(After(loads[..|loads| - 1]), loads[|loads| - 1])
  }

  /** The roots of the bundle that a load returns. */
  function Roots(s: State): seq<string> {
    (if s.active.Some? then [s.active.value.pem] else []) + NonEmpty(s.retired)
  }

  function NonEmpty(roots: seq<Root>): seq<string> {
    if roots == [] then []
    else if roots[0].pem == "" then NonEmpty(roots[1..]) else [roots[0].pem] + NonEmpty(roots[1..])
  }

  /** Clocks do not go back, new CAs have keys of their own and outlive the rotation window. */
  predicate Sound(loads: seq<Load>) {
    && (forall i, j :: 0 <= i < j < |loads| ==> loads[i].now <= loads[j].now)
    && (forall i, j :: 0 <= i < j < |loads| ==> loads[i].made.pem != loads[j].made.pem)
    && (forall i :: 0 <= i < |loads| ==>
          loads[i].made.pem != "" && loads[i].made.notAfter - loads[i].now > ROTATION_WINDOW)
  }

  /* Pruning. */

  lemma {:induction false} PrunedMembers(roots: seq<Root>, now: int)
    ensures forall x :: x in Pruned(roots, now) <==> x in roots && KeepRoot(x, now)
  {
    if roots == [] {
    } else {
      PrunedMembers(roots[1..], now);
      assert roots == [roots[0]] + roots[1..];
    }
  }

  lemma {:induction false} PrunedSnoc(roots: seq<Root>, x: Root, now: int)
    ensures Pruned(roots + [x], now) == Pruned(roots, now) + if KeepRoot(x, now) then [x] else []
  {
    if roots == [] {
      assert roots + [x] == [x];
    } else {
      assert (roots + [x])[1..] == roots[1..] + [x];
      PrunedSnoc(roots[1..], x, now);
    }
  }

  /** Pruning twice is pruning once at the later time. */
  lemma {:induction false} PrunedTwice(roots: seq<Root>, a: int, b: int)
    requires a <= b
    ensures Pruned(Pruned(roots, a), b) == Pruned(roots, b)
  {
    if roots == [] {
    } else {
      PrunedTwice(roots[1..], a, b);
      if KeepRoot(roots[0], a) {
        assert Pruned(roots, a)[1..] == Pruned(roots[1..], a);
      }
    }
  }

  method PruneRetiredRoots(roots: seq<Root>, now: int) returns (filtered: seq<Root>)
    ensures filtered == Pruned(roots, now)
  {
    filtered := [];
    for i := 0 to |roots|
      invariant filtered == Pruned(roots[..i], now)
    {
      assert roots[..i + 1] == roots[..i] + [roots[i]];
      PrunedSnoc(roots[..i], roots[i], now);
      if roots[i].pem == "" { continue; }
      if roots[i].retireAfter > now {
        filtered := filtered + [roots[i]];
      }
    }
    assert roots[..|roots|] == roots;
  }

  lemma {:induction false} NonEmptyMembers(roots: seq<Root>)
    ensures forall p :: p in NonEmpty(roots) <==> p != "" && exists x :: x in roots && x.pem == p
  {
    if roots == [] {
    } else {
      NonEmptyMembers(roots[1..]);
      assert roots == [roots[0]] + roots[1..];
    }
  }

  /* The bundle. */

  datatype Bundle = Bundle(pool: seq<string>, text: string)

  /** The roots one after the other, each ending its last line. */
  function Lines(pems: seq<string>): string {
    if pems == [] then ""
    else
      var s := Lines(pems[..|pems| - 1]) + pems[|pems| - 1];
      if s == "" || s[|s| - 1] != '\n' then s + "\n" else s
  }

  /** What is put after a root: a line break, unless it ends with one. */
  function LineEnd(pem: string): string {
    if pem == "" || pem[|pem| - 1] != '\n' then "\n" else ""
  }

  /** Every root in its order with at most a line break after it, and nothing else. */
  function Printed(pems: seq<string>): string {
    if pems == [] then "" else pems[0] + LineEnd(pems[0]) + Printed(pems[1..])
  }

  lemma {:induction false} PrintedSnoc(pems: seq<string>, x: string)
    ensures Printed(pems + [x]) == Printed(pems) + (x + LineEnd(x))
  {
    if pems == [] {
      assert pems + [x] == [x] && [x][1..] == [];
      assert Printed([x]) == x + LineEnd(x) + "" == "" + (x + LineEnd(x));
    } else {
      assert (pems + [x])[1..] == pems[1..] + [x];
      PrintedSnoc(pems[1..], x);
    }
  }

  lemma LastLine(text: string, pem: string)
    requires pem != ""
    ensures
      var s := text + pem;
      (if s == "" || s[|s| - 1] != '\n' then s + "\n" else s) == text + (pem + LineEnd(pem))
  {
    var s := text + pem;
    assert s[|s| - 1] == pem[|pem| - 1];
    assert s + "\n" == text + (pem + "\n") && s == text + (pem + "");
  }

  /** The text the loop builds, which looks at all it has written so far, is just the roots line by line. */
  lemma {:induction false} LinesArePrinted(pems: seq<string>)
    requires forall p :: p in pems ==> p != ""
    ensures Lines(pems) == Printed(pems)
  {
    if pems != [] {
      var before, last := pems[..|pems| - 1], pems[|pems| - 1];
      assert pems == before + [last] && last in pems && forall p :: p in before ==> p in pems;
      LinesArePrinted(before);
      PrintedSnoc(before, last);
      LastLine(Lines(before), last);
    }
  }

  lemma RootsArePrinted(active: CA, retired: seq<Root>)
    requires active.pem != ""
    ensures
      var roots := Roots(State(Some(active), retired));
      Lines(roots) == Printed(roots)
  {
    NonEmptyMembers(retired);
    LinesArePrinted(Roots(State(Some(active), retired)));
  }

  /** `pem` stands in the text from the start of a line to the end of one. */
  ghost predicate StandsIn(pem: string, text: string) {
    exists a, b :: StandsBetween(a, pem, b, text)
  }

  predicate StandsBetween(a: string, pem: string, b: string, text: string) {
    && text == a + pem + b
    && (a == "" || a[|a| - 1] == '\n')
    && ((b != "" && b[0] == '\n') || (pem != "" && pem[|pem| - 1] == '\n'))
  }

  lemma {:induction false} EveryRootStands(pems: seq<string>, pem: string)
    requires pem in pems
    ensures StandsIn(pem, Printed(pems))
  {
    var first, rest := pems[0] + LineEnd(pems[0]), Printed(pems[1..]);
    hide StandsBetween;
    if pem == pems[0] {
      StandsFirst(pem, rest);
    } else {
      EveryRootStands(pems[1..], pem);
      var a, b :| StandsBetween(a, pem, b, rest);
      StandsLater(first, a, pem, b, rest);
    }
  }

  lemma StandsFirst(pem: string, rest: string)
    ensures StandsBetween("", pem, LineEnd(pem) + rest, pem + LineEnd(pem) + rest)
  {
    assert pem + LineEnd(pem) + rest == "" + pem + (LineEnd(pem) + rest);
  }

  lemma StandsLater(first: string, a: string, pem: string, b: string, rest: string)
    requires StandsBetween(a, pem, b, rest) && first != "" && first[|first| - 1] == '\n'
    ensures StandsBetween(first + a, pem, b, first + rest)
  {
    assert first + (a + pem + b) == first + a + pem + b;
  }

  lemma {:induction false} NonEmptySnoc(roots: seq<Root>, x: Root)
    ensures NonEmpty(roots + [x]) == NonEmpty(roots) + if x.pem == "" then [] else [x.pem]
  {
    if roots == [] {
      assert roots + [x] == [x];
    } else {
      assert (roots + [x])[1..] == roots[1..] + [x];
      NonEmptySnoc(roots[1..], x);
    }
  }

  /** There is a bundle exactly if every root parses, and then it holds every root. */
  method BuildTrustBundle(active: CA, retired: seq<Root>, parses: string -> bool) returns (r: Option<Bundle>)
    ensures r.Some? <==> forall p :: p in Roots(State(Some(active), retired)) ==> parses(p)
    ensures r.Some? ==> r.value.pool == Roots(State(Some(active), retired)) && r.value.text == Lines(r.value.pool)
    ensures r.Some? && active.pem != "" ==> r.value.text == Printed(r.value.pool)
  {
    var roots := [active.pem];
    for i := 0 to |retired|
      invariant roots == [active.pem] + NonEmpty(retired[..i])
    {
      assert retired[..i + 1] == retired[..i] + [retired[i]];
      NonEmptySnoc(retired[..i], retired[i]);
      if retired[i].pem == "" { continue; }
      roots := roots + [retired[i].pem];
    }
    assert retired[..|retired|] == retired;
    var pool, text := [], "";
    for i := 0 to |roots|
      invariant pool == roots[..i] && text == Lines(roots[..i])
      invariant forall p :: p in pool ==> parses(p)
    {
      assert roots[..i + 1][..i] == roots[..i];
      text := text + roots[i];
      if |text| == 0 || text[|text| - 1] != '\n' {
        text := text + "\n";
      }
      if !parses(roots[i]) { return None; }
      pool := pool + [roots[i]];
    }
    assert roots[..|roots|] == roots;
    if active.pem != "" { RootsArePrinted(active, retired); }
    return Some(Bundle(pool, text));
  }

  /* Loading. */

  class Issuer {
    var active: Option<CA>
    var retired: seq<Root>

    function View(): State
      reads this
    {
      State(active, retired)
    }

    constructor ()
      ensures View() == EMPTY
    {
      active, retired := None, [];
    }

    /** The load of the shared issuer, under its lock. */
    method EnsureSharedIssuerState(now: int, made: CA) returns (ca: CA)
      modifies this
      ensures View() == Ensured(old(View()), Load(now, made)) && active == Some(ca)
    {
      ca := if active.Some? then active.value else made;
      retired := PruneRetiredRoots(retired, now);
      if ShouldRotate(ca, now) {
        if ca.notAfter > now {
          retired := retired + [Root(ca.pem, now + RETIRED_ROOT_TTL)];
        }
        ca := made;
      }
      active := Some(ca);
    }
  }

  /* Whole runs. */

  /** Every certificate came from a load, and the active CA has not been retired. */
  predicate Inv(loads: seq<Load>, s: State) {
    && (loads != [] ==> s.active.Some?)
    && (s.active.Some? ==> exists i :: 0 <= i < |loads| && loads[i].made == s.active.value)
    && (forall x :: x in s.retired ==> exists i :: 0 <= i < |loads| && loads[i].made.pem == x.pem)
    && (s.active.Some? ==> forall x :: x in s.retired ==> x.pem != s.active.value.pem)
  }

  lemma {:induction false} AlwaysInv(loads: seq<Load>)
    requires Sound(loads)
    ensures Inv(loads, After(loads))
  {
    if loads == [] {
    } else {
      var before, l := loads[..|loads| - 1], loads[|loads| - 1];
      AlwaysInv(before);
      assert forall i :: 0 <= i < |before| ==> before[i] == loads[i];
      hide After, Sound;
      AfterMore(before, l);
      assert loads == before + [l];
      EnsuredInv(before, l, After(before));
    }
  }

  lemma EnsuredInv(before: seq<Load>, l: Load, s: State)
    requires Inv(before, s) && !ShouldRotate(l.made, l.now)
    requires forall i :: 0 <= i < |before| ==> before[i].made.pem != l.made.pem
    ensures Inv(before + [l], Ensured(s, l))
  {
    var all := before + [l];
    PrunedMembers(s.retired, l.now);
    assert all[|before|] == l && forall i :: 0 <= i < |before| ==> all[i] == before[i];
    if s.active.Some? {
      var i :| 0 <= i < |before| && before[i].made == s.active.value;
      assert all[i].made == s.active.value && s.active.value.pem != l.made.pem;
    }
    assert all[|before|].made == l.made;
    forall x | x in s.retired
      ensures x.pem != l.made.pem && exists i :: 0 <= i < |all| && all[i].made.pem == x.pem
    {
      var i :| 0 <= i < |before| && before[i].made.pem == x.pem;
      assert all[i].made.pem == x.pem;
    }
  }

  /** What a load returns outlives the rotation window. */
  lemma LoadedOutlivesWindow(loads: seq<Load>)
    requires Sound(loads) && loads != []
    ensures
      var s := After(loads);
      s.active.Some? && s.active.value.pem != ""
      && s.active.value.notAfter - loads[|loads| - 1].now > ROTATION_WINDOW
  {
    AlwaysInv(loads);
  }

  /** From when on a CA's root can be missing: its earliest rotation plus the margin. */
  function Uncovered(ca: CA): int {
    ca.notAfter - ROTATION_WINDOW + RETIRED_ROOT_TTL
  }

  predicate Holds(s: State, ca: CA) {
    s.active == Some(ca) || exists x :: x in s.retired && x.pem == ca.pem && x.retireAfter >= Uncovered(ca)
  }

  lemma HoldsMeansTrusted(s: State, ca: CA)
    requires Holds(s, ca) && ca.pem != ""
    ensures ca.pem in Roots(s)
  {
    NonEmptyMembers(s.retired);
  }

  lemma EnsuredHolds(s: State, l: Load, ca: CA)
    requires Holds(s, ca) && ca.pem != "" && l.now < Uncovered(ca)
    ensures Holds(Ensured(s, l), ca)
  {
    var t := Ensured(s, l);
    PrunedMembers(s.retired, l.now);
    if s.active == Some(ca) {
      if ShouldRotate(ca, l.now) {
        assert t.retired[|t.retired| - 1] == Root(ca.pem, l.now + RETIRED_ROOT_TTL);
        assert t.retired[|t.retired| - 1] in t.retired;
      }
    } else {
      var x :| x in s.retired && x.pem == ca.pem && x.retireAfter >= Uncovered(ca);
      assert x in Pruned(s.retired, l.now);
      assert x in t.retired;
    }
  }

  lemma SoundSoFar(loads: seq<Load>, l: Load)
    requires Sound(loads + [l])
    ensures Sound(loads) && (loads != [] ==> loads[|loads| - 1].now <= l.now)
  {
    var all := loads + [l];
    assert forall i :: 0 <= i < |loads| ==> all[i] == loads[i];
    assert all[|loads|] == l;
  }

  lemma {:induction false} StaysHeld(loads: seq<Load>, later: seq<Load>, ca: CA)
    requires loads != [] && Sound(loads + later)
    requires After(loads).active == Some(ca) && ca.pem != ""
    requires later != [] ==> later[|later| - 1].now < Uncovered(ca)
    ensures Holds(After(loads + later), ca)
  {
    if later == [] {
      assert loads + later == loads;
    } else {
      var k := |later| - 1;
      assert loads + later == loads + later[..k] + [later[k]];
      SoundSoFar(loads + later[..k], later[k]);
      assert k > 0 ==> (loads + later)[|loads| + k - 1] == later[k - 1];
      StaysHeld(loads, later[..k], ca);
      hide After, Holds, Sound;
      AfterMore(loads + later[..k], later[k]);
      EnsuredHolds(After(loads + later[..k]), later[k], ca);
    }
  }

  /** Whatever happens until `expiry`, the bundle of every load holds the root of `ca`. */
  ghost predicate AlwaysTrusted(loads: seq<Load>, ca: CA, expiry: int) {
    forall later: seq<Load> ::
      Sound(loads + later) && (later != [] ==> later[|later| - 1].now <= expiry)
      ==> ca.pem in Roots(After(loads + later))
  }

  lemma TrustedBeforeMargin(loads: seq<Load>, later: seq<Load>, ca: CA)
    requires loads != [] && Sound(loads) && Sound(loads + later) && After(loads).active == Some(ca)
    requires later != [] ==> later[|later| - 1].now < Uncovered(ca)
    ensures ca.pem in Roots(After(loads + later))
  {
    LoadedOutlivesWindow(loads);
    StaysHeld(loads, later, ca);
    HoldsMeansTrusted(After(loads + later), ca);
  }

  /* And not a moment longer. */

  function Longest(loads: seq<Load>): (n: nat)
    ensures forall i :: 0 <= i < |loads| ==> |loads[i].made.pem| <= n
  {
    if loads == [] then 0
    else
      var k := |loads| - 1;
      var n := Longest(loads[..k]);
      assert forall i :: 0 <= i < k ==> loads[..k][i] == loads[i];
      if |loads[k].made.pem| > n then |loads[k].made.pem| else n
  }

  /** A load at `now` whose CA has a certificate no load so far has had. */
  function Another(loads: seq<Load>, now: int): Load {
    Load(now, CA(seq(Longest(loads) + 1, i => 'x'), now + 2 * ROTATION_WINDOW))
  }

  lemma AnotherIsSound(loads: seq<Load>, now: int)
    requires Sound(loads) && (loads != [] ==> loads[|loads| - 1].now <= now)
    ensures Sound(loads + [Another(loads, now)])
  {
    var more := loads + [Another(loads, now)];
    forall i | 0 <= i < |loads| ensures more[i].now <= now && more[i].made.pem != more[|loads|].made.pem {
      assert i < |loads| - 1 ==> loads[i].now <= loads[|loads| - 1].now;
      assert |loads[i].made.pem| <= Longest(loads);
    }
  }

  /** A load at the earliest moment of rotation, and one when the margin has passed. */
  function RotateAndPrune(loads: seq<Load>, ca: CA): seq<Load> {
    var first := Another(loads, ca.notAfter - ROTATION_WINDOW);
    [first, Another(loads + [first], Uncovered(ca))]
  }

  /** Two loads at just these moments leave the CA's root behind. */
  lemma RotatedAndPruned(s: State, ca: CA, a: Load, b: Load)
    requires s.active == Some(ca) && forall x :: x in s.retired ==> x.pem != ca.pem
    requires a.now == ca.notAfter - ROTATION_WINDOW && b.now == Uncovered(ca)
    requires a.made.pem != ca.pem && b.made.pem != ca.pem
    ensures ca.pem !in Roots(Ensured(Ensured(s, a), b))
  {
    var t, u := Ensured(s, a), Ensured(Ensured(s, a), b);
    PrunedMembers(s.retired, a.now);
    PrunedMembers(t.retired, b.now);
    NonEmptyMembers(u.retired);
  }

  lemma AfterMore(loads: seq<Load>, l: Load)
    ensures After(loads + [l]) == Ensured(After(loads), l)
  {
    assert (loads + [l])[..|loads|] == loads;
  }

  lemma UntrustedAfterMargin(loads: seq<Load>, ca: CA)
    requires loads != [] && Sound(loads) && After(loads).active == Some(ca)
    ensures Sound(loads + RotateAndPrune(loads, ca))
    ensures ca.pem !in Roots(After(loads + RotateAndPrune(loads, ca)))
  {
    var a := Another(loads, ca.notAfter - ROTATION_WINDOW);
    var b := Another(loads + [a], Uncovered(ca));
    assert loads + RotateAndPrune(loads, ca) == loads + [a] + [b];
    LoadedOutlivesWindow(loads);
    AnotherIsSound(loads, a.now);
    AnotherIsSound(loads + [a], b.now);
    AlwaysInv(loads);
    AfterMore(loads, a);
    AfterMore(loads + [a], b);
    var j :| 0 <= j < |loads| && loads[j].made == ca;
    var all := loads + [a] + [b];
    assert all[j] == loads[j] && all[|loads|] == a && all[|loads| + 1] == b;
    hide After, Another, Roots, Ensured;
    RotatedAndPruned(After(loads), ca, a, b);
  }

  /**
   * A leaf certificate that expires at `expiry` can be verified for as long as it
   * lives, in every run, exactly if it expires before the CA's earliest rotation
   * plus the margin for which a rotated root is kept.
   */
  lemma CoveredExactlyBeforeMargin(loads: seq<Load>, ca: CA, expiry: int)
    requires loads != [] && Sound(loads) && After(loads).active == Some(ca)
    ensures AlwaysTrusted(loads, ca, expiry) <==> expiry < ca.notAfter - 30 * 24 * HOUR + 25 * HOUR
  {
    if expiry < Uncovered(ca) {
      forall later: seq<Load> |
        Sound(loads + later) && (later != [] ==> later[|later| - 1].now <= expiry)
        ensures ca.pem in Roots(After(loads + later))
      {
        TrustedBeforeMargin(loads, later, ca);
      }
    } else {
      UntrustedAfterMargin(loads, ca);
      var later := RotateAndPrune(loads, ca);
      assert Sound(loads + later) && later[|later| - 1].now <= expiry;
      assert ca.pem !in Roots(After(loads + later));
    }
  }

  /**
   * A leaf signed less than an hour after its CA was loaded, for whatever lifetime
   * was asked, is verifiable as long as it lives, across any rotations: the issuer is
   * among the roots of every bundle, and its certificate in the text of the bundle.
   */
  lemma TrustCoverage(loads: seq<Load>, later: seq<Load>, ca: CA, signed: int, ttl: int)
    requires loads != [] && Sound(loads) && Sound(loads + later) && After(loads).active == Some(ca)
    requires loads[|loads| - 1].now <= signed < loads[|loads| - 1].now + HOUR
    requires later != [] ==> later[|later| - 1].now <= signed + RequestedTTL(ttl)
    ensures
      var roots := Roots(After(loads + later));
      ca.pem in roots && Lines(roots) == Printed(roots) && StandsIn(ca.pem, Lines(roots))
  {
    LoadedOutlivesWindow(loads);
    TrustedBeforeMargin(loads, later, ca);
    var s := After(loads + later);
    LoadedOutlivesWindow(loads + later);
    RootsArePrinted(s.active.value, s.retired);
    EveryRootStands(Roots(s), ca.pem);
  }
}
