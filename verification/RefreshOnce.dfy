/** Refreshes arrive lost, doubled and out of order; each is applied at most once, and never an older one after it. */
module RefreshOnce {
  import opened Options
  import opened Serial
  import opened PolicyRule
  import opened Session
  import Initiator
  import Responder

  // ----- the initiator numbers its refreshes -----

  /** This message is the j-th REFRESH of a session whose CONFIGURE had the number Wrap(base). */
  predicate IsRefresh(b: Body, base: int, j: nat) {
    b.Refresh? && b.msn == Wrap(base + j)
  }

  /** Everything sent since position `first` under this id, if it is a REFRESH, is one of the first n. */
  ghost predicate Numbered(s: Initiator.Ni, w: World, first: nat, base: int, n: nat) {
    && s.msn == Wrap(base + n)
    && (forall i :: first <= i < |w.sent| && w.sent[i].sid == s.sid && w.sent[i].body.Refresh? ==>
          exists j: nat :: j <= n && IsRefresh(w.sent[i].body, base, j))
    && (s.lastRefresh.Some? ==> exists j: nat :: j <= n && IsRefresh(s.lastRefresh.value, base, j))
    && (s.lastConfigure.Some? ==> s.lastConfigure.value.Configure?)
  }

  lemma NextWraps(base: int, n: nat)
    ensures Next(Wrap(base + n)) == Wrap(base + n + 1)
  {
    var q := (base + n) / MODULUS;
    assert base + n == MODULUS * q + Wrap(base + n);
    Shift(Wrap(base + n) + 1, q);
  }

  /** Whatever happens, a session that runs sends only refreshes it has numbered, at most one new per step. */
  lemma InitiatorNumbers(s: Initiator.Ni, w: World, e: Event, o: Oracle, first: nat, base: int, n: nat) returns (n': nat)
    requires Numbered(s, w, first, base, n) && s.phase != CLOSE
    ensures n <= n' <= n + 1
    ensures var r := Initiator.Step(s, w, e, o); Numbered(r.0, r.1, first, base, n')
  {
    hide Taken, Left, InstallAll, Installed, Removed;
    NextWraps(base, n);
    var r := Initiator.Step(s, w, e, o);
    n' := if r.0.msn == s.msn then n else n + 1;
    assert IsRefresh(Refresh(s.lifetime, Next(s.msn)), base, n + 1);
    assert IsRefresh(Refresh(0, Next(s.msn)), base, n + 1);
  }

  /** Over a whole run, from the CONFIGURE numbered Wrap(base) on. */
  lemma {:induction false} InitiatorRunNumbers(s: Initiator.Ni, w: World, inputs: seq<(Event, Oracle)>,
                                               first: nat, base: int, n: nat) returns (n': nat)
    requires Numbered(s, w, first, base, n)
    ensures n <= n' <= n + |inputs|
    ensures var r := Initiator.Run(s, w, inputs); Numbered(r.0, r.1, first, base, n')
    decreases |inputs|
  {
    hide Numbered, Initiator.Step;
    n' := n;
    if inputs != [] && s.phase != CLOSE {
      var r := Initiator.Step(s, w, inputs[0].0, inputs[0].1);
      n' := InitiatorNumbers(s, w, inputs[0].0, inputs[0].1, first, base, n);
      n' := InitiatorRunNumbers(r.0, r.1, inputs[1..], first, base, n');
    }
  }

  /** Where it starts: the CONFIGURE has the number Wrap(base), and no REFRESH has been sent. */
  lemma ConfigureStartsNumbering(s: Initiator.Ni, w: World, e: Event, o: Oracle)
    requires s.phase == CLOSE && s.lastRefresh == None && s.lastConfigure == None && e.ApiConfigure?
    ensures var r := Initiator.Step(s, w, e, o);
            && r.0.phase == PENDING && r.0.lastConfigure.Some? && r.0.lastConfigure.value.Configure?
            && Numbered(r.0, r.1, |w.sent|, r.0.lastConfigure.value.msn, 0)
  {
    assert Wrap(Next(s.msn) + 0) == Next(s.msn);
  }

  // ----- the responder applies them in order -----

  /** The unwrapped number of a REFRESH, seen from a CONFIGURE with the number Wrap(base). */
  function Unwrapped(b: Body, base: int): nat
    requires b.Refresh?
  {
    (b.msn - base) % MODULUS
  }

  lemma UnwrappedIs(b: Body, base: int, j: nat)
    requires IsRefresh(b, base, j) && j < MODULUS
    ensures Unwrapped(b, base) == j
  {
    WrapDifference(base, j, 0);
    var q := base / MODULUS;
    assert base == MODULUS * q + Wrap(base);
    Shift(Wrap(base + j) - Wrap(base), -q);
    assert b.msn - base == Wrap(base + j) - Wrap(base) + MODULUS * -q;
  }

  lemma WrapsBack(b: Body, base: int)
    requires b.Refresh?
    ensures b.msn == Wrap(base + Unwrapped(b, base))
  {
    var d := b.msn - base;
    assert base + d % MODULUS == b.msn + MODULUS * -(d / MODULUS);
    Shift(b.msn, -(d / MODULUS));
  }

  /** A REFRESH that the responder answered in this step. */
  ghost predicate Applies(w: World, w': World, e: Event) {
    e.Received? && e.body.Refresh? && |w'.sent| > |w.sent|
  }

  /**
   * The numbers of the refreshes that a responder applies, in order, while it runs. Between them
   * may be any other events; the metering process may answer differently each time.
   */
  ghost function Applied(s: Responder.Nr, w: World, base: int, evs: seq<(Event, Oracle)>): seq<nat>
    decreases |evs|
  {
    if evs == [] || s.phase != METERING then []
    else
      var e, r := evs[0].0, Responder.Step(s, w, evs[0].0, evs[0].1);
      (if Applies(w, r.1, e) then [Unwrapped(e.body, base)] else []) + Applied(r.0, r.1, base, evs[1..])
  }

  /** What it should do: apply those newer than all before, as long as the session runs. */
  ghost function Newest(s: Responder.Nr, w: World, base: int, current: nat, evs: seq<(Event, Oracle)>): seq<nat>
    decreases |evs|
  {
    if evs == [] || s.phase != METERING then []
    else
      var e, r := evs[0].0, Responder.Step(s, w, evs[0].0, evs[0].1);
      if e.Received? && e.body.Refresh? && Unwrapped(e.body, base) > current then
        [Unwrapped(e.body, base)] + Newest(r.0, r.1, base, Unwrapped(e.body, base), evs[1..])
      else Newest(r.0, r.1, base, current, evs[1..])
  }

  ghost predicate Increasing(ns: seq<nat>, low: nat) {
    && (forall a :: 0 <= a < |ns| ==> ns[a] > low)
    && (forall a, b :: 0 <= a < b < |ns| ==> ns[a] < ns[b])
  }

  lemma {:induction false} NewestIncreases(s: Responder.Nr, w: World, base: int, current: nat, evs: seq<(Event, Oracle)>)
    ensures Increasing(Newest(s, w, base, current, evs), current)
    decreases |evs|
  {
    hide Responder.Step, Unwrapped;
    if evs != [] && s.phase == METERING {
      var e, r := evs[0].0, Responder.Step(s, w, evs[0].0, evs[0].1);
      if e.Received? && e.body.Refresh? && Unwrapped(e.body, base) > current {
        NewestIncreases(r.0, r.1, base, Unwrapped(e.body, base), evs[1..]);
      } else {
        NewestIncreases(r.0, r.1, base, current, evs[1..]);
      }
    }
  }

  /** One event at a responder: a newer REFRESH is applied, and nothing else moves its number. */
  lemma OneEvent(s: Responder.Nr, w: World, base: int, current: nat, e: Event, o: Oracle)
    requires s.phase == METERING && s.msn == Wrap(base + current) && current < HALF
    requires e.Received? && e.body.Refresh? ==> Unwrapped(e.body, base) < HALF
    ensures var r := Responder.Step(s, w, e, o);
            && (Applies(w, r.1, e) <==> e.Received? && e.body.Refresh? && Unwrapped(e.body, base) > current)
            && (r.0.phase == METERING ==>
                  r.0.msn == if Applies(w, r.1, e) then Wrap(base + Unwrapped(e.body, base)) else s.msn)
  {
    hide Unwrapped, Removed, Owned, Wrap, IsGreater;
    if e.Received? && e.body.Refresh? {
      WrapsBack(e.body, base);
      OrderedWithinHalf(base, Unwrapped(e.body, base), current);
    }
  }

  /**
   * For any loss, repetition and order of fewer than 2^31 refreshes, and with any other events in
   * between, a responder applies exactly those that are newer than all it applied before.
   */
  lemma {:induction false} AppliesNewest(s: Responder.Nr, w: World, base: int, current: nat, evs: seq<(Event, Oracle)>)
    requires s.phase == METERING ==> s.msn == Wrap(base + current) && current < HALF
    requires forall k :: 0 <= k < |evs| && evs[k].0.Received? && evs[k].0.body.Refresh? ==> Unwrapped(evs[k].0.body, base) < HALF
    ensures Applied(s, w, base, evs) == Newest(s, w, base, current, evs)
    decreases |evs|
  {
    hide Responder.Step, Unwrapped, Wrap, Applies;
    if evs != [] && s.phase == METERING {
      var e, r := evs[0].0, Responder.Step(s, w, evs[0].0, evs[0].1);
      OneEvent(s, w, base, current, e, evs[0].1);
      if Applies(w, r.1, e) {
        AppliesNewest(r.0, r.1, base, Unwrapped(e.body, base), evs[1..]);
      } else {
        AppliesNewest(r.0, r.1, base, current, evs[1..]);
        assert [] + Applied(r.0, r.1, base, evs[1..]) == Applied(r.0, r.1, base, evs[1..]);
      }
    }
  }

  // ----- from one end to the other -----

  /** Every REFRESH among these events is one that the initiator sent since position `first`. */
  ghost predicate AllFrom(evs: seq<(Event, Oracle)>, sid: nat, w: World, first: nat) {
    forall k :: 0 <= k < |evs| && evs[k].0.Received? && evs[k].0.body.Refresh? ==> SentBy(evs[k].0.body, sid, w, first)
  }

  ghost predicate SentBy(b: Body, sid: nat, w: World, first: nat) {
    exists i :: first <= i < |w.sent| && w.sent[i] == Message(sid, b)
  }

  lemma SentIsNumbered(s: Initiator.Ni, w: World, first: nat, base: int, n: nat, b: Body)
    requires Numbered(s, w, first, base, n) && b.Refresh? && SentBy(b, s.sid, w, first)
    ensures n < HALF ==> Unwrapped(b, base) <= n
  {
    var i :| first <= i < |w.sent| && w.sent[i] == Message(s.sid, b);
    assert w.sent[i].sid == s.sid && w.sent[i].body.Refresh?;
    var j: nat :| j <= n && IsRefresh(w.sent[i].body, base, j);
    hide Unwrapped, Wrap;
    if n < HALF {
      UnwrappedIs(b, base, j);
    }
  }

  /** A responder that meters after a CONFIGURE has its number. */
  lemma ConfigureSetsNumber(s: Responder.Nr, w: World, c: Body, o: Oracle)
    requires s.phase == CLOSE && c.Configure?
    ensures var z := Responder.Step(s, w, Received(s.sid, c, true), o); z.0.phase == METERING ==> z.0.msn == c.msn
  {
  }

  lemma SidStays(s: Initiator.Ni, w: World, e: Event, o: Oracle)
    ensures Initiator.Step(s, w, e, o).0.sid == s.sid
  {
  }

  lemma {:induction false} RunKeepsSid(s: Initiator.Ni, w: World, inputs: seq<(Event, Oracle)>)
    ensures Initiator.Run(s, w, inputs).0.sid == s.sid
    decreases |inputs|
  {
    hide Initiator.Step;
    if inputs != [] && s.phase != CLOSE {
      var r := Initiator.Step(s, w, inputs[0].0, inputs[0].1);
      SidStays(s, w, inputs[0].0, inputs[0].1);
      RunKeepsSid(r.0, r.1, inputs[1..]);
    }
  }

  /**
   * Refresh at most once. An initiator sets a session up and then runs through fewer than 2^31
   * events of any kind. A responder accepts its CONFIGURE, and then sees any events at all, as long
   * as every REFRESH among them is one that the initiator sent: lost, repeated and reordered at
   * will. Then the numbers it applies increase strictly: it never applies one twice, and never an
   * older one after a newer.
   */
  lemma RefreshAtMostOnce(ni: Initiator.Ni, niWorld: World, start: Event, o: Oracle, inputs: seq<(Event, Oracle)>,
                          nr: Responder.Nr, nrWorld: World, c: Body, q: Oracle, evs: seq<(Event, Oracle)>)
    requires ni.phase == CLOSE && ni.lastRefresh == None && ni.lastConfigure == None && start.ApiConfigure?
    requires |inputs| < HALF && nr.phase == CLOSE && c.Configure?
    requires var a := Initiator.Step(ni, niWorld, start, o);
             && a.0.lastConfigure.Some? && a.0.lastConfigure.value.Msn() == Some(c.msn)
             && AllFrom(evs, ni.sid, Initiator.Run(a.0, a.1, inputs).1, |niWorld.sent|)
    ensures var z := Responder.Step(nr, nrWorld, Received(nr.sid, c, true), q);
            Increasing(Applied(z.0, z.1, c.msn, evs), 0)
  {
    hide Initiator.Step, Initiator.Run, Responder.Step, Numbered, Unwrapped, Wrap, Applied, Newest, Increasing, SentBy;
    var a := Initiator.Step(ni, niWorld, start, o);
    var z := Responder.Step(nr, nrWorld, Received(nr.sid, c, true), q);
    ConfigureStartsNumbering(ni, niWorld, start, o);
    SidStays(ni, niWorld, start, o);
    RunKeepsSid(a.0, a.1, inputs);
    var n := InitiatorRunNumbers(a.0, a.1, inputs, |niWorld.sent|, c.msn, 0);
    var b := Initiator.Run(a.0, a.1, inputs);
    forall k | 0 <= k < |evs| && evs[k].0.Received? && evs[k].0.body.Refresh?
      ensures Unwrapped(evs[k].0.body, c.msn) < HALF
    {
      SentIsNumbered(b.0, b.1, |niWorld.sent|, c.msn, n, evs[k].0.body);
    }
    ConfigureSetsNumber(nr, nrWorld, c, q);
    WrapOfSerial(c.msn);
    AppliesNewest(z.0, z.1, c.msn, 0, evs);
    NewestIncreases(z.0, z.1, c.msn, 0, evs);
  }

  lemma WrapOfSerial(n: Serial)
    ensures Wrap(n + 0) == n
  {
  }

  /** With 2^31 numbers in between, an old refresh looks new again. */
  lemma OldRefreshReturns(s: Responder.Nr, w: World, base: int, o: Oracle)
    requires s.phase == METERING && s.msn == Wrap(base + HALF + 1) && s.maxLifetime > 0
    ensures var stale := Refresh(1, Wrap(base));
            Responder.Step(s, w, Received(s.sid, stale, true), o).0.msn == Wrap(base)
  {
    WrapDifference(base, 0, HALF + 1);
    IsGreaterIff(Wrap(base), s.msn);
    Shift(HALF - 1, -1);
  }
}
