/** One watched port of the hotplug daemon (src/adna.c, adna_timer_callback):
    its counters and what is decided for it, over any sequence of readings. */
module Ports {
  import opened CText
  import Filter

  const LIMIT := 10

  /** What the daemon sees of a port: data link active, and a hub behind it. */
  datatype Seen = Seen(linkUp: bool, hubUp: bool)
  {
    predicate BothDown() { !linkUp && !hubUp }
  }

  /** What the daemon does about it. */
  datatype Decision =
    | Rescan        // rescan_pci
    | Remove        // remove_downstream, then rescan_pci
    | Reset         // disable_port, enable_port
    | Wait          // both down, but not for long enough
    | Fine          // both up

  /** struct adna_device, with the decisions taken for it so far. `num` is
      devnum; `parent` and `hub` are filters for the bridge above the port and
      for the first device behind it. */
  datatype Port = Port(num: nat, wanted: Filter.Wanted, parent: Option<Filter.Wanted>, hub: Option<Filter.Wanted>,
                       d3: bool, linkDown: nat, hubDown: nat, done: seq<Decision>)

  /** One matching device: count, then take one of the four branches. */
  function Observe(p: Port, o: Seen): Port {
    var link := p.linkDown + if o.linkUp then 0 else 1;
    var hub := p.hubDown + if o.hubUp then 0 else 1;
    if o.linkUp && !o.hubUp then p.(linkDown := link, hubDown := hub, done := p.done + [Rescan])
    else if !o.linkUp && o.hubUp then p.(linkDown := link, hubDown := hub, done := p.done + [Remove])
    else if !o.linkUp && !o.hubUp then
      if link >= LIMIT || hub >= LIMIT then p.(linkDown := 0, hubDown := 0, done := p.done + [Reset])
      else p.(linkDown := link, hubDown := hub, done := p.done + [Wait])
    else p.(linkDown := link, hubDown := hub, done := p.done + [Fine])
  }

  function ObserveAll(p: Port, h: seq<Seen>): Port {
    if h == [] then p else Observe(ObserveAll(p, h[..|h| - 1]), h[|h| - 1])
  }

  /** A port in D3 is skipped. */
  function TickPort(p: Port, h: seq<Seen>): Port {
    if p.d3 then p else ObserveAll(p, h)
  }

  /** A port as save_to_adna_list leaves it. */
  predicate New(p: Port) { p.linkDown == 0 && p.hubDown == 0 && p.done == [] }

  /* ---- the counters of one port over any history ---- */

  function LinkDowns(h: seq<Seen>): nat {
    if h == [] then 0 else LinkDowns(h[..|h| - 1]) + if h[|h| - 1].linkUp then 0 else 1
  }

  function HubDowns(h: seq<Seen>): nat {
    if h == [] then 0 else HubDowns(h[..|h| - 1]) + if h[|h| - 1].hubUp then 0 else 1
  }

  function BothDowns(h: seq<Seen>): nat {
    if h == [] then 0 else BothDowns(h[..|h| - 1]) + if h[|h| - 1].BothDown() then 1 else 0
  }

  function Resets(done: seq<Decision>): nat {
    if done == [] then 0 else Resets(done[..|done| - 1]) + if done[|done| - 1] == Reset then 1 else 0
  }

  /** k is where the history after the last reset begins. */
  ghost predicate AfterReset(done: seq<Decision>, k: nat) {
    k <= |done| && (k > 0 ==> done[k - 1] == Reset) && forall j :: k <= j < |done| ==> done[j] != Reset
  }

  function LastReset(done: seq<Decision>): (k: nat)
    ensures AfterReset(done, k)
  {
    if done == [] then 0
    else if done[|done| - 1] == Reset then |done| else LastReset(done[..|done| - 1])
  }

  /** The readings from the last reset in `done` up to position `end`. */
  function Since(h: seq<Seen>, done: seq<Decision>, end: nat): (r: seq<Seen>)
    requires |done| <= end <= |h|
    ensures |done| < end ==> r != []
  {
    h[LastReset(done)..end]
  }

  lemma OneMore(h: seq<Seen>, o: Seen)
    ensures LinkDowns(h + [o]) == LinkDowns(h) + if o.linkUp then 0 else 1
    ensures HubDowns(h + [o]) == HubDowns(h) + if o.hubUp then 0 else 1
    ensures BothDowns(h + [o]) == BothDowns(h) + if o.BothDown() then 1 else 0
  {
    assert (h + [o])[..|h + [o]| - 1] == h;
  }

  lemma OneMoreDone(done: seq<Decision>, a: Decision)
    ensures Resets(done + [a]) == Resets(done) + if a == Reset then 1 else 0
    ensures LastReset(done + [a]) == if a == Reset then |done| + 1 else LastReset(done)
  {
    assert (done + [a])[..|done + [a]| - 1] == done;
  }

  /** What the last observation did. */
  lemma LastStep(p: Port, h: seq<Seen>)
    requires h != []
    ensures var g, o := h[..|h| - 1], h[|h| - 1];
            var q, r := ObserveAll(p, g), ObserveAll(p, h);
            && h == g + [o] && r == Observe(q, o)
            && |r.done| == |q.done| + 1 && r.done[..|q.done|] == q.done && r.done == q.done + [r.done[|q.done|]]
  {
  }

  lemma ObserveNext(p: Port, h: seq<Seen>, o: Seen)
    ensures ObserveAll(p, h + [o]) == Observe(ObserveAll(p, h), o)
  {
    assert (h + [o])[..|h + [o]| - 1] == h;
  }

  lemma SinceGrows(h: seq<Seen>, done: seq<Decision>)
    requires |done| < |h|
    ensures Since(h, done, |h|) == Since(h[..|h| - 1], done, |h| - 1) + [h[|h| - 1]]
  {
  }

  lemma SinceStep(h: seq<Seen>, done: seq<Decision>, a: Decision)
    requires |done| + 1 == |h|
    ensures Since(h, done + [a], |h|) ==
            if a == Reset then [] else Since(h[..|h| - 1], done, |h| - 1) + [h[|h| - 1]]
  {
    OneMoreDone(done, a);
    SinceGrows(h, done);
  }

  lemma NoneDown()
    ensures LinkDowns([]) == 0 && HubDowns([]) == 0
  {
  }

  lemma ObserveNone(p: Port)
    ensures ObserveAll(p, []) == p && Since([], [], 0) == []
  {
  }

  /** The counters of a port are its link-down and hub-down observations since
      its last reset, one decision per observation. */
  lemma {:induction false} CountersSinceReset(p: Port, h: seq<Seen>)
    requires New(p)
    ensures var q := ObserveAll(p, h);
            && |q.done| == |h| && q.wanted == p.wanted && q.d3 == p.d3
            && q.linkDown == LinkDowns(Since(h, q.done, |h|))
            && q.hubDown == HubDowns(Since(h, q.done, |h|))
    decreases |h|
  {
    if h != [] {
      hide ObserveAll, LinkDowns, HubDowns, Since, LastReset;
      var g, o := h[..|h| - 1], h[|h| - 1];
      CountersSinceReset(p, g);
      LastStep(p, h);
      NoneDown();
      var q, r := ObserveAll(p, g), ObserveAll(p, h);
      SinceStep(h, q.done, r.done[|q.done|]);
      OneMore(Since(g, q.done, |g|), o);
    } else {
      ObserveNone(p);
    }
  }

  /** A decision taken from the observations since the last reset alone: a port
      is reset exactly when it is seen wholly down and either half of it has
      been down ten times since. */
  ghost predicate Decided(a: Decision, since: seq<Seen>)
    requires since != []
  {
    var o := since[|since| - 1];
    && (a == Rescan <==> o.linkUp && !o.hubUp)
    && (a == Remove <==> !o.linkUp && o.hubUp)
    && (a == Fine <==> o.linkUp && o.hubUp)
    && (a == Reset <==> o.BothDown() && (LinkDowns(since) >= LIMIT || HubDowns(since) >= LIMIT))
  }

  lemma DecidedNow(q: Port, before: seq<Seen>, o: Seen)
    requires q.linkDown == LinkDowns(before) && q.hubDown == HubDowns(before)
    ensures var r := Observe(q, o);
            |r.done| == |q.done| + 1 && Decided(r.done[|q.done|], before + [o])
  {
    OneMore(before, o);
    hide LinkDowns, HubDowns;
  }

  lemma LatestDecision(p: Port, h: seq<Seen>)
    requires New(p) && h != []
    ensures var done := ObserveAll(p, h).done;
            |done| == |h| && Decided(done[|h| - 1], Since(h, done[..|h| - 1], |h|))
  {
    hide ObserveAll, Observe, Decided, LinkDowns, HubDowns, Since, LastReset;
    var g, o := h[..|h| - 1], h[|h| - 1];
    LastStep(p, h);
    CountersSinceReset(p, g);
    var q := ObserveAll(p, g);
    SinceGrows(h, q.done);
    DecidedNow(q, Since(g, q.done, |g|), o);
  }

  /** Decision t rests on the observations since the reset before it. */
  lemma {:induction false} EveryDecision(p: Port, h: seq<Seen>, t: nat)
    requires New(p) && t < |h|
    ensures var done := ObserveAll(p, h).done;
            t < |done| && Decided(done[t], Since(h, done[..t], t + 1))
    decreases |h|
  {
    hide ObserveAll, Observe, Decided, LinkDowns, HubDowns, LastReset;
    var g := h[..|h| - 1];
    LatestDecision(p, h);
    LastStep(p, h);
    var q, r := ObserveAll(p, g), ObserveAll(p, h);
    if t < |g| {
      EveryDecision(p, g, t);
      assert r.done[..t] == q.done[..t];
      assert Since(h, q.done[..t], t + 1) == Since(g, q.done[..t], t + 1);
    }
  }

  /** Over any history a port that is wholly down ten times is reset, and no
      reset comes for less than eleven down readings. */
  lemma {:induction false} ResetBounds(p: Port, h: seq<Seen>)
    requires New(p)
    ensures var q := ObserveAll(p, h);
            var resets := Resets(q.done);
            && BothDowns(h) / 10 <= resets
            && 11 * resets <= LinkDowns(h) + HubDowns(h)
  {
    ResetBudget(p, h);
  }

  /** The bounds with what the counters still hold. */
  lemma {:induction false} ResetBudget(p: Port, h: seq<Seen>)
    requires New(p)
    ensures var q := ObserveAll(p, h);
            && 11 * Resets(q.done) + q.linkDown + q.hubDown <= LinkDowns(h) + HubDowns(h)
            && 0 <= BothDowns(h) - Slack(p, h) <= 10 * Resets(q.done)
            && Slack(p, h) <= 9 && Slack(p, h) <= q.linkDown && Slack(p, h) <= q.hubDown
    decreases |h|
  {
    if h != [] {
      var g, o := h[..|h| - 1], h[|h| - 1];
      ResetBudget(p, g);
      LastStep(p, h);
      hide ObserveAll;
      var q, r := ObserveAll(p, g), ObserveAll(p, h);
      OneMoreDone(q.done, r.done[|q.done|]);
    }
  }

  /** The wholly-down observations since the last reset. */
  function Slack(p: Port, h: seq<Seen>): nat {
    if h == [] then 0
    else
      var q := ObserveAll(p, h);
      if q.done != [] && q.done[|q.done| - 1] == Reset then 0
      else Slack(p, h[..|h| - 1]) + if h[|h| - 1].BothDown() then 1 else 0
  }

  /** When link and hub always fail together the port is reset at every tenth
      failure, no more and no less. */
  lemma {:induction false} EveryTenthFailure(p: Port, h: seq<Seen>)
    requires New(p) && forall o | o in h :: o.linkUp == o.hubUp
    ensures var q := ObserveAll(p, h);
            && Resets(q.done) == BothDowns(h) / 10
            && q.linkDown == q.hubDown == BothDowns(h) % 10
    decreases |h|
  {
    if h != [] {
      var g, o := h[..|h| - 1], h[|h| - 1];
      assert h == g + [o];
      EveryTenthFailure(p, g);
      LastStep(p, h);
      TenthStep(ObserveAll(p, g), o, BothDowns(g));
      hide ObserveAll, Observe;
      var q, r := ObserveAll(p, g), ObserveAll(p, h);
      OneMoreDone(q.done, r.done[|q.done|]);
    }
  }

  lemma TenthStep(q: Port, o: Seen, n: nat)
    requires o.linkUp == o.hubUp && q.linkDown == q.hubDown == n % 10
    ensures var r := Observe(q, o);
            var m := n + if o.BothDown() then 1 else 0;
            && r.linkDown == r.hubDown == m % 10
            && m / 10 == n / 10 + if r.done[|q.done|] == Reset then 1 else 0
  {
    TenthNext(n);
  }

  lemma TenthNext(n: nat)
    ensures n % 10 == 9 ==> (n + 1) % 10 == 0 && (n + 1) / 10 == n / 10 + 1
    ensures n % 10 != 9 ==> (n + 1) % 10 == n % 10 + 1 && (n + 1) / 10 == n / 10
  {
    var q, r := n / 10, n % 10;
    assert n == 10 * q + r;
    if r == 9 { assert n + 1 == 10 * (q + 1); } else { assert n + 1 == 10 * q + (r + 1); }
  }

  /* ---- histories ---- */

  lemma {:induction false} ObserveMore(p: Port, g: seq<Seen>, h: seq<Seen>)
    ensures ObserveAll(p, g + h) == ObserveAll(ObserveAll(p, g), h)
    ensures SamePort(ObserveAll(p, g), p)
    decreases |g| + |h|
  {
    hide Observe;
    if h != [] {
      assert (g + h)[..|g + h| - 1] == g + h[..|h| - 1];
      ObserveMore(p, g, h[..|h| - 1]);
    } else {
      assert g + h == g;
      if g != [] { KeepsPort(p, g); }
    }
  }

  /** Everything but the counters and the decisions. */
  predicate SamePort(q: Port, p: Port) {
    q.(linkDown := p.linkDown, hubDown := p.hubDown, done := p.done) == p
  }

  lemma {:induction false} KeepsPort(p: Port, g: seq<Seen>)
    ensures SamePort(ObserveAll(p, g), p)
  {
    if g != [] { KeepsPort(p, g[..|g| - 1]); }
  }

  /* ---- resets of a port without a parent ---- */

  /** disable_port follows a->parent: the reset of a port that has none ends the
      daemon. */
  predicate FollowsNull(p: Port, o: Seen) {
    p.parent == None && Observe(p, o).done == p.done + [Reset]
  }

  /** One of the readings makes a port that is not in D3 follow NULL. */
  predicate Killed(p: Port, h: seq<Seen>) {
    !p.d3 && h != [] && (Killed(p, h[..|h| - 1]) || FollowsNull(ObserveAll(p, h[..|h| - 1]), h[|h| - 1]))
  }

  lemma KilledNext(p: Port, h: seq<Seen>, o: Seen)
    ensures Killed(p, h + [o]) <==> Killed(p, h) || (!p.d3 && FollowsNull(ObserveAll(p, h), o))
  {
    assert (h + [o])[..|h + [o]| - 1] == h;
  }

  lemma {:induction false} KilledMore(p: Port, g: seq<Seen>, h: seq<Seen>)
    ensures Killed(p, g + h) <==> Killed(p, g) || Killed(ObserveAll(p, g), h)
    decreases |h|
  {
    if h == [] {
      assert g + h == g;
    } else {
      var init, o := h[..|h| - 1], h[|h| - 1];
      assert g + h == (g + init) + [o] && h == init + [o];
      KilledMore(p, g, init);
      KilledNext(p, g + init, o);
      KilledNext(ObserveAll(p, g), init, o);
      ObserveMore(p, g, init);
      hide Killed, ObserveAll, FollowsNull;
    }
  }

  /** That is so exactly when the port has no parent and one of its decisions is
      a reset. */
  lemma {:induction false} KilledIff(p: Port, h: seq<Seen>)
    requires New(p)
    ensures Killed(p, h) <==> !p.d3 && p.parent == None && Reset in ObserveAll(p, h).done
    decreases |h|
  {
    if h != [] {
      var g, o := h[..|h| - 1], h[|h| - 1];
      KilledIff(p, g);
      KilledNext(p, g, o);
      LastStep(p, h);
      KeepsPort(p, g);
      hide Killed, ObserveAll;
    }
  }

  lemma {:induction false} ResetsAre(done: seq<Decision>)
    ensures Resets(done) > 0 <==> Reset in done
  {
    if done != [] { ResetsAre(done[..|done| - 1]); }
  }

  /** Ten wholly-down readings are enough. */
  lemma TenDownsKill(p: Port, h: seq<Seen>)
    requires New(p) && !p.d3 && p.parent == None && BothDowns(h) >= 10
    ensures Killed(p, h)
  {
    hide Killed, ObserveAll;
    ResetBounds(p, h);
    ResetsAre(ObserveAll(p, h).done);
    KilledIff(p, h);
  }

  /** The port's decisions and counters are those its readings call for: one
      decision for each, the counters since the last reset, and both bounds. */
  ghost predicate AccountsFor(p: Port, h: seq<Seen>) {
    && |p.done| == |h|
    && (forall t :: 0 <= t < |h| ==> Decided(p.done[t], Since(h, p.done[..t], t + 1)))
    && p.linkDown == LinkDowns(Since(h, p.done, |h|)) && p.hubDown == HubDowns(Since(h, p.done, |h|))
    && BothDowns(h) / 10 <= Resets(p.done) && 11 * Resets(p.done) <= LinkDowns(h) + HubDowns(h)
  }

  lemma Accounted(p: Port, h: seq<Seen>)
    requires New(p)
    ensures AccountsFor(ObserveAll(p, h), h)
  {
    hide ObserveAll, Decided, LinkDowns, HubDowns, BothDowns, Resets, Since;
    CountersSinceReset(p, h);
    ResetBounds(p, h);
    forall t | 0 <= t < |h| ensures Decided(ObserveAll(p, h).done[t], Since(h, ObserveAll(p, h).done[..t], t + 1)) {
      EveryDecision(p, h, t);
    }
  }
}
