/** A node's whole life: brought up, pulled periodically in any order with any answers, closed. */
module Service {
  import opened Base
  import opened PortRegistry
  import opened UserDiff
  import opened UserIndex
  import opened Controllers
  import opened Nodes
  import opened Lifecycle
  import opened Pulls
  import opened Startup

  /** One run of the periodic pull of one controller. */
  datatype Tick = Tick(i: nat, body: Body, p: PullAnswers)

  /** No reload with these answers takes an inbound down for good. */
  predicate StaysUp(r: ReloadAnswers) {
    !r.delOld.HalfRemoved? && !r.addOld.Refused?
  }

  predicate AllStayUp(ticks: seq<Tick>) {
    forall t :: t in ticks ==> StaysUp(t.p.reload)
  }

  ghost predicate Serving(cs: seq<Controller>, seats: seq<Seat>, core: Core, limiters: LimiterMap, reg: Registry)
    reads cs, limiters
  {
    |cs| == |seats| && forall i :: 0 <= i < |cs| ==>
        Node.Sits(cs[i], seats[i].key, core, limiters, reg) && cs[i].Running()
  }

  lemma SeatKeyIn(seats: seq<Seat>, n: nat, i: nat)
    requires i < n <= |seats|
    ensures seats[i].key in SeatKeys(seats, n)
  {
    if i < n - 1 {
      SeatKeyIn(seats, n - 1, i);
    }
  }

  lemma MinusMore<K, V>(a: map<K, V>, b: map<K, V>, k: K, s: set<K>)
    requires a - {k} == b - {k} && k in s
    ensures a - s == b - s
  {
    assert a - s == a - {k} - s && b - s == b - {k} - s;
  }

  ghost function Limiters(cs: seq<Controller>): set<Limiter>
    reads cs
  {
    set c | c in cs && c.limiter != null :: c.limiter
  }

  /** The periodic pulls of all controllers, in any order: whatever the panel serves and however the core
      fails, every controller keeps its key, tag and registered limiter, and only their own inbounds move.
      The port registry is not even among what a pull may modify. */
  method RunPulls(cs: seq<Controller>, seats: seq<Seat>, ticks: seq<Tick>, core: Core, limiters: LimiterMap,
                  reg: Registry)
    requires Serving(cs, seats, core, limiters, reg)
    requires forall t :: t in ticks ==> t.i < |cs|
    modifies cs, Node.Clients(cs), Limiters(cs), limiters, core
    ensures Serving(cs, seats, core, limiters, reg) && limiters.m == old(limiters.m)
    ensures forall c :: c in cs ==> c.runtimeKey == old(c.runtimeKey) && c.logicalTag == old(c.logicalTag)
                                    && c.limiter == old(c.limiter)
    ensures core.inbounds - SeatKeys(seats, |seats|) == old(core.inbounds) - SeatKeys(seats, |seats|)
    ensures AllStayUp(ticks) ==> old(core.inbounds).Keys <= core.inbounds.Keys
  {
    for k := 0 to |ticks|
      invariant Serving(cs, seats, core, limiters, reg) && limiters.m == old(limiters.m)
      invariant forall c :: c in cs ==> c.runtimeKey == old(c.runtimeKey) && c.logicalTag == old(c.logicalTag)
                                        && c.limiter == old(c.limiter)
      invariant core.inbounds - SeatKeys(seats, |seats|) == old(core.inbounds) - SeatKeys(seats, |seats|)
      invariant AllStayUp(ticks) ==> old(core.inbounds).Keys <= core.inbounds.Keys
    {
      var t := ticks[k];
      assert t in ticks;
      PullOne(cs, seats, t, core, limiters, reg);
    }
  }

  lemma PullKeepsKeys(cfg: NodeConfig, key: string, s: Site, seen: Option<Body>, t: Tick, deleted: seq<UserInfo>,
                      added: seq<UserInfo>)
    requires StaysUp(t.p.reload)
    ensures s.ib.Keys <= Monitored(cfg, key, s, Fetch(seen, t.body), t.p, deleted, added).ib.Keys
  {
    var end := Monitored(cfg, key, s, Fetch(seen, t.body), t.p, deleted, added);
    PullLeavesOthers(cfg, key, s, Fetch(seen, t.body), t.p, deleted, added);
    TurnKeepsUp(cfg, key, State(seen, "", s), Pulled(t.body, t.p, deleted, added));
    hide Monitored;
    forall k | k in s.ib ensures k in end.ib {
      assert k != key ==> k in s.ib - {key};
    }
  }

  method PullOne(cs: seq<Controller>, seats: seq<Seat>, t: Tick, core: Core, limiters: LimiterMap, reg: Registry)
    requires Serving(cs, seats, core, limiters, reg) && t.i < |cs|
    modifies cs, cs[t.i].apiClient, if cs[t.i].limiter != null then {cs[t.i].limiter} else {}, limiters, core
    ensures Serving(cs, seats, core, limiters, reg) && limiters.m == old(limiters.m)
    ensures forall c :: c in cs ==> c.runtimeKey == old(c.runtimeKey) && c.logicalTag == old(c.logicalTag)
                                    && c.limiter == old(c.limiter)
    ensures core.inbounds - SeatKeys(seats, |seats|) == old(core.inbounds) - SeatKeys(seats, |seats|)
    ensures StaysUp(t.p.reload) ==> old(core.inbounds).Keys <= core.inbounds.Keys
  {
    var c := cs[t.i];
    ghost var key, was, seen := c.runtimeKey, c.SiteNow(), c.apiClient.seen;
    ghost var deleted, added := c.NodeInfoMonitor(t.body, t.p);
    PullLeavesOthers(c.cfg, key, was, Fetch(seen, t.body), t.p, deleted, added);
    if StaysUp(t.p.reload) {
      PullKeepsKeys(c.cfg, key, was, seen, t, deleted, added);
    }
    hide Monitored, Fetch, StaysUp;
    SeatKeyIn(seats, |seats|, t.i);
    MinusMore(core.inbounds, was.ib, key, SeatKeys(seats, |seats|));
  }

  // ---------------------------------------------------------------- one controller

  /** What Pulls reasons about. */
  ghost function StateNow(c: Controller): State
    reads c, c.limiter, c.server, c.apiClient
    requires c.info.Some? && c.limiter != null
  {
    State(c.apiClient.seen, c.apiClient.userEtag, c.SiteNow())
  }

  /** The turns are pulls with these answers. */
  predicate AsPulled(ts: seq<Turn>, pulls: seq<(Body, PullAnswers)>) {
    |ts| == |pulls| && forall i :: 0 <= i < |ts| ==> ts[i].Pulled? && (ts[i].body, ts[i].p) == pulls[i]
  }

  ghost predicate AllUnique(pulls: seq<(Body, PullAnswers)>) {
    forall a :: a in pulls ==> UuidUnique(ListOf(a.1.list))
  }

  method PullNext(c: Controller, body: Body, p: PullAnswers) returns (ghost t: Turn)
    requires c.Running()
    modifies c, c.apiClient, c.limiter, c.limiters, c.server
    ensures c.Running() && c.runtimeKey == old(c.runtimeKey) && c.limiter == old(c.limiter)
    ensures t.Pulled? && t.body == body && t.p == p
    ensures StateNow(c) == Turned(c.cfg, c.runtimeKey, old(StateNow(c)), t)
    ensures UuidUnique(ListOf(p.list)) ==> ValidTurn(old(StateNow(c)), t)
  {
    hide Monitored, Fetch, IsDiff, UuidUnique, RuntimeKey, ClientTag;
    ghost var deleted, added := c.NodeInfoMonitor(body, p);
    t := Pulled(body, p, deleted, added);
  }

  lemma NoTurn(cfg: NodeConfig, key: string, st: State)
    ensures Run(cfg, key, st, []) == st && ValidRun(cfg, key, st, [])
  {
  }

  lemma OneMoreTurn(cfg: NodeConfig, key: string, st: State, ts: seq<Turn>, t: Turn)
    ensures Run(cfg, key, st, ts + [t]) == Turned(cfg, key, Run(cfg, key, st, ts), t)
    ensures ValidRun(cfg, key, st, ts) && ValidTurn(Run(cfg, key, st, ts), t) ==> ValidRun(cfg, key, st, ts + [t])
  {
    assert (ts + [t])[..|ts|] == ts;
  }

  /** The periodic pulls of one controller are a run of turns. */
  method PullAgain(c: Controller, pulls: seq<(Body, PullAnswers)>) returns (ghost ts: seq<Turn>)
    requires c.Running()
    modifies c, c.apiClient, c.limiter, c.limiters, c.server
    ensures c.Running() && c.runtimeKey == old(c.runtimeKey) && c.limiter == old(c.limiter)
    ensures AsPulled(ts, pulls)
    ensures StateNow(c) == Run(c.cfg, c.runtimeKey, old(StateNow(c)), ts)
    ensures AllUnique(pulls) ==> ValidRun(c.cfg, c.runtimeKey, old(StateNow(c)), ts)
  {
    hide StateNow, Turned, ValidTurn, UuidUnique, RuntimeKey, ClientTag, Run, ValidRun;
    ts := [];
    ghost var start := StateNow(c);
    NoTurn(c.cfg, c.runtimeKey, start);
    assert pulls[..|pulls|] == pulls;
    for k := 0 to |pulls|
      invariant c.Running() && c.runtimeKey == old(c.runtimeKey) && c.limiter == old(c.limiter)
      invariant AsPulled(ts, pulls[..k])
      invariant StateNow(c) == Run(c.cfg, c.runtimeKey, start, ts)
      invariant AllUnique(pulls) ==> ValidRun(c.cfg, c.runtimeKey, start, ts)
    {
      ghost var t := PullNext(c, pulls[k].0, pulls[k].1);
      assert (pulls[k].0, pulls[k].1) == pulls[k];
      assert pulls[k] in pulls && pulls[..k + 1] == pulls[..k] + [pulls[k]];
      OneMoreTurn(c.cfg, c.runtimeKey, start, ts, t);
      ts := ts + [t];
    }
  }

  /** After a successful start core, controller and limiter are in step for every node. */
  lemma StartedInStep(w: World, plans: seq<Plan>, ls: seq<Limiter>, i: nat)
    requires |ls| == |plans| && i < |plans| && AllStart(w, plans, ls, |plans|)
    ensures var p, key := plans[i], KeyOf(plans[i]);
      && p.Info().Some? && p.a.users.Some?
      && InStep(key, Site(p.Info().value, p.a.users.value, Fresh(key, p.a.users.value),
                          WorldAt(w, plans, ls, |plans|).inbounds))
  {
    hide WorldAt, AllStart, KeyOf;
    StartedServe(w, plans, ls, i, |plans|);
    FreshAt(KeyOf(plans[i]), plans[i].a.users.value, "");
  }

  /** What its client and its site hold after a successful start. */
  ghost function StartedState(w: World, plans: seq<Plan>, ls: seq<Limiter>, i: nat): State
    requires |ls| == |plans| && i < |plans| && plans[i].Info().Some? && plans[i].a.users.Some?
  {
    var p, users := plans[i], plans[i].a.users.value;
    State(Some(p.a.body), p.a.etag, Site(p.Info().value, users, Fresh(KeyOf(p), users),
                                         WorldAt(w, plans, ls, |plans|).inbounds))
  }

  /** The start counts as the first pull: a panel that keeps what it served then changes nothing, over any
      run, and the three stay in step. */
  lemma QuietAfterStart(w: World, plans: seq<Plan>, ls: seq<Limiter>, i: nat, ts: seq<Turn>, o: Offer)
    requires |ls| == |plans| && i < |plans| && AllStart(w, plans, ls, |plans|)
    requires o.etag == plans[i].a.etag && ServesOnly(ts, plans[i].a.body) && KeepsList(ts, o)
    ensures plans[i].Info().Some? && plans[i].a.users.Some?
    ensures var p, st := plans[i], StartedState(w, plans, ls, i); var end := Run(p.cfg, KeyOf(p), st, ts);
      && end.site == st.site.(index := end.site.index) && NoReload(p.cfg, KeyOf(p), st, ts)
      && InStep(KeyOf(p), end.site)
  {
    hide WorldAt, AllStart, KeyOf;
    StartedInStep(w, plans, ls, i);
    var p, st := plans[i], StartedState(w, plans, ls, i);
    QuietPanel(p.cfg, KeyOf(p), st, ts, p.a.body, o);
    NotTriedAgain(p.cfg, KeyOf(p), st, ts, p.a.body);
    QuietInStep(p.cfg, KeyOf(p), st, ts, p.a.body, o);
  }

  lemma {:induction false} QuietInStep(cfg: NodeConfig, key: string, st: State, ts: seq<Turn>, body: Body, o: Offer)
    requires st.seen == Some(body) && st.etag == o.etag && ServesOnly(ts, body) && KeepsList(ts, o)
    requires InStep(key, st.site)
    ensures InStep(key, Run(cfg, key, st, ts).site)
  {
    if ts != [] {
      var front, t := ts[..|ts| - 1], ts[|ts| - 1];
      assert ts == front + [t];
      QuietInStep(cfg, key, st, front, body, o);
      QuietPanel(cfg, key, st, front, body, o);
      var before := Run(cfg, key, st, front);
      if t.Slowed? {
        DynamicKeepsAgreement(key, before.site.index, Fresh(key, before.site.users), t.uuid, t.limit, t.expire);
      }
    }
  }

  // ---------------------------------------------------------------- from start to close

  /** A controller that came up from its client's node info is running. */
  lemma StartedIsRunning(c: Controller, w: World, plans: seq<Plan>, ls: seq<Limiter>, i: nat,
                         core: Core, limiters: LimiterMap, reg: Registry)
    requires |ls| == |plans| && i < |plans| && AllStart(w, plans, ls, |plans|)
    requires Node.Sits(c, SeatOf(plans[i]).key, core, limiters, reg) && Node.Carries(c, plans[i], ls[i])
    requires limiters.m == WorldAt(w, plans, ls, |plans|).limiters
    ensures c.Running()
  {
    hide WorldAt, AllStart;
    StartedServe(w, plans, ls, i, |plans|);
  }

  lemma AllRunning(cs: seq<Controller>, w: World, plans: seq<Plan>, ls: seq<Limiter>,
                   core: Core, limiters: LimiterMap, reg: Registry)
    requires |ls| == |plans| == |cs| && AllStart(w, plans, ls, |plans|)
    requires Node.Lineup(cs, Seats(plans), plans, ls, core, limiters, reg)
    requires limiters.m == WorldAt(w, plans, ls, |plans|).limiters
    ensures Serving(cs, Seats(plans), core, limiters, reg)
  {
    hide WorldAt, AllStart, Node.Sits, Node.Carries, RuntimeKey;
    forall i | 0 <= i < |cs| ensures cs[i].Running() {
      assert plans[i] in plans;
      SeatAt(plans, i);
      StartedIsRunning(cs[i], w, plans, ls, i, core, limiters, reg);
    }
  }

  lemma CloseKeepsOthers(x: World, seats: seq<Seat>, k: nat)
    requires k <= |seats|
    ensures Unwind(x, seats, k).inbounds - SeatKeys(seats, k) == x.inbounds - SeatKeys(seats, k)
  {
    UnwindInbounds(x, seats, k);
    LetGoIsSeated(seats, k);
    assert x.inbounds - LetGo(seats, k) - SeatKeys(seats, k) == x.inbounds - SeatKeys(seats, k);
  }

  lemma {:induction false} LetGoIsSeated(seats: seq<Seat>, k: nat)
    requires k <= |seats|
    ensures LetGo(seats, k) <= SeatKeys(seats, k)
  {
    if k > 0 {
      LetGoIsSeated(seats, k - 1);
    }
  }

  /** A node's inbound is left exactly when it was there and the core would not let it go. */
  lemma ClosedKey(w: World, x: World, plans: seq<Plan>, ls: seq<Limiter>, i: nat)
    requires |ls| == |plans| && i < |plans| && AllStart(w, plans, ls, |plans|)
    ensures KeyOf(plans[i]) in Unwind(x, Seats(plans), |plans|).inbounds
       <==> plans[i].a.closeNode.Kept? && KeyOf(plans[i]) in x.inbounds
  {
    hide Unwind, Seats, LetGo, KeyOf, AllStart;
    UnwindInbounds(x, Seats(plans), |plans|);
    LetGoAre(plans, |plans|, KeyOf(plans[i]));
    if plans[i].a.closeNode.Kept? {
      KeptStays(w, plans, ls, |plans|, i);
    }
  }

  /** What closing leaves after any run of pulls: only what was under the nodes' keys may have moved. */
  lemma CloseUndoesServing(w: World, x: World, plans: seq<Plan>, ls: seq<Limiter>)
    requires |ls| == |plans| && PortRegistry.Inv(w.reg) && AllStart(w, plans, ls, |plans|)
    requires var up, keys := WorldAt(w, plans, ls, |plans|), SeatKeys(Seats(plans), |plans|);
      x.reg == up.reg && x.limiters == up.limiters && x.inbounds - keys == up.inbounds - keys
    ensures var end, keys := Unwind(x, Seats(plans), |plans|), SeatKeys(Seats(plans), |plans|);
      end.reg == w.reg && end.limiters == w.limiters - keys && end.inbounds - keys == w.inbounds - keys
  {
    hide WorldAt, Unwind, Seats, SeatKeys, AllStart, PortRegistry.Inv;
    UnwindRegistry(w, x, plans, ls, |plans|);
    UnwindLimiters(x, Seats(plans), |plans|);
    LimitersGrow(w, plans, ls, |plans|);
    InboundsGrow(w, plans, ls, |plans|);
    CloseKeepsOthers(x, Seats(plans), |plans|);
  }

  method PullAndClose(node: Node, seats: seq<Seat>, ticks: seq<Tick>, core: Core, limiters: LimiterMap)
    returns (ghost x: World)
    requires node.portReg.Valid() && Serving(node.controllers, seats, core, limiters, node.portReg)
    requires forall t :: t in ticks ==> t.i < |node.controllers|
    modifies node, node.controllers, Node.Clients(node.controllers), Limiters(node.controllers), node.portReg,
             node.portReg.backing, core, limiters
    ensures node.portReg.Valid()
    ensures x.reg == old(node.portReg.State()) && x.limiters == old(limiters.m)
    ensures x.inbounds - SeatKeys(seats, |seats|) == old(core.inbounds) - SeatKeys(seats, |seats|)
    ensures AllStayUp(ticks) ==> old(core.inbounds).Keys <= x.inbounds.Keys
    ensures node.Shared(core, limiters) == Unwind(x, seats, |seats|)
  {
    hide OneToOne, Unwind, SeatKeys;
    var cs := node.controllers;
    RunPulls(cs, seats, ticks, core, limiters, node.portReg);
    x := node.Shared(core, limiters);
    node.Close(seats, core, limiters);
  }

  /** Starts the nodes, lets them pull, closes them. Whatever fails at any point, the port registry ends as
      it was; when the nodes came up, so do the limiters and inbounds under every other key. A node's own
      inbound is left only if the core would not let it go, and if no reload took it down, exactly then. */
  method StartPullClose(node: Node, plans: seq<Plan>, ticks: seq<Tick>, core: Core, limiters: LimiterMap)
    returns (ok: bool)
    requires node.portReg.Valid() && PortRegistry.Inv(node.portReg.State())
    requires forall t :: t in ticks ==> t.i < |plans|
    modifies node, node.portReg, node.portReg.backing, core, limiters
    ensures node.portReg.Valid() && node.portReg.State() == old(node.portReg.State())
    ensures ok <==> AllFit(plans, old(node.portReg.State()), |plans|)
    ensures var keys := SeatKeys(Seats(plans), |plans|);
      ok ==> limiters.m == old(limiters.m) - keys && core.inbounds - keys == old(core.inbounds) - keys
    ensures ok ==> forall p :: p in plans && KeyOf(p) in core.inbounds ==> p.a.closeNode.Kept?
    ensures ok && AllStayUp(ticks) ==> forall p :: p in plans && p.a.closeNode.Kept? ==> KeyOf(p) in core.inbounds
  {
    hide AllStart, WorldAt, Unwind, Attempted, Starts, Seats, SeatKeys, OneToOne, Node.Lineup, PortRegistry.Inv;
    ghost var w := node.Shared(core, limiters);
    ghost var failed, ls;
    ok, failed, ls := node.Start(plans, core, limiters);
    hide AllFit;
    AllComeUp(w, plans, ls, failed);
    if !ok {
      FailedStartRestoresRegistry(w, plans, ls, failed);
      return;
    }
    AllRunning(node.controllers, w, plans, ls, core, limiters, node.portReg);
    hide Serving, KeyOf, AllStayUp;
    ghost var x := PullAndClose(node, Seats(plans), ticks, core, limiters);
    CloseUndoesServing(w, x, plans, ls);
    forall i | 0 <= i < |plans|
      ensures KeyOf(plans[i]) in core.inbounds ==> plans[i].a.closeNode.Kept?
      ensures AllStayUp(ticks) && plans[i].a.closeNode.Kept? ==> KeyOf(plans[i]) in core.inbounds
    {
      ClosedKey(w, x, plans, ls, i);
      StartedServe(w, plans, ls, i, |plans|);
    }
  }
}
