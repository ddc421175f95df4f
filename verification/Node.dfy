/** All nodes of a process (Start, Close and rollbackControllers of node/node.go): bring-up is all or
    nothing. */
module Nodes {
  import opened Base
  import opened PortRegistry
  import opened UserIndex
  import opened Controllers

  // ---------------------------------------------------------------- a bring-up of many as a value

  /** A plan gets a controller when its panel client can be built and its core is known. */
  predicate CanTry(p: Plan) {
    p.a.client && CoreTypeOf(p.cfg) != ""
  }

  predicate Starts(p: Plan, r: Reg) {
    CanTry(p) && StageOf(p, r).Up?
  }

  function KeyOf(p: Plan): string {
    if p.Info().Some? then PlanKey(p) else ""
  }

  /** The shared state once the first k plans are up, with the limiters they made. */
  function WorldAt(w: World, plans: seq<Plan>, ls: seq<Limiter>, k: nat): World
    requires k <= |plans| && k <= |ls|
  {
    if k == 0 then w else Succeeded(plans[k - 1], WorldAt(w, plans, ls, k - 1), ls[k - 1])
  }

  /** What a plan that does not start leaves. */
  function Attempted(p: Plan, w: World): World {
    if CanTry(p) then Failed(p, w) else w
  }

  /** A running controller as its teardown sees it: the key, and how the core will let go of it. */
  datatype Seat = Seat(key: string, how: DelHow)

  function SeatOf(p: Plan): Seat {
    Seat(KeyOf(p), p.a.closeNode)
  }

  function Seats(plans: seq<Plan>): (seats: seq<Seat>)
    ensures |seats| == |plans|
  {
    seq(|plans|, i requires 0 <= i < |plans| => SeatOf(plans[i]))
  }

  /** Closing the first k controllers, last one first. */
  function Unwind(w: World, seats: seq<Seat>, k: nat): World
    requires k <= |seats|
    decreases k
  {
    if k == 0 then w else Unwind(ClosedWorld(w, seats[k - 1].key, seats[k - 1].how), seats, k - 1)
  }

  ghost predicate AllStart(w: World, plans: seq<Plan>, ls: seq<Limiter>, k: nat)
    requires k <= |plans| && k <= |ls|
  {
    forall i :: 0 <= i < k ==> Starts(plans[i], WorldAt(w, plans, ls, i).reg)
  }

  // ---------------------------------------------------------------- the node

  class Node {
    var controllers: seq<Controller>
    const portReg: Registry

    constructor ()
      ensures controllers == [] && portReg.Valid() && portReg.State() == PortRegistry.EMPTY
      ensures fresh(portReg) && fresh(portReg.backing)
    {
      controllers := [];
      portReg := new Registry();
    }

    ghost function Shared(core: Core, limiters: LimiterMap): World
      reads portReg, portReg.backing, core, limiters
      requires portReg.n <= portReg.backing.Length
    {
      World(portReg.State(), limiters.m, core.inbounds)
    }

    /** A running controller, wired to the shared objects. */
    static ghost predicate Sits(c: Controller, key: string, core: Core, limiters: LimiterMap, reg: Registry)
      reads c
    {
      && c.server == core && c.limiters == limiters && c.portRegistry == reg
      && c.runtimeKey == key && c.runtimeKey != "" && c.runtimeKey == RuntimeKey(c.coreType, c.logicalTag)
    }

    /** A running controller holds what its plan gave it, and the limiter made for it; its client remembers
        what it read. */
    static ghost predicate Carries(c: Controller, p: Plan, l: Limiter)
      reads c, c.apiClient
    {
      && c.cfg == p.cfg && c.limiter == l && p.Info().Some? && c.info == p.Info() && c.logicalTag == PlanTag(p)
      && p.a.users.Some? && c.userList == p.a.users.value
      && c.apiClient.seen == Some(p.a.body) && c.apiClient.userEtag == p.a.etag
    }

    static ghost function Clients(cs: seq<Controller>): set<PanelClient> {
      set c | c in cs :: c.apiClient
    }

    /** A controller with the objects only it refers to: its panel client and its limiter. */
    static ghost function Own(c: Controller): set<object>
      reads c
    {
      {c, c.apiClient} + if c.limiter == null then {} else {c.limiter}
    }

    /** Different controllers, each seated and carrying what its plan gave it. */
    static ghost predicate Lineup(cs: seq<Controller>, seats: seq<Seat>, plans: seq<Plan>, ls: seq<Limiter>,
                                  core: Core, limiters: LimiterMap, reg: Registry)
      reads cs, Clients(cs)
    {
      && |cs| == |seats| == |ls| <= |plans|
      && (forall i :: 0 <= i < |cs| ==>
        Sits(cs[i], seats[i].key, core, limiters, reg) && Carries(cs[i], plans[i], ls[i]))
      && (forall i, j :: 0 <= i < j < |cs| ==> cs[i] != cs[j])
    }

    static lemma LineupStarts(plans: seq<Plan>, core: Core, limiters: LimiterMap, reg: Registry)
      ensures Lineup([], [], plans, [], core, limiters, reg)
    {
    }

    static lemma LineupSits(cs: seq<Controller>, seats: seq<Seat>, plans: seq<Plan>, ls: seq<Limiter>,
                            core: Core, limiters: LimiterMap, reg: Registry)
      requires Lineup(cs, seats, plans, ls, core, limiters, reg)
      ensures |cs| == |seats| && forall i :: 0 <= i < |cs| ==> Sits(cs[i], seats[i].key, core, limiters, reg)
    {
    }

    static lemma LineupGrows(cs: seq<Controller>, seats: seq<Seat>, plans: seq<Plan>, ls: seq<Limiter>,
                             core: Core, limiters: LimiterMap, reg: Registry, c: Controller, seat: Seat, l: Limiter)
      requires Lineup(cs, seats, plans, ls, core, limiters, reg) && |cs| < |plans| && c !in cs
      requires Sits(c, seat.key, core, limiters, reg) && Carries(c, plans[|cs|], l)
      ensures Lineup(cs + [c], seats + [seat], plans, ls + [l], core, limiters, reg)
    {
      hide Sits, Carries;
      var n, cs', seats', ls' := |cs|, cs + [c], seats + [seat], ls + [l];
      forall i | 0 <= i < |cs'|
        ensures Sits(cs'[i], seats'[i].key, core, limiters, reg) && Carries(cs'[i], plans[i], ls'[i])
      {
        assert i < n ==> cs'[i] == cs[i] && seats'[i] == seats[i] && ls'[i] == ls[i];
      }
    }

    /** Closes controllers in reverse order. */
    static method CloseAll(cs: seq<Controller>, seats: seq<Seat>, core: Core, limiters: LimiterMap, reg: Registry)
      requires |cs| == |seats| && reg.Valid()
      requires forall i :: 0 <= i < |cs| ==> Sits(cs[i], seats[i].key, core, limiters, reg)
      modifies cs, reg, reg.backing, core, limiters
      ensures reg.Valid() && reg.backing == old(reg.backing)
      ensures World(reg.State(), limiters.m, core.inbounds)
           == Unwind(old(World(reg.State(), limiters.m, core.inbounds)), seats, |cs|)
    {
      var k := |cs|;
      ghost var was := World(reg.State(), limiters.m, core.inbounds);
      while k > 0
        invariant 0 <= k <= |cs| && reg.Valid() && reg.backing == old(reg.backing)
        invariant forall i :: 0 <= i < |cs| ==> Sits(cs[i], seats[i].key, core, limiters, reg)
        invariant Unwind(World(reg.State(), limiters.m, core.inbounds), seats, k) == Unwind(was, seats, |cs|)
      {
        k := k - 1;
        var ok := cs[k].Close(seats[k].how);
      }
    }

    /** Brings up every plan, or closes again those that came up. */
    method Start(plans: seq<Plan>, core: Core, limiters: LimiterMap)
      returns (ok: bool, ghost failed: nat, ghost ls: seq<Limiter>)
      requires portReg.Valid()
      modifies this, portReg, portReg.backing, core, limiters
      ensures portReg.Valid() && (portReg.backing == old(portReg.backing) || fresh(portReg.backing))
      ensures failed <= |plans| && |ls| == failed && (ok <==> failed == |plans|)
      ensures AllStart(old(Shared(core, limiters)), plans, ls, failed)
      ensures ok ==>
        && Shared(core, limiters) == WorldAt(old(Shared(core, limiters)), plans, ls, |plans|)
        && |controllers| == |plans| && (forall i :: 0 <= i < |plans| ==> fresh(Own(controllers[i])))
        && Lineup(controllers, Seats(plans), plans, ls, core, limiters, portReg)
      ensures !ok ==>
        var before := WorldAt(old(Shared(core, limiters)), plans, ls, failed);
        && controllers == old(controllers)
        && !Starts(plans[failed], before.reg)
        && Shared(core, limiters) == Unwind(Attempted(plans[failed], before), Seats(plans), failed)
    {
      hide Starts, Failed, Succeeded, Attempted, KeyOf, RuntimeKey, OneToOne, ClosedWorld, Node.Sits, Node.Carries,
           Node.Lineup;
      ghost var was := Shared(core, limiters);
      var started, seats, up;
      started, seats, up, ls := StartWhilePossible(plans, core, limiters);
      failed := |started|;
      if up {
        assert Seats(plans)[..failed] == Seats(plans);
        label up:
        controllers := started;
        assert unchanged@up(started, Clients(started));
        return true, failed, ls;
      }
      UnwindPrefix(Shared(core, limiters), Seats(plans), failed, failed);
      LineupSits(started, seats, plans, ls, core, limiters, portReg);
      CloseAll(started, seats, core, limiters, portReg);
      return false, failed, ls;
    }

    /** Brings plans up in order until one fails. */
    method StartWhilePossible(plans: seq<Plan>, core: Core, limiters: LimiterMap)
      returns (started: seq<Controller>, seats: seq<Seat>, up: bool, ghost ls: seq<Limiter>)
      requires portReg.Valid()
      modifies portReg, portReg.backing, core, limiters
      ensures portReg.Valid() && (portReg.backing == old(portReg.backing) || fresh(portReg.backing))
      ensures |started| == |ls| == |seats| <= |plans| && (up <==> |started| == |plans|)
      ensures seats == Seats(plans)[..|seats|] && AllStart(old(Shared(core, limiters)), plans, ls, |ls|)
      ensures Lineup(started, seats, plans, ls, core, limiters, portReg)
      ensures forall j :: 0 <= j < |started| ==> fresh(Own(started[j]))
      ensures var here := WorldAt(old(Shared(core, limiters)), plans, ls, |ls|);
        if up then Shared(core, limiters) == here
        else !Starts(plans[|ls|], here.reg) && Shared(core, limiters) == Attempted(plans[|ls|], here)
    {
      hide Starts, Failed, Succeeded, Attempted, KeyOf, RuntimeKey, OneToOne, ClosedWorld, Node.Sits, Node.Carries,
           Node.Lineup, Node.Own, AllStart, WorldAt, Seats, SeatOf;
      ghost var was := Shared(core, limiters);
      started, seats, ls, up := [], [], [], true;
      LineupStarts(plans, core, limiters, portReg);
      NoneUp(was, plans);
      for i := 0 to |plans|
        invariant |ls| == |started| == |seats| == i
        invariant portReg.Valid() && (portReg.backing == old(portReg.backing) || fresh(portReg.backing))
        invariant Shared(core, limiters) == WorldAt(was, plans, ls, i)
        invariant AllStart(was, plans, ls, i)
        invariant seats == Seats(plans)[..i]
        invariant forall j :: 0 <= j < i ==> fresh(Own(started[j]))
        invariant Lineup(started, seats, plans, ls, core, limiters, portReg)
      {
        var ctrl;
        label before:
        up, ctrl := TryOne(plans[i], core, limiters);
        assert unchanged@before(started, Clients(started));
        if !up {
          return;
        }
        OneMoreUp(was, plans, ls, ctrl.limiter, i);
        OneMoreSeat(plans, i);
        LineupGrows(started, seats, plans, ls, core, limiters, portReg, ctrl, SeatOf(plans[i]), ctrl.limiter);
        ls := ls + [ctrl.limiter];
        started, seats := started + [ctrl], seats + [SeatOf(plans[i])];
      }
    }

    /** Builds and starts the controller of one plan. */
    method TryOne(p: Plan, core: Core, limiters: LimiterMap) returns (up: bool, ctrl: Controller)
      requires portReg.Valid()
      modifies portReg, portReg.backing, core, limiters
      ensures portReg.Valid() && (portReg.backing == old(portReg.backing) || fresh(portReg.backing)) && fresh(ctrl)
      ensures up ==> fresh(Own(ctrl))
      ensures up == Starts(p, old(portReg.State()))
      ensures up ==> Sits(ctrl, SeatOf(p).key, core, limiters, portReg) && ctrl.limiter != null
                     && Carries(ctrl, p, ctrl.limiter)
                     && Shared(core, limiters) == Succeeded(p, old(Shared(core, limiters)), ctrl.limiter)
      ensures !up ==> Shared(core, limiters) == Attempted(p, old(Shared(core, limiters)))
    {
      var coreType := p.cfg.core;
      if coreType == "" {
        coreType := DefaultCoreFor(p.cfg.nodeType);
      }
      var client := new PanelClient();
      ctrl := new Controller(coreType, p.cfg, client, core, limiters, portReg);
      if !p.a.client || coreType == "" {
        return false, ctrl;
      }
      up := ctrl.Start(p.a);
      if up {
        assert ctrl.runtimeKey[|coreType|] == '|';
      }
    }

    /** Closes everything, last controller first; close failures are only logged. */
    method Close(seats: seq<Seat>, core: Core, limiters: LimiterMap)
      requires portReg.Valid() && |seats| == |controllers|
      requires forall i :: 0 <= i < |controllers| ==> Sits(controllers[i], seats[i].key, core, limiters, portReg)
      modifies this, controllers, portReg, portReg.backing, core, limiters
      ensures portReg.Valid() && controllers == []
      ensures Shared(core, limiters) == Unwind(old(Shared(core, limiters)), seats, |seats|)
    {
      CloseAll(controllers, seats, core, limiters, portReg);
      controllers := [];
    }
  }

  lemma {:induction false} UnwindPrefix(w: World, seats: seq<Seat>, n: nat, k: nat)
    requires k <= n <= |seats|
    ensures Unwind(w, seats[..n], k) == Unwind(w, seats, k)
    decreases k
  {
    if k > 0 {
      UnwindPrefix(ClosedWorld(w, seats[k - 1].key, seats[k - 1].how), seats, n, k - 1);
    }
  }

  lemma {:induction false} SamePrefix(w: World, plans: seq<Plan>, ls: seq<Limiter>, l: Limiter, k: nat)
    requires k <= |plans| && k <= |ls|
    ensures WorldAt(w, plans, ls + [l], k) == WorldAt(w, plans, ls, k)
  {
    if k > 0 {
      SamePrefix(w, plans, ls, l, k - 1);
    }
  }

  /** One more plan is up. */
  lemma OneMoreUp(w: World, plans: seq<Plan>, ls: seq<Limiter>, l: Limiter, n: nat)
    requires n < |plans| && n == |ls| && AllStart(w, plans, ls, n) && Starts(plans[n], WorldAt(w, plans, ls, n).reg)
    ensures AllStart(w, plans, ls + [l], n + 1)
    ensures WorldAt(w, plans, ls + [l], n + 1) == Succeeded(plans[n], WorldAt(w, plans, ls, n), l)
  {
    forall i | 0 <= i <= n ensures WorldAt(w, plans, ls + [l], i) == WorldAt(w, plans, ls, i) {
      SamePrefix(w, plans, ls, l, i);
    }
  }

  lemma OneMoreSeat(plans: seq<Plan>, n: nat)
    requires n < |plans|
    ensures Seats(plans)[..n + 1] == Seats(plans)[..n] + [SeatOf(plans[n])]
  {
  }

  lemma NoneUp(w: World, plans: seq<Plan>)
    ensures AllStart(w, plans, [], 0) && WorldAt(w, plans, [], 0) == w && Seats(plans)[..0] == []
  {
  }
}
