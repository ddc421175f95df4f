/** When nodes come up: the bring-up of one node, and of all, in terms of what was configured, what the
    panel served and how the core answered. */
module Startup {
  import opened Base
  import opened PortRegistry
  import opened UserIndex
  import opened Controllers
  import opened Nodes
  import opened Lifecycle

  // ---------------------------------------------------------------- one node

  /** Nothing about the node itself stands in its way. */
  predicate Good(p: Plan) {
    && p.a.client && (p.cfg.core != "" || !p.cfg.nodeType.Unknown?)
    && p.a.body.Config? && p.a.users.Some? && p.a.alive.Some?
    && HasPayload(p.a.body.common) && (OffersTls(p.a.body.common) ==> p.a.cert)
    && p.a.addNode.Installed? && (p.a.users.value == [] || p.a.addUsers.AllAdded?)
    && (p.cfg.dynamicLimit ==> p.cfg.dynamicConfig)
  }

  /** The configured name, or one made of panel, type and id. */
  function TagOf(p: Plan): string {
    if p.cfg.name != "" then p.cfg.name
    else "[" + p.cfg.apiHost + "]-" + KindName(p.cfg.nodeType) + ":" + p.cfg.nodeId
  }

  /** The configured core; without one sing for the protocols over UDP alone and AnyTLS, xray otherwise. */
  function CoreOf(p: Plan): string {
    if p.cfg.core != "" then p.cfg.core
    else if p.cfg.nodeType.Tuic? || p.cfg.nodeType.Hysteria? || p.cfg.nodeType.Hysteria2? || p.cfg.nodeType.AnyTLS?
    then "sing"
    else if p.cfg.nodeType.Unknown? then "" else "xray"
  }

  lemma KeysAre(p: Plan)
    requires p.a.body.Config?
    ensures PlanTag(p) == TagOf(p) && PlanKey(p) == KeyOf(p) == CoreOf(p) + "|" + TagOf(p)
    ensures CoreTypeOf(p.cfg) == CoreOf(p)
  {
  }

  /** Different protocols have different names in tags. */
  lemma KindNamesDiffer(p: Protocol, q: Protocol)
    requires !p.Unknown? && !q.Unknown? && KindName(p) == KindName(q)
    ensures p == q
  {
  }

  /** The node wants to listen there. */
  predicate ListensAt(p: Plan, s: Spec) {
    p.a.body.Config? && s.addr == p.cfg.listenIP && Wants(p.a.body.common, s.port, s.transport)
  }

  ghost predicate Blocked(p: Plan, held: seq<Owner>) {
    exists s, o :: ListensAt(p, s) && o in held && Overlap(s, o.spec)
  }

  /** The registry has room for the node. */
  ghost predicate Fits(p: Plan, r: Reg) {
    CoreOf(p) + "|" + TagOf(p) !in r.keys && TagOf(p) !in r.tags && !Blocked(p, r.listeners)
  }

  lemma SpecsListen(p: Plan)
    requires p.a.body.Config? && HasPayload(p.a.body.common)
    ensures PlanSpecs(p).Some? && forall s :: s in PlanSpecs(p).value <==> ListensAt(p, s)
  {
    ListenersWanted(p.Info().value, p.cfg.listenIP);
  }

  lemma BlockedIsClash(p: Plan, held: seq<Owner>)
    requires p.a.body.Config? && HasPayload(p.a.body.common)
    ensures PlanSpecs(p).Some? && (Clashes(held, PlanSpecs(p).value) <==> Blocked(p, held))
  {
    SpecsListen(p);
    var specs := PlanSpecs(p).value;
    hide ListensAt, Overlap, PlanSpecs;
    ClashesMean(held, specs);
    if i, j :| 0 <= i < |specs| && 0 <= j < |held| && Overlap(specs[i], held[j].spec) {
      assert specs[i] in specs && held[j] in held;
    }
    if s, o :| ListensAt(p, s) && o in held && Overlap(s, o.spec) {
      var i :| 0 <= i < |specs| && specs[i] == s;
      var j :| 0 <= j < |held| && held[j] == o;
    }
  }

  /** A node starts exactly when nothing about it stands in its way and the registry has room. */
  lemma StartsExactly(p: Plan, r: Reg)
    ensures Starts(p, r) <==> Good(p) && Fits(p, r)
  {
    if p.a.body.Config? {
      KeysAre(p);
      ListenersWanted(p.Info().value, p.cfg.listenIP);
      CertForTls(p.Info().value);
      if HasPayload(p.a.body.common) {
        BlockedIsClash(p, r.listeners);
      }
    }
    hide HasPayload, OffersTls, Blocked, Clashes, TagOf, ListenerSpecsFor;
  }

  // ---------------------------------------------------------------- all nodes

  /** Two nodes that do not get in each other's way. */
  ghost predicate Apart(p: Plan, q: Plan) {
    && CoreOf(p) + "|" + TagOf(p) != CoreOf(q) + "|" + TagOf(q) && TagOf(p) != TagOf(q)
    && forall s, t :: ListensAt(p, s) && ListensAt(q, t) ==> !Overlap(t, HeldAt(s))
  }

  /** Every node is good, fits, and stays clear of those before it. */
  ghost predicate AllFit(plans: seq<Plan>, r: Reg, n: nat)
    requires n <= |plans|
  {
    forall k :: 0 <= k < n ==>
      Good(plans[k]) && Fits(plans[k], r) && forall i :: 0 <= i < k ==> Apart(plans[i], plans[k])
  }

  /** The address a listener is held at. */
  function HeldAt(s: Spec): Spec {
    s.(addr := if s.addr == "" then "0.0.0.0" else s.addr)
  }

  /** A node that came up holds exactly the listeners it wants, under its key and tag. */
  lemma HoldsListeners(p: Plan, r: Reg, o: Owner)
    requires Starts(p, r)
    ensures o in ReservedFor(p, r).listeners <==>
      o in r.listeners
      || exists s :: ListensAt(p, s) && o == Owner(HeldAt(s), CoreOf(p) + "|" + TagOf(p), TagOf(p))
  {
    StartsExactly(p, r);
    KeysAre(p);
    SpecsListen(p);
    var specs, held := PlanSpecs(p).value, ReservedFor(p, r).listeners;
    hide ListensAt, PlanSpecs, Starts, TagOf, CoreOf;
    if o in held && o !in r.listeners {
      var j :| 0 <= j < |held| && held[j] == o;
      assert specs[j - |r.listeners|] in specs;
    }
    if s :| s in specs && o == Owner(HeldAt(s), PlanKey(p), PlanTag(p)) {
      var i :| 0 <= i < |specs| && specs[i] == s;
      assert held[|r.listeners| + i] == o;
    }
  }

  /** What the registry gains with one node. */
  lemma Gains(p: Plan, r: Reg)
    requires Starts(p, r)
    ensures ReservedFor(p, r).keys == r.keys + {CoreOf(p) + "|" + TagOf(p)}
    ensures ReservedFor(p, r).tags.Keys == r.tags.Keys + {TagOf(p)}
    ensures forall q :: Blocked(q, ReservedFor(p, r).listeners) <==>
      Blocked(q, r.listeners) || exists s, t :: ListensAt(p, s) && ListensAt(q, t) && Overlap(t, HeldAt(s))
  {
    StartsExactly(p, r);
    KeysAre(p);
    var held := ReservedFor(p, r).listeners;
    forall o { HoldsListeners(p, r, o); }
    hide ListensAt, Overlap, PlanSpecs, Starts, ReservedFor;
    forall q, t, s | ListensAt(p, s) && ListensAt(q, t) && Overlap(t, HeldAt(s)) ensures Blocked(q, held) {
      assert Owner(HeldAt(s), CoreOf(p) + "|" + TagOf(p), TagOf(p)) in held;
    }
  }

  /** Room for a node after another came up. */
  lemma FitsAfter(p: Plan, r: Reg, q: Plan)
    requires Starts(p, r)
    ensures Fits(q, ReservedFor(p, r)) <==> Fits(q, r) && Apart(p, q)
  {
    Gains(p, r);
    hide Starts, ReservedFor, Blocked, ListensAt, Overlap, CoreOf, TagOf;
  }

  lemma {:induction false} FitsAtLast(w: World, plans: seq<Plan>, ls: seq<Limiter>, k: nat, q: Plan)
    requires k <= |plans| && k <= |ls| && AllStart(w, plans, ls, k)
    ensures Fits(q, WorldAt(w, plans, ls, k).reg) <==>
      Fits(q, w.reg) && forall i :: 0 <= i < k ==> Apart(plans[i], q)
  {
    hide *;
    if k == 0 {
      NothingGrown(w, plans, ls);
    } else {
      StepUp(w, plans, ls, k);
      FitsAtLast(w, plans, ls, k - 1, q);
      FitsAfter(plans[k - 1], WorldAt(w, plans, ls, k - 1).reg, q);
    }
  }

  lemma NextStarts(w: World, plans: seq<Plan>, ls: seq<Limiter>, k: nat)
    requires k < |plans| && k <= |ls| && AllStart(w, plans, ls, k)
    ensures Starts(plans[k], WorldAt(w, plans, ls, k).reg) <==>
      Good(plans[k]) && Fits(plans[k], w.reg) && forall i :: 0 <= i < k ==> Apart(plans[i], plans[k])
  {
    hide *;
    StartsExactly(plans[k], WorldAt(w, plans, ls, k).reg);
    FitsAtLast(w, plans, ls, k, plans[k]);
  }

  lemma {:induction false} StartedFit(w: World, plans: seq<Plan>, ls: seq<Limiter>, k: nat)
    requires k <= |plans| && k <= |ls| && AllStart(w, plans, ls, k)
    ensures AllFit(plans, w.reg, k)
  {
    hide Starts, WorldAt, Good, Fits, Apart;
    forall j | 0 <= j < k
      ensures Good(plans[j]) && Fits(plans[j], w.reg) && forall i :: 0 <= i < j ==> Apart(plans[i], plans[j])
    {
      assert AllStart(w, plans, ls, j) && Starts(plans[j], WorldAt(w, plans, ls, j).reg);
      NextStarts(w, plans, ls, j);
    }
  }

  /** All nodes come up exactly when each is good, there was room for it, and no two are in each other's
      way; in particular nodes that share neither tag nor port, or only one over TCP and one over UDP. */
  lemma AllComeUp(w: World, plans: seq<Plan>, ls: seq<Limiter>, failed: nat)
    requires failed <= |plans| && |ls| == failed && AllStart(w, plans, ls, failed)
    requires failed < |plans| ==> !Starts(plans[failed], WorldAt(w, plans, ls, failed).reg)
    ensures failed == |plans| <==> AllFit(plans, w.reg, |plans|)
  {
    hide Starts, WorldAt, AllStart, Good, Fits, Apart;
    StartedFit(w, plans, ls, failed);
    if failed < |plans| {
      NextStarts(w, plans, ls, failed);
    }
  }
}
