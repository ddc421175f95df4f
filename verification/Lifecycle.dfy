/** What bring-up, teardown and reload guarantee, for every list of nodes and every failure pattern. */
module Lifecycle {
  import opened Base
  import opened PortRegistry
  import opened UserIndex
  import opened Controllers
  import opened Nodes

  // ---------------------------------------------------------------- one step and its undoing

  /** Closing a controller that came up takes its reservation back exactly. */
  lemma CloseUndoesReservation(p: Plan, r: Reg)
    requires PortRegistry.Inv(r) && Starts(p, r)
    ensures Released(ReservedFor(p, r), KeyOf(p)) == r && PortRegistry.Inv(ReservedFor(p, r))
    ensures KeyOf(p) !in r.keys && KeyOf(p) in ReservedFor(p, r).keys
  {
    ReleaseUndoesReserve(r, PlanKey(p), PlanTag(p), PlanSpecs(p).value);
    ReserveKeeps(r, PlanKey(p), PlanTag(p), PlanSpecs(p).value);
  }

  /** A bring-up that fails leaves the registry as it was. */
  lemma AttemptRestoresRegistry(p: Plan, w: World)
    requires PortRegistry.Inv(w.reg) && !Starts(p, w.reg)
    ensures Attempted(p, w).reg == w.reg
  {
    if CanTry(p) && !Early(StageOf(p, w.reg)) {
      ReleaseUndoesReserve(w.reg, PlanKey(p), PlanTag(p), PlanSpecs(p).value);
    }
  }

  /** The state after the k-th plan came up, from the state before it. */
  lemma StepUp(w: World, plans: seq<Plan>, ls: seq<Limiter>, k: nat)
    requires 0 < k <= |plans| && k <= |ls| && AllStart(w, plans, ls, k)
    ensures var p, before, after := plans[k - 1], WorldAt(w, plans, ls, k - 1), WorldAt(w, plans, ls, k);
      && AllStart(w, plans, ls, k - 1) && Starts(p, before.reg)
      && PanelAnswers(p.a) && p.Info().Some? && p.a.users.Some? && PlanSpecs(p).Some?
      && after.reg == ReservedFor(p, before.reg)
      && after.limiters == before.limiters[KeyOf(p) := ls[k - 1]]
      && after.inbounds == before.inbounds[KeyOf(p) := Inbound(p.Info().value, p.a.users.value)]
  {
    hide PlanSpecs, RuntimeKey, Served, ReservedFor;
    ServedIs(plans[k - 1], WorldAt(w, plans, ls, k - 1));
  }

  lemma SeatAt(plans: seq<Plan>, k: nat)
    requires k < |plans|
    ensures |Seats(plans)| == |plans| && Seats(plans)[k].key == KeyOf(plans[k])
      && Seats(plans)[k].how == plans[k].a.closeNode
  {
  }

  // ---------------------------------------------------------------- the registry

  lemma {:induction false} RegistryGrows(w: World, plans: seq<Plan>, ls: seq<Limiter>, k: nat)
    requires k <= |plans| && k <= |ls| && PortRegistry.Inv(w.reg) && AllStart(w, plans, ls, k)
    ensures PortRegistry.Inv(WorldAt(w, plans, ls, k).reg)
    ensures k > 0 ==> WorldAt(w, plans, ls, k).reg == ReservedFor(plans[k - 1], WorldAt(w, plans, ls, k - 1).reg)
  {
    if k > 0 {
      hide Starts, KeyOf, WorldAt, ReservedFor, Released, PortRegistry.Inv;
      StepUp(w, plans, ls, k);
      RegistryGrows(w, plans, ls, k - 1);
      CloseUndoesReservation(plans[k - 1], WorldAt(w, plans, ls, k - 1).reg);
    }
  }

  lemma UnwindStep(x: World, seats: seq<Seat>, k: nat)
    requires k <= |seats|
    ensures k == 0 ==> Unwind(x, seats, k) == x
    ensures k > 0 ==>
      var closed := ClosedWorld(x, seats[k - 1].key, seats[k - 1].how);
      Unwind(x, seats, k) == Unwind(closed, seats, k - 1) && closed.reg == Released(x.reg, seats[k - 1].key)
  {
  }

  lemma {:induction false} UnwindRegistry(w: World, x: World, plans: seq<Plan>, ls: seq<Limiter>, k: nat)
    requires k <= |plans| && k <= |ls| && PortRegistry.Inv(w.reg) && AllStart(w, plans, ls, k)
    requires x.reg == WorldAt(w, plans, ls, k).reg
    ensures Unwind(x, Seats(plans), k).reg == w.reg
    decreases k
  {
    hide *;
    UnwindStep(x, Seats(plans), k);
    if k == 0 {
      NothingGrown(w, plans, ls);
    } else {
      SeatAt(plans, k - 1);
      StepUp(w, plans, ls, k);
      RegistryGrows(w, plans, ls, k - 1);
      CloseUndoesReservation(plans[k - 1], WorldAt(w, plans, ls, k - 1).reg);
      UnwindRegistry(w, ClosedWorld(x, Seats(plans)[k - 1].key, Seats(plans)[k - 1].how), plans, ls, k - 1);
    }
  }

  /** Whatever node fails and however it fails, Node.Start leaves the port registry exactly as it was. */
  lemma FailedStartRestoresRegistry(w: World, plans: seq<Plan>, ls: seq<Limiter>, f: nat)
    requires f < |plans| && f <= |ls| && PortRegistry.Inv(w.reg) && AllStart(w, plans, ls, f)
    requires !Starts(plans[f], WorldAt(w, plans, ls, f).reg)
    ensures Unwind(Attempted(plans[f], WorldAt(w, plans, ls, f)), Seats(plans), f).reg == w.reg
  {
    var here := WorldAt(w, plans, ls, f);
    RegistryGrows(w, plans, ls, f);
    AttemptRestoresRegistry(plans[f], here);
    UnwindRegistry(w, Attempted(plans[f], here), plans, ls, f);
  }

  // ---------------------------------------------------------------- the limiters

  function SeatKeys(seats: seq<Seat>, k: nat): set<string>
    requires k <= |seats|
  {
    if k == 0 then {} else SeatKeys(seats, k - 1) + {seats[k - 1].key}
  }

  lemma SeatKeysStep(plans: seq<Plan>, k: nat)
    requires 0 < k <= |plans|
    ensures SeatKeys(Seats(plans), k) == SeatKeys(Seats(plans), k - 1) + {KeyOf(plans[k - 1])}
  {
    SeatAt(plans, k - 1);
  }

  lemma {:induction false} UnwindLimiters(x: World, seats: seq<Seat>, k: nat)
    requires k <= |seats|
    ensures Unwind(x, seats, k).limiters == x.limiters - SeatKeys(seats, k)
    decreases k
  {
    if k > 0 {
      UnwindLimiters(ClosedWorld(x, seats[k - 1].key, seats[k - 1].how), seats, k - 1);
    }
  }

  lemma {:induction false} LimitersGrow(w: World, plans: seq<Plan>, ls: seq<Limiter>, k: nat)
    requires k <= |plans| && k <= |ls| && AllStart(w, plans, ls, k)
    ensures SameOutside(WorldAt(w, plans, ls, k).limiters, w.limiters, SeatKeys(Seats(plans), k))
  {
    hide *;
    if k == 0 {
      NothingGrown(w, plans, ls);
    } else {
      SeatKeysStep(plans, k);
      StepUp(w, plans, ls, k);
      LimitersGrow(w, plans, ls, k - 1);
      var before := WorldAt(w, plans, ls, k - 1);
      PutInside(before.limiters, w.limiters, SeatKeys(Seats(plans), k - 1), KeyOf(plans[k - 1]), ls[k - 1]);
    }
  }

  /** Two maps agree on every key but these. */
  ghost predicate SameOutside<K, V>(m: map<K, V>, n: map<K, V>, s: set<K>) {
    m - s == n - s
  }

  lemma NothingGrown(w: World, plans: seq<Plan>, ls: seq<Limiter>)
    ensures WorldAt(w, plans, ls, 0) == w && SeatKeys(Seats(plans), 0) == {}
    ensures forall m: map<string, Limiter>, s :: SameOutside(m, m, s)
    ensures forall m: Inbounds, s :: SameOutside(m, m, s)
  {
  }

  lemma PutInside<K, V>(m: map<K, V>, n: map<K, V>, s: set<K>, k: K, v: V)
    requires SameOutside(m, n, s)
    ensures SameOutside(m[k := v], n, s + {k})
  {
    assert m[k := v] - (s + {k}) == m - s - {k};
    assert n - (s + {k}) == n - s - {k};
  }

  /** The keys whose limiter a failed start registered, and so removed again. */
  function Touched(w: World, plans: seq<Plan>, ls: seq<Limiter>, f: nat): set<string>
    requires f < |plans| && f <= |ls|
  {
    var p, stage := plans[f], StageOf(plans[f], WorldAt(w, plans, ls, f).reg);
    SeatKeys(Seats(plans), f) + (if CanTry(p) && !Early(stage) && !stage.NoCert? then {KeyOf(p)} else {})
  }

  /** A failed start leaves every limiter but those under keys it used; so the limiter map is restored
      if and only if none of those keys had a limiter before. */
  lemma FailedStartLimiters(w: World, plans: seq<Plan>, ls: seq<Limiter>, f: nat)
    requires f < |plans| && f <= |ls| && AllStart(w, plans, ls, f) && !Starts(plans[f], WorldAt(w, plans, ls, f).reg)
    ensures var end := Unwind(Attempted(plans[f], WorldAt(w, plans, ls, f)), Seats(plans), f).limiters;
      && end == w.limiters - Touched(w, plans, ls, f)
      && (end == w.limiters <==> Touched(w, plans, ls, f) !! w.limiters.Keys)
  {
    hide Starts, WorldAt, Unwind, Seats, SeatKeys, AllStart, RuntimeKey, LogicalTagOf, UndoneInbounds, ReservedFor,
         Released;
    var here := WorldAt(w, plans, ls, f);
    var keys, touched := SeatKeys(Seats(plans), f), Touched(w, plans, ls, f);
    LimitersGrow(w, plans, ls, f);
    UnwindLimiters(Attempted(plans[f], here), Seats(plans), f);
    assert Attempted(plans[f], here).limiters - keys == here.limiters - keys - touched;
    assert w.limiters - keys - touched == w.limiters - touched;
    var end := w.limiters - touched;
    if end == w.limiters {
      forall k | k in touched ensures k !in w.limiters {
        assert k !in end;
      }
    }
  }

  // ---------------------------------------------------------------- the inbounds

  /** The keys among the first k seats whose inbound the core lets go. */
  function LetGo(seats: seq<Seat>, k: nat): set<string>
    requires k <= |seats|
  {
    if k == 0 then {}
    else if seats[k - 1].how.Kept? then LetGo(seats, k - 1)
    else LetGo(seats, k - 1) + {seats[k - 1].key}
  }

  lemma {:induction false} UnwindInbounds(x: World, seats: seq<Seat>, k: nat)
    requires k <= |seats|
    ensures Unwind(x, seats, k).inbounds == x.inbounds - LetGo(seats, k)
    decreases k
  {
    if k > 0 {
      UnwindInbounds(ClosedWorld(x, seats[k - 1].key, seats[k - 1].how), seats, k - 1);
    }
  }

  lemma {:induction false} InboundsGrow(w: World, plans: seq<Plan>, ls: seq<Limiter>, k: nat)
    requires k <= |plans| && k <= |ls| && AllStart(w, plans, ls, k)
    ensures SameOutside(WorldAt(w, plans, ls, k).inbounds, w.inbounds, SeatKeys(Seats(plans), k))
  {
    hide *;
    if k == 0 {
      NothingGrown(w, plans, ls);
    } else {
      SeatKeysStep(plans, k);
      StepUp(w, plans, ls, k);
      InboundsGrow(w, plans, ls, k - 1);
      var before, p := WorldAt(w, plans, ls, k - 1), plans[k - 1];
      PutInside(before.inbounds, w.inbounds, SeatKeys(Seats(plans), k - 1), KeyOf(p),
                Inbound(p.Info().value, p.a.users.value));
    }
  }

  lemma {:induction false} InboundKeysGrow(w: World, plans: seq<Plan>, ls: seq<Limiter>, k: nat)
    requires k <= |plans| && k <= |ls| && AllStart(w, plans, ls, k)
    ensures WorldAt(w, plans, ls, k).inbounds.Keys == w.inbounds.Keys + SeatKeys(Seats(plans), k)
  {
    hide *;
    if k == 0 {
      NothingGrown(w, plans, ls);
    } else {
      SeatKeysStep(plans, k);
      StepUp(w, plans, ls, k);
      InboundKeysGrow(w, plans, ls, k - 1);
      var before, p := WorldAt(w, plans, ls, k - 1), plans[k - 1];
      PutKeys(before.inbounds, KeyOf(p), Inbound(p.Info().value, p.a.users.value), w.inbounds.Keys,
              SeatKeys(Seats(plans), k - 1));
    }
  }

  lemma PutKeys<K, V>(m: map<K, V>, k: K, v: V, a: set<K>, b: set<K>)
    requires m.Keys == a + b
    ensures m[k := v].Keys == a + (b + {k})
  {
  }

  /** A controller that came up serves its node and all its users. */
  lemma ServedIs(p: Plan, w: World)
    requires Starts(p, w.reg)
    ensures Served(PlanKey(p), p.Info().value, p.a.users.value, p.a, w.inbounds)
         == w.inbounds[PlanKey(p) := Inbound(p.Info().value, p.a.users.value)]
  {
    assert [] + p.a.users.value == p.a.users.value;
  }

  lemma {:induction false} KeysStay(w: World, plans: seq<Plan>, ls: seq<Limiter>, i: nat, k: nat)
    requires i < k <= |plans| && k <= |ls| && AllStart(w, plans, ls, k)
    ensures var r := WorldAt(w, plans, ls, k).reg;
      && KeyOf(plans[i]) in r.keys
      && PanelAnswers(plans[i].a) && PlanSpecs(plans[i]).Some?
      && forall o :: o in Owned(PlanSpecs(plans[i]).value, PlanKey(plans[i]), PlanTag(plans[i])) ==> o in r.listeners
  {
    hide Starts, WorldAt, Served, RuntimeKey, PlanSpecs, LogicalTagOf;
    StepUp(w, plans, ls, k);
    if i < k - 1 {
      KeysStay(w, plans, ls, i, k - 1);
    }
  }

  lemma KeysDiffer(w: World, plans: seq<Plan>, ls: seq<Limiter>, i: nat, j: nat, k: nat)
    requires i < j < k <= |plans| && k <= |ls| && AllStart(w, plans, ls, k)
    ensures KeyOf(plans[i]) != KeyOf(plans[j])
  {
    hide WorldAt, RuntimeKey, PlanSpecs, LogicalTagOf;
    KeysStay(w, plans, ls, i, j);
    assert Starts(plans[j], WorldAt(w, plans, ls, j).reg);
  }

  /** Everything the failing node and the rollback asked the core to take down went. */
  ghost predicate TornDown(w: World, plans: seq<Plan>, ls: seq<Limiter>, f: nat)
    requires f < |plans| && f <= |ls|
  {
    var p, stage := plans[f], StageOf(plans[f], WorldAt(w, plans, ls, f).reg);
    && (forall i :: 0 <= i < f ==> !plans[i].a.closeNode.Kept?)
    && (CanTry(p) && stage.NoNode? ==> p.a.addNode.Refused?)
    && (CanTry(p) && (stage.NoUsers? || stage.NoTasks?) ==> !p.a.undoNode.Kept?)
  }

  lemma {:induction false} LetGoAll(plans: seq<Plan>, k: nat)
    requires k <= |plans|
    ensures LetGo(Seats(plans), k) <= SeatKeys(Seats(plans), k)
    ensures (forall i :: 0 <= i < k ==> !plans[i].a.closeNode.Kept?) ==>
      LetGo(Seats(plans), k) == SeatKeys(Seats(plans), k)
  {
    if k > 0 {
      LetGoAll(plans, k - 1);
    }
  }

  lemma {:induction false} SeatKeysAre(plans: seq<Plan>, k: nat, key: string)
    requires k <= |plans|
    ensures key in SeatKeys(Seats(plans), k) <==> exists i :: 0 <= i < k && KeyOf(plans[i]) == key
  {
    hide KeyOf, Seats;
    if k > 0 {
      SeatKeysStep(plans, k);
      hide SeatKeys;
      SeatKeysAre(plans, k - 1, key);
      if KeyOf(plans[k - 1]) == key {
        assert KeyOf(plans[k - 1]) in SeatKeys(Seats(plans), k);
      }
    }
  }

  lemma {:induction false} LetGoAre(plans: seq<Plan>, k: nat, key: string)
    requires k <= |plans|
    ensures key in LetGo(Seats(plans), k) <==>
      exists i :: 0 <= i < k && KeyOf(plans[i]) == key && !plans[i].a.closeNode.Kept?
  {
    if k > 0 {
      hide KeyOf, Seats;
      SeatAt(plans, k - 1);
      LetGoAre(plans, k - 1, key);
    }
  }

  /** What the failing node itself leaves in the core. */
  lemma AttemptInbounds(p: Plan, w: World)
    requires !Starts(p, w.reg) && (CanTry(p) && !Early(StageOf(p, w.reg)) ==> KeyOf(p) !in w.inbounds)
    ensures var stage, end := StageOf(p, w.reg), Attempted(p, w).inbounds;
      && end - {KeyOf(p)} == w.inbounds - {KeyOf(p)}
      && (end == w.inbounds <==>
            && (CanTry(p) && stage.NoNode? ==> p.a.addNode.Refused?)
            && (CanTry(p) && (stage.NoUsers? || stage.NoTasks?) ==> !p.a.undoNode.Kept?))
      && (end != w.inbounds ==> KeyOf(p) in end)
  {
    var stage := StageOf(p, w.reg);
    if CanTry(p) && !Early(stage) {
      var key := PlanKey(p);
      var served := Served(key, p.Info().value, p.a.users.value, p.a, w.inbounds);
      assert served - {key} == w.inbounds - {key} == w.inbounds;
      assert key in served <==> !p.a.addNode.Refused?;
    }
  }

  /** The failing node's key, when it got past its reservation, is nobody else's. */
  lemma FailingKeyIsNew(w: World, plans: seq<Plan>, ls: seq<Limiter>, f: nat)
    requires f < |plans| && f <= |ls| && AllStart(w, plans, ls, f)
    requires CanTry(plans[f]) && !Early(StageOf(plans[f], WorldAt(w, plans, ls, f).reg))
    ensures KeyOf(plans[f]) !in SeatKeys(Seats(plans), f)
  {
    SeatKeysAre(plans, f, KeyOf(plans[f]));
    if i :| 0 <= i < f && KeyOf(plans[i]) == KeyOf(plans[f]) {
      KeysStay(w, plans, ls, i, f);
    }
  }

  lemma KeptStays(w: World, plans: seq<Plan>, ls: seq<Limiter>, f: nat, i: nat)
    requires i < f <= |plans| && f <= |ls| && AllStart(w, plans, ls, f) && plans[i].a.closeNode.Kept?
    ensures KeyOf(plans[i]) in SeatKeys(Seats(plans), f) && KeyOf(plans[i]) !in LetGo(Seats(plans), f)
  {
    hide KeyOf, AllStart, Seats;
    SeatKeysAre(plans, f, KeyOf(plans[i]));
    LetGoAre(plans, f, KeyOf(plans[i]));
    if j :| 0 <= j < f && KeyOf(plans[j]) == KeyOf(plans[i]) && !plans[j].a.closeNode.Kept? {
      KeysDiffer(w, plans, ls, if i < j then i else j, if i < j then j else i, f);
    }
  }

  /** With keys the core did not serve before, a failed start restores the core's inbounds if and only if
      the failing node left nothing behind and every teardown call let its inbound go. */
  lemma FailedStartInbounds(w: World, plans: seq<Plan>, ls: seq<Limiter>, f: nat)
    requires f < |plans| && f <= |ls| && AllStart(w, plans, ls, f) && !Starts(plans[f], WorldAt(w, plans, ls, f).reg)
    requires forall i :: 0 <= i <= f ==> KeyOf(plans[i]) !in w.inbounds
    ensures Unwind(Attempted(plans[f], WorldAt(w, plans, ls, f)), Seats(plans), f).inbounds == w.inbounds
       <==> TornDown(w, plans, ls, f)
  {
    hide Starts, KeyOf, WorldAt, Unwind, Seats, SeatKeys, LetGo, Attempted, StageOf, AllStart;
    var here := WorldAt(w, plans, ls, f);
    var left, seats, kf := Attempted(plans[f], here).inbounds, Seats(plans), KeyOf(plans[f]);
    var reached := CanTry(plans[f]) && !Early(StageOf(plans[f], here.reg));
    InboundsGrow(w, plans, ls, f);
    InboundKeysGrow(w, plans, ls, f);
    UnwindInbounds(Attempted(plans[f], here), seats, f);
    if reached {
      FailingKeyIsNew(w, plans, ls, f);
    }
    AttemptInbounds(plans[f], here);
    LetGoAll(plans, f);
    forall k | k in SeatKeys(seats, f) ensures k !in w.inbounds {
      SeatKeysAre(plans, f, k);
    }
    assert w.inbounds - SeatKeys(seats, f) == w.inbounds;
    var end := left - LetGo(seats, f);
    if TornDown(w, plans, ls, f) {
      assert end == here.inbounds - SeatKeys(seats, f);
    } else if left != here.inbounds {
      assert reached && kf in end;
    } else {
      var i :| 0 <= i < f && plans[i].a.closeNode.Kept?;
      KeptStays(w, plans, ls, f, i);
      assert KeyOf(plans[i]) in end;
    }
  }

  // ---------------------------------------------------------------- success

  /** After a successful start: runtime keys differ, listeners of different controllers never conflict,
      and every node is served with all its users under the limiter it made. */
  lemma SuccessfulStart(w: World, plans: seq<Plan>, ls: seq<Limiter>, i: nat, j: nat)
    requires |ls| == |plans| && i < j < |plans| && PortRegistry.Inv(w.reg) && AllStart(w, plans, ls, |plans|)
    ensures KeyOf(plans[i]) != KeyOf(plans[j])
    ensures PanelAnswers(plans[i].a) && PlanSpecs(plans[i]).Some? && PanelAnswers(plans[j].a)
      && PlanSpecs(plans[j]).Some?
    ensures forall a, b :: a in PlanSpecs(plans[i]).value && b in PlanSpecs(plans[j]).value ==>
      !ListenerConflict(Normal(a), Normal(b))
  {
    var n := |plans|;
    KeysDiffer(w, plans, ls, i, j, n);
    KeysStay(w, plans, ls, i, n);
    KeysStay(w, plans, ls, j, n);
    RegistryGrows(w, plans, ls, n);
    var r := WorldAt(w, plans, ls, n).reg;
    forall a, b | a in PlanSpecs(plans[i]).value && b in PlanSpecs(plans[j]).value
      ensures !ListenerConflict(Normal(a), Normal(b))
    {
      OwnedHere(r, plans[i], a);
      OwnedHere(r, plans[j], b);
    }
  }

  lemma OwnedHere(r: Reg, p: Plan, s: Spec)
    requires PanelAnswers(p.a) && PlanSpecs(p).Some? && s in PlanSpecs(p).value
    requires forall o :: o in Owned(PlanSpecs(p).value, PlanKey(p), PlanTag(p)) ==> o in r.listeners
    ensures Owner(Normal(s), PlanKey(p), PlanTag(p)) in r.listeners
  {
    var specs := PlanSpecs(p).value;
    var k :| 0 <= k < |specs| && specs[k] == s;
    assert Owned(specs, PlanKey(p), PlanTag(p))[k] == Owner(Normal(s), PlanKey(p), PlanTag(p));
  }

  lemma {:induction false} StartedServe(w: World, plans: seq<Plan>, ls: seq<Limiter>, i: nat, k: nat)
    requires i < k <= |plans| && k <= |ls| && AllStart(w, plans, ls, k)
    ensures var end, p := WorldAt(w, plans, ls, k), plans[i];
      && p.Info().Some? && p.a.users.Some?
      && KeyOf(p) in end.inbounds && end.inbounds[KeyOf(p)] == Inbound(p.Info().value, p.a.users.value)
      && KeyOf(p) in end.limiters && end.limiters[KeyOf(p)] == ls[i]
  {
    hide Starts, KeyOf, WorldAt, ReservedFor, PlanSpecs;
    StepUp(w, plans, ls, k);
    if i < k - 1 {
      StartedServe(w, plans, ls, i, k - 1);
      KeysDiffer(w, plans, ls, i, k - 1, k);
    }
  }

  /** Node.Start then Node.Close gives the registry back; with keys that had no limiter and no inbound
      before, and inbounds the core lets go, the whole shared state. */
  lemma CloseUndoesStart(w: World, plans: seq<Plan>, ls: seq<Limiter>)
    requires |ls| == |plans| && PortRegistry.Inv(w.reg) && AllStart(w, plans, ls, |plans|)
    ensures var end := Unwind(WorldAt(w, plans, ls, |plans|), Seats(plans), |plans|);
      && end.reg == w.reg
      && ((forall i :: 0 <= i < |plans| ==>
             KeyOf(plans[i]) !in w.limiters && KeyOf(plans[i]) !in w.inbounds && !plans[i].a.closeNode.Kept?)
           ==> end == w)
  {
    hide Starts, KeyOf, WorldAt, Unwind, Seats, PortRegistry.Inv, SeatKeys, LetGo;
    var n, up, seats := |plans|, WorldAt(w, plans, ls, |plans|), Seats(plans);
    UnwindRegistry(w, up, plans, ls, n);
    LimitersGrow(w, plans, ls, n);
    UnwindLimiters(up, seats, n);
    InboundsGrow(w, plans, ls, n);
    UnwindInbounds(up, seats, n);
    LetGoAll(plans, n);
    if forall i :: 0 <= i < n ==>
         KeyOf(plans[i]) !in w.limiters && KeyOf(plans[i]) !in w.inbounds && !plans[i].a.closeNode.Kept?
    {
      forall k | k in SeatKeys(seats, n) ensures k !in w.limiters && k !in w.inbounds {
        SeatKeysAre(plans, n, k);
      }
      assert w.limiters - SeatKeys(seats, n) == w.limiters;
      assert w.inbounds - SeatKeys(seats, n) == w.inbounds;
    }
  }

  /** A bring-up that failed leaves periodic tasks running exactly when all went well until the dynamic
      speed limit turned out to be switched on without its settings. */
  lemma TasksOutliveFailure(p: Plan, r: Reg)
    requires PanelAnswers(p.a) && !StageOf(p, r).Up?
    ensures TasksLeft(StageOf(p, r), p.cfg, p.Info().value) != {} <==>
      && p.cfg.dynamicLimit && !p.cfg.dynamicConfig
      && StageOf(Plan(p.cfg.(dynamicConfig := true), p.a), r).Up?
  {
    assert Monitor in TasksStarted(p.cfg, p.Info().value);
    assert PlanSpecs(Plan(p.cfg.(dynamicConfig := true), p.a)) == PlanSpecs(p);
  }

  // ---------------------------------------------------------------- reload

  /** The core serves this node with these users under this key. */
  predicate Serves(ib: Inbounds, key: string, info: NodeInfo, users: seq<UserInfo>) {
    key in ib && ib[key] == Inbound(info, users)
  }

  /** The old inbound and all its users came back. */
  predicate CameBack(users: seq<UserInfo>, r: ReloadAnswers) {
    match r.addOld
    case Installed => users == [] || UpTo(users, r.usersOld) == users
    case HalfInstalled => users == []
    case Refused => false
  }

  lemma RestoredServes(ib: Inbounds, key: string, info: NodeInfo, users: seq<UserInfo>, r: ReloadAnswers)
    ensures CameBack(users, r) ==> Serves(Restored(ib, key, info, users, r), key, info, users)
    ensures !Serves(ib, key, info, users) && Serves(Restored(ib, key, info, users, r), key, info, users) ==>
      CameBack(users, r)
  {
    assert forall us: seq<UserInfo> :: [] + us == us;
  }

  /** The stages and answers after which the controller's node is served. */
  predicate StillServed(stage: ReloadStage_, users: seq<UserInfo>, r: ReloadAnswers) {
    match stage
    case Rejected | Committed => true
    case NotTornDown => r.delOld.Kept?
    case AddFailed | UsersFailed => CameBack(users, r)
  }

  /** After a reload of a served node, what the controller believes it runs is what the core serves when
      the reload was refused early, or was completed, or the old inbound could not be removed and is still
      there, or the rollback brought it back; and, when the new configuration differs, only then. */
  lemma ReloadServes(cfg: NodeConfig, coreType: string, tag: string, ib: Inbounds, key: string, info: NodeInfo,
                     users: seq<UserInfo>, newN: NodeInfo, newU: seq<UserInfo>, r: ReloadAnswers)
    requires Serves(ib, key, info, users) && key == RuntimeKey(coreType, tag)
    ensures var stage, newKey := ReloadStage(cfg, newN, newU, r), NewKey(cfg, coreType, tag, newN);
      var end := Reloaded(stage, ib, key, info, users, newKey, newN, newU, r);
      var served := if stage.Committed? then Serves(end, newKey, newN, newU) else Serves(end, key, info, users);
      && (StillServed(stage, users, r) ==> served)
      && (served && newN != info ==> StillServed(stage, users, r))
  {
    var stage, newKey := ReloadStage(cfg, newN, newU, r), NewKey(cfg, coreType, tag, newN);
    if stage.AddFailed? || stage.UsersFailed? {
      RestoredServes(NewGone(stage.AddFailed?, ib - {key}, newKey, newN, newU, r), key, info, users, r);
    }
  }
}
