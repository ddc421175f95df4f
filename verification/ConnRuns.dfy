/** Every run of the connection limiter: connects, closes (any number of times) and sweeps, in any order. */
module ConnRuns {
  import opened Base
  import opened ConnLimits

  /** An admitted TCP connection and its release-once wrapper. `hooked` says that the wrapper carries
      a release: the data path installs one only in realtime mode and only when the checks that follow
      AddConnCount accept the connection too. */
  datatype Link = Link(user: User, raw: Addr, hooked: bool, closed: bool)

  /** `packet` is ghost history: the addresses that came online with a packet protocol and have not
      been swept since. */
  datatype World = World(t: Tables, links: seq<Link>, packet: set<(User, Addr)>)

  datatype Event =
    | Connect(user: User, raw: Addr, tcp: bool, accepted: bool, now: int)
    | Close(k: nat)
    | SweepAll(now: int)

  const START := World(EMPTY, [], {})

  const MAPPED_PREFIX := "::ffff:"

  /** CheckLimit strips one IPv4-mapped prefix before AddConnCount; the release hook does not. */
  function Unmap(raw: Addr): Addr {
    if MAPPED_PREFIX <= raw then raw[|MAPPED_PREFIX|..] else raw
  }

  function Step(cfg: Config, w: World, e: Event): World {
    match e
    case Connect(user, raw, tcp, accepted, now) =>
      var ip := Unmap(raw);
      if Rejects(cfg, w.t, user, ip) then w else
        World(Admit(cfg, w.t, user, ip, tcp, now),
              if tcp then w.links + [Link(user, raw, cfg.realtime && accepted, false)] else w.links,
              if cfg.realtime && cfg.ipLimit != 0 && !tcp && ip !in AddrsOf(w.t, user)
              then w.packet + {(user, ip)} else w.packet)
    case Close(k) =>
      if k >= |w.links| then w else
        var l := w.links[k];
        World(if l.hooked && !l.closed then Release(cfg, w.t, l.user, l.raw) else w.t,
              w.links[k := l.(closed := true)], w.packet)
    case SweepAll(now) =>
      World(Sweep(w.t, now), w.links,
            set p | p in w.packet && Live(w.links, p.0, Some(p.1)) > 0)
  }

  function Run(cfg: Config, w: World, es: seq<Event>): World
    decreases |es|
  {
    if es == [] then w else Run(cfg, Step(cfg, w, es[0]), es[1..])
  }

  predicate Mapped(raw: Addr) {
    MAPPED_PREFIX <= raw
  }

  /** A connection is charged to its user until its release has fired, and to its slot likewise, but for
      ever when its address is IPv4-mapped: the release then names a slot that does not exist. */
  predicate Charged(l: Link, slot: bool) {
    !(l.hooked && l.closed && !(slot && Mapped(l.raw)))
  }

  predicate Matches(l: Link, user: User, at: Option<Addr>) {
    Charged(l, at.Some?) && l.user == user && (at.Some? ==> Unmap(l.raw) == at.value)
  }

  /** Connections charged to a user, or to a slot of the user. */
  function Live(links: seq<Link>, user: User, at: Option<Addr>): nat {
    if links == [] then 0
    else (if Matches(links[0], user, at) then 1 else 0) + Live(links[1..], user, at)
  }

  lemma {:induction false} LiveAppend(links: seq<Link>, l: Link, user: User, at: Option<Addr>)
    ensures Live(links + [l], user, at) == Live(links, user, at) + (if Matches(l, user, at) then 1 else 0)
  {
    if links == [] {
      assert links + [l] == [l];
    } else {
      assert (links + [l])[1..] == links[1..] + [l];
      LiveAppend(links[1..], l, user, at);
    }
  }

  lemma {:induction false} LiveUpdate(links: seq<Link>, k: nat, l: Link, user: User, at: Option<Addr>)
    requires k < |links|
    ensures Live(links[k := l], user, at) + (if Matches(links[k], user, at) then 1 else 0)
         == Live(links, user, at) + (if Matches(l, user, at) then 1 else 0)
  {
    if k > 0 {
      assert links[k := l][1..] == links[1..][k - 1 := l];
      LiveUpdate(links[1..], k - 1, l, user, at);
    } else {
      assert links[k := l][1..] == links[1..];
    }
  }

  lemma {:induction false} LivePositive(links: seq<Link>, user: User, at: Option<Addr>)
    ensures Live(links, user, at) > 0 <==> exists k :: 0 <= k < |links| && Matches(links[k], user, at)
  {
    if links != [] {
      LivePositive(links[1..], user, at);
      if exists k :: 0 <= k < |links[1..]| && Matches(links[1..][k], user, at) {
        var k :| 0 <= k < |links[1..]| && Matches(links[1..][k], user, at);
        assert links[k + 1] == links[1..][k];
      }
      if exists k :: 0 <= k < |links| && Matches(links[k], user, at) {
        var k :| 0 <= k < |links| && Matches(links[k], user, at);
        assert k > 0 ==> links[1..][k - 1] == links[k];
      }
    }
  }

  // ---------------------------------------------------------------- the invariant

  function SlotValue(t: Tables, user: User, ip: Addr): int {
    if ip in AddrsOf(t, user) && t.ip[user][ip].Count? then t.ip[user][ip].n else 0
  }

  function PacketBit(w: World, user: User, ip: Addr): int {
    if (user, ip) in w.packet then 1 else 0
  }

  ghost predicate CountsLive(cfg: Config, w: World) {
    if cfg.connLimit == 0 then w.t.count == map[]
    else forall u :: (if u in w.t.count then w.t.count[u] else 0) == Live(w.links, u, None)
                  && (u in w.t.count ==> 0 < w.t.count[u])
  }

  ghost predicate SlotsEncodeLive(cfg: Config, w: World) {
    if cfg.ipLimit == 0 then w.t.ip == map[] && w.packet == {}
    else if cfg.realtime then
      forall u, i :: SlotValue(w.t, u, i) == 2 * Live(w.links, u, Some(i)) + PacketBit(w, u, i)
                  && (i in AddrsOf(w.t, u) <==> SlotValue(w.t, u, i) > 0)
    else w.packet == {}
  }

  ghost predicate Inv(cfg: Config, w: World) {
    && Typed(cfg, w.t)
    && CountsLive(cfg, w)
    && SlotsEncodeLive(cfg, w)
    && (forall k :: 0 <= k < |w.links| ==> (w.links[k].hooked ==> cfg.realtime) && !Mapped(Unmap(w.links[k].raw)))
    && (forall p :: p in w.packet ==> !Mapped(p.1))
  }

  /** An address spelt with the IPv4-mapped prefix has it once. */
  predicate IsAddr(e: Event) {
    e.Connect? ==> !Mapped(Unmap(e.raw))
  }

  predicate AreAddrs(es: seq<Event>) {
    forall k :: 0 <= k < |es| ==> IsAddr(es[k])
  }

  /** No mapped slot is ever made. */
  lemma SlotsArePlain(cfg: Config, w: World, user: User, raw: Addr)
    requires Inv(cfg, w) && cfg.realtime && cfg.ipLimit != 0 && Mapped(raw)
    ensures raw !in AddrsOf(w.t, user)
  {
    assert SlotValue(w.t, user, raw) == 2 * Live(w.links, user, Some(raw)) + PacketBit(w, user, raw);
    LivePositive(w.links, user, Some(raw));
  }

  lemma ConnectKeepsCount(cfg: Config, w: World, e: Event)
    requires Inv(cfg, w) && e.Connect? && IsAddr(e)
    ensures CountsLive(cfg, Step(cfg, w, e))
  {
    var ip := Unmap(e.raw);
    if !Rejects(cfg, w.t, e.user, ip) && cfg.connLimit != 0 && e.tcp {
      var l := Link(e.user, e.raw, cfg.realtime && e.accepted, false);
      forall u { LiveAppend(w.links, l, u, None); }
    }
  }

  lemma ConnectKeepsSlots(cfg: Config, w: World, e: Event)
    requires Inv(cfg, w) && e.Connect? && IsAddr(e)
    ensures Typed(cfg, Step(cfg, w, e).t)
    ensures SlotsEncodeLive(cfg, Step(cfg, w, e))
  {
    var ip := Unmap(e.raw);
    if !Rejects(cfg, w.t, e.user, ip) && cfg.ipLimit != 0 {
      var w' := Step(cfg, w, e);
      var l := Link(e.user, e.raw, cfg.realtime && e.accepted, false);
      forall u, i
        ensures cfg.realtime ==>
          SlotValue(w'.t, u, i) == 2 * Live(w'.links, u, Some(i)) + PacketBit(w', u, i)
          && (i in AddrsOf(w'.t, u) <==> SlotValue(w'.t, u, i) > 0)
      {
        if e.tcp { LiveAppend(w.links, l, u, Some(i)); }
        assert cfg.realtime ==> SlotValue(w.t, u, i) == 2 * Live(w.links, u, Some(i)) + PacketBit(w, u, i);
      }
    }
  }

  lemma CloseKeepsCount(cfg: Config, w: World, e: Event)
    requires Inv(cfg, w) && e.Close?
    ensures CountsLive(cfg, Step(cfg, w, e))
  {
    if e.k < |w.links| {
      var l := w.links[e.k];
      forall u { LiveUpdate(w.links, e.k, l.(closed := true), u, None); }
      LivePositive(w.links, l.user, None);
      assert Charged(l, false) ==> Matches(l, l.user, None);
    }
  }

  /** A release takes exactly 2 off one slot, drops the slot at 0, and touches no other. */
  lemma ReleaseSlots(cfg: Config, t: Tables, user: User, ip: Addr)
    requires Typed(cfg, t) && cfg.realtime && cfg.ipLimit != 0
    requires ip in AddrsOf(t, user) && t.ip[user][ip].n >= 2
    ensures var t' := Release(cfg, t, user, ip);
      && Typed(cfg, t')
      && (forall u, i :: SlotValue(t', u, i) == SlotValue(t, u, i) - (if u == user && i == ip then 2 else 0))
      && (forall u, i :: i in AddrsOf(t', u) <==> i in AddrsOf(t, u) && !(u == user && i == ip && t.ip[u][i].n == 2))
  {
    var slots := t.ip[user];
    assert (slots - {ip}).Keys == slots.Keys - {ip};
    assert slots[ip := Count(slots[ip].n - 2)].Keys == slots.Keys;
  }

  /** A close gives its slot up exactly when its release fires now and names that slot. */
  predicate Frees(cfg: Config, l: Link) {
    l.hooked && !l.closed && cfg.ipLimit != 0 && !Mapped(l.raw)
  }

  lemma CloseMovesSlots(cfg: Config, w: World, e: Event)
    requires Inv(cfg, w) && e.Close? && e.k < |w.links| && cfg.ipLimit != 0 && cfg.realtime
    ensures var t', l := Step(cfg, w, e).t, w.links[e.k];
      && Typed(cfg, t')
      && (forall u, i ::
            SlotValue(t', u, i) == SlotValue(w.t, u, i) - (if Frees(cfg, l) && u == l.user && i == l.raw then 2 else 0)
            && (i in AddrsOf(t', u) <==> SlotValue(t', u, i) > 0))
  {
    var l := w.links[e.k];
    if l.hooked && !l.closed {
      if Mapped(l.raw) {
        SlotsArePlain(cfg, w, l.user, l.raw);
      } else {
        LivePositive(w.links, l.user, Some(l.raw));
        assert Matches(l, l.user, Some(l.raw));
        assert SlotValue(w.t, l.user, l.raw) >= 2;
        ReleaseSlots(cfg, w.t, l.user, l.raw);
      }
    }
  }

  lemma CloseKeepsSlots(cfg: Config, w: World, e: Event)
    requires Inv(cfg, w) && e.Close?
    ensures Typed(cfg, Step(cfg, w, e).t)
    ensures SlotsEncodeLive(cfg, Step(cfg, w, e))
  {
    if e.k < |w.links| && cfg.ipLimit != 0 && cfg.realtime {
      var l, w' := w.links[e.k], Step(cfg, w, e);
      CloseMovesSlots(cfg, w, e);
      hide Release;
      forall u, i ensures SlotValue(w'.t, u, i) == 2 * Live(w'.links, u, Some(i)) + PacketBit(w', u, i) {
        LiveUpdate(w.links, e.k, l.(closed := true), u, Some(i));
        assert SlotValue(w.t, u, i) == 2 * Live(w.links, u, Some(i)) + PacketBit(w, u, i);
      }
    }
  }

  lemma SweepKeeps(cfg: Config, w: World, e: Event)
    requires Inv(cfg, w) && e.SweepAll?
    ensures Inv(cfg, Step(cfg, w, e))
  {
    var w' := Step(cfg, w, e);
    forall u, i
      ensures cfg.ipLimit != 0 && cfg.realtime ==>
        SlotValue(w'.t, u, i) == 2 * Live(w'.links, u, Some(i)) + PacketBit(w', u, i)
        && (i in AddrsOf(w'.t, u) <==> SlotValue(w'.t, u, i) > 0)
    {
      assert cfg.ipLimit != 0 && cfg.realtime ==>
        SlotValue(w.t, u, i) == 2 * Live(w.links, u, Some(i)) + PacketBit(w, u, i);
    }
  }

  /** One step of any kind keeps the invariant. */
  lemma StepKeeps(cfg: Config, w: World, e: Event)
    requires Inv(cfg, w) && IsAddr(e)
    ensures Inv(cfg, Step(cfg, w, e))
  {
    match e
    case Connect(_, _, _, _, _) =>
      ConnectKeepsCount(cfg, w, e);
      ConnectKeepsSlots(cfg, w, e);
    case Close(_) =>
      CloseKeepsCount(cfg, w, e);
      CloseKeepsSlots(cfg, w, e);
    case SweepAll(_) =>
      SweepKeeps(cfg, w, e);
  }

  /** So does every run. */
  lemma {:induction false} RunKeeps(cfg: Config, w: World, es: seq<Event>)
    requires Inv(cfg, w) && AreAddrs(es)
    ensures Inv(cfg, Run(cfg, w, es))
    decreases |es|
  {
    if es != [] {
      StepKeeps(cfg, w, es[0]);
      RunKeeps(cfg, Step(cfg, w, es[0]), es[1..]);
    }
  }

  // ---------------------------------------------------------------- what holds after every run

  /** In realtime mode every slot is 2*(charged TCP connections) + packetBit and is absent exactly when
      that is 0; the per-user count is the number of charged connections; and the sum over the slots is that
      count and the IPv4-mapped connections closed so far. */
  lemma SlotEncoding(cfg: Config, es: seq<Event>, user: User, ip: Addr)
    requires cfg.realtime && AreAddrs(es)
    ensures var w := Run(cfg, START, es);
      && (cfg.ipLimit != 0 ==>
            var v := 2 * Live(w.links, user, Some(ip)) + PacketBit(w, user, ip);
            if v == 0 then ip !in AddrsOf(w.t, user)
            else ip in AddrsOf(w.t, user) && w.t.ip[user][ip] == Count(v))
      && (cfg.connLimit != 0 ==>
            var c := Live(w.links, user, None);
            if c == 0 then user !in w.t.count else user in w.t.count && w.t.count[user] == c)
      && (cfg.connLimit != 0 && cfg.ipLimit != 0 ==>
            Live(w.links, user, None) + Leaked(w.links, user) == TcpSum(AddrsOf(w.t, user), AddrsOf(w.t, user).Keys))
  {
    RunKeeps(cfg, START, es);
    var w := Run(cfg, START, es);
    if cfg.ipLimit != 0 {
      assert SlotValue(w.t, user, ip) == 2 * Live(w.links, user, Some(ip)) + PacketBit(w, user, ip);
      SumOfSlots(cfg, w, user);
    }
  }

  // ---------------------------------------------------------------- the caps

  lemma {:induction false} CardinalitySubset<T>(a: set<T>, b: set<T>)
    requires a <= b
    ensures |a| <= |b|
  {
    if a != {} {
      var x :| x in a;
      CardinalitySubset(a - {x}, b - {x});
    }
  }

  /** A nonzero limit of c lets through the first entry whatever its sign, and then counts. */
  function Cap(c: int): int {
    Max(1, c)
  }

  ghost predicate WithinCaps(cfg: Config, t: Tables) {
    && Typed(cfg, t)
    && (forall u :: u in t.ip ==> |t.ip[u]| <= Cap(cfg.ipLimit))
    && (forall u :: u in t.count ==> cfg.connLimit != 0 && 0 < t.count[u] <= Cap(cfg.connLimit))
    && (forall u :: u in t.ip ==> cfg.ipLimit != 0)
  }

  lemma AdmitKeepsCaps(cfg: Config, t: Tables, user: User, ip: Addr, tcp: bool, now: int)
    requires WithinCaps(cfg, t) && !Rejects(cfg, t, user, ip)
    ensures WithinCaps(cfg, Admit(cfg, t, user, ip, tcp, now))
  {
    hide Cap;
    CountWithinCap(cfg, t, user, ip, tcp);
    hide AdmitCount;
    if cfg.ipLimit != 0 {
      AddrsWithinCap(cfg, t, user, ip, Touched(cfg, AddrsOf(t, user), ip, tcp, now));
    }
  }

  lemma CountWithinCap(cfg: Config, t: Tables, user: User, ip: Addr, tcp: bool)
    requires WithinCaps(cfg, t) && !Rejects(cfg, t, user, ip)
    ensures forall u :: u in AdmitCount(cfg, t.count, user, tcp) ==>
      cfg.connLimit != 0 && 0 < AdmitCount(cfg, t.count, user, tcp)[u] <= Cap(cfg.connLimit)
  {
  }

  lemma AddrsWithinCap(cfg: Config, t: Tables, user: User, ip: Addr, s: Slot)
    requires WithinCaps(cfg, t) && !Rejects(cfg, t, user, ip) && cfg.ipLimit != 0
    ensures |AddrsOf(t, user)[ip := s]| <= Cap(cfg.ipLimit)
  {
    var slots := AddrsOf(t, user);
    assert slots[ip := s].Keys == slots.Keys + {ip};
  }

  lemma ReleaseKeepsCaps(cfg: Config, t: Tables, user: User, ip: Addr)
    requires WithinCaps(cfg, t)
    ensures WithinCaps(cfg, Release(cfg, t, user, ip))
  {
    if ip in AddrsOf(t, user) && t.ip[user][ip].Count? {
      CardinalitySubset(Lowered(t.ip[user], ip).Keys, t.ip[user].Keys);
    }
  }

  lemma SweepKeepsCaps(cfg: Config, t: Tables, now: int)
    requires WithinCaps(cfg, t)
    ensures WithinCaps(cfg, Sweep(t, now))
  {
    forall u | u in Sweep(t, now).ip ensures |Sweep(t, now).ip[u]| <= |t.ip[u]| {
      CardinalitySubset(Swept(t.ip[u], now).Keys, t.ip[u].Keys);
    }
  }

  lemma {:induction false} RunKeepsCaps(cfg: Config, w: World, es: seq<Event>)
    requires WithinCaps(cfg, w.t)
    ensures WithinCaps(cfg, Run(cfg, w, es).t)
    decreases |es|
  {
    if es != [] {
      match es[0] {
        case Connect(user, raw, tcp, _, now) =>
          if !Rejects(cfg, w.t, user, Unmap(raw)) {
            AdmitKeepsCaps(cfg, w.t, user, Unmap(raw), tcp, now);
          }
        case Close(k) =>
          if k < |w.links| {
            ReleaseKeepsCaps(cfg, w.t, w.links[k].user, w.links[k].raw);
          }
        case SweepAll(now) =>
          SweepKeepsCaps(cfg, w.t, now);
      }
      RunKeepsCaps(cfg, Step(cfg, w, es[0]), es[1..]);
    }
  }

  /** After every run both caps hold, whatever the addresses, for either mode and limits of any sign; a
      first entry always gets in, so a nonzero limit below 1 behaves as 1. */
  lemma CapsHold(cfg: Config, es: seq<Event>, user: User)
    ensures var t := Run(cfg, START, es).t;
      && (user in t.count ==> cfg.connLimit != 0 && 0 < t.count[user] <= Cap(cfg.connLimit))
      && (user in t.ip ==> cfg.ipLimit != 0 && |t.ip[user]| <= Cap(cfg.ipLimit))
  {
    RunKeepsCaps(cfg, START, es);
  }

  ghost function Pick<T>(s: set<T>): (x: T)
    requires s != {}
    ensures x in s
  {
    var x :| x in s; x
  }

  /** TCP connections encoded in the slots of a set of addresses. */
  ghost function TcpSum(slots: map<Addr, Slot>, ips: set<Addr>): int {
    if ips == {} then 0
    else
      var i := Pick(ips);
      (if i in slots && slots[i].Count? then slots[i].n / 2 else 0) + TcpSum(slots, ips - {i})
  }

  ghost function LiveSum(links: seq<Link>, user: User, ips: set<Addr>): nat {
    if ips == {} then 0
    else var i := Pick(ips); Live(links, user, Some(i)) + LiveSum(links, user, ips - {i})
  }

  lemma {:induction false} LiveSumCons(links: seq<Link>, user: User, ips: set<Addr>)
    requires links != []
    ensures LiveSum(links, user, ips) == LiveSum(links[1..], user, ips)
              + (if Charged(links[0], true) && links[0].user == user && Unmap(links[0].raw) in ips then 1 else 0)
  {
    if ips != {} {
      LiveSumCons(links, user, ips - {Pick(ips)});
    }
  }

  lemma {:induction false} LiveSumNone(user: User, ips: set<Addr>)
    ensures LiveSum([], user, ips) == 0
  {
    if ips != {} {
      LiveSumNone(user, ips - {Pick(ips)});
    }
  }

  /** Closed connections of a user from IPv4-mapped addresses: off the count, still on their slot. */
  function Leaked(links: seq<Link>, user: User): nat {
    if links == [] then 0
    else
      (if links[0].user == user && Charged(links[0], true) && !Charged(links[0], false) then 1 else 0)
      + Leaked(links[1..], user)
  }

  /** The connections charged to slots split over any set of addresses that contains all of them. */
  lemma {:induction false} LiveSplits(links: seq<Link>, user: User, ips: set<Addr>)
    requires forall k :: 0 <= k < |links| && Charged(links[k], true) && links[k].user == user ==>
      Unmap(links[k].raw) in ips
    ensures Live(links, user, None) + Leaked(links, user) == LiveSum(links, user, ips)
  {
    if links == [] {
      LiveSumNone(user, ips);
    } else {
      forall k | 0 <= k < |links[1..]| && Charged(links[1..][k], true) && links[1..][k].user == user
        ensures Unmap(links[1..][k].raw) in ips
      {
        assert links[1..][k] == links[k + 1];
      }
      LiveSplits(links[1..], user, ips);
      LiveSumCons(links, user, ips);
    }
  }

  lemma {:induction false} TcpSumIsLiveSum(cfg: Config, w: World, user: User, ips: set<Addr>)
    requires Inv(cfg, w) && cfg.realtime && cfg.ipLimit != 0
    ensures TcpSum(AddrsOf(w.t, user), ips) == LiveSum(w.links, user, ips)
  {
    if ips != {} {
      var i := Pick(ips);
      assert SlotValue(w.t, user, i) == 2 * Live(w.links, user, Some(i)) + PacketBit(w, user, i);
      TcpSumIsLiveSum(cfg, w, user, ips - {i});
    }
  }

  lemma SumOfSlots(cfg: Config, w: World, user: User)
    requires Inv(cfg, w) && cfg.realtime && cfg.ipLimit != 0
    ensures Live(w.links, user, None) + Leaked(w.links, user) == TcpSum(AddrsOf(w.t, user), AddrsOf(w.t, user).Keys)
  {
    var ips := AddrsOf(w.t, user).Keys;
    forall k | 0 <= k < |w.links| && Charged(w.links[k], true) && w.links[k].user == user
      ensures Unmap(w.links[k].raw) in ips
    {
      OnlineIsKeys(cfg, w, user, Unmap(w.links[k].raw));
    }
    LiveSplits(w.links, user, ips);
    TcpSumIsLiveSum(cfg, w, user, ips);
  }

  // ---------------------------------------------------------------- admission by live connections

  /** The addresses a user is online from: those with a charged connection or a packet mark. */
  function Online(w: World, user: User): set<Addr> {
    (set k | 0 <= k < |w.links| && Charged(w.links[k], true) && w.links[k].user == user :: Unmap(w.links[k].raw))
    + (set p | p in w.packet && p.0 == user :: p.1)
  }

  lemma OnlineIsKeys(cfg: Config, w: World, user: User, ip: Addr)
    requires Inv(cfg, w) && cfg.realtime && cfg.ipLimit != 0
    ensures ip in AddrsOf(w.t, user) <==> ip in Online(w, user)
  {
    assert SlotValue(w.t, user, ip) == 2 * Live(w.links, user, Some(ip)) + PacketBit(w, user, ip);
    LivePositive(w.links, user, Some(ip));
    if (user, ip) in w.packet {
      assert ip in (set p | p in w.packet && p.0 == user :: p.1);
    }
    if k :| 0 <= k < |w.links| && Charged(w.links[k], true) && w.links[k].user == user && Unmap(w.links[k].raw) == ip {
      assert Matches(w.links[k], user, Some(ip));
    }
    if k :| 0 <= k < |w.links| && Matches(w.links[k], user, Some(ip)) {
      assert Charged(w.links[k], true);
    }
  }

  /** After every realtime run the verdict depends on nothing but the connections still open and the
      packet marks: this is what the two caps mean. */
  lemma AdmissionCountsLiveConnections(cfg: Config, es: seq<Event>, user: User, raw: Addr)
    requires cfg.realtime && cfg.connLimit >= 0 && cfg.ipLimit >= 0 && AreAddrs(es)
    ensures var w := Run(cfg, START, es);
      Rejects(cfg, w.t, user, Unmap(raw)) <==>
        || 0 < cfg.connLimit <= Live(w.links, user, None)
        || (0 < cfg.ipLimit <= |Online(w, user)| && Unmap(raw) !in Online(w, user))
  {
    RunKeeps(cfg, START, es);
    var w := Run(cfg, START, es);
    if cfg.ipLimit != 0 {
      forall ip ensures ip in AddrsOf(w.t, user) <==> ip in Online(w, user) {
        OnlineIsKeys(cfg, w, user, ip);
      }
      assert AddrsOf(w.t, user).Keys == Online(w, user);
    }
  }

  // ---------------------------------------------------------------- quiescence and leaks

  /** Every wrapper has been closed at least once. */
  predicate AllClosed(w: World) {
    forall k :: 0 <= k < |w.links| ==> w.links[k].closed
  }

  /** Closing this connection took back all its admission took. */
  predicate Returned(cfg: Config, l: Link) {
    l.hooked && (cfg.ipLimit != 0 ==> !Mapped(l.raw))
  }

  /** Once every connection is closed, two sweeps empty the limiter if and only if every admitted
      connection carried a release hook and, where addresses are limited, none was IPv4-mapped: a
      connection that a later check turned away keeps its slots, a mapped one keeps its address slot. */
  lemma Quiescence(cfg: Config, es: seq<Event>, now: int, later: int)
    requires cfg.realtime && AreAddrs(es) && AllClosed(Run(cfg, START, es))
    requires cfg.connLimit != 0 || cfg.ipLimit != 0
    ensures var w := Run(cfg, START, es);
      Sweep(Sweep(w.t, now), later) == EMPTY <==> (forall k :: 0 <= k < |w.links| ==> Returned(cfg, w.links[k]))
  {
    RunKeeps(cfg, START, es);
    var w := Run(cfg, START, es);
    if k :| 0 <= k < |w.links| && !Returned(cfg, w.links[k]) {
      LeftBehind(cfg, w, k, now, later);
    } else {
      NothingLeft(cfg, w, now, later);
    }
  }

  lemma LeftBehind(cfg: Config, w: World, k: nat, now: int, later: int)
    requires Inv(cfg, w) && cfg.realtime && k < |w.links| && !Returned(cfg, w.links[k])
    requires cfg.connLimit != 0 || cfg.ipLimit != 0
    ensures Sweep(Sweep(w.t, now), later) != EMPTY
  {
    var l := w.links[k];
    var ip, end := Unmap(l.raw), Sweep(Sweep(w.t, now), later);
    if cfg.ipLimit == 0 {
      assert Matches(l, l.user, None);
      LivePositive(w.links, l.user, None);
      assert l.user in end.count && l.user !in EMPTY.count;
    } else {
      assert Matches(l, l.user, Some(ip));
      LivePositive(w.links, l.user, Some(ip));
      assert SlotValue(w.t, l.user, ip) == 2 * Live(w.links, l.user, Some(ip)) + PacketBit(w, l.user, ip);
      var once := Sweep(w.t, now);
      assert l.user in once.ip && ip in once.ip[l.user];
      assert l.user in end.ip && l.user !in EMPTY.ip;
    }
  }

  lemma NothingLeft(cfg: Config, w: World, now: int, later: int)
    requires Inv(cfg, w) && cfg.realtime && AllClosed(w) && forall k :: 0 <= k < |w.links| ==> Returned(cfg, w.links[k])
    ensures Sweep(Sweep(w.t, now), later) == EMPTY
  {
    var end := Sweep(Sweep(w.t, now), later);
    forall u ensures u !in w.t.count {
      LivePositive(w.links, u, None);
    }
    forall u, i ensures i in AddrsOf(w.t, u) ==> w.t.ip[u][i] == Count(1) {
      LivePositive(w.links, u, Some(i));
      if cfg.ipLimit != 0 {
        assert SlotValue(w.t, u, i) == 2 * Live(w.links, u, Some(i)) + PacketBit(w, u, i);
      }
    }
    forall u | u in w.t.ip ensures Swept(w.t.ip[u], now) == map[] {
      forall i | i in w.t.ip[u] ensures Evicted(w.t.ip[u][i], now) {
        assert i in AddrsOf(w.t, u);
      }
    }
    assert end.ip == map[] && end.count == map[];
  }

  lemma AdmissionAddsTwo(cfg: Config, t: Tables, user: User, ip: Addr, now: int)
    requires cfg.realtime && Typed(cfg, t) && cfg.ipLimit != 0
    ensures SlotValue(Admit(cfg, t, user, ip, true, now), user, ip) == SlotValue(t, user, ip) + 2
  {
  }

  lemma OtherSlotsKept(cfg: Config, t: Tables, user: User, ip: Addr, other: Addr)
    requires other != ip
    ensures SlotValue(Release(cfg, t, user, other), user, ip) == SlotValue(t, user, ip)
  {
    var slots := AddrsOf(t, user);
    if other in slots && slots[other].Count? {
      assert (slots - {other}).Keys == slots.Keys - {other};
    }
  }

  lemma PlainReleaseUndoes(cfg: Config, t: Tables, user: User, ip: Addr, now: int)
    requires cfg.realtime && Typed(cfg, t) && cfg.ipLimit != 0
    requires user in t.count ==> t.count[user] > 0
    requires forall i :: i in AddrsOf(t, user) ==> t.ip[user][i].n > 0
    ensures Release(cfg, Admit(cfg, t, user, ip, true, now), user, ip)
         == if user in t.ip && t.ip[user] == map[] then t.(ip := t.ip - {user}) else t
  {
    var t1 := Admit(cfg, t, user, ip, true, now);
    var t2 := Release(cfg, t1, user, ip);
    assert t2.count == t.count;
    if ip in AddrsOf(t, user) {
      var slots := t.ip[user];
      var up := slots[ip := Count(slots[ip].n + 2)];
      assert t1.ip[user] == up && up[ip].n > 2;
      assert up[ip := Count(up[ip].n - 2)] == slots;
      assert t2.ip == t.ip;
    } else {
      assert t1.ip[user] - {ip} == AddrsOf(t, user);
      assert t2.ip == if AddrsOf(t, user) == map[] then t.ip - {user} else t.ip;
    }
  }

  /** In realtime mode a release takes back exactly what its admission took, from any tables with
      positive counts, if and only if the address was not IPv4-mapped (the hook releases under the
      unstripped spelling) and the user had no empty table waiting for the sweep. */
  lemma ReleaseUndoesAdmission(cfg: Config, t: Tables, user: User, raw: Addr, now: int)
    requires cfg.realtime && Typed(cfg, t) && cfg.ipLimit != 0
    requires user in t.count ==> t.count[user] > 0
    requires forall i :: i in AddrsOf(t, user) ==> t.ip[user][i].n > 0
    requires !Rejects(cfg, t, user, Unmap(raw))
    ensures Release(cfg, Admit(cfg, t, user, Unmap(raw), true, now), user, raw) == t
        <==> !Mapped(raw) && !(user in t.ip && t.ip[user] == map[])
  {
    var ip := Unmap(raw);
    if Mapped(raw) {
      AdmissionAddsTwo(cfg, t, user, ip, now);
      assert |ip| < |raw|;
      OtherSlotsKept(cfg, Admit(cfg, t, user, ip, true, now), user, ip, raw);
    } else {
      PlainReleaseUndoes(cfg, t, user, ip, now);
    }
  }

  /** Without realtime no wrapper releases, so a user whose count has reached the limit is turned away
      in every later state, whatever is closed or swept. */
  lemma {:induction false} NonRealtimeLockout(cfg: Config, w: World, es: seq<Event>, user: User, ip: Addr)
    requires !cfg.realtime && cfg.connLimit != 0 && forall k :: 0 <= k < |w.links| ==> !w.links[k].hooked
    requires user in w.t.count && w.t.count[user] >= cfg.connLimit
    ensures Rejects(cfg, Run(cfg, w, es).t, user, ip)
    decreases |es|
  {
    if es != [] {
      NonRealtimeLockout(cfg, Step(cfg, w, es[0]), es[1..], user, ip);
    }
  }

  /** A sweep and a second one leave a user's address outside realtime exactly when it was last admitted a
      minute or more after both: the sweep compares with a minute in the future, so it drops every timestamp
      that is not ahead of it, however fresh. */
  lemma SweepDropsEveryTimestamp(cfg: Config, t: Tables, now: int, later: int)
    requires !cfg.realtime && Typed(cfg, t)
    ensures var end := Sweep(Sweep(t, now), later);
      && (forall u, i :: i in AddrsOf(end, u) <==>
            i in AddrsOf(t, u) && t.ip[u][i].at >= now + 60_000_000_000 && t.ip[u][i].at >= later + 60_000_000_000)
      && ((forall u, i :: i in AddrsOf(t, u) ==> t.ip[u][i].at <= now) ==> end.ip == map[])
  {
    if forall u, i :: i in AddrsOf(t, u) ==> t.ip[u][i].at <= now {
      forall u | u in t.ip ensures Swept(t.ip[u], now) == map[] {
        forall i | i in t.ip[u] ensures Evicted(t.ip[u][i], now) {
          assert i in AddrsOf(t, u);
        }
      }
    }
  }

  // ---------------------------------------------------------------- admission without realtime

  lemma UnmapStrips(plain: Addr)
    requires !("::ffff:" <= plain)
    ensures Unmap("::ffff:" + plain) == Unmap(plain) == plain
  {
  }

  /** The user's TCP connections let in so far. */
  function TcpAdmitted(cfg: Config, es: seq<Event>, user: User): nat
    decreases |es|, 0
  {
    if es == [] then 0
    else
      var front, e := es[..|es| - 1], es[|es| - 1];
      TcpAdmitted(cfg, front, user)
      + if e.Connect? && e.tcp && e.user == user && !Refused(cfg, front, user, e.raw) then 1 else 0
  }

  /** The addresses the user was let in from since the last sweep. */
  function SinceSweep(cfg: Config, es: seq<Event>, user: User): set<Addr>
    decreases |es|, 0
  {
    if es == [] then {}
    else
      var front, e := es[..|es| - 1], es[|es| - 1];
      if e.SweepAll? then {}
      else
        SinceSweep(cfg, front, user)
        + if e.Connect? && e.user == user && !Refused(cfg, front, user, e.raw) then {Unmap(e.raw)} else {}
  }

  /** What the two limits mean without realtime, in terms of what happened. */
  predicate Refused(cfg: Config, es: seq<Event>, user: User, raw: Addr)
    decreases |es|, 1
  {
    || 0 < cfg.connLimit <= TcpAdmitted(cfg, es, user)
    || (0 < cfg.ipLimit <= |SinceSweep(cfg, es, user)| && Unmap(raw) !in SinceSweep(cfg, es, user))
  }

  /** Times do not run backwards. */
  ghost predicate Ordered(es: seq<Event>) {
    forall i, j :: 0 <= i < j < |es| && !es[i].Close? && !es[j].Close? ==> es[i].now <= es[j].now
  }

  /** The timestamp of some event. */
  ghost predicate Happened(es: seq<Event>, at: int) {
    exists k :: 0 <= k < |es| && !es[k].Close? && es[k].now == at
  }

  ghost predicate CountsAdmitted(cfg: Config, es: seq<Event>, w: World) {
    cfg.connLimit != 0 ==> forall u ::
      && (if u in w.t.count then w.t.count[u] else 0) == TcpAdmitted(cfg, es, u)
      && (u in w.t.count ==> w.t.count[u] > 0)
  }

  ghost predicate HoldsAdmitted(cfg: Config, es: seq<Event>, w: World) {
    cfg.ipLimit != 0 ==> forall u ::
      && AddrsOf(w.t, u).Keys == SinceSweep(cfg, es, u)
      && forall i :: i in AddrsOf(w.t, u) ==> w.t.ip[u][i].SeenAt? && Happened(es, w.t.ip[u][i].at)
  }

  ghost predicate Unhooked(w: World) {
    forall k :: 0 <= k < |w.links| ==> !w.links[k].hooked
  }

  ghost predicate Books(cfg: Config, es: seq<Event>, w: World) {
    CountsAdmitted(cfg, es, w) && HoldsAdmitted(cfg, es, w) && Unhooked(w)
  }

  lemma {:induction false} RunSnoc(cfg: Config, w: World, es: seq<Event>)
    requires es != []
    ensures Run(cfg, w, es) == Step(cfg, Run(cfg, w, es[..|es| - 1]), es[|es| - 1])
    decreases |es|
  {
    if |es| > 1 {
      RunSnoc(cfg, Step(cfg, w, es[0]), es[1..]);
      assert es[1..][..|es[1..]| - 1] == es[..|es| - 1][1..];
    }
  }

  lemma BooksDecide(cfg: Config, es: seq<Event>, w: World, user: User, raw: Addr)
    requires cfg.connLimit >= 0 && cfg.ipLimit >= 0 && Books(cfg, es, w)
    ensures Rejects(cfg, w.t, user, Unmap(raw)) <==> Refused(cfg, es, user, raw)
  {
    hide Unmap;
    if cfg.ipLimit != 0 {
      assert AddrsOf(w.t, user).Keys == SinceSweep(cfg, es, user);
    }
  }

  lemma StillHappened(es: seq<Event>, at: int)
    requires es != []
    ensures Happened(es[..|es| - 1], at) ==> Happened(es, at)
    ensures !es[|es| - 1].Close? ==> Happened(es, es[|es| - 1].now)
    ensures Ordered(es) && es[|es| - 1].SweepAll? && Happened(es[..|es| - 1], at) ==> at <= es[|es| - 1].now
  {
    var front := es[..|es| - 1];
    if k :| 0 <= k < |front| && !front[k].Close? && front[k].now == at {
      assert es[k] == front[k];
    }
  }

  lemma BooksStep(cfg: Config, es: seq<Event>, w: World)
    requires !cfg.realtime && cfg.connLimit >= 0 && cfg.ipLimit >= 0 && es != [] && Ordered(es)
    requires Books(cfg, es[..|es| - 1], w)
    ensures Books(cfg, es, Step(cfg, w, es[|es| - 1]))
  {
    var front, e := es[..|es| - 1], es[|es| - 1];
    match e {
      case Connect(user, raw, tcp, _, now) =>
        BooksDecide(cfg, front, w, user, raw);
        ConnectCounts(cfg, es, w);
        ConnectHolds(cfg, es, w);
      case Close(_) =>
        forall at { StillHappened(es, at); }
      case SweepAll(now) =>
        SweepBooks(cfg, es, w);
    }
  }

  lemma ConnectCounts(cfg: Config, es: seq<Event>, w: World)
    requires es != [] && es[|es| - 1].Connect? && CountsAdmitted(cfg, es[..|es| - 1], w)
    requires var e := es[|es| - 1];
      Rejects(cfg, w.t, e.user, Unmap(e.raw)) <==> Refused(cfg, es[..|es| - 1], e.user, e.raw)
    ensures CountsAdmitted(cfg, es, Step(cfg, w, es[|es| - 1]))
  {
    hide Rejects, Refused, Unmap;
  }

  lemma ConnectHolds(cfg: Config, es: seq<Event>, w: World)
    requires !cfg.realtime && es != [] && es[|es| - 1].Connect? && HoldsAdmitted(cfg, es[..|es| - 1], w)
    requires var e := es[|es| - 1];
      Rejects(cfg, w.t, e.user, Unmap(e.raw)) <==> Refused(cfg, es[..|es| - 1], e.user, e.raw)
    ensures HoldsAdmitted(cfg, es, Step(cfg, w, es[|es| - 1]))
  {
    hide Rejects, Refused, Happened, Unmap, AdmitCount;
    forall at { StillHappened(es, at); }
  }

  lemma SweepBooks(cfg: Config, es: seq<Event>, w: World)
    requires !cfg.realtime && es != [] && es[|es| - 1].SweepAll? && Ordered(es) && Books(cfg, es[..|es| - 1], w)
    ensures Books(cfg, es, Step(cfg, w, es[|es| - 1]))
  {
    var front, now := es[..|es| - 1], es[|es| - 1].now;
    hide Happened, Ordered;
    forall at { StillHappened(es, at); }
    if cfg.ipLimit != 0 {
      forall u ensures AddrsOf(Sweep(w.t, now), u) == map[] {
        forall i | i in AddrsOf(w.t, u) ensures Evicted(w.t.ip[u][i], now) {
          assert w.t.ip[u][i].SeenAt? && Happened(front, w.t.ip[u][i].at);
        }
      }
    }
  }

  lemma {:induction false} RunKeepsBooks(cfg: Config, es: seq<Event>)
    requires !cfg.realtime && cfg.connLimit >= 0 && cfg.ipLimit >= 0 && Ordered(es)
    ensures Books(cfg, es, Run(cfg, START, es))
  {
    if es != [] {
      RunKeepsBooks(cfg, es[..|es| - 1]);
      RunSnoc(cfg, START, es);
      BooksStep(cfg, es, Run(cfg, START, es[..|es| - 1]));
    }
  }

  /** After every run without realtime a user is refused exactly when as many of its TCP connections have
      ever been let in as the connection limit allows, closed or not, or when it was let in from as many
      addresses since the last sweep as the address limit allows and this is none of them. */
  lemma AdmissionCountsWhatWasLetIn(cfg: Config, es: seq<Event>, user: User, raw: Addr)
    requires !cfg.realtime && cfg.connLimit >= 0 && cfg.ipLimit >= 0 && Ordered(es)
    ensures Rejects(cfg, Run(cfg, START, es).t, user, Unmap(raw)) <==> Refused(cfg, es, user, raw)
  {
    RunKeepsBooks(cfg, es);
    BooksDecide(cfg, es, Run(cfg, START, es), user, raw);
  }

  // ---------------------------------------------------------------- one release

  function CountOf(t: Tables, user: User): int {
    if user in t.count then t.count[user] else 0
  }

  /** In both modes a release takes one off the user's positive count, and off nobody else's; it touches
      addresses in realtime mode only. */
  lemma ReleaseTakesOne(cfg: Config, t: Tables, user: User, addr: Addr, other: User)
    requires user in t.count ==> t.count[user] > 0
    ensures var t' := Release(cfg, t, user, addr);
      && (cfg.connLimit != 0 && user in t.count ==>
            CountOf(t', user) == t.count[user] - 1 && (user in t'.count <==> t.count[user] > 1))
      && (cfg.connLimit == 0 || user !in t.count || other != user ==>
            CountOf(t', other) == CountOf(t, other) && (other in t'.count <==> other in t.count))
      && (!cfg.realtime ==> t'.ip == t.ip)
  {
  }
}
