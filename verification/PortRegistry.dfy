/** The listener registry (node/port_registry.go): one owner per listener, wildcard-aware. */
module PortRegistry {
  import opened Base

  // ---------------------------------------------------------------- listeners and conflicts

  datatype Transport = Tcp | Udp

  datatype Spec = Spec(addr: string, port: int, transport: Transport)

  datatype Owner = Owner(spec: Spec, runtimeKey: string, logicalTag: string)

  const NOBODY := Owner(Spec("", 0, Tcp), "", "")
  const ANY4 := "0.0.0.0"
  const ANY6 := "::"

  function NormalizeListenAddr(addr: string): string {
    if addr == "" then ANY4 else addr
  }

  predicate SpecificV4(addr: string) {
    addr != ANY4 && addr != ANY6
  }

  predicate ListenerConflict(a: Spec, b: Spec) {
    if a.transport != b.transport || a.port != b.port then false
    else if a.addr == b.addr then true
    else if (a.addr == ANY4 && SpecificV4(b.addr)) || (SpecificV4(a.addr) && b.addr == ANY4) then true
    else (a.addr == ANY4 && b.addr == ANY6) || (a.addr == ANY6 && b.addr == ANY4)
  }

  /** What the case analysis comes to: on one port and transport, equal addresses clash and the IPv4
      wildcard clashes with everything, in either order; nothing else does. */
  lemma ConflictMeaning(a: Spec, b: Spec)
    ensures ListenerConflict(a, b) <==>
      a.transport == b.transport && a.port == b.port && (a.addr == b.addr || "0.0.0.0" in {a.addr, b.addr})
    ensures ListenerConflict(a, b) == ListenerConflict(b, a)
  {
    assert ANY4 != ANY6;
  }

  // ---------------------------------------------------------------- what a node wants to bind

  /** The protocol names the node knows; any other name the panel may send is Unknown. */
  datatype Protocol =
    | Vless | Vmess | Trojan | Shadowsocks | Tuic | Hysteria | Hysteria2 | AnyTLS
    | Unknown(name: string)

  /** "tls", or any other security setting ("reality", "none", empty, ...). */
  datatype Security = Tls | NoTls(name: string)

  datatype Payload = Payload(port: int, security: Security)

  datatype Common = Common(protocol: Protocol, vless: Option<Payload>, vmess: Option<Payload>, trojan: Option<Payload>,
                           shadowsocks: Option<Payload>, tuic: Option<Payload>, hysteria2: Option<Payload>,
                           anytls: Option<Payload>)

  /** The node id is kept as it is printed into tags. */
  datatype NodeInfo = NodeInfo(id: string, kind: string, common: Option<Common>)

  /** A port number cut to 16 bits, as a conversion to uint16 does. */
  function ToUint16(n: int): int {
    n % 0x1_0000
  }

  function PortOf(p: Option<Payload>): Option<int> {
    if p.None? then None else Some(ToUint16(p.value.port))
  }

  function ProtocolPort(node: NodeInfo): Option<int> {
    if node.common.None? then None
    else
      var c := node.common.value;
      match c.protocol
      case Vless => PortOf(c.vless)
      case Vmess => PortOf(c.vmess)
      case Trojan => PortOf(c.trojan)
      case Shadowsocks => PortOf(c.shadowsocks)
      case Tuic => PortOf(c.tuic)
      case Hysteria | Hysteria2 => PortOf(c.hysteria2)
      case AnyTLS => PortOf(c.anytls)
      case Unknown(_) => None
  }

  function ProtocolTransports(proto: Protocol): seq<Transport> {
    match proto
    case Shadowsocks => [Tcp, Udp]
    case Hysteria | Hysteria2 | Tuic => [Udp]
    case Vless | Vmess | Trojan | AnyTLS => [Tcp]
    case Unknown(_) => []
  }

  /** The listeners to reserve for a node, or None on an error. */
  function ListenerSpecsFor(node: NodeInfo, listenIP: string): Option<seq<Spec>> {
    var port := ProtocolPort(node);
    if port.None? then None
    else
      var ts := ProtocolTransports(node.common.value.protocol);
      if ts == [] then None
      else Some(seq(|ts|, i requires 0 <= i < |ts| => Spec(listenIP, port.value, ts[i])))
  }

  function ProtocolSecurity(node: NodeInfo): Security
    requires node.common.Some?
  {
    var c := node.common.value;
    match c.protocol
    case Vless => SecurityOf(c.vless)
    case Vmess => SecurityOf(c.vmess)
    case Trojan => SecurityOf(c.trojan)
    case Tuic | Hysteria | Hysteria2 | AnyTLS => Tls
    case Shadowsocks | Unknown(_) => NoTls("")
  }

  function SecurityOf(p: Option<Payload>): Security {
    if p.None? then NoTls("") else p.value.security
  }

  predicate NeedsCert(security: Security) {
    security.Tls?
  }

  function Normal(s: Spec): Spec {
    s.(addr := NormalizeListenAddr(s.addr))
  }

  /** The listeners of one reservation do not clash with each other. */
  ghost predicate Compatible(specs: seq<Spec>) {
    forall i, j :: 0 <= i < j < |specs| ==> !ListenerConflict(Normal(specs[i]), Normal(specs[j]))
  }

  /** The payload of the protocol the node speaks, if it came. */
  predicate HasPayload(c: Common) {
    || (c.protocol.Vless? && c.vless.Some?) || (c.protocol.Vmess? && c.vmess.Some?)
    || (c.protocol.Trojan? && c.trojan.Some?) || (c.protocol.Shadowsocks? && c.shadowsocks.Some?)
    || (c.protocol.Tuic? && c.tuic.Some?) || (c.protocol.AnyTLS? && c.anytls.Some?)
    || ((c.protocol.Hysteria? || c.protocol.Hysteria2?) && c.hysteria2.Some?)
  }

  /** The node offers TLS, by its protocol or by its payload. */
  predicate OffersTls(c: Common) {
    || c.protocol.Tuic? || c.protocol.Hysteria? || c.protocol.Hysteria2? || c.protocol.AnyTLS?
    || (c.protocol.Vless? && c.vless.Some? && c.vless.value.security == Tls)
    || (c.protocol.Vmess? && c.vmess.Some? && c.vmess.value.security == Tls)
    || (c.protocol.Trojan? && c.trojan.Some? && c.trojan.value.security == Tls)
  }

  /** A node asks for a port of TCP, or of UDP, exactly when its protocol is carried by it and has its
      payload, whose port it is. */
  predicate Wants(c: Common, port: int, transport: Transport) {
    HasPayload(c) && match c.protocol
    case Vless => port == c.vless.value.port % 65536 && transport == Tcp
    case Vmess => port == c.vmess.value.port % 65536 && transport == Tcp
    case Trojan => port == c.trojan.value.port % 65536 && transport == Tcp
    case AnyTLS => port == c.anytls.value.port % 65536 && transport == Tcp
    case Tuic => port == c.tuic.value.port % 65536 && transport == Udp
    case Hysteria => port == c.hysteria2.value.port % 65536 && transport == Udp
    case Hysteria2 => port == c.hysteria2.value.port % 65536 && transport == Udp
    case Shadowsocks => port == c.shadowsocks.value.port % 65536
    case Unknown(_) => false
  }

  /** The listeners of a node are those it wants, at its address; without a payload it is an error. */
  lemma ListenersWanted(node: NodeInfo, listenIP: string)
    ensures ListenerSpecsFor(node, listenIP).Some? <==> node.common.Some? && HasPayload(node.common.value)
    ensures ListenerSpecsFor(node, listenIP).Some? ==>
      forall s :: s in ListenerSpecsFor(node, listenIP).value <==>
        s.addr == listenIP && Wants(node.common.value, s.port, s.transport)
  {
    var specs := ListenerSpecsFor(node, listenIP);
    if specs.Some? {
      var ts, port := ProtocolTransports(node.common.value.protocol), ProtocolPort(node).value;
      forall s
        ensures s in specs.value <==> s.addr == listenIP && s.port == port && s.transport in ts
        ensures s.transport in ts && s.port == port <==> Wants(node.common.value, s.port, s.transport)
      {
        assert s.transport.Tcp? || s.transport.Udp?;
        if s.addr == listenIP && s.port == port && s.transport in ts {
          var i :| 0 <= i < |ts| && ts[i] == s.transport;
          assert specs.value[i] == s;
        }
      }
    }
  }

  lemma CertForTls(node: NodeInfo)
    requires node.common.Some?
    ensures NeedsCert(ProtocolSecurity(node)) <==> OffersTls(node.common.value)
  {
  }

  /** A node's own listeners share one 16-bit port and differ in transport. */
  lemma NodeSpecsAreCompatible(node: NodeInfo, listenIP: string)
    ensures var specs := ListenerSpecsFor(node, listenIP);
      specs.Some? ==>
        && Compatible(specs.value) && 1 <= |specs.value| <= 2
        && forall i :: 0 <= i < |specs.value| ==>
             && 0 <= specs.value[i].port < 0x1_0000 && Some(specs.value[i].port) == ProtocolPort(node)
             && specs.value[i].addr == listenIP
  {
    if ListenerSpecsFor(node, listenIP).Some? {
      var ts := ProtocolTransports(node.common.value.protocol);
      assert |ts| == 2 ==> ts[0] != ts[1];
    }
  }

  // ---------------------------------------------------------------- the registry as a value

  datatype Reg = Reg(listeners: seq<Owner>, tags: map<string, string>, keys: set<string>)

  const EMPTY := Reg([], map[], {})

  predicate Clashes(held: seq<Owner>, specs: seq<Spec>) {
    exists i, j :: 0 <= i < |specs| && 0 <= j < |held| && ListenerConflict(Normal(specs[i]), held[j].spec)
  }

  /** Two listeners get in each other's way: same port and transport, at the same address or with one of
      them at the IPv4 wildcard, which the empty address stands for. */
  predicate Overlap(wanted: Spec, held: Spec) {
    var a := if wanted.addr == "" then "0.0.0.0" else wanted.addr;
    && wanted.port == held.port && wanted.transport == held.transport
    && (a == held.addr || a == "0.0.0.0" || held.addr == "0.0.0.0")
  }

  lemma ClashesMean(held: seq<Owner>, specs: seq<Spec>)
    ensures Clashes(held, specs) <==>
      exists i, j :: 0 <= i < |specs| && 0 <= j < |held| && Overlap(specs[i], held[j].spec)
  {
    forall i, j | 0 <= i < |specs| && 0 <= j < |held|
      ensures ListenerConflict(Normal(specs[i]), held[j].spec) <==> Overlap(specs[i], held[j].spec)
    {
      ConflictMeaning(Normal(specs[i]), held[j].spec);
    }
  }

  predicate Refuses(r: Reg, key: string, tag: string, specs: seq<Spec>) {
    key in r.keys || tag in r.tags || Clashes(r.listeners, specs)
  }

  function Owned(specs: seq<Spec>, key: string, tag: string): seq<Owner> {
    seq(|specs|, i requires 0 <= i < |specs| => Owner(Normal(specs[i]), key, tag))
  }

  function Reserved(r: Reg, key: string, tag: string, specs: seq<Spec>): Reg {
    Reg(r.listeners + Owned(specs, key, tag), r.tags[tag := key], r.keys + {key})
  }

  /** The listeners of every other owner, in order. */
  function Without(held: seq<Owner>, key: string): seq<Owner> {
    if held == [] then []
    else
      var rest, last := Without(held[..|held| - 1], key), held[|held| - 1];
      if last.runtimeKey != key then rest + [last] else rest
  }

  function Released(r: Reg, key: string): Reg {
    if key !in r.keys then r
    else Reg(Without(r.listeners, key), map t | t in r.tags && r.tags[t] != key :: r.tags[t], r.keys - {key})
  }

  /** Keys and tags correspond one to one. */
  ghost predicate OneToOne(tags: map<string, string>, keys: set<string>) {
    && (forall t :: t in tags ==> tags[t] in keys)
    && (forall k :: k in keys ==> exists t :: t in tags && tags[t] == k)
    && (forall t, u :: t in tags && u in tags && tags[t] == tags[u] ==> t == u)
  }

  ghost predicate OwnersLive(r: Reg) {
    forall i :: 0 <= i < |r.listeners| ==>
      var o := r.listeners[i];
      o.logicalTag in r.tags && r.tags[o.logicalTag] == o.runtimeKey
  }

  ghost predicate OwnersApart(held: seq<Owner>) {
    forall i, j :: 0 <= i < |held| && 0 <= j < |held| && held[i].runtimeKey != held[j].runtimeKey ==>
      !ListenerConflict(held[i].spec, held[j].spec)
  }

  ghost predicate Inv(r: Reg) {
    OneToOne(r.tags, r.keys) && OwnersLive(r) && OwnersApart(r.listeners)
  }

  /** Every two held listeners are free of conflict, also those of one owner. */
  ghost predicate AllApart(held: seq<Owner>) {
    forall i, j :: 0 <= i < j < |held| ==> !ListenerConflict(held[i].spec, held[j].spec)
  }

  lemma NewTagKeepsOneToOne(tags: map<string, string>, keys: set<string>, tag: string, key: string)
    requires OneToOne(tags, keys) && tag !in tags && key !in keys
    ensures OneToOne(tags[tag := key], keys + {key})
  {
    var tags' := tags[tag := key];
    forall k | k in keys + {key} ensures exists t :: t in tags' && tags'[t] == k {
      if k == key {
        assert tags'[tag] == k;
      } else {
        var t :| t in tags && tags[t] == k;
        assert tags'[t] == k;
      }
    }
  }

  lemma NoClash(held: seq<Owner>, specs: seq<Spec>, i: nat, j: nat)
    requires !Clashes(held, specs) && i < |specs| && j < |held|
    ensures !ListenerConflict(Normal(specs[i]), held[j].spec) && !ListenerConflict(held[j].spec, Normal(specs[i]))
  {
    ConflictMeaning(Normal(specs[i]), held[j].spec);
  }

  lemma ReservedAreApart(held: seq<Owner>, specs: seq<Spec>, key: string, tag: string)
    requires OwnersApart(held) && !Clashes(held, specs)
    ensures OwnersApart(held + Owned(specs, key, tag))
    ensures AllApart(held) && Compatible(specs) ==> AllApart(held + Owned(specs, key, tag))
  {
    var all, n := held + Owned(specs, key, tag), |held|;
    forall i, j | 0 <= i < |all| && 0 <= j < |all| && (i < n || j < n)
      ensures all[i].runtimeKey != all[j].runtimeKey || !(i < n && j < n) ==>
        !ListenerConflict(all[i].spec, all[j].spec)
    {
      if i >= n {
        NoClash(held, specs, i - n, j);
      } else if j >= n {
        NoClash(held, specs, j - n, i);
      }
    }
    if AllApart(held) && Compatible(specs) {
      forall i, j | 0 <= i < j < |all| ensures !ListenerConflict(all[i].spec, all[j].spec) {
        if i >= n {
          assert !ListenerConflict(Normal(specs[i - n]), Normal(specs[j - n]));
        }
      }
    }
  }

  lemma ReserveKeeps(r: Reg, key: string, tag: string, specs: seq<Spec>)
    requires Inv(r) && !Refuses(r, key, tag, specs)
    ensures Inv(Reserved(r, key, tag, specs))
    ensures AllApart(r.listeners) && Compatible(specs) ==> AllApart(Reserved(r, key, tag, specs).listeners)
  {
    NewTagKeepsOneToOne(r.tags, r.keys, tag, key);
    ReservedAreApart(r.listeners, specs, key, tag);
  }

  /** Each kept listener was held before, and the kept ones stand in their old order. */
  lemma {:induction false} WithoutFrom(held: seq<Owner>, key: string) returns (from: seq<nat>)
    ensures |from| == |Without(held, key)|
    ensures forall i :: 0 <= i < |from| ==>
      from[i] < |held| && Without(held, key)[i] == held[from[i]] && held[from[i]].runtimeKey != key
    ensures forall i, j :: 0 <= i < j < |from| ==> from[i] < from[j]
    ensures forall o :: o in held && o.runtimeKey != key ==> o in Without(held, key)
  {
    if held == [] {
      from := [];
    } else {
      var front, last := held[..|held| - 1], held[|held| - 1];
      from := WithoutFrom(front, key);
      if last.runtimeKey != key {
        from := from + [|front|];
      }
    }
  }

  /** And every one is kept as often as it was held. */
  lemma {:induction false} WithoutCounts(held: seq<Owner>, key: string, o: Owner)
    ensures multiset(Without(held, key))[o] == if o.runtimeKey != key then multiset(held)[o] else 0
  {
    if held != [] {
      var front, last := held[..|held| - 1], held[|held| - 1];
      assert held == front + [last];
      WithoutCounts(front, key, o);
    }
  }

  lemma DroppedTagKeepsOneToOne(tags: map<string, string>, keys: set<string>, key: string)
    requires OneToOne(tags, keys)
    ensures OneToOne(map t | t in tags && tags[t] != key :: tags[t], keys - {key})
  {
    var tags' := map t | t in tags && tags[t] != key :: tags[t];
    forall k | k in keys - {key} ensures exists t :: t in tags' && tags'[t] == k {
      var t :| t in tags && tags[t] == k;
      assert tags'[t] == k;
    }
  }

  lemma ReleaseKeeps(r: Reg, key: string)
    requires Inv(r)
    ensures Inv(Released(r, key))
    ensures AllApart(r.listeners) ==> AllApart(Released(r, key).listeners)
  {
    if key in r.keys {
      DroppedTagKeepsOneToOne(r.tags, r.keys, key);
      var from := WithoutFrom(r.listeners, key);
    }
  }

  lemma {:induction false} WithoutOwned(held: seq<Owner>, specs: seq<Spec>, key: string, tag: string)
    requires forall o :: o in held ==> o.runtimeKey != key
    ensures Without(held + Owned(specs, key, tag), key) == held
  {
    if specs != [] {
      var s := held + Owned(specs, key, tag);
      assert s[..|s| - 1] == held + Owned(specs[..|specs| - 1], key, tag);
      WithoutOwned(held, specs[..|specs| - 1], key, tag);
    } else if held != [] {
      assert held + Owned(specs, key, tag) == held;
      var front, last := held[..|held| - 1], held[|held| - 1];
      assert last in held;
      assert front + Owned(specs, key, tag) == front;
      WithoutOwned(front, specs, key, tag);
    } else {
      assert held + Owned(specs, key, tag) == [];
    }
  }

  lemma OwnersAreKeys(r: Reg, key: string)
    requires Inv(r) && key !in r.keys
    ensures forall o :: o in r.listeners ==> o.runtimeKey != key
  {
  }

  /** A reservation followed by its release restores the registry exactly. */
  lemma ReleaseUndoesReserve(r: Reg, key: string, tag: string, specs: seq<Spec>)
    requires Inv(r) && !Refuses(r, key, tag, specs)
    ensures Released(Reserved(r, key, tag, specs), key) == r
  {
    OwnersAreKeys(r, key);
    WithoutOwned(r.listeners, specs, key, tag);
    var r' := Released(Reserved(r, key, tag, specs), key);
    assert r'.keys == r.keys;
    assert r'.tags == r.tags;
  }

  datatype Op = Reserve(key: string, tag: string, specs: seq<Spec>) | Release(key: string)

  function Apply(r: Reg, op: Op): Reg {
    match op
    case Reserve(key, tag, specs) => if Refuses(r, key, tag, specs) then r else Reserved(r, key, tag, specs)
    case Release(key) => Released(r, key)
  }

  function ApplyAll(r: Reg, ops: seq<Op>): Reg
    decreases |ops|
  {
    if ops == [] then r else ApplyAll(Apply(r, ops[0]), ops[1..])
  }

  /** After any sequence of reservations and releases: keys and tags are one to one, every listener has
      a live owner, distinct owners never clash; with node listeners no two held listeners clash at all. */
  lemma {:induction false} RunKeeps(r: Reg, ops: seq<Op>)
    requires Inv(r)
    ensures Inv(ApplyAll(r, ops))
    ensures AllApart(r.listeners) && (forall i :: 0 <= i < |ops| && ops[i].Reserve? ==> Compatible(ops[i].specs))
        ==> AllApart(ApplyAll(r, ops).listeners)
    decreases |ops|
  {
    if ops != [] {
      match ops[0] {
        case Reserve(key, tag, specs) =>
          if !Refuses(r, key, tag, specs) { ReserveKeeps(r, key, tag, specs); }
        case Release(key) => ReleaseKeeps(r, key);
      }
      RunKeeps(Apply(r, ops[0]), ops[1..]);
    }
  }

  // ---------------------------------------------------------------- the registry in place

  /** The registry over a growing array: the first n cells of `backing` are the slice of listeners. */
  class Registry {
    var backing: array<Owner>
    var n: nat
    var logicalTags: map<string, string>
    var runtimeKeys: set<string>

    /** What the code relies on; the rest of the invariant is about the value, see ReserveKeeps and
        ReleaseKeeps. */
    ghost predicate Valid()
      reads this
    {
      n <= backing.Length && OneToOne(logicalTags, runtimeKeys)
    }

    ghost function State(): Reg
      reads this, backing
      requires n <= backing.Length
    {
      Reg(backing[..n], logicalTags, runtimeKeys)
    }

    constructor ()
      ensures Valid() && fresh(backing) && State() == EMPTY
    {
      backing := new Owner[0];
      n, logicalTags, runtimeKeys := 0, map[], {};
    }

    /** A copy with room for more. */
    method Grown(a: array<Owner>) returns (bigger: array<Owner>)
      ensures fresh(bigger) && bigger.Length > a.Length && bigger[..a.Length] == a[..]
    {
      bigger := new Owner[2 * a.Length + 1](_ => NOBODY);
      for i := 0 to a.Length
        invariant bigger[..i] == a[..i]
      {
        bigger[i] := a[i];
      }
    }

    /** Appends in place while there is room, and into a larger copy otherwise. */
    method Append(o: Owner)
      requires n <= backing.Length
      modifies this`backing, this`n, backing
      ensures backing == old(backing) || fresh(backing)
      ensures n <= backing.Length && backing[..n] == old(backing[..n]) + [o]
    {
      if n == backing.Length {
        var bigger := Grown(backing);
        backing := bigger;
      }
      backing[n] := o;
      n := n + 1;
    }

    method FindClash(specs: seq<Spec>) returns (clash: bool)
      requires n <= backing.Length
      ensures clash == Clashes(backing[..n], specs)
    {
      for i := 0 to |specs|
        invariant forall k, j :: 0 <= k < i && 0 <= j < n ==> !ListenerConflict(Normal(specs[k]), backing[j].spec)
      {
        var spec := Normal(specs[i]);
        for j := 0 to n
          invariant forall k :: 0 <= k < j ==> !ListenerConflict(spec, backing[k].spec)
        {
          if ListenerConflict(spec, backing[j].spec) {
            assert backing[..n][j] == backing[j];
            return true;
          }
        }
      }
      return false;
    }

    method Reserve(runtimeKey: string, logicalTag: string, specs: seq<Spec>) returns (ok: bool)
      requires Valid()
      modifies this, backing
      ensures Valid() && (backing == old(backing) || fresh(backing))
      ensures ok == !Refuses(old(State()), runtimeKey, logicalTag, specs)
      ensures State() == if ok then Reserved(old(State()), runtimeKey, logicalTag, specs) else old(State())
      // it succeeds exactly when key and tag are free and no listener is in the way
      ensures ok <==>
        && runtimeKey !in old(runtimeKeys) && logicalTag !in old(logicalTags)
        && forall i, j :: 0 <= i < |specs| && 0 <= j < old(n) ==> !Overlap(specs[i], old(backing[..n])[j].spec)
    {
      ClashesMean(backing[..n], specs);
      if runtimeKey in runtimeKeys {
        return false;
      }
      if logicalTag in logicalTags {
        return false;
      }
      var clash := FindClash(specs);
      if clash {
        return false;
      }
      NewTagKeepsOneToOne(logicalTags, runtimeKeys, logicalTag, runtimeKey);
      runtimeKeys := runtimeKeys + {runtimeKey};
      logicalTags := logicalTags[logicalTag := runtimeKey];
      AppendAll(runtimeKey, logicalTag, specs);
      return true;
    }

    method AppendAll(runtimeKey: string, logicalTag: string, specs: seq<Spec>)
      requires n <= backing.Length
      modifies this`backing, this`n, backing
      ensures backing == old(backing) || fresh(backing)
      ensures n <= backing.Length && backing[..n] == old(backing[..n]) + Owned(specs, runtimeKey, logicalTag)
    {
      for i := 0 to |specs|
        invariant n <= backing.Length && (backing == old(backing) || fresh(backing))
        invariant backing[..n] == old(backing[..n]) + Owned(specs[..i], runtimeKey, logicalTag)
        invariant runtimeKeys == old(runtimeKeys) && logicalTags == old(logicalTags)
      {
        Append(Owner(Normal(specs[i]), runtimeKey, logicalTag));
        assert Owned(specs[..i + 1], runtimeKey, logicalTag)
            == Owned(specs[..i], runtimeKey, logicalTag) + [Owner(Normal(specs[i]), runtimeKey, logicalTag)];
      }
      assert specs[..|specs|] == specs;
    }

    /** Deletes the first tag found that belongs to the key; there is no second one. */
    method DropTag(runtimeKey: string)
      requires OneToOne(logicalTags, runtimeKeys + {runtimeKey})
      modifies this`logicalTags
      ensures logicalTags == map t | t in old(logicalTags) && old(logicalTags)[t] != runtimeKey :: old(logicalTags)[t]
    {
      var rest := logicalTags.Keys;
      while rest != {}
        invariant rest <= logicalTags.Keys && logicalTags == old(logicalTags)
        invariant forall t :: t in logicalTags && t !in rest ==> logicalTags[t] != runtimeKey
        decreases |rest|
      {
        var k :| k in rest;
        rest := rest - {k};
        if logicalTags[k] == runtimeKey {
          logicalTags := logicalTags - {k};
          return;
        }
      }
      assert false;  // a live key has a tag
    }

    /** Moves the listeners of other owners to the front of the same array and clears the cells behind. */
    method Compact(runtimeKey: string)
      requires n <= backing.Length
      modifies this`n, backing
      ensures n <= old(n) && backing[..n] == Without(old(backing[..n]), runtimeKey)
      ensures forall i :: n <= i < old(n) ==> backing[i] == NOBODY
      ensures backing[old(n)..] == old(backing[n..])
    {
      ghost var all := backing[..];
      var len, w := n, 0;
      for i := 0 to len
        invariant w <= i && n == len
        invariant backing[..w] == Without(all[..i], runtimeKey)
        invariant forall k :: i <= k < backing.Length ==> backing[k] == all[k]
      {
        var e := backing[i];
        assert all[..i + 1][..i] == all[..i];
        if e.runtimeKey != runtimeKey {
          backing[w] := e;
          w := w + 1;
          assert backing[..w] == backing[..w - 1] + [e];
        }
      }
      for i := w to len
        invariant n == len
        invariant backing[..w] == Without(all[..len], runtimeKey)
        invariant forall k :: w <= k < i ==> backing[k] == NOBODY
        invariant forall k :: len <= k < backing.Length ==> backing[k] == all[k]
      {
        backing[i] := NOBODY;
      }
      n := w;
      assert all[..len] == old(backing[..n]);
    }

    method Release(runtimeKey: string)
      requires Valid()
      modifies this, backing
      ensures Valid() && backing == old(backing)
      ensures State() == Released(old(State()), runtimeKey)
      ensures forall i :: n <= i < old(n) ==> backing[i] == NOBODY
    {
      if runtimeKey !in runtimeKeys {
        return;
      }
      DroppedTagKeepsOneToOne(logicalTags, runtimeKeys, runtimeKey);
      runtimeKeys := runtimeKeys - {runtimeKey};
      assert runtimeKeys + {runtimeKey} == old(runtimeKeys);
      DropTag(runtimeKey);
      Compact(runtimeKey);
    }
  }
}
