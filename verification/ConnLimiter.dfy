/** The per-user connection and address limiter (limiter/conn.go) and its release-once wrappers.

    The tables are first described as values, with one function per operation; class ConnLimiter
    refines those functions, and module ConnRuns reasons about every run of them. */
module ConnLimits {
  import opened Base

  type User = string
  type Addr = string

  /** One (user, address) slot. A realtime limiter keeps the integer 2*tcp + packetBit; a
      non-realtime limiter keeps the time of the last connect, in nanoseconds. */
  datatype Slot = Count(n: int) | SeenAt(at: int)

  datatype Config = Config(realtime: bool, connLimit: int, ipLimit: int)

  datatype Tables = Tables(count: map<User, int>, ip: map<User, map<Addr, Slot>>)

  const MINUTE: int := 60_000_000_000

  const EMPTY := Tables(map[], map[])

  /** Both caps, read against the current tables only. A limit of 0 switches its cap off. */
  predicate Rejects(cfg: Config, t: Tables, user: User, ip: Addr) {
    || (cfg.connLimit != 0 && user in t.count && t.count[user] >= cfg.connLimit)
    || (cfg.ipLimit != 0 && user in t.ip && ip !in t.ip[user] && |t.ip[user]| >= cfg.ipLimit)
  }

  function AddrsOf(t: Tables, user: User): map<Addr, Slot> {
    if user in t.ip then t.ip[user] else map[]
  }

  /** The slot an admission leaves behind. */
  function Touched(cfg: Config, slots: map<Addr, Slot>, ip: Addr, tcp: bool, now: int): Slot {
    if !cfg.realtime then SeenAt(now)
    else Count((if ip in slots && slots[ip].Count? then slots[ip].n else if tcp then 0 else 1) + (if tcp then 2 else 0))
  }

  function AdmitCount(cfg: Config, count: map<User, int>, user: User, tcp: bool): map<User, int> {
    if cfg.connLimit == 0 || !tcp then count
    else count[user := (if user in count then count[user] else 0) + 1]
  }

  /** The tables after an admission. */
  function Admit(cfg: Config, t: Tables, user: User, ip: Addr, tcp: bool, now: int): Tables {
    Tables(AdmitCount(cfg, t.count, user, tcp),
           if cfg.ipLimit == 0 then t.ip
           else t.ip[user := AddrsOf(t, user)[ip := Touched(cfg, AddrsOf(t, user), ip, tcp, now)]])
  }

  function ReleaseCount(cfg: Config, count: map<User, int>, user: User): map<User, int> {
    if cfg.connLimit == 0 || user !in count then count
    else if count[user] <= 1 then count - {user}
    else count[user := count[user] - 1]
  }

  /** The addresses of a user after a TCP connection from one of them is gone. */
  function Lowered(slots: map<Addr, Slot>, ip: Addr): map<Addr, Slot>
    requires ip in slots && slots[ip].Count?
  {
    if slots[ip].n <= 2 then slots - {ip} else slots[ip := Count(slots[ip].n - 2)]
  }

  function ReleaseSlot(cfg: Config, ip: map<User, map<Addr, Slot>>, user: User, addr: Addr)
    : map<User, map<Addr, Slot>>
  {
    if cfg.ipLimit == 0 || !cfg.realtime || user !in ip || addr !in ip[user] || !ip[user][addr].Count? then ip
    else if Lowered(ip[user], addr) == map[] then ip - {user}
    else ip[user := Lowered(ip[user], addr)]
  }

  /** The tables after the release of one TCP connection. */
  function Release(cfg: Config, t: Tables, user: User, ip: Addr): Tables {
    Tables(ReleaseCount(cfg, t.count, user), ReleaseSlot(cfg, t.ip, user, ip))
  }

  predicate Evicted(s: Slot, now: int) {
    match s
    case Count(n) => n == 1
    case SeenAt(at) => at < now + MINUTE
  }

  function Swept(slots: map<Addr, Slot>, now: int): map<Addr, Slot> {
    map i | i in slots && !Evicted(slots[i], now) :: slots[i]
  }

  /** The tables after the periodic sweep. A user whose address table was already empty goes; a user
      whose table becomes empty in this very sweep stays until the next one. */
  function Sweep(t: Tables, now: int): Tables {
    Tables(t.count, map u | u in t.ip && t.ip[u] != map[] :: Swept(t.ip[u], now))
  }

  /** Slot kinds follow the mode, so no type assertion in the source can fail. */
  ghost predicate Typed(cfg: Config, t: Tables) {
    forall u, i :: u in t.ip && i in t.ip[u] ==> t.ip[u][i].Count? == cfg.realtime
  }

  /** The limiter itself. Each method is one atomic step. */
  class ConnLimiter {
    const cfg: Config
    var count: map<User, int>
    var ip: map<User, map<Addr, Slot>>

    ghost predicate Valid()
      reads this
    {
      Typed(cfg, State())
    }

    ghost function State(): Tables
      reads this
    {
      Tables(count, ip)
    }

    constructor (conn: int, ipLimit: int, realtime: bool)
      ensures Valid() && State() == EMPTY && cfg == Config(realtime, conn, ipLimit)
    {
      cfg := Config(realtime, conn, ipLimit);
      count, ip := map[], map[];
    }

    /** Counts the addresses of a user, but stops as soon as the limit is reached. */
    method ReachesLimit(slots: map<Addr, Slot>) returns (full: bool)
      ensures full == (|slots| >= cfg.ipLimit)
    {
      var cn, rest, more := 0, slots.Keys, true;
      while more && rest != {}
        invariant cn + |rest| == |slots|
        invariant more ==> cn == 0 || cn < cfg.ipLimit
        invariant !more ==> cn >= cfg.ipLimit
        decreases |rest|
      {
        var k :| k in rest;
        rest := rest - {k};
        cn := cn + 1;
        more := cn < cfg.ipLimit;
      }
      full := cn >= cfg.ipLimit;
    }

    method AddConnCount(user: User, addr: Addr, isTcp: bool, now: int) returns (limit: bool)
      requires Valid()
      modifies this
      ensures Valid()
      ensures limit == Rejects(cfg, old(State()), user, addr)
      ensures limit ==> State() == old(State())
      ensures !limit ==> State() == Admit(cfg, old(State()), user, addr, isTcp, now)
    {
      // Phase 1: every check, no mutation.
      if cfg.connLimit != 0 {
        if user in count && count[user] >= cfg.connLimit {
          return true;
        }
      }
      var known, online := false, false;
      if cfg.ipLimit != 0 && user in ip {
        known := true;
        if addr in ip[user] {
          online := true;
        } else {
          var full := ReachesLimit(ip[user]);
          if full {
            return true;
          }
        }
      }
      // Phase 2: mutate.
      if cfg.connLimit != 0 && isTcp {
        if user in count {
          count := count[user := count[user] + 1];
        } else {
          count := count[user := 1];
        }
      }
      if cfg.ipLimit == 0 {
        return false;
      }
      if !known {
        ip := ip[user := map[addr := FreshSlot(isTcp, now)]];
        return false;
      }
      if online {
        if cfg.realtime {
          if isTcp {
            ip := ip[user := ip[user][addr := Count(ip[user][addr].n + 2)]];
          } else {
            assert ip[user][addr := ip[user][addr]] == ip[user];
            assert ip[user := ip[user]] == ip;
          }
        } else {
          ip := ip[user := ip[user][addr := SeenAt(now)]];
        }
        return false;
      }
      ip := ip[user := ip[user][addr := FreshSlot(isTcp, now)]];
      return false;
    }

    function FreshSlot(isTcp: bool, now: int): Slot {
      if cfg.realtime then Count(if isTcp then 2 else 1) else SeenAt(now)
    }

    method DelConnCount(user: User, addr: Addr)
      requires Valid()
      modifies this
      ensures Valid()
      ensures State() == Release(cfg, old(State()), user, addr)
    {
      if cfg.connLimit != 0 {
        if user in count {
          if count[user] <= 1 {
            count := count - {user};
          } else {
            count := count[user := count[user] - 1];
          }
        }
      }
      if cfg.ipLimit == 0 || !cfg.realtime {
        return;
      }
      DelSlot(user, addr);
    }

    /** The realtime half of DelConnCount: the user's address slot, and the user when it was the last. */
    method DelSlot(user: User, addr: Addr)
      requires Valid() && cfg.ipLimit != 0 && cfg.realtime
      modifies this`ip
      ensures Valid()
      ensures ip == ReleaseSlot(cfg, old(ip), user, addr)
    {
      if user in ip {
        var slots := ip[user];
        if addr in slots {
          if slots[addr].n <= 2 {
            slots := slots - {addr};
          } else {
            slots := slots[addr := Count(slots[addr].n - 2)];
          }
          assert slots == Lowered(ip[user], addr);
          if |slots| == 0 {
            ip := ip - {user};
          } else {
            ip := ip[user := slots];
          }
        }
      }
    }

    /** The sweep of one user's table; notDel reports that it held anything at all. */
    method SweepUser(slots: map<Addr, Slot>, now: int) returns (left: map<Addr, Slot>, notDel: bool)
      ensures left == Swept(slots, now) && notDel == (slots != map[])
    {
      var rest := slots.Keys;
      left, notDel := slots, false;
      while rest != {}
        invariant rest <= slots.Keys
        invariant forall i :: i in left <==> i in slots && (i in rest || !Evicted(slots[i], now))
        invariant forall i :: i in left ==> left[i] == slots[i]
        invariant notDel == (rest != slots.Keys)
        decreases |rest|
      {
        var i :| i in rest;
        rest := rest - {i};
        notDel := true;
        var evict;
        if left[i].Count? {
          evict := left[i].n == 1;
        } else {
          evict := left[i].at < now + MINUTE;
        }
        if evict {
          left := left - {i};
        }
      }
      assert left == Swept(slots, now);
    }

    method ClearOnlineIP(now: int)
      requires Valid()
      modifies this
      ensures Valid()
      ensures State() == Sweep(old(State()), now)
    {
      ghost var was := ip;
      var todo := ip.Keys;
      while todo != {}
        invariant todo <= was.Keys && count == old(count)
        invariant forall u :: u in ip <==> u in todo || (u in was && was[u] != map[])
        invariant forall u :: u in ip ==> ip[u] == if u in todo then was[u] else Swept(was[u], now)
        decreases |todo|
      {
        var u :| u in todo;
        todo := todo - {u};
        var slots, notDel := SweepUser(ip[u], now);
        ip := ip[u := slots];
        if !notDel {
          ip := ip - {u};
        }
      }
    }
  }

  /** A net.Conn wrapper (core/sing/conn_release.go): the first Close releases, later ones do not. */
  class ReleaseConn {
    const limiter: ConnLimiter
    const hooked: bool
    const user: User
    const addr: Addr
    var fired: bool

    constructor (limiter: ConnLimiter, hooked: bool, user: User, addr: Addr)
      ensures this.limiter == limiter && this.hooked == hooked && this.user == user && this.addr == addr
      ensures !fired
    {
      this.limiter, this.hooked, this.user, this.addr := limiter, hooked, user, addr;
      fired := false;
    }

    method Close()
      requires limiter.Valid()
      modifies this, limiter
      ensures limiter.Valid() && fired == (old(fired) || hooked)
      ensures limiter.State() ==
              if hooked && !old(fired) then Release(limiter.cfg, old(limiter.State()), user, addr)
              else old(limiter.State())
    {
      if hooked {
        if !fired {
          fired := true;
          limiter.DelConnCount(user, addr);
        }
      }
    }
  }

  /** The links of one user (core/xray/app/dispatcher/linkmanager.go). */
  class LinkManager {
    var links: set<ManagedWriter>

    constructor ()
      ensures links == {}
    {
      links := {};
    }

    method AddLink(writer: ManagedWriter)
      modifies this
      ensures links == old(links) + {writer}
    {
      links := links + {writer};
    }

    method RemoveWriter(writer: ManagedWriter)
      modifies this
      ensures links == old(links) - {writer}
    {
      links := links - {writer};
    }
  }

  /** The xray counterpart of ReleaseConn, which also leaves its link manager. */
  class ManagedWriter {
    const manager: LinkManager
    const limiter: ConnLimiter
    const hooked: bool
    const user: User
    const addr: Addr
    var released: bool

    constructor (manager: LinkManager, limiter: ConnLimiter, hooked: bool, user: User, addr: Addr)
      ensures this.manager == manager && this.limiter == limiter && this.hooked == hooked
      ensures this.user == user && this.addr == addr && !released
    {
      this.manager, this.limiter, this.hooked, this.user, this.addr := manager, limiter, hooked, user, addr;
      released := false;
    }

    method Close()
      requires limiter.Valid()
      modifies this, manager, limiter
      ensures limiter.Valid() && released == (old(released) || hooked)
      ensures manager.links == old(manager.links) - {this}
      ensures limiter.State() ==
              if hooked && !old(released) then Release(limiter.cfg, old(limiter.State()), user, addr)
              else old(limiter.State())
    {
      manager.RemoveWriter(this);
      if hooked {
        if !released {
          released := true;
          limiter.DelConnCount(user, addr);
        }
      }
    }
  }
}
