/** The online-device table of a limiter (the device part of CheckLimit and GetOnlineDevice in
    limiter/limiter.go, limiter/old_online.go): which addresses each user is on, and which were on lately. */
module Online {
  import opened Base

  /** Who was on an address, and when that was reported. */
  datatype Seen = Seen(uid: int, at: int)

  /** Users to addresses to the uid stored with them; addresses seen lately. */
  datatype Table = Table(online: map<string, map<string, int>>, recent: map<string, Seen>)

  const EMPTY := Table(map[], map[])

  /** The panel counts as many addresses alive as the user may have. */
  predicate Full(deviceLimit: int, aliveIp: int) {
    0 < deviceLimit <= aliveIp
  }

  predicate On(t: Table, user: string, ip: string) {
    user in t.online && ip in t.online[user]
  }

  // ---------------------------------------------------------------- one connection

  predicate Admits(t: Table, user: string, ip: string, deviceLimit: int, aliveIp: int) {
    if user in t.online then ip in t.online[user] || !Full(deviceLimit, aliveIp)
    else ip in t.recent || !Full(deviceLimit, aliveIp)
  }

  function Put(online: map<string, map<string, int>>, user: string, ip: string, uid: int)
    : map<string, map<string, int>>
  {
    if user !in online then online[user := map[ip := uid]]
    else if ip in online[user] then online
    else online[user := online[user][ip := uid]]
  }

  function Connected(t: Table, user: string, ip: string, uid: int, deviceLimit: int, aliveIp: int): Table {
    if !Admits(t, user, ip, deviceLimit, aliveIp) then t
    else Table(Put(t.online, user, ip, uid),
               if user !in t.online && ip in t.recent && t.recent[ip].uid == uid then t.recent - {ip} else t.recent)
  }

  // ---------------------------------------------------------------- one report

  /** Every device, each once, in some order. */
  ghost predicate Lists(online: map<string, map<string, int>>, from: seq<(string, string)>) {
    && (forall i :: 0 <= i < |from| ==> from[i].0 in online && from[i].1 in online[from[i].0])
    && (forall i, j :: 0 <= i < j < |from| ==> from[i] != from[j])
    && (forall u, ip :: u in online && ip in online[u] ==> (u, ip) in from)
  }

  function UidOf(online: map<string, map<string, int>>, d: (string, string)): int {
    if d.0 in online && d.1 in online[d.0] then online[d.0][d.1] else 0
  }

  /** The addresses of a report, noted one after the other: the last user listed for one wins. */
  function Noted(recent: map<string, Seen>, online: map<string, map<string, int>>, from: seq<(string, string)>,
                 now: int)
    : map<string, Seen>
  {
    if from == [] then recent
    else
      var last := from[|from| - 1];
      Noted(recent, online, from[..|from| - 1], now)[last.1 := Seen(UidOf(online, last), now)]
  }

  function Reported(t: Table, from: seq<(string, string)>, now: int): Table {
    Table(map[], Noted(t.recent, t.online, from, now))
  }

  // ---------------------------------------------------------------- one collection

  predicate Stale(s: Seen, now: int, maxAge: int) {
    s.at < now - maxAge
  }

  function Collected(recent: map<string, Seen>, now: int, maxAge: int): map<string, Seen> {
    if maxAge <= 0 then recent
    else map ip | ip in recent && !Stale(recent[ip], now, maxAge) :: recent[ip]
  }

  // ---------------------------------------------------------------- the table in place

  class OnlineTable {
    var online: map<string, map<string, int>>
    var recent: map<string, Seen>

    ghost function State(): Table
      reads this
    {
      Table(online, recent)
    }

    constructor ()
      ensures State() == EMPTY
    {
      online, recent := map[], map[];
    }

    /** Stores the device, and takes it out again when it is one too many. */
    method CheckDevice(user: string, ip: string, uid: int, deviceLimit: int, aliveIp: int) returns (reject: bool)
      modifies this
      ensures reject == !Admits(old(State()), user, ip, deviceLimit, aliveIp)
      ensures State() == Connected(old(State()), user, ip, uid, deviceLimit, aliveIp)
      // refused: a device not online yet, while the alive addresses fill a positive limit; noted ones may come
      // first
      ensures reject <==>
        && 0 < deviceLimit <= aliveIp
        && if user in old(online) then ip !in old(online)[user] else ip !in old(recent)
      ensures reject ==> online == old(online) && recent == old(recent)
      // let in: on from now on, under the uid it came with; nobody else moves
      ensures !reject ==> user in online && ip in online[user]
      ensures !reject ==>
        online[user][ip] == if user in old(online) && ip in old(online)[user] then old(online)[user][ip] else uid
      ensures forall u, i :: (u, i) != (user, ip) ==>
        (u in online && i in online[u] <==> u in old(online) && i in old(online)[u])
      ensures forall u, i :: (u, i) != (user, ip) && u in online && i in online[u] ==>
        u in old(online) && i in old(online)[u] && online[u][i] == old(online)[u][i]
      // a first device takes its address off the noted ones, if it was noted for this uid
      ensures recent == if user !in old(online) && ip in old(recent) && old(recent)[ip].uid == uid
        then old(recent) - {ip} else old(recent)
    {
      ghost var was := online;
      if user in online {
        if ip !in online[user] {
          online := online[user := online[user][ip := uid]];
          if deviceLimit > 0 {
            if deviceLimit <= aliveIp {
              online := online[user := online[user] - {ip}];
              assert online[user] == was[user];
              assert online == was;
              return true;
            }
          }
        }
      } else {
        online := online[user := map[ip := uid]];
        if ip in recent {
          if recent[ip].uid == uid {
            recent := recent - {ip};
          }
        } else {
          if deviceLimit > 0 {
            if deviceLimit <= aliveIp {
              online := online - {user};
              return true;
            }
          }
        }
      }
      return false;
    }

    /** Lists every device, notes their addresses as just seen, and starts over. */
    method GetOnlineDevice(now: int) returns (devices: seq<(int, string)>, ghost from: seq<(string, string)>)
      modifies this
      ensures Lists(old(online), from) && State() == Reported(old(State()), from, now)
      ensures |devices| == |from| && forall i :: 0 <= i < |from| ==>
        && from[i].0 in old(online) && from[i].1 in old(online)[from[i].0]
        && devices[i] == (old(online)[from[i].0][from[i].1], from[i].1)
      ensures online == map[]
      ensures forall ip :: ip in recent <==> ip in old(recent) || exists d :: d in from && d.1 == ip
      ensures forall ip :: ip in recent ==>
        if exists d :: d in from && d.1 == ip then recent[ip].at == now
        else ip in old(recent) && recent[ip] == old(recent)[ip]
    {
      ghost var was := State();
      devices, from := [], [];
      while online != map[]
        invariant online.Keys <= was.online.Keys && forall u :: u in online ==> online[u] == was.online[u]
        invariant Listed(was.online, online, from)
        invariant recent == Noted(was.recent, was.online, from, now)
        invariant |devices| == |from| && forall i :: 0 <= i < |from| ==>
          devices[i] == (UidOf(was.online, from[i]), from[i].1)
        decreases |online|
      {
        var user :| user in online;
        devices, from := ListUser(user, online[user], now, devices, was.online, from, online);
        online := online - {user};
      }
      forall ip { NotedAre(was.recent, was.online, from, now, ip); }
    }

    /** Lists the devices of one user. */
    method ListUser(user: string, ips: map<string, int>, now: int, before: seq<(int, string)>,
                    ghost all: map<string, map<string, int>>, ghost fromBefore: seq<(string, string)>,
                    ghost todo: map<string, map<string, int>>)
      returns (devices: seq<(int, string)>, ghost from: seq<(string, string)>)
      requires user in all && all[user] == ips && user in todo && Listed(all, todo, fromBefore)
      requires |before| == |fromBefore| && forall i :: 0 <= i < |before| ==>
        before[i] == (UidOf(all, fromBefore[i]), fromBefore[i].1)
      modifies this`recent
      ensures Listed(all, todo - {user}, from)
      ensures |devices| == |from| && forall i :: 0 <= i < |from| ==> devices[i] == (UidOf(all, from[i]), from[i].1)
      ensures forall r :: old(recent) == Noted(r, all, fromBefore, now) ==> recent == Noted(r, all, from, now)
    {
      devices, from := before, fromBefore;
      var left := ips.Keys;
      while left != {}
        invariant left <= ips.Keys
        invariant (forall d :: d in from <==> d in fromBefore || (d.0 == user && d.1 in ips && d.1 !in left))
        invariant forall i, j :: 0 <= i < j < |from| ==> from[i] != from[j]
        invariant |devices| == |from| && forall i :: 0 <= i < |from| ==> devices[i] == (UidOf(all, from[i]), from[i].1)
        invariant forall r :: old(recent) == Noted(r, all, fromBefore, now) ==> recent == Noted(r, all, from, now)
        decreases |left|
      {
        var ip :| ip in left;
        left := left - {ip};
        recent := recent[ip := Seen(ips[ip], now)];
        devices := devices + [(ips[ip], ip)];
        ghost var d := (user, ip);
        assert (from + [d])[..|from|] == from;
        from := from + [d];
      }
    }

    /** Deleted users lose their devices; a user whose limits change is deleted and added again. */
    method Forget(users: seq<string>)
      modifies this`online
      ensures online == old(online) - (set u | u in users)
    {
      for i := 0 to |users|
        invariant online == old(online) - (set u | u in users[..i])
      {
        assert users[..i + 1] == users[..i] + [users[i]];
        online := online - {users[i]};
      }
    }

    /** Drops the addresses noted longer ago than maxAge. */
    method GCStale(now: int, maxAge: int) returns (evicted: nat)
      modifies this`recent
      ensures recent == Collected(old(recent), now, maxAge) && evicted == |old(recent)| - |recent|
      ensures forall ip :: ip in recent <==> ip in old(recent) && (maxAge <= 0 || old(recent)[ip].at + maxAge >= now)
      ensures forall ip :: ip in recent ==> recent[ip] == old(recent)[ip]
    {
      evicted := 0;
      if maxAge <= 0 {
        return;
      }
      ghost var was := recent;
      var left := recent.Keys;
      while left != {}
        invariant left <= recent.Keys <= was.Keys && evicted == |was| - |recent|
        invariant forall ip :: ip in was && ip !in left ==> (ip in recent <==> !Stale(was[ip], now, maxAge))
        invariant forall ip :: ip in recent ==> recent[ip] == was[ip]
        decreases |left|
      {
        var ip :| ip in left;
        left := left - {ip};
        if Stale(recent[ip], now, maxAge) {
          ghost var before := recent;
          recent := recent - {ip};
          DropOne(before, ip);
          evicted := evicted + 1;
        }
      }
    }
  }

  lemma DropOne<K, V>(m: map<K, V>, k: K)
    requires k in m
    ensures |m - {k}| == |m| - 1
  {
    assert (m - {k}).Keys == m.Keys - {k};
  }

  /** The devices of all but the users still to do are listed. */
  ghost predicate Listed(all: map<string, map<string, int>>, todo: map<string, map<string, int>>,
                         from: seq<(string, string)>)
  {
    && (forall d :: d in from <==> d.0 in all && d.0 !in todo && d.1 in all[d.0])
    && (forall i, j :: 0 <= i < j < |from| ==> from[i] != from[j])
  }

  // ---------------------------------------------------------------- over runs

  datatype Event =
    | Connect(user: string, ip: string, uid: int, deviceLimit: int, aliveIp: int)
    | Report(now: int, from: seq<(string, string)>)
    | Collect(now: int, maxAge: int)
    | Forget(users: set<string>)

  function Step(t: Table, e: Event): Table {
    match e
    case Connect(user, ip, uid, limit, alive) => Connected(t, user, ip, uid, limit, alive)
    case Report(now, from) => Reported(t, from, now)
    case Collect(now, maxAge) => t.(recent := Collected(t.recent, now, maxAge))
    case Forget(users) => t.(online := t.online - users)
  }

  function Run(t: Table, events: seq<Event>): Table {
    if events == [] then t else Step(Run(t, events[..|events| - 1]), events[|events| - 1])
  }

  /** Event i connected the user from the address, and was let in. */
  ghost predicate LetIn(t: Table, events: seq<Event>, i: nat, user: string, ip: string)
    requires i < |events|
  {
    var e := events[i];
    e.Connect? && e.user == user && e.ip == ip && Admits(Run(t, events[..i]), user, ip, e.deviceLimit, e.aliveIp)
  }

  lemma RunPrefix(events: seq<Event>, k: nat)
    requires k <= |events|
    ensures forall i :: 0 <= i <= k ==> events[..k][..i] == events[..i]
  {
  }

  /** Where the events since the user's last deletion start. */
  function LastForget(events: seq<Event>, user: string): (m: nat)
    ensures m <= |events|
  {
    if events == [] then 0
    else if events[|events| - 1].Forget? && user in events[|events| - 1].users then |events|
    else LastForget(events[..|events| - 1], user)
  }

  /** Let in since the user's last deletion. */
  ghost predicate LetInSince(t: Table, events: seq<Event>, user: string, ip: string) {
    exists i :: LastForget(events, user) <= i < |events| && LetIn(t, events, i, user, ip)
  }

  lemma LetInGrows(t: Table, events: seq<Event>, user: string, ip: string)
    requires events != []
    ensures var n := |events| - 1;
      LetInSince(t, events, user, ip) <==>
        LastForget(events, user) <= n && (LetIn(t, events, n, user, ip) || LetInSince(t, events[..n], user, ip))
  {
    var n := |events| - 1;
    RunPrefix(events, n);
    if i :| LastForget(events, user) <= i < n && LetIn(t, events, i, user, ip) {
      assert LetIn(t, events[..n], i, user, ip);
    }
    if i :| LastForget(events[..n], user) <= i < n && LetIn(t, events[..n], i, user, ip) {
      assert LetIn(t, events, i, user, ip);
    }
  }

  /** Between two reports: a device is on exactly when it was let in since the last one and the user was not
      deleted since; connections refused leave no trace. */
  lemma {:induction false} OnlineIsLetIn(t: Table, events: seq<Event>, user: string, ip: string)
    requires t.online == map[] && forall e :: e in events ==> !e.Report?
    ensures On(Run(t, events), user, ip) <==> LetInSince(t, events, user, ip)
  {
    if events != [] {
      var n := |events| - 1;
      OnlineIsLetIn(t, events[..n], user, ip);
      LetInGrows(t, events, user, ip);
      hide LetInSince;
      assert events[n] in events;
    }
  }

  /** The report after such a run: exactly the devices let in since the later of the last report and their
      user's last deletion, each once. */
  lemma ReportListsLetIn(t: Table, events: seq<Event>, from: seq<(string, string)>)
    requires t.online == map[] && (forall e :: e in events ==> !e.Report?) && Lists(Run(t, events).online, from)
    ensures forall user, ip :: (user, ip) in from <==> LetInSince(t, events, user, ip)
    ensures forall i, j :: 0 <= i < j < |from| ==> from[i] != from[j]
  {
    forall user, ip ensures (user, ip) in from <==> LetInSince(t, events, user, ip) {
      OnlineIsLetIn(t, events, user, ip);
      if (user, ip) in from {
        var k :| 0 <= k < |from| && from[k] == (user, ip);
      }
    }
  }

  /** The connect that brought a device that was off; the user was not deleted since. */
  ghost predicate Brought(t: Table, events: seq<Event>, i: nat, user: string, ip: string)
    requires i < |events|
  {
    LastForget(events, user) <= i && LetIn(t, events, i, user, ip) && !On(Run(t, events[..i]), user, ip)
  }

  /** A device is reported under the uid of the connect that brought it. */
  lemma {:induction false} ReportedUid(t: Table, events: seq<Event>, user: string, ip: string)
    requires t.online == map[] && forall e :: e in events ==> !e.Report?
    ensures On(Run(t, events), user, ip) ==>
      exists i :: 0 <= i < |events| && Brought(t, events, i, user, ip)
                  && Run(t, events).online[user][ip] == events[i].uid
  {
    if events != [] && On(Run(t, events), user, ip) {
      var n := |events| - 1;
      assert events[n] in events && events[..n][..n] == events[..n];
      ReportedUid(t, events[..n], user, ip);
      RunPrefix(events, n);
      if On(Run(t, events[..n]), user, ip) {
        var i :| 0 <= i < n && Brought(t, events[..n], i, user, ip)
                 && Run(t, events[..n]).online[user][ip] == events[..n][i].uid;
        assert Brought(t, events, i, user, ip);
      } else {
        assert Brought(t, events, n, user, ip);
      }
    }
  }

  /** A report notes every device's address, with a user who was on it, and nothing else. */
  lemma {:induction false} NotedAre(recent: map<string, Seen>, online: map<string, map<string, int>>,
                                    from: seq<(string, string)>, now: int, ip: string)
    ensures var r := Noted(recent, online, from, now);
      if exists d :: d in from && d.1 == ip
      then ip in r && r[ip].at == now && exists d :: d in from && d.1 == ip && r[ip].uid == UidOf(online, d)
      else (ip in r <==> ip in recent) && (ip in r ==> r[ip] == recent[ip])
  {
    if from != [] {
      var front, last := from[..|from| - 1], from[|from| - 1];
      assert from == front + [last];
      assert last in from;
      NotedAre(recent, online, front, now, ip);
    }
  }

  /** Just after a report nobody is on, so a user at the limit is let in from an address exactly when it was
      noted before or anybody, not necessarily this user, is listed on it. */
  lemma AnyonesAddressOpens(t: Table, from: seq<(string, string)>, now: int, user: string, ip: string,
                            deviceLimit: int, aliveIp: int)
    requires Lists(t.online, from) && Full(deviceLimit, aliveIp)
    ensures Admits(Reported(t, from, now), user, ip, deviceLimit, aliveIp)
       <==> ip in t.recent || exists other :: On(t, other, ip)
  {
    NotedAre(t.recent, t.online, from, now, ip);
    if other :| On(t, other, ip) {
      assert (other, ip) in from;
      assert (other, ip).1 == ip;
    }
    if d :| d in from && d.1 == ip {
      var k :| 0 <= k < |from| && from[k] == d;
      assert On(t, from[k].0, ip);
    }
  }

  // ---------------------------------------------------------------- at the limit, between two reports

  /** No report, and whenever this user connects the panel counts the limit as reached. */
  ghost predicate FullThroughout(events: seq<Event>, user: string) {
    forall e :: e in events ==> !e.Report? && (e.Connect? && e.user == user ==> Full(e.deviceLimit, e.aliveIp))
  }

  /** Event i connects the user from an address noted at that moment. */
  ghost predicate FromNoted(t: Table, events: seq<Event>, i: nat, user: string)
    requires i < |events|
  {
    var e := events[i];
    e.Connect? && e.user == user && e.ip in Run(t, events[..i]).recent
  }

  /** The first such event since the user's last deletion. */
  ghost predicate FirstFromNoted(t: Table, events: seq<Event>, i: nat, user: string)
    requires i < |events|
  {
    && LastForget(events, user) <= i && FromNoted(t, events, i, user)
    && forall j :: LastForget(events, user) <= j < i ==> !FromNoted(t, events, j, user)
  }

  /** The user's device, if any: the address of that event. */
  ghost predicate IsDevice(t: Table, events: seq<Event>, user: string, ip: string) {
    exists i :: 0 <= i < |events| && FirstFromNoted(t, events, i, user) && events[i].ip == ip
  }

  ghost predicate HasDevice(t: Table, events: seq<Event>, user: string) {
    exists i :: LastForget(events, user) <= i < |events| && FromNoted(t, events, i, user)
  }

  lemma HasGrows(t: Table, events: seq<Event>, user: string)
    requires events != []
    ensures var n := |events| - 1;
      HasDevice(t, events, user) <==>
        LastForget(events, user) <= n && (FromNoted(t, events, n, user) || HasDevice(t, events[..n], user))
  {
    var n := |events| - 1;
    RunPrefix(events, n);
    if i :| LastForget(events, user) <= i < n && FromNoted(t, events, i, user) {
      assert FromNoted(t, events[..n], i, user);
    }
    if i :| LastForget(events[..n], user) <= i < n && FromNoted(t, events[..n], i, user) {
      assert FromNoted(t, events, i, user);
    }
  }

  lemma DeviceGrows(t: Table, events: seq<Event>, user: string, ip: string)
    requires events != []
    ensures var n := |events| - 1;
      IsDevice(t, events, user, ip) <==>
        && LastForget(events, user) <= n
        && (IsDevice(t, events[..n], user, ip)
            || (!HasDevice(t, events[..n], user) && FromNoted(t, events, n, user) && events[n].ip == ip))
  {
    var n := |events| - 1;
    RunPrefix(events, n);
    assert forall i :: 0 <= i < n ==> FromNoted(t, events[..n], i, user) == FromNoted(t, events, i, user);
    if i :| 0 <= i < n && FirstFromNoted(t, events, i, user) && events[i].ip == ip {
      assert FirstFromNoted(t, events[..n], i, user);
    }
    if LastForget(events, user) <= n {
      if i :| 0 <= i < n && FirstFromNoted(t, events[..n], i, user) && events[..n][i].ip == ip {
        assert FirstFromNoted(t, events, i, user);
      }
      if !HasDevice(t, events[..n], user) && FromNoted(t, events, n, user) {
        assert FirstFromNoted(t, events, n, user);
      }
    }
  }

  /** From one report to the next a user at the limit has the device of the first connect from an address
      still noted then, counted anew from the user's last deletion, and every other one is refused. */
  lemma {:induction false} OneDeviceReturns(t: Table, events: seq<Event>, user: string, ip: string)
    requires user !in t.online && FullThroughout(events, user)
    ensures On(Run(t, events), user, ip) <==> IsDevice(t, events, user, ip)
    ensures user in Run(t, events).online <==> HasDevice(t, events, user)
  {
    if events != [] {
      var n := |events| - 1;
      assert events == events[..n] + [events[n]] && events[n] in events;
      OneDeviceReturns(t, events[..n], user, ip);
      HasGrows(t, events, user);
      DeviceGrows(t, events, user, ip);
      hide IsDevice, HasDevice;
      LastConnect(t, events, user, ip);
    }
  }

  /** What the last event does. */
  lemma LastConnect(t: Table, events: seq<Event>, user: string, ip: string)
    requires events != [] && FullThroughout(events, user)
    ensures var n := |events| - 1; var before, after := Run(t, events[..n]), Run(t, events);
      if LastForget(events, user) > n then user !in after.online
      else
        && (user in after.online <==> user in before.online || FromNoted(t, events, n, user))
        && (On(after, user, ip) <==>
            On(before, user, ip) || (user !in before.online && FromNoted(t, events, n, user) && events[n].ip == ip))
  {
    assert events[|events| - 1] in events;
  }

  /** So never two at once; and a second one in turn takes a deletion of the user in between, which a mere
      change of the user's limits causes. */
  lemma AtMostOneDevice(t: Table, events: seq<Event>, more: seq<Event>, user: string, ip: string, other: string)
    requires user !in t.online && FullThroughout(events + more, user)
    requires On(Run(t, events), user, ip) && On(Run(t, events + more), user, other)
    ensures ip == other || exists e :: e in more && e.Forget? && user in e.users
  {
    StaysOn(t, events, more, user, ip);
    if On(Run(t, events + more), user, ip) {
      OneDeviceReturns(t, events + more, user, ip);
      OneDeviceReturns(t, events + more, user, other);
    }
  }

  /** A device is on until a report or a deletion. */
  lemma {:induction false} StaysOn(t: Table, events: seq<Event>, more: seq<Event>, user: string, ip: string)
    requires On(Run(t, events), user, ip) && forall e :: e in more ==> !e.Report?
    ensures On(Run(t, events + more), user, ip) || exists e :: e in more && e.Forget? && user in e.users
  {
    if more == [] {
      assert events + more == events;
    } else {
      var front, e := more[..|more| - 1], more[|more| - 1];
      assert (events + more)[..|events + more| - 1] == events + front;
      assert more == front + [e];
      StaysOn(t, events, front, user, ip);
    }
  }

  /** Between reports addresses only stop being noted: none is added, none gets another user. */
  lemma {:induction false} NotedOnlyShrinks(t: Table, events: seq<Event>, ip: string)
    requires forall e :: e in events ==> !e.Report?
    ensures ip in Run(t, events).recent ==> ip in t.recent && Run(t, events).recent[ip] == t.recent[ip]
  {
    if events != [] {
      assert events == events[..|events| - 1] + [events[|events| - 1]];
      NotedOnlyShrinks(t, events[..|events| - 1], ip);
    }
  }
}
