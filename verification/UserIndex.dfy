/** The per-node limiter: its user index (AddLimiter, UpdateUser, UpdateDynamicSpeedLimit of
    limiter/limiter.go) and the process-wide registry of limiters. */
module UserIndex {
  import opened Base
  import opened UserDiff

  // ---------------------------------------------------------------- keys

  /** coreType | logicalTag (common/format/runtime.go) */
  function RuntimeKey(coreType: string, logicalTag: string): string {
    coreType + "|" + logicalTag
  }

  /** runtimeKey | uuid (common/format/user.go) */
  function UserTag(rk: string, uuid: string): string {
    rk + "|" + uuid
  }

  /** What follows the runtime key in a user tag. */
  function UuidIn(rk: string, t: string): string {
    if |t| > |rk| then t[|rk| + 1..] else ""
  }

  lemma TagRoundTrip(rk: string, uuid: string)
    ensures UuidIn(rk, UserTag(rk, uuid)) == uuid
  {
  }

  // ---------------------------------------------------------------- the index as a value

  datatype Info = Info(uid: int, speedLimit: int, deviceLimit: int, dynamicSpeedLimit: int, expireTime: int,
                       overLimit: bool)

  datatype Index = Index(info: map<string, Info>, uids: map<string, int>)

  const EMPTY := Index(map[], map[])

  function InfoOf(u: UserInfo): Info {
    Info(u.id, u.speedLimit, u.deviceLimit, 0, 0, false)
  }

  function Put(rk: string, ix: Index, u: UserInfo): Index {
    Index(ix.info[UserTag(rk, u.uuid) := InfoOf(u)], ix.uids[u.uuid := u.id])
  }

  function Drop(rk: string, ix: Index, uuid: string): Index {
    Index(ix.info - {UserTag(rk, uuid)}, ix.uids - {uuid})
  }

  function PutAll(rk: string, ix: Index, us: seq<UserInfo>): Index {
    if us == [] then ix else Put(rk, PutAll(rk, ix, us[..|us| - 1]), us[|us| - 1])
  }

  function DropAll(rk: string, ix: Index, us: seq<UserInfo>): Index {
    if us == [] then ix else Drop(rk, DropAll(rk, ix, us[..|us| - 1]), us[|us| - 1].uuid)
  }

  /** The index a new limiter starts with. */
  function Fresh(rk: string, us: seq<UserInfo>): Index {
    PutAll(rk, EMPTY, us)
  }

  /** The index after an incremental update: deletions first. */
  function Updated(rk: string, ix: Index, added: seq<UserInfo>, deleted: seq<UserInfo>): Index {
    PutAll(rk, DropAll(rk, ix, deleted), added)
  }

  function WithDynamic(rk: string, ix: Index, uuid: string, limit: int, expire: int): Index {
    var t := UserTag(rk, uuid);
    if t in ix.info
    then ix.(info := ix.info[t := ix.info[t].(dynamicSpeedLimit := limit, expireTime := expire)])
    else ix
  }

  // ---------------------------------------------------------------- the limiter and its registry

  class Limiter {
    var userLimitInfo: map<string, Info>
    var uuidToUid: map<string, int>
    var userOnlineIP: map<string, map<string, int>>
    var speedLimiter: map<string, int>
    var aliveList: map<int, int>

    constructor (rk: string, users: seq<UserInfo>, alive: map<int, int>)
      ensures State() == Fresh(rk, users)
      ensures userOnlineIP == map[] && speedLimiter == map[] && aliveList == alive
    {
      userLimitInfo, uuidToUid, userOnlineIP, speedLimiter, aliveList := map[], map[], map[], map[], alive;
      new;
      for i := 0 to |users|
        invariant State() == Fresh(rk, users[..i])
        invariant userOnlineIP == map[] && speedLimiter == map[] && aliveList == alive
      {
        assert users[..i + 1][..i] == users[..i];
        uuidToUid := uuidToUid[users[i].uuid := users[i].id];
        var userLimit := Info(users[i].id, 0, 0, 0, 0, false);
        if users[i].speedLimit != 0 {
          userLimit := userLimit.(speedLimit := users[i].speedLimit);
        }
        if users[i].deviceLimit != 0 {
          userLimit := userLimit.(deviceLimit := users[i].deviceLimit);
        }
        userLimitInfo := userLimitInfo[UserTag(rk, users[i].uuid) := userLimit];
      }
      assert users[..|users|] == users;
    }

    ghost function State(): Index
      reads this
    {
      Index(userLimitInfo, uuidToUid)
    }

    method UpdateUser(rk: string, added: seq<UserInfo>, deleted: seq<UserInfo>)
      modifies this
      ensures State() == Updated(rk, old(State()), added, deleted)
      ensures userOnlineIP == old(userOnlineIP) - TagsOf(rk, deleted)
      ensures speedLimiter == old(speedLimiter) - TagsOf(rk, deleted)
      ensures aliveList == old(aliveList) - IdsOf(deleted)
    {
      Forget(rk, deleted);
      Learn(rk, added);
    }

    /** The first loop of UpdateUser. */
    method Forget(rk: string, deleted: seq<UserInfo>)
      modifies this
      ensures State() == DropAll(rk, old(State()), deleted)
      ensures userOnlineIP == old(userOnlineIP) - TagsOf(rk, deleted)
      ensures speedLimiter == old(speedLimiter) - TagsOf(rk, deleted)
      ensures aliveList == old(aliveList) - IdsOf(deleted)
    {
      for i := 0 to |deleted|
        invariant State() == DropAll(rk, old(State()), deleted[..i])
        invariant userOnlineIP == old(userOnlineIP) - TagsOf(rk, deleted[..i])
        invariant speedLimiter == old(speedLimiter) - TagsOf(rk, deleted[..i])
        invariant aliveList == old(aliveList) - IdsOf(deleted[..i])
      {
        assert deleted[..i + 1][..i] == deleted[..i];
        var t := UserTag(rk, deleted[i].uuid);
        MinusMinus(old(userOnlineIP), TagsOf(rk, deleted[..i]), t);
        MinusMinus(old(speedLimiter), TagsOf(rk, deleted[..i]), t);
        MinusMinus(old(aliveList), IdsOf(deleted[..i]), deleted[i].id);
        userLimitInfo := userLimitInfo - {t};
        userOnlineIP := userOnlineIP - {t};
        speedLimiter := speedLimiter - {t};
        uuidToUid := uuidToUid - {deleted[i].uuid};
        aliveList := aliveList - {deleted[i].id};
      }
      assert deleted[..|deleted|] == deleted;
    }

    /** The second loop of UpdateUser. */
    method Learn(rk: string, added: seq<UserInfo>)
      modifies this`userLimitInfo, this`uuidToUid
      ensures State() == PutAll(rk, old(State()), added)
    {
      for i := 0 to |added|
        invariant State() == PutAll(rk, old(State()), added[..i])
      {
        assert added[..i + 1][..i] == added[..i];
        var userLimit := Info(added[i].id, 0, 0, 0, 0, false);
        if added[i].speedLimit != 0 {
          userLimit := userLimit.(speedLimit := added[i].speedLimit, expireTime := 0);
        }
        if added[i].deviceLimit != 0 {
          userLimit := userLimit.(deviceLimit := added[i].deviceLimit);
        }
        userLimitInfo := userLimitInfo[UserTag(rk, added[i].uuid) := userLimit];
        uuidToUid := uuidToUid[added[i].uuid := added[i].id];
      }
      assert added[..|added|] == added;
    }

    method UpdateDynamicSpeedLimit(rk: string, uuid: string, limit: int, expire: int) returns (found: bool)
      modifies this`userLimitInfo
      ensures found == (UserTag(rk, uuid) in old(userLimitInfo))
      ensures State() == WithDynamic(rk, old(State()), uuid, limit, expire)
      ensures found ==> userLimitInfo == old(userLimitInfo)[rk + "|" + uuid :=
        old(userLimitInfo)[rk + "|" + uuid].(dynamicSpeedLimit := limit, expireTime := expire)]
      ensures !found ==> userLimitInfo == old(userLimitInfo)
    {
      var t := UserTag(rk, uuid);
      if t in userLimitInfo {
        userLimitInfo := userLimitInfo[t := userLimitInfo[t].(dynamicSpeedLimit := limit, expireTime := expire)];
        return true;
      }
      return false;
    }
  }

  lemma MinusMinus<K, V>(m: map<K, V>, a: set<K>, k: K)
    ensures m - a - {k} == m - (a + {k})
  {
  }

  function TagsOf(rk: string, us: seq<UserInfo>): set<string> {
    if us == [] then {} else TagsOf(rk, us[..|us| - 1]) + {UserTag(rk, us[|us| - 1].uuid)}
  }

  function IdsOf(us: seq<UserInfo>): set<int> {
    if us == [] then {} else IdsOf(us[..|us| - 1]) + {us[|us| - 1].id}
  }

  /** The process-wide map from runtime key to limiter. */
  class LimiterMap {
    var m: map<string, Limiter>

    constructor ()
      ensures m == map[]
    {
      m := map[];
    }

    /** Registers a new limiter; one registered under the same key is replaced. */
    method AddLimiter(coreType: string, logicalTag: string, users: seq<UserInfo>, alive: map<int, int>)
      returns (l: Limiter)
      modifies this
      ensures fresh(l) && m == old(m)[RuntimeKey(coreType, logicalTag) := l]
      ensures l.State() == Fresh(RuntimeKey(coreType, logicalTag), users) && l.aliveList == alive
      ensures l.userOnlineIP == map[] && l.speedLimiter == map[]
    {
      l := new Limiter(RuntimeKey(coreType, logicalTag), users, alive);
      m := m[RuntimeKey(coreType, logicalTag) := l];
    }

    method DeleteLimiter(coreType: string, logicalTag: string)
      modifies this
      ensures m == old(m) - {RuntimeKey(coreType, logicalTag)}
    {
      m := m - {RuntimeKey(coreType, logicalTag)};
    }
  }

  // ---------------------------------------------------------------- incremental against fresh

  ghost predicate UuidUnique(us: seq<UserInfo>) {
    forall i, j :: 0 <= i < j < |us| ==> us[i].uuid != us[j].uuid
  }

  /** Users that keep their identity keep their id. */
  ghost predicate StableIds(old_: seq<UserInfo>, new_: seq<UserInfo>) {
    forall u, v :: u in old_ && v in new_ && SameIdentity(u, v) ==> u.id == v.id
  }

  /** The info map and the uid map speak of the same users. */
  ghost predicate WellFormed(rk: string, ix: Index) {
    && (forall x :: x in ix.uids ==> UserTag(rk, x) in ix.info)
    && (forall t :: t in ix.info ==> UserTag(rk, UuidIn(rk, t)) == t && UuidIn(rk, t) in ix.uids)
  }

  predicate SameLimits(a: Info, b: Info) {
    a.uid == b.uid && a.speedLimit == b.speedLimit && a.deviceLimit == b.deviceLimit && a.overLimit == b.overLimit
  }

  ghost predicate AgreeAt(rk: string, a: Index, b: Index, x: string) {
    && (x in a.uids <==> x in b.uids)
    && (x in a.uids && x in b.uids && UserTag(rk, x) in a.info && UserTag(rk, x) in b.info ==>
          a.uids[x] == b.uids[x] && SameLimits(a.info[UserTag(rk, x)], b.info[UserTag(rk, x)]))
  }

  /** Same users, same uids, same static limits. */
  ghost predicate Agree(rk: string, a: Index, b: Index) {
    WellFormed(rk, a) && WellFormed(rk, b) && forall x :: AgreeAt(rk, a, b, x)
  }

  lemma AgreeMeans(rk: string, a: Index, b: Index)
    requires Agree(rk, a, b)
    ensures a.uids == b.uids && a.info.Keys == b.info.Keys
    ensures forall t :: t in a.info ==> SameLimits(a.info[t], b.info[t])
  {
    forall x ensures x in a.uids <==> x in b.uids {
      assert AgreeAt(rk, a, b, x);
    }
    forall x | x in a.uids ensures a.uids[x] == b.uids[x] {
      assert AgreeAt(rk, a, b, x);
    }
    forall t ensures t in a.info <==> t in b.info {
      assert AgreeAt(rk, a, b, UuidIn(rk, t));
    }
    forall t | t in a.info ensures SameLimits(a.info[t], b.info[t]) {
      assert AgreeAt(rk, a, b, UuidIn(rk, t));
    }
  }

  /** The last user of a list with some uuid. */
  function Find(us: seq<UserInfo>, x: string): Option<UserInfo> {
    if us == [] then None
    else if us[|us| - 1].uuid == x then Some(us[|us| - 1])
    else Find(us[..|us| - 1], x)
  }

  lemma {:induction false} FindIs(us: seq<UserInfo>, x: string)
    requires UuidUnique(us)
    ensures Find(us, x).Some? ==> Find(us, x).value in us && Find(us, x).value.uuid == x
    ensures forall u :: u in us && u.uuid == x ==> Find(us, x) == Some(u)
  {
    if us != [] && us[|us| - 1].uuid != x {
      FindIs(us[..|us| - 1], x);
    }
  }

  lemma {:induction false} PutAllAt(rk: string, ix: Index, us: seq<UserInfo>, x: string)
    requires WellFormed(rk, ix)
    ensures WellFormed(rk, PutAll(rk, ix, us))
    ensures var r := PutAll(rk, ix, us);
      if Find(us, x).Some? then
        && x in r.uids && r.uids[x] == Find(us, x).value.id
        && UserTag(rk, x) in r.info && r.info[UserTag(rk, x)] == InfoOf(Find(us, x).value)
      else
        && (x in r.uids <==> x in ix.uids)
        && (x in ix.uids ==>
              r.uids[x] == ix.uids[x] && UserTag(rk, x) in r.info && r.info[UserTag(rk, x)] == ix.info[UserTag(rk, x)])
  {
    if us != [] {
      var u := us[|us| - 1];
      PutAllAt(rk, ix, us[..|us| - 1], x);
      TagRoundTrip(rk, x);
      TagRoundTrip(rk, u.uuid);
      PutKeeps(rk, PutAll(rk, ix, us[..|us| - 1]), u);
    }
  }

  /** The entry of a user nobody after it in the list replaces, with its own id and limits, in an index built
      from the list; and no entry for anybody else. */
  lemma FreshHolds(rk: string, us: seq<UserInfo>, x: string)
    ensures var ix, t := Fresh(rk, us), rk + "|" + x;
      && (x in ix.uids <==> t in ix.info) && (x in ix.uids <==> exists i :: 0 <= i < |us| && us[i].uuid == x)
      && forall i :: 0 <= i < |us| && us[i].uuid == x && (forall j :: i < j < |us| ==> us[j].uuid != x) ==>
           && x in ix.uids && ix.uids[x] == us[i].id
           && ix.info[t] == Info(us[i].id, us[i].speedLimit, us[i].deviceLimit, 0, 0, false)
  {
    PutAllAt(rk, EMPTY, us, x);
    TagRoundTrip(rk, x);
    FindWhere(us, x);
  }

  lemma {:induction false} FindWhere(us: seq<UserInfo>, x: string)
    ensures Find(us, x).Some? <==> exists i :: 0 <= i < |us| && us[i].uuid == x
    ensures forall i :: 0 <= i < |us| && us[i].uuid == x && (forall j :: i < j < |us| ==> us[j].uuid != x) ==>
      Find(us, x) == Some(us[i])
  {
    if us != [] && us[|us| - 1].uuid != x {
      var front := us[..|us| - 1];
      FindWhere(front, x);
      assert forall i :: 0 <= i < |front| ==> front[i] == us[i];
    }
  }

  /** What an update leaves for a uuid: the last one added, else nothing if it was deleted, else what was. */
  lemma UpdateHolds(rk: string, ix: Index, added: seq<UserInfo>, deleted: seq<UserInfo>, x: string)
    requires WellFormed(rk, ix)
    ensures var r, t := Updated(rk, ix, added, deleted), rk + "|" + x;
      && (x in r.uids <==> t in r.info)
      && (forall i :: 0 <= i < |added| && added[i].uuid == x && (forall j :: i < j < |added| ==> added[j].uuid != x) ==>
            && x in r.uids && r.uids[x] == added[i].id
            && r.info[t] == Info(added[i].id, added[i].speedLimit, added[i].deviceLimit, 0, 0, false))
      && ((forall u :: u in added ==> u.uuid != x) && (exists u :: u in deleted && u.uuid == x) ==> x !in r.uids)
      && ((forall u :: u in added + deleted ==> u.uuid != x) ==>
            (x in r.uids <==> x in ix.uids) && (x in ix.uids ==> r.uids[x] == ix.uids[x] && r.info[t] == ix.info[t]))
  {
    var less := DropAll(rk, ix, deleted);
    DropAllAt(rk, ix, deleted, x);
    PutAllAt(rk, less, added, x);
    TagRoundTrip(rk, x);
    FindWhere(added, x);
    FindWhere(deleted, x);
    if u :| u in deleted && u.uuid == x {
      var i :| 0 <= i < |deleted| && deleted[i] == u;
    }
    assert forall i :: 0 <= i < |added| ==> added[i] in added + deleted;
    assert forall i :: 0 <= i < |deleted| ==> deleted[i] in added + deleted;
  }

  /** The tags and ids that an update forgets are those of the users named. */
  lemma {:induction false} ForgottenAre(rk: string, us: seq<UserInfo>, t: string, id: int)
    ensures t in TagsOf(rk, us) <==> exists i :: 0 <= i < |us| && t == rk + "|" + us[i].uuid
    ensures id in IdsOf(us) <==> exists i :: 0 <= i < |us| && id == us[i].id
  {
    if us != [] {
      var front := us[..|us| - 1];
      ForgottenAre(rk, front, t, id);
      assert forall i :: 0 <= i < |front| ==> front[i] == us[i];
    }
  }

  lemma PutKeeps(rk: string, ix: Index, u: UserInfo)
    requires WellFormed(rk, ix)
    ensures WellFormed(rk, Put(rk, ix, u))
  {
    TagRoundTrip(rk, u.uuid);
  }

  lemma DropKeeps(rk: string, ix: Index, uuid: string)
    requires WellFormed(rk, ix)
    ensures WellFormed(rk, Drop(rk, ix, uuid))
  {
    TagRoundTrip(rk, uuid);
    forall x | x in ix.uids && x != uuid ensures UserTag(rk, x) != UserTag(rk, uuid) {
      TagRoundTrip(rk, x);
    }
  }

  lemma {:induction false} DropAllAt(rk: string, ix: Index, us: seq<UserInfo>, x: string)
    requires WellFormed(rk, ix)
    ensures WellFormed(rk, DropAll(rk, ix, us))
    ensures var r := DropAll(rk, ix, us);
      if Find(us, x).Some? then x !in r.uids
      else
        && (x in r.uids <==> x in ix.uids)
        && (x in ix.uids ==>
              r.uids[x] == ix.uids[x] && UserTag(rk, x) in r.info && r.info[UserTag(rk, x)] == ix.info[UserTag(rk, x)])
  {
    if us != [] {
      DropAllAt(rk, ix, us[..|us| - 1], x);
      TagRoundTrip(rk, x);
      TagRoundTrip(rk, us[|us| - 1].uuid);
      DropKeeps(rk, DropAll(rk, ix, us[..|us| - 1]), us[|us| - 1].uuid);
    }
  }

  ghost predicate HasTwin(us: seq<UserInfo>, u: UserInfo) {
    exists i :: 0 <= i < |us| && SameIdentity(u, us[i])
  }

  lemma UniqueKeys(us: seq<UserInfo>)
    requires UuidUnique(us)
    ensures DistinctKeys(UserKey, us)
  {
    forall i, j | 0 <= i < j < |us| ensures UserKey(us[i]) != UserKey(us[j]) {
      UserKeyInjective(us[i], us[j]);
    }
  }

  lemma TwinKeys(us: seq<UserInfo>, u: UserInfo)
    ensures UserKey(u) in Keys(UserKey, us) <==> HasTwin(us, u)
  {
    KeysAre(UserKey, us, UserKey(u));
    forall i | 0 <= i < |us| ensures UserKey(us[i]) == UserKey(u) <==> SameIdentity(u, us[i]) {
      UserKeyInjective(us[i], u);
    }
  }

  /** On uuid-unique lists the diff is by identity: uuid and both limits. */
  lemma DiffByIdentity(old_: seq<UserInfo>, new_: seq<UserInfo>, deleted: seq<UserInfo>, added: seq<UserInfo>,
                       u: UserInfo)
    requires UuidUnique(old_) && UuidUnique(new_) && IsDiff(UserKey, old_, new_, deleted, added)
    ensures u in deleted <==> u in old_ && !HasTwin(new_, u)
    ensures u in added <==> u in new_ && !HasTwin(old_, u)
  {
    UniqueKeys(old_);
    UniqueKeys(new_);
    DiffByKey(UserKey, old_, new_, deleted, added, u);
    TwinKeys(old_, u);
    TwinKeys(new_, u);
  }

  /** Finding a uuid in a list that holds some of the users of a uuid-unique list. */
  lemma {:induction false} FindIn(us: seq<UserInfo>, all: seq<UserInfo>, x: string)
    requires UuidUnique(all) && forall u :: u in us ==> u in all
    ensures Find(us, x) == if Find(all, x).Some? && Find(all, x).value in us then Find(all, x) else None
  {
    FindIs(all, x);
    if us != [] {
      var front, u := us[..|us| - 1], us[|us| - 1];
      assert us == front + [u];
      assert u in us;
      FindIn(front, all, x);
    }
  }

  /** Both lists hold the uuid with the same limits, or neither holds it. */
  predicate SameAt(old_: seq<UserInfo>, new_: seq<UserInfo>, x: string) {
    var was, now := Find(old_, x), Find(new_, x);
    was.Some? == now.Some? && (was.Some? && now.Some? ==> SameIdentity(was.value, now.value))
  }

  /** Two indexes hold the same for a uuid. */
  ghost predicate EntryKept(rk: string, a: Index, b: Index, x: string) {
    && (x in a.uids <==> x in b.uids)
    && (x in a.uids && x in b.uids ==> a.uids[x] == b.uids[x])
    && (x in a.uids && x in b.uids ==>
          UserTag(rk, x) in a.info && UserTag(rk, x) in b.info && a.info[UserTag(rk, x)] == b.info[UserTag(rk, x)])
  }

  /** What the incremental update leaves for one uuid, whatever the index held before: what it held, when
      the two lists agree on it; what the new list says, when they do not. */
  lemma UpdateAt(rk: string, ix: Index, old_: seq<UserInfo>, new_: seq<UserInfo>,
                 deleted: seq<UserInfo>, added: seq<UserInfo>, x: string)
    requires UuidUnique(old_) && UuidUnique(new_) && IsDiff(UserKey, old_, new_, deleted, added)
    requires WellFormed(rk, ix)
    ensures var r, now := Updated(rk, ix, added, deleted), Find(new_, x);
      && WellFormed(rk, r)
      && (SameAt(old_, new_, x) ==> EntryKept(rk, r, ix, x))
      && (!SameAt(old_, new_, x) ==> (x in r.uids <==> now.Some?))
      && (!SameAt(old_, new_, x) && now.Some? ==>
            r.uids[x] == now.value.id && r.info[UserTag(rk, x)] == InfoOf(now.value))
  {
    DiffAt(old_, new_, deleted, added, x);
    DropAllAt(rk, ix, deleted, x);
    PutAllAt(rk, DropAll(rk, ix, deleted), added, x);
  }

  /** What the diff holds for one uuid. */
  lemma DiffAt(old_: seq<UserInfo>, new_: seq<UserInfo>, deleted: seq<UserInfo>, added: seq<UserInfo>, x: string)
    requires UuidUnique(old_) && UuidUnique(new_) && IsDiff(UserKey, old_, new_, deleted, added)
    ensures SameAt(old_, new_, x) ==> Find(deleted, x).None? && Find(added, x).None?
    ensures !SameAt(old_, new_, x) ==> Find(deleted, x) == Find(old_, x) && Find(added, x) == Find(new_, x)
  {
    forall u ensures (u in deleted ==> u in old_) && (u in added ==> u in new_) {
      DiffByIdentity(old_, new_, deleted, added, u);
    }
    FindIn(deleted, old_, x);
    FindIn(added, new_, x);
    FindIs(old_, x);
    FindIs(new_, x);
    if Find(old_, x).Some? {
      DiffByIdentity(old_, new_, deleted, added, Find(old_, x).value);
    }
    if Find(new_, x).Some? {
      DiffByIdentity(old_, new_, deleted, added, Find(new_, x).value);
    }
    TwinsMatch(old_, new_, x);
  }

  /** Twins in uuid-unique lists are what the two lists hold for their uuid. */
  lemma TwinsMatch(old_: seq<UserInfo>, new_: seq<UserInfo>, x: string)
    requires UuidUnique(old_) && UuidUnique(new_)
    ensures var was, now := Find(old_, x), Find(new_, x);
      && (now.Some? && HasTwin(old_, now.value) ==> was.Some? && SameIdentity(was.value, now.value))
      && (was.Some? && now.Some? && SameIdentity(was.value, now.value) ==>
            HasTwin(old_, now.value) && HasTwin(new_, was.value))
      && (was.Some? && HasTwin(new_, was.value) ==> now.Some? && SameIdentity(was.value, now.value))
  {
    FindIs(old_, x);
    FindIs(new_, x);
    if Find(new_, x).Some? && HasTwin(old_, Find(new_, x).value) {
      var i :| 0 <= i < |old_| && SameIdentity(Find(new_, x).value, old_[i]);
      assert old_[i] in old_;
    }
    if Find(old_, x).Some? && HasTwin(new_, Find(old_, x).value) {
      var i :| 0 <= i < |new_| && SameIdentity(Find(old_, x).value, new_[i]);
      assert new_[i] in new_;
    }
  }

  lemma FreshAt(rk: string, us: seq<UserInfo>, x: string)
    ensures WellFormed(rk, Fresh(rk, us))
    ensures x in Fresh(rk, us).uids <==> Find(us, x).Some?
    ensures Find(us, x).Some? ==>
      && Fresh(rk, us).uids[x] == Find(us, x).value.id
      && UserTag(rk, x) in Fresh(rk, us).info
      && Fresh(rk, us).info[UserTag(rk, x)] == InfoOf(Find(us, x).value)
  {
    PutAllAt(rk, EMPTY, us, x);
  }

  /** Applying the diff of two uuid-unique lists to an index that agrees with the old list gives the
      users, uids and static limits of an index built fresh from the new list, if and only if users that
      keep their identity keep their id (the id is not part of the key that is compared). */
  lemma IncrementalMatchesFresh(rk: string, ix: Index, old_: seq<UserInfo>, new_: seq<UserInfo>,
                                deleted: seq<UserInfo>, added: seq<UserInfo>)
    requires UuidUnique(old_) && UuidUnique(new_) && IsDiff(UserKey, old_, new_, deleted, added)
    requires Agree(rk, ix, Fresh(rk, old_))
    ensures Agree(rk, Updated(rk, ix, added, deleted), Fresh(rk, new_)) <==> StableIds(old_, new_)
  {
    var r, fresh_ := Updated(rk, ix, added, deleted), Fresh(rk, new_);
    FreshAt(rk, new_, "");
    IncrementalAt(rk, ix, old_, new_, deleted, added, "");
    forall x ensures AgreeAt(rk, r, fresh_, x) <==> IdKept(old_, new_, x) {
      IncrementalAt(rk, ix, old_, new_, deleted, added, x);
    }
    IdsKept(old_, new_);
  }

  lemma IdsKept(old_: seq<UserInfo>, new_: seq<UserInfo>)
    requires UuidUnique(old_) && UuidUnique(new_)
    ensures (forall x :: IdKept(old_, new_, x)) <==> StableIds(old_, new_)
  {
    if StableIds(old_, new_) {
      forall x ensures IdKept(old_, new_, x) {
        FindIs(old_, x);
        FindIs(new_, x);
      }
    } else {
      var u, v :| u in old_ && v in new_ && SameIdentity(u, v) && u.id != v.id;
      FindIs(old_, u.uuid);
      FindIs(new_, u.uuid);
      assert !IdKept(old_, new_, u.uuid);
    }
  }

  ghost predicate IdKept(old_: seq<UserInfo>, new_: seq<UserInfo>, x: string) {
    Find(old_, x).Some? && Find(new_, x).Some? && SameIdentity(Find(old_, x).value, Find(new_, x).value) ==>
      Find(old_, x).value.id == Find(new_, x).value.id
  }

  lemma IncrementalAt(rk: string, ix: Index, old_: seq<UserInfo>, new_: seq<UserInfo>,
                      deleted: seq<UserInfo>, added: seq<UserInfo>, x: string)
    requires UuidUnique(old_) && UuidUnique(new_) && IsDiff(UserKey, old_, new_, deleted, added)
    requires Agree(rk, ix, Fresh(rk, old_))
    ensures WellFormed(rk, Updated(rk, ix, added, deleted))
    ensures AgreeAt(rk, Updated(rk, ix, added, deleted), Fresh(rk, new_), x) <==> IdKept(old_, new_, x)
  {
    assert AgreeAt(rk, ix, Fresh(rk, old_), x);
    FreshAt(rk, old_, x);
    FreshAt(rk, new_, x);
    UpdateAt(rk, ix, old_, new_, deleted, added, x);
    TwinsMatch(old_, new_, x);
  }

  /** A user on both lists with the same limits keeps the whole entry, dynamic limit and expiry included. */
  lemma UnchangedUsersKeepDynamic(rk: string, ix: Index, old_: seq<UserInfo>, new_: seq<UserInfo>,
                                  deleted: seq<UserInfo>, added: seq<UserInfo>, u: UserInfo, v: UserInfo)
    requires UuidUnique(old_) && UuidUnique(new_) && IsDiff(UserKey, old_, new_, deleted, added)
    requires Agree(rk, ix, Fresh(rk, old_))
    requires u in old_ && v in new_ && SameIdentity(u, v)
    ensures var t := UserTag(rk, u.uuid);
      t in ix.info && t in Updated(rk, ix, added, deleted).info && Updated(rk, ix, added, deleted).info[t] == ix.info[t]
  {
    var x := u.uuid;
    assert AgreeAt(rk, ix, Fresh(rk, old_), x);
    FreshAt(rk, old_, x);
    FindIs(old_, x);
    FindIs(new_, x);
    UpdateAt(rk, ix, old_, new_, deleted, added, x);
  }

  // ---------------------------------------------------------------- a limiter that is not told

  /** The same users, with the same ids and limits. */
  ghost predicate SameUsers(a: seq<UserInfo>, b: seq<UserInfo>) {
    forall x :: Find(a, x) == Find(b, x)
  }

  /** The index holds exactly this user for a uuid, or none. */
  ghost predicate Knows(rk: string, ix: Index, x: string, k: Option<UserInfo>) {
    && (x in ix.uids <==> k.Some?)
    && (x in ix.uids && k.Some? && UserTag(rk, x) in ix.info ==>
          ix.uids[x] == k.value.id && SameLimits(ix.info[UserTag(rk, x)], InfoOf(k.value)))
  }

  lemma KnowsOne(rk: string, ix: Index, x: string, k: Option<UserInfo>, us: seq<UserInfo>)
    requires WellFormed(rk, ix) && Knows(rk, ix, x, k) && UuidUnique(us)
    requires k.Some? ==> k.value.uuid == x
    ensures AgreeAt(rk, ix, Fresh(rk, us), x) <==> k == Find(us, x)
  {
    FreshAt(rk, us, x);
    FindIs(us, x);
  }

  /** A list that replaces another while the limiter keeps its index, as a reload under the same tag does:
      the index agrees with the new list if and only if the two lists hold the same users. */
  lemma SwappedListAgrees(rk: string, ix: Index, old_: seq<UserInfo>, new_: seq<UserInfo>)
    requires UuidUnique(old_) && UuidUnique(new_) && Agree(rk, ix, Fresh(rk, old_))
    ensures Agree(rk, ix, Fresh(rk, new_)) <==> SameUsers(old_, new_)
  {
    FreshAt(rk, new_, "");
    forall x ensures AgreeAt(rk, ix, Fresh(rk, new_), x) <==> Find(old_, x) == Find(new_, x) {
      assert AgreeAt(rk, ix, Fresh(rk, old_), x);
      FreshAt(rk, old_, x);
      FindIs(old_, x);
      KnowsOne(rk, ix, x, Find(old_, x), new_);
    }
  }

  // ---------------------------------------------------------------- runs

  /** A pull that brought a user list, a reload of the node that brought one, or a dynamic limit being set. */
  datatype Event =
    | Pull(users: seq<UserInfo>, deleted: seq<UserInfo>, added: seq<UserInfo>)
    | Reload(users: seq<UserInfo>)
    | Dynamic(uuid: string, limit: int, expire: int)

  function CurrentUsers(start: seq<UserInfo>, es: seq<Event>): seq<UserInfo> {
    if es == [] then start
    else if es[|es| - 1].Dynamic? then CurrentUsers(start, es[..|es| - 1])
    else es[|es| - 1].users
  }

  function After(rk: string, start: seq<UserInfo>, es: seq<Event>): Index {
    if es == [] then Fresh(rk, start)
    else
      var ix := After(rk, start, es[..|es| - 1]);
      match es[|es| - 1]
      case Pull(_, deleted, added) => Updated(rk, ix, added, deleted)
      case Reload(_) => ix
      case Dynamic(uuid, limit, expire) => WithDynamic(rk, ix, uuid, limit, expire)
  }

  ghost predicate ValidEvents(start: seq<UserInfo>, es: seq<Event>) {
    if es == [] then UuidUnique(start)
    else
      var before, e := CurrentUsers(start, es[..|es| - 1]), es[|es| - 1];
      ValidEvents(start, es[..|es| - 1])
      && (!e.Dynamic? ==> UuidUnique(e.users))
      && (e.Pull? ==> IsDiff(UserKey, before, e.users, e.deleted, e.added))
  }

  /** Event i is a pull whose list differs from the one before it at this uuid. */
  predicate Touches(start: seq<UserInfo>, es: seq<Event>, i: nat, x: string)
    requires i < |es|
  {
    es[i].Pull? && !SameAt(CurrentUsers(start, es[..i]), es[i].users, x)
  }

  /** What the last pull that touched a uuid said about it; reloads say nothing. */
  function Known(start: seq<UserInfo>, es: seq<Event>, x: string): Option<UserInfo> {
    if es == [] then Find(start, x)
    else if Touches(start, es, |es| - 1, x) then Find(es[|es| - 1].users, x)
    else Known(start, es[..|es| - 1], x)
  }

  ghost predicate KnownIsCurrent(start: seq<UserInfo>, es: seq<Event>, x: string) {
    Known(start, es, x) == Find(CurrentUsers(start, es), x)
  }

  lemma {:induction false} KnownHasUuid(start: seq<UserInfo>, es: seq<Event>, x: string)
    requires ValidEvents(start, es)
    ensures Known(start, es, x).Some? ==> Known(start, es, x).value.uuid == x
  {
    if es == [] {
      FindIs(start, x);
    } else {
      KnownHasUuid(start, es[..|es| - 1], x);
      if es[|es| - 1].Pull? {
        FindIs(es[|es| - 1].users, x);
      }
    }
  }

  lemma {:induction false} UsersStayUnique(start: seq<UserInfo>, es: seq<Event>)
    requires ValidEvents(start, es)
    ensures UuidUnique(CurrentUsers(start, es))
  {
    if es != [] {
      UsersStayUnique(start, es[..|es| - 1]);
    }
  }

  /** After any sequence of pulls, reloads and dynamic limits the index holds for each uuid exactly what the
      last pull that touched it said. */
  lemma {:induction false} IndexKnows(rk: string, start: seq<UserInfo>, es: seq<Event>, x: string)
    requires ValidEvents(start, es)
    ensures WellFormed(rk, After(rk, start, es)) && Knows(rk, After(rk, start, es), x, Known(start, es, x))
  {
    if es == [] {
      FreshAt(rk, start, x);
    } else {
      var front, e := es[..|es| - 1], es[|es| - 1];
      IndexKnows(rk, start, front, x);
      UsersStayUnique(start, front);
      match e {
        case Pull(users, deleted, added) =>
          UpdateAt(rk, After(rk, start, front), CurrentUsers(start, front), users, deleted, added, x);
        case Reload(_) =>
        case Dynamic(uuid, limit, expire) =>
          DynamicKeepsEntry(rk, After(rk, start, front), uuid, limit, expire, x);
      }
    }
  }

  lemma DynamicKeepsEntry(rk: string, ix: Index, uuid: string, limit: int, expire: int, x: string)
    requires WellFormed(rk, ix)
    ensures var r := WithDynamic(rk, ix, uuid, limit, expire);
      && WellFormed(rk, r) && r.uids == ix.uids && r.info.Keys == ix.info.Keys
      && (UserTag(rk, x) in ix.info ==> SameLimits(r.info[UserTag(rk, x)], ix.info[UserTag(rk, x)]))
  {
  }

  lemma DynamicKeepsAgreement(rk: string, ix: Index, b: Index, uuid: string, limit: int, expire: int)
    requires Agree(rk, ix, b)
    ensures Agree(rk, WithDynamic(rk, ix, uuid, limit, expire), b)
  {
    var r := WithDynamic(rk, ix, uuid, limit, expire);
    forall x ensures AgreeAt(rk, r, b, x) {
      assert AgreeAt(rk, ix, b, x);
    }
  }

  /** So the index agrees with one built fresh from the current list if and only if for every uuid the last
      pull that touched it said what the current list says. */
  lemma IndexFollowsUsers(rk: string, start: seq<UserInfo>, es: seq<Event>)
    requires ValidEvents(start, es)
    ensures Agree(rk, After(rk, start, es), Fresh(rk, CurrentUsers(start, es))) <==>
      forall x :: KnownIsCurrent(start, es, x)
  {
    var us := CurrentUsers(start, es);
    UsersStayUnique(start, es);
    FreshAt(rk, us, "");
    IndexKnows(rk, start, es, "");
    forall x ensures AgreeAt(rk, After(rk, start, es), Fresh(rk, us), x) <==> KnownIsCurrent(start, es, x) {
      IndexKnows(rk, start, es, x);
      KnownHasUuid(start, es, x);
      KnowsOne(rk, After(rk, start, es), x, Known(start, es, x), us);
    }
  }

  /** Event i touches the uuid and no later one does. */
  ghost predicate LastTouch(start: seq<UserInfo>, es: seq<Event>, i: nat, x: string)
    requires i < |es|
  {
    Touches(start, es, i, x) && forall j :: i < j < |es| ==> !Touches(start, es, j, x)
  }

  /** From event k on some pull touched the uuid, and the last one that did put it on the list. */
  ghost predicate PutBackSince(start: seq<UserInfo>, es: seq<Event>, k: nat, x: string) {
    exists i :: k <= i < |es| && LastTouch(start, es, i, x) && Find(es[i].users, x).Some?
  }

  /** A user the limiter does not know after k events, say because it came with a reload, is rejected for as
      long as no pull touches it; the last pull that does decides. */
  lemma RejectedUntilTouched(rk: string, start: seq<UserInfo>, es: seq<Event>, k: nat, x: string)
    requires ValidEvents(start, es) && k <= |es| && Known(start, es[..k], x).None?
    ensures UserTag(rk, x) in After(rk, start, es).info <==> PutBackSince(start, es, k, x)
  {
    IndexKnows(rk, start, es, x);
    TagRoundTrip(rk, x);
    LastTouchDecides(start, es, k, x);
  }

  lemma {:induction false} LastTouchDecides(start: seq<UserInfo>, es: seq<Event>, k: nat, x: string)
    requires k <= |es| && Known(start, es[..k], x).None?
    ensures Known(start, es, x).Some? <==> PutBackSince(start, es, k, x)
  {
    if k == |es| {
      assert es[..k] == es;
    } else {
      var front := es[..|es| - 1];
      assert front[..k] == es[..k];
      hide Touches, PutBackSince;
      LastTouchDecides(start, front, k, x);
      OneMoreEvent(start, es, k, x);
    }
  }

  lemma OneMoreEvent(start: seq<UserInfo>, es: seq<Event>, k: nat, x: string)
    requires k < |es|
    ensures var n := |es| - 1;
      PutBackSince(start, es, k, x) <==>
        if Touches(start, es, n, x) then es[n].Pull? && Find(es[n].users, x).Some?
        else PutBackSince(start, es[..n], k, x)
  {
    var n := |es| - 1;
    hide Find, SameAt, CurrentUsers;
    TouchesInPrefix(start, es, x);
    if i :| k <= i < |es| && LastTouch(start, es, i, x) && Find(es[i].users, x).Some? {
      assert i < n ==> LastTouch(start, es[..n], i, x) && es[..n][i] == es[i];
    }
    if !Touches(start, es, n, x) {
      if i :| k <= i < n && LastTouch(start, es[..n], i, x) && Find(es[..n][i].users, x).Some? {
        assert LastTouch(start, es, i, x) && es[i] == es[..n][i];
      }
    }
  }

  lemma TouchesInPrefix(start: seq<UserInfo>, es: seq<Event>, x: string)
    requires es != []
    ensures var n := |es| - 1;
      && (forall i :: 0 <= i < n ==> Touches(start, es[..n], i, x) == Touches(start, es, i, x))
      && (forall i :: 0 <= i < n ==>
            (LastTouch(start, es, i, x) <==> LastTouch(start, es[..n], i, x) && !Touches(start, es, n, x)))
      && (LastTouch(start, es, n, x) <==> Touches(start, es, n, x))
      && (Touches(start, es, n, x) ==> es[n].Pull?)
  {
    var n := |es| - 1;
    forall i | 0 <= i < n ensures Touches(start, es[..n], i, x) == Touches(start, es, i, x) {
      assert es[..n][..i] == es[..i];
    }
  }
}
