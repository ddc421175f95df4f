/** The periodic pull of a running controller (nodeInfoMonitor of node/task.go): when the core, the
    controller and its limiter speak of the same users, over every run of pulls. */
module Pulls {
  import opened Base
  import opened PortRegistry
  import opened UserDiff
  import opened UserIndex
  import opened Controllers

  // ---------------------------------------------------------------- agreement of the three

  function UidAt(us: seq<UserInfo>, x: string): Option<int> {
    if Find(us, x).Some? then Some(Find(us, x).value.id) else None
  }

  ghost predicate SameUids(a: seq<UserInfo>, b: seq<UserInfo>) {
    forall x :: UidAt(a, x) == UidAt(b, x)
  }

  /** The core serves the controller's node with exactly the controller's users, under their ids. */
  ghost predicate CoreAgrees(key: string, s: Site) {
    key in s.ib && s.ib[key].info == s.info && SameUids(s.ib[key].users, s.users)
  }

  /** So does the limiter, and with their limits. */
  ghost predicate InStep(key: string, s: Site) {
    CoreAgrees(key, s) && Agree(key, s.index, Fresh(key, s.users))
  }

  // ---------------------------------------------------------------- finding users

  lemma {:induction false} FindAppend(a: seq<UserInfo>, b: seq<UserInfo>, x: string)
    ensures Find(a + b, x) == if Find(b, x).Some? then Find(b, x) else Find(a, x)
  {
    if b == [] {
      assert a + b == a;
    } else {
      assert (a + b)[..|a + b| - 1] == a + b[..|b| - 1];
      FindAppend(a, b[..|b| - 1], x);
    }
  }

  lemma {:induction false} FindWithout(us: seq<UserInfo>, gone: set<string>, x: string)
    ensures Find(WithoutUuids(us, gone), x) == if x in gone then None else Find(us, x)
  {
    if us != [] {
      var front, last := us[..|us| - 1], us[|us| - 1];
      FindWithout(front, gone, x);
      var w := WithoutUuids(front, gone);
      assert (w + [last])[..|w|] == w;
    }
  }

  lemma {:induction false} FindUuids(us: seq<UserInfo>, x: string)
    ensures x in Uuids(us) <==> Find(us, x).Some?
    ensures Find(us, x).Some? ==> Find(us, x).value.uuid == x
  {
    if us != [] {
      var front, last := us[..|us| - 1], us[|us| - 1];
      assert us == front + [last];
      FindUuids(front, x);
      assert Uuids(us) == Uuids(front) + {last.uuid};
    }
  }

  lemma {:induction false} FindPrefix(us: seq<UserInfo>, n: nat, x: string)
    requires UuidUnique(us) && n <= |us|
    ensures Find(us[..n], x).Some? ==> Find(us[..n], x) == Find(us, x)
    ensures n < |us| && us[n].uuid == x ==> Find(us[..n], x).None?
  {
    FindUuids(us[..n], x);
    FindIs(us, x);
    FindIs(us[..n], x);
    if Find(us[..n], x).Some? {
      var k :| 0 <= k < n && us[..n][k] == Find(us[..n], x).value;
      assert us[k] in us;
    }
  }

  // ---------------------------------------------------------------- one diff

  /** What the core carries for a uuid after a diff, from any state with an inbound: gone if it was let go,
      the added one's id if it was added, and otherwise what was there. */
  lemma CoreAfterDiff(key: string, ib: Inbounds, deleted: seq<UserInfo>, added: seq<UserInfo>,
                      del: DelUsersHow, add: UsersHow, x: string)
    requires key in ib
    ensures var less := AfterDeletions(key, ib, deleted, del); var more := AfterAdditions(key, less, added, add);
      && key in less && less[key].info == ib[key].info
      && UidAt(less[key].users, x) == (if x in Gone(deleted, del) then None else UidAt(ib[key].users, x))
      && key in more && more[key].info == ib[key].info
      && UidAt(more[key].users, x)
         == (if UidAt(UpTo(added, add), x).Some? then UidAt(UpTo(added, add), x) else UidAt(less[key].users, x))
  {
    FindWithout(ib[key].users, Gone(deleted, del), x);
    var less := AfterDeletions(key, ib, deleted, del);
    FindAppend(less[key].users, UpTo(added, add), x);
  }

  /** A diff in words, for one uuid. The lists agree on it when they hold the same limits for it, or both do
      not hold it. Deletions come first; only when both steps went through do list and limiter move. */
  lemma DiffInWords(key: string, s: Site, newU: seq<UserInfo>, deleted: seq<UserInfo>, added: seq<UserInfo>,
                    del: DelUsersHow, add: UsersHow, x: string)
    requires UuidUnique(s.users) && UuidUnique(newU) && IsDiff(UserKey, s.users, newU, deleted, added)
    requires key in s.ib
    ensures var t, was, now := Diffed(key, s, newU, deleted, added, del, add), Find(s.users, x), Find(newU, x);
      var agree := if was.Some? && now.Some?
        then was.value.speedLimit == now.value.speedLimit && was.value.deviceLimit == now.value.deviceLimit
        else was.None? && now.None?;
      var before := UidAt(s.ib[key].users, x);
      && t.info == s.info && key in t.ib && t.ib[key].info == s.ib[key].info
      && (agree ==> UidAt(t.ib[key].users, x) == before)
      && (del.AllGone? && add.AllAdded? ==>
            && t.users == newU && t.index == Updated(key, s.index, added, deleted)
            && (!agree ==> UidAt(t.ib[key].users, x) == if now.Some? then Some(now.value.id) else None))
      && (deleted != [] && del.Partial? ==>
            && t.users == s.users && t.index == s.index
            && (!agree ==> UidAt(t.ib[key].users, x) == if was.Some? && x in del.gone then None else before))
      && (added != [] && del.AllGone? && add.Partly? ==>
            && t.users == s.users && t.index == s.index
            && var got := UidAt(UpTo(added, add), x);
            (!agree ==> UidAt(t.ib[key].users, x) == if got.Some? then got else if was.Some? then None else before))
  {
    CoreAfterDiff(key, s.ib, deleted, added, del, add, x);
    DiffAt(s.users, newU, deleted, added, x);
    FindUuids(deleted, x);
    FindIs(s.users, x);
    FindIs(newU, x);
    AddedUnique(s.users, newU);
    FindPrefix(added, |UpTo(added, add)|, x);
    assert added[..|UpTo(added, add)|] == UpTo(added, add);
    if x in Uuids(deleted) {
      assert deleted != [];
    }
    hide IsDiff, Updated, UserKey, WithoutUuids;
  }

  /** The condition under which a diff keeps the core with the list: nothing went when the deletions fail; the
      additions that got through are the deleted users again when the additions fail; otherwise users that
      keep their identity keep their id. */
  ghost predicate DiffKeeps(key: string, s: Site, newU: seq<UserInfo>, deleted: seq<UserInfo>, added: seq<UserInfo>,
                            del: DelUsersHow, add: UsersHow)
  {
    if !DeletionsDone(key, s.ib, deleted, del) then Gone(deleted, del) == {}
    else if !AdditionsDone(key, AfterDeletions(key, s.ib, deleted, del), added, add) then
      SameUids(UpTo(added, add), deleted)
    else StableIds(s.users, newU)
  }

  lemma FailedDeletionsKeep(key: string, s: Site, newU: seq<UserInfo>, deleted: seq<UserInfo>, added: seq<UserInfo>,
                            del: DelUsersHow)
    requires UuidUnique(s.users) && UuidUnique(newU) && IsDiff(UserKey, s.users, newU, deleted, added)
    requires CoreAgrees(key, s)
    ensures CoreAgrees(key, s.(ib := AfterDeletions(key, s.ib, deleted, del))) <==> Gone(deleted, del) == {}
  {
    var t := s.(ib := AfterDeletions(key, s.ib, deleted, del));
    forall x ensures UidAt(t.ib[key].users, x) == UidAt(s.users, x) <==> x !in Gone(deleted, del) {
      CoreAfterDiff(key, s.ib, deleted, [], del, AllAdded, x);
      DiffAt(s.users, newU, deleted, added, x);
      FindUuids(deleted, x);
      assert UidAt(s.ib[key].users, x) == UidAt(s.users, x);
    }
    CoreAfterDiff(key, s.ib, deleted, [], del, AllAdded, "");
  }

  lemma {:induction false} AddedUnique(old_: seq<UserInfo>, new_: seq<UserInfo>)
    requires UuidUnique(new_)
    ensures UuidUnique(Added(UserKey, old_, new_))
    ensures forall u :: u in Added(UserKey, old_, new_) ==> u in new_
  {
    hide UserKey;
    if new_ != [] {
      var front, u := new_[..|new_| - 1], new_[|new_| - 1];
      assert new_ == front + [u];
      AddedUnique(old_, front);
      forall v | v in Added(UserKey, old_, front) ensures v.uuid != u.uuid {
        var k :| 0 <= k < |front| && front[k] == v;
        assert new_[k] == v;
      }
    }
  }

  lemma FailedAdditionsKeep(key: string, s: Site, newU: seq<UserInfo>, deleted: seq<UserInfo>, added: seq<UserInfo>,
                            del: DelUsersHow, add: UsersHow)
    requires UuidUnique(s.users) && UuidUnique(newU) && IsDiff(UserKey, s.users, newU, deleted, added)
    requires CoreAgrees(key, s) && DeletionsDone(key, s.ib, deleted, del)
    ensures CoreAgrees(key, s.(ib := AfterAdditions(key, AfterDeletions(key, s.ib, deleted, del), added, add)))
       <==> SameUids(UpTo(added, add), deleted)
  {
    var t := s.(ib := AfterAdditions(key, AfterDeletions(key, s.ib, deleted, del), added, add));
    CoreAfterDiff(key, s.ib, deleted, added, del, add, "");
    AddedUnique(s.users, newU);
    forall x ensures UidAt(t.ib[key].users, x) == UidAt(s.users, x) <==>
        UidAt(UpTo(added, add), x) == UidAt(deleted, x)
    {
      CoreAfterDiff(key, s.ib, deleted, added, del, add, x);
      DiffAt(s.users, newU, deleted, added, x);
      FindUuids(deleted, x);
      FindPrefix(added, |UpTo(added, add)|, x);
      assert added[..|UpTo(added, add)|] == UpTo(added, add);
      assert UidAt(s.ib[key].users, x) == UidAt(s.users, x);
    }
  }

  lemma FullDiffKeeps(key: string, s: Site, newU: seq<UserInfo>, deleted: seq<UserInfo>, added: seq<UserInfo>,
                      del: DelUsersHow, add: UsersHow)
    requires UuidUnique(s.users) && UuidUnique(newU) && IsDiff(UserKey, s.users, newU, deleted, added)
    requires CoreAgrees(key, s) && DeletionsDone(key, s.ib, deleted, del)
    requires AdditionsDone(key, AfterDeletions(key, s.ib, deleted, del), added, add)
    ensures CoreAgrees(key, Diffed(key, s, newU, deleted, added, del, add)) <==> StableIds(s.users, newU)
  {
    var t := Diffed(key, s, newU, deleted, added, del, add);
    CoreAfterDiff(key, s.ib, deleted, added, del, add, "");
    IdsKept(s.users, newU);
    forall x ensures UidAt(t.ib[key].users, x) == UidAt(newU, x) <==> IdKept(s.users, newU, x) {
      CoreAfterDiff(key, s.ib, deleted, added, del, add, x);
      DiffAt(s.users, newU, deleted, added, x);
      FindUuids(deleted, x);
      assert UidAt(s.ib[key].users, x) == UidAt(s.users, x);
    }
  }

  lemma DiffKeepsCore(key: string, s: Site, newU: seq<UserInfo>, deleted: seq<UserInfo>, added: seq<UserInfo>,
                      del: DelUsersHow, add: UsersHow)
    requires UuidUnique(s.users) && UuidUnique(newU) && IsDiff(UserKey, s.users, newU, deleted, added)
    requires CoreAgrees(key, s)
    ensures CoreAgrees(key, Diffed(key, s, newU, deleted, added, del, add))
       <==> DiffKeeps(key, s, newU, deleted, added, del, add)
  {
    if !DeletionsDone(key, s.ib, deleted, del) {
      FailedDeletionsKeep(key, s, newU, deleted, added, del);
    } else if !AdditionsDone(key, AfterDeletions(key, s.ib, deleted, del), added, add) {
      FailedAdditionsKeep(key, s, newU, deleted, added, del, add);
    } else {
      FullDiffKeeps(key, s, newU, deleted, added, del, add);
    }
  }

  /** A diff keeps the limiter with the list whenever it keeps the core with it. */
  lemma DiffKeepsLimiter(key: string, s: Site, newU: seq<UserInfo>, deleted: seq<UserInfo>, added: seq<UserInfo>,
                         del: DelUsersHow, add: UsersHow)
    requires UuidUnique(s.users) && UuidUnique(newU) && IsDiff(UserKey, s.users, newU, deleted, added)
    requires InStep(key, s) && DiffKeeps(key, s, newU, deleted, added, del, add)
    ensures var t := Diffed(key, s, newU, deleted, added, del, add); Agree(key, t.index, Fresh(key, t.users))
  {
    IncrementalMatchesFresh(key, s.index, s.users, newU, deleted, added);
  }

  // ---------------------------------------------------------------- one reload

  /** What a reload that failed had left of the new inbound when it started to put the old one back. */
  function Leftover(stage: ReloadStage_, newN: NodeInfo, newU: seq<UserInfo>, r: ReloadAnswers): Option<Inbound> {
    if stage.AddFailed? then (if r.addNew.HalfInstalled? then Some(Inbound(newN, [])) else None)
    else if r.delNew.Kept? then Some(Inbound(newN, UpTo(newU, r.usersNew)))
    else None
  }

  /** The old inbound came back with all its users, or what is left there is no different. */
  ghost predicate BroughtBack(stage: ReloadStage_, info: NodeInfo, users: seq<UserInfo>, newN: NodeInfo,
                              newU: seq<UserInfo>, r: ReloadAnswers)
  {
    var left := Leftover(stage, newN, newU, r);
    match r.addOld
    case Installed => UpTo(users, r.usersOld) == users
    case HalfInstalled => users == []
    case Refused => left.Some? && left.value.info == info && SameUids(left.value.users, users)
  }

  /** The condition under which a reload keeps the core with the list. */
  ghost predicate ReloadKeeps(cfg: NodeConfig, s: Site, common: Common, newU: seq<UserInfo>, r: ReloadAnswers) {
    var newN := ClientNode(cfg, common);
    match ReloadStage(cfg, newN, newU, r)
    case Rejected => true
    case NotTornDown => r.delOld.Kept?
    case AddFailed => BroughtBack(AddFailed, s.info, s.users, newN, newU, r)
    case UsersFailed => BroughtBack(UsersFailed, s.info, s.users, newN, newU, r)
    case Committed => true
  }

  lemma {:induction false} FewerUids(us: seq<UserInfo>, n: nat)
    requires UuidUnique(us) && n < |us|
    ensures !SameUids(us[..n], us)
  {
    var x := us[n].uuid;
    FindPrefix(us, n, x);
    FindIs(us, x);
    assert us[n] in us;
    assert UidAt(us[..n], x) != UidAt(us, x);
  }

  lemma NoUids(us: seq<UserInfo>)
    ensures SameUids([], us) <==> us == []
  {
    if us != [] {
      assert UidAt(us, us[|us| - 1].uuid) != UidAt([], us[|us| - 1].uuid);
    }
  }

  lemma PrefixSame(us: seq<UserInfo>, how: UsersHow)
    requires UuidUnique(us)
    ensures SameUids(UpTo(us, how), us) <==> UpTo(us, how) == us
  {
    if |UpTo(us, how)| < |us| {
      FewerUids(us, |UpTo(us, how)|);
    }
  }

  lemma PutBackAgrees(key: string, s: Site, ib: Inbounds, r: ReloadAnswers, left: Option<Inbound>)
    requires UuidUnique(s.users)
    requires left == if key in ib then Some(ib[key]) else None
    ensures CoreAgrees(key, s.(ib := Restored(ib, key, s.info, s.users, r))) <==>
      match r.addOld
      case Installed => UpTo(s.users, r.usersOld) == s.users
      case HalfInstalled => s.users == []
      case Refused => left.Some? && left.value.info == s.info && SameUids(left.value.users, s.users)
  {
    var us := UpTo(s.users, r.usersOld);
    assert [] + us == us;
    NoUids(s.users);
    PrefixSame(s.users, r.usersOld);
    hide SameUids, UpTo;
  }

  lemma ReloadKeepsCore(cfg: NodeConfig, key: string, s: Site, common: Common, newU: seq<UserInfo>, r: ReloadAnswers)
    requires UuidUnique(s.users) && CoreAgrees(key, s)
    ensures CoreAgrees(key, ReloadedSite(cfg, key, s, common, newU, r)) <==> ReloadKeeps(cfg, s, common, newU, r)
  {
    var newN := ClientNode(cfg, common);
    var stage := ReloadStage(cfg, newN, newU, r);
    if stage.AddFailed? || stage.UsersFailed? {
      var gone := NewGone(stage.AddFailed?, s.ib - {key}, key, newN, newU, r);
      assert [] + UpTo(newU, r.usersNew) == UpTo(newU, r.usersNew);
      PutBackAgrees(key, s, gone, r, Leftover(stage, newN, newU, r));
    }
  }

  // ---------------------------------------------------------------- one pull

  /** The condition under which one pull keeps the core with the controller's list. */
  ghost predicate PullKeepsCore(cfg: NodeConfig, key: string, s: Site, node: Answer<Common>, p: PullAnswers,
                                deleted: seq<UserInfo>, added: seq<UserInfo>)
  {
    if node.NoAnswer? || p.list.NoAnswer? then true
    else if node.Changed? then ReloadKeeps(cfg, s, node.value, ListOf(p.list), p.reload)
    else TakesDiff(node, p) ==> DiffKeeps(key, s, ListOf(p.list), deleted, added, p.del, p.add)
  }

  /** And that for all three: a committed reload must bring the very users there were. */
  ghost predicate PullKeeps(cfg: NodeConfig, key: string, s: Site, node: Answer<Common>, p: PullAnswers,
                            deleted: seq<UserInfo>, added: seq<UserInfo>)
  {
    PullKeepsCore(cfg, key, s, node, p, deleted, added)
    && (Commits(cfg, node, p) ==> SameUsers(s.users, ListOf(p.list)))
  }

  /** A list with distinct uuids, and the diff the code computes from it. */
  ghost predicate ValidPull(s: Site, node: Answer<Common>, p: PullAnswers, deleted: seq<UserInfo>,
                            added: seq<UserInfo>)
  {
    && UuidUnique(ListOf(p.list))
    && (TakesDiff(node, p) ==> IsDiff(UserKey, s.users, ListOf(p.list), deleted, added))
  }

  /** A core that serves the controller's users before a pull does so after it if and only if the answers
      meet that condition, whatever the limiter holds. */
  lemma CoreStep(cfg: NodeConfig, key: string, s: Site, node: Answer<Common>, p: PullAnswers,
                 deleted: seq<UserInfo>, added: seq<UserInfo>)
    requires UuidUnique(s.users) && CoreAgrees(key, s) && ValidPull(s, node, p, deleted, added)
    ensures CoreAgrees(key, Monitored(cfg, key, s, node, p, deleted, added))
       <==> PullKeepsCore(cfg, key, s, node, p, deleted, added)
  {
    if !node.NoAnswer? && !p.list.NoAnswer? {
      if node.Changed? {
        ReloadKeepsCore(cfg, key, s, node.value, ListOf(p.list), p.reload);
      } else if TakesDiff(node, p) {
        DiffKeepsCore(key, s, ListOf(p.list), deleted, added, p.del, p.add);
      }
    }
  }

  /** Core, controller and limiter in step before a pull are in step after it if and only if its answers
      meet the condition for all three. */
  lemma PullStep(cfg: NodeConfig, key: string, s: Site, node: Answer<Common>, p: PullAnswers,
                 deleted: seq<UserInfo>, added: seq<UserInfo>)
    requires UuidUnique(s.users) && InStep(key, s) && ValidPull(s, node, p, deleted, added)
    ensures InStep(key, Monitored(cfg, key, s, node, p, deleted, added)) <==>
      PullKeeps(cfg, key, s, node, p, deleted, added)
  {
    CoreStep(cfg, key, s, node, p, deleted, added);
    if Commits(cfg, node, p) {
      SwappedListAgrees(key, s.index, s.users, ListOf(p.list));
    } else if TakesDiff(node, p) && PullKeepsCore(cfg, key, s, node, p, deleted, added) {
      DiffKeepsLimiter(key, s, ListOf(p.list), deleted, added, p.del, p.add);
    }
  }

  /** No other inbound of the core is touched. */
  lemma PullLeavesOthers(cfg: NodeConfig, key: string, s: Site, node: Answer<Common>, p: PullAnswers,
                         deleted: seq<UserInfo>, added: seq<UserInfo>)
    ensures Monitored(cfg, key, s, node, p, deleted, added).ib - {key} == s.ib - {key}
  {
    hide WithoutUuids, UpTo, Updated;
    var t := Monitored(cfg, key, s, node, p, deleted, added).ib;
    forall k | k != key ensures (k in t <==> k in s.ib) && (k in s.ib ==> t[k] == s.ib[k]) {
    }
  }

  // ---------------------------------------------------------------- back in step

  /** For every uuid the diff of the two lists leaves alone the core carries what the new list says. */
  ghost predicate CoreRightElsewhere(key: string, s: Site, newU: seq<UserInfo>) {
    && key in s.ib && s.ib[key].info == s.info
    && forall x :: SameAt(s.users, newU, x) ==> UidAt(s.ib[key].users, x) == UidAt(newU, x)
  }

  /** And the limiter. */
  ghost predicate IndexRightElsewhere(key: string, s: Site, newU: seq<UserInfo>) {
    forall x :: SameAt(s.users, newU, x) ==> AgreeAt(key, s.index, Fresh(key, newU), x)
  }

  /** Whatever state earlier failures left, a diff that completes brings the core, or the limiter, back in
      step if and only if it was right about the users the diff does not touch. */
  lemma DiffMends(key: string, s: Site, newU: seq<UserInfo>, deleted: seq<UserInfo>, added: seq<UserInfo>,
                  del: DelUsersHow, add: UsersHow)
    requires UuidUnique(s.users) && UuidUnique(newU) && IsDiff(UserKey, s.users, newU, deleted, added)
    requires WellFormed(key, s.index) && DeletionsDone(key, s.ib, deleted, del)
    requires AdditionsDone(key, AfterDeletions(key, s.ib, deleted, del), added, add)
    ensures var t := Diffed(key, s, newU, deleted, added, del, add);
      && (CoreAgrees(key, t) <==> CoreRightElsewhere(key, s, newU))
      && (Agree(key, t.index, Fresh(key, newU)) <==> IndexRightElsewhere(key, s, newU))
  {
    var t := Diffed(key, s, newU, deleted, added, del, add);
    if key in s.ib {
      CoreAfterDiff(key, s.ib, deleted, added, del, add, "");
      forall x ensures UidAt(t.ib[key].users, x) == UidAt(newU, x) <==>
          (SameAt(s.users, newU, x) ==> UidAt(s.ib[key].users, x) == UidAt(newU, x))
      {
        CoreAfterDiff(key, s.ib, deleted, added, del, add, x);
        DiffAt(s.users, newU, deleted, added, x);
        FindUuids(deleted, x);
      }
    }
    IndexMends(key, s, newU, deleted, added);
  }

  lemma IndexMends(key: string, s: Site, newU: seq<UserInfo>, deleted: seq<UserInfo>, added: seq<UserInfo>)
    requires UuidUnique(s.users) && UuidUnique(newU) && IsDiff(UserKey, s.users, newU, deleted, added)
    requires WellFormed(key, s.index)
    ensures Agree(key, Updated(key, s.index, added, deleted), Fresh(key, newU)) <==> IndexRightElsewhere(key, s, newU)
  {
    var r := Updated(key, s.index, added, deleted);
    UpdateAt(key, s.index, s.users, newU, deleted, added, "");
    FreshAt(key, newU, "");
    forall x ensures AgreeAt(key, r, Fresh(key, newU), x) <==>
        (SameAt(s.users, newU, x) ==> AgreeAt(key, s.index, Fresh(key, newU), x))
    {
      UpdateAt(key, s.index, s.users, newU, deleted, added, x);
      FreshAt(key, newU, x);
    }
  }

  /** The pull moved the controller's list. */
  predicate Completes(cfg: NodeConfig, key: string, s: Site, node: Answer<Common>, p: PullAnswers,
                      deleted: seq<UserInfo>, added: seq<UserInfo>)
  {
    || Commits(cfg, node, p)
    || (&& TakesDiff(node, p) && DeletionsDone(key, s.ib, deleted, p.del)
        && AdditionsDone(key, AfterDeletions(key, s.ib, deleted, p.del), added, p.add))
  }

  /** From any state: after a pull that moved the list the core is in step if and only if that was a
      reload, or a diff and the core was right elsewhere; and the limiter if and only if it agreed with the
      reloaded list before, or was right elsewhere. */
  lemma PullMends(cfg: NodeConfig, key: string, s: Site, node: Answer<Common>, p: PullAnswers,
                  deleted: seq<UserInfo>, added: seq<UserInfo>)
    requires UuidUnique(s.users) && WellFormed(key, s.index) && ValidPull(s, node, p, deleted, added)
    requires Completes(cfg, key, s, node, p, deleted, added)
    ensures var t, newU := Monitored(cfg, key, s, node, p, deleted, added), ListOf(p.list);
      && t.users == newU
      && (CoreAgrees(key, t) <==> node.Changed? || CoreRightElsewhere(key, s, newU))
      && (Agree(key, t.index, Fresh(key, newU)) <==>
          if node.Changed? then Agree(key, s.index, Fresh(key, newU)) else IndexRightElsewhere(key, s, newU))
  {
    if node.Unchanged? {
      DiffMends(key, s, ListOf(p.list), deleted, added, p.del, p.add);
    }
  }

  // ---------------------------------------------------------------- runs of pulls

  /** A pull, with the body the panel serves at that time, or a dynamic limit being set. */
  datatype Turn =
    | Pulled(body: Body, p: PullAnswers, deleted: seq<UserInfo>, added: seq<UserInfo>)
    | Slowed(uuid: string, limit: int, expire: int)

  /** A controller at work: what its client remembers, and the site. */
  datatype State = State(seen: Option<Body>, etag: string, site: Site)

  function Turned(cfg: NodeConfig, key: string, st: State, t: Turn): State {
    match t
    case Pulled(body, p, deleted, added) =>
      var node := Fetch(st.seen, body);
      State(Some(body), if node.NoAnswer? then st.etag else EtagAfter(st.etag, p.list, p.etag),
            Monitored(cfg, key, st.site, node, p, deleted, added))
    case Slowed(uuid, limit, expire) =>
      st.(site := st.site.(index := WithDynamic(key, st.site.index, uuid, limit, expire)))
  }

  function Run(cfg: NodeConfig, key: string, st: State, ts: seq<Turn>): State {
    if ts == [] then st else Turned(cfg, key, Run(cfg, key, st, ts[..|ts| - 1]), ts[|ts| - 1])
  }

  ghost predicate ValidTurn(st: State, t: Turn) {
    t.Pulled? ==> ValidPull(st.site, Fetch(st.seen, t.body), t.p, t.deleted, t.added)
  }

  ghost predicate ValidRun(cfg: NodeConfig, key: string, st: State, ts: seq<Turn>) {
    ts == []
    || (ValidRun(cfg, key, st, ts[..|ts| - 1]) && ValidTurn(Run(cfg, key, st, ts[..|ts| - 1]), ts[|ts| - 1]))
  }

  /** A turn meets the condition for the core, or for all three. */
  ghost predicate TurnKeeps(cfg: NodeConfig, key: string, st: State, t: Turn, all: bool) {
    t.Pulled? ==>
      var node := Fetch(st.seen, t.body);
      if all then PullKeeps(cfg, key, st.site, node, t.p, t.deleted, t.added)
      else PullKeepsCore(cfg, key, st.site, node, t.p, t.deleted, t.added)
  }

  ghost predicate Together(key: string, s: Site, all: bool) {
    if all then InStep(key, s) else CoreAgrees(key, s)
  }

  /** Every turn of a run meets the condition. */
  ghost predicate AllKeep(cfg: NodeConfig, key: string, st: State, ts: seq<Turn>, all: bool) {
    ts == []
    || (&& AllKeep(cfg, key, st, ts[..|ts| - 1], all)
        && TurnKeeps(cfg, key, Run(cfg, key, st, ts[..|ts| - 1]), ts[|ts| - 1], all))
  }

  /** They are together at every point of a run. */
  ghost predicate AlwaysTogether(cfg: NodeConfig, key: string, st: State, ts: seq<Turn>, all: bool) {
    Together(key, Run(cfg, key, st, ts).site, all) && (ts != [] ==> AlwaysTogether(cfg, key, st, ts[..|ts| - 1], all))
  }

  lemma {:induction false} ListsStayUnique(cfg: NodeConfig, key: string, st: State, ts: seq<Turn>)
    requires UuidUnique(st.site.users) && ValidRun(cfg, key, st, ts)
    ensures UuidUnique(Run(cfg, key, st, ts).site.users)
  {
    if ts != [] {
      ListsStayUnique(cfg, key, st, ts[..|ts| - 1]);
    }
  }

  /** Over any run of pulls with any answers and failures: core and controller (and, with `all`, the
      limiter) speak of the same users throughout if and only if every turn meets its condition. */
  lemma {:induction false} RunInStep(cfg: NodeConfig, key: string, st: State, ts: seq<Turn>, all: bool)
    requires UuidUnique(st.site.users) && Together(key, st.site, all) && ValidRun(cfg, key, st, ts)
    ensures AlwaysTogether(cfg, key, st, ts, all) <==> AllKeep(cfg, key, st, ts, all)
  {
    if ts != [] {
      var front, t := ts[..|ts| - 1], ts[|ts| - 1];
      var before := Run(cfg, key, st, front);
      RunInStep(cfg, key, st, front, all);
      ListsStayUnique(cfg, key, st, front);
      if Together(key, before.site, all) {
        TurnStep(cfg, key, before, t, all);
      }
    }
  }

  lemma TurnStep(cfg: NodeConfig, key: string, st: State, t: Turn, all: bool)
    requires UuidUnique(st.site.users) && Together(key, st.site, all) && ValidTurn(st, t)
    ensures Together(key, Turned(cfg, key, st, t).site, all) <==> TurnKeeps(cfg, key, st, t, all)
  {
    match t
    case Pulled(body, p, deleted, added) =>
      if all {
        PullStep(cfg, key, st.site, Fetch(st.seen, body), p, deleted, added);
      } else {
        CoreStep(cfg, key, st.site, Fetch(st.seen, body), p, deleted, added);
      }
    case Slowed(uuid, limit, expire) =>
      if all {
        DynamicKeepsAgreement(key, st.site.index, Fresh(key, st.site.users), uuid, limit, expire);
      }
  }

  // ---------------------------------------------------------------- what the limiter hears of a run

  /** The pulls and reloads that moved the controller's list, as the limiter's index meets them. */
  function Heard(cfg: NodeConfig, key: string, st: State, ts: seq<Turn>): seq<UserIndex.Event> {
    if ts == [] then []
    else
      var front, t := ts[..|ts| - 1], ts[|ts| - 1];
      var before := Run(cfg, key, st, front);
      HeardOf(cfg, key, before, t, Heard(cfg, key, st, front))
  }

  function HeardOf(cfg: NodeConfig, key: string, st: State, t: Turn, es: seq<UserIndex.Event>): seq<UserIndex.Event> {
    match t
    case Slowed(uuid, limit, expire) => es + [Dynamic(uuid, limit, expire)]
    case Pulled(body, p, deleted, added) =>
      var node := Fetch(st.seen, body);
      if node.NoAnswer? || p.list.NoAnswer? then es
      else if node.Changed? then
        (if ReloadStage(cfg, ClientNode(cfg, node.value), ListOf(p.list), p.reload).Committed?
         then es + [Reload(ListOf(p.list))] else es)
      else if TakesDiff(node, p) && DeletionsDone(key, st.site.ib, deleted, p.del)
              && AdditionsDone(key, AfterDeletions(key, st.site.ib, deleted, p.del), added, p.add)
      then es + [Pull(ListOf(p.list), deleted, added)]
      else es
  }

  /** From a fresh start the index after a run is what those events make of it. */
  lemma {:induction false} IndexIsHeard(cfg: NodeConfig, key: string, st: State, ts: seq<Turn>)
    requires UuidUnique(st.site.users) && st.site.index == Fresh(key, st.site.users) && ValidRun(cfg, key, st, ts)
    ensures var end, es := Run(cfg, key, st, ts).site, Heard(cfg, key, st, ts);
      && ValidEvents(st.site.users, es) && end.users == CurrentUsers(st.site.users, es)
      && end.index == After(key, st.site.users, es)
  {
    if ts != [] {
      var front, t := ts[..|ts| - 1], ts[|ts| - 1];
      IndexIsHeard(cfg, key, st, front);
      HeardStep(cfg, key, st.site.users, Run(cfg, key, st, front), t, Heard(cfg, key, st, front));
    }
  }

  lemma HeardStep(cfg: NodeConfig, key: string, start: seq<UserInfo>, st: State, t: Turn, es: seq<UserIndex.Event>)
    requires ValidEvents(start, es) && st.site.users == CurrentUsers(start, es)
      && st.site.index == After(key, start, es)
    requires ValidTurn(st, t)
    ensures var end, es' := Turned(cfg, key, st, t).site, HeardOf(cfg, key, st, t, es);
      && ValidEvents(start, es') && end.users == CurrentUsers(start, es') && end.index == After(key, start, es')
  {
    hide IsDiff, Updated, Reloaded, ReloadStage, AfterDelUsers, AfterAddUsers, WithDynamic;
    var es' := HeardOf(cfg, key, st, t, es);
    assert |es'| > |es| ==> es'[..|es'| - 1] == es;
  }

  /** Over every run: the limiter agrees with the controller's list if and only if for every uuid the last
      completed diff that touched it said what the list says; the core's failures do not come into it. In a
      run whose turns keep the core, that is exactly when all three agree at the end. */
  lemma ThreeAgree(cfg: NodeConfig, key: string, st: State, ts: seq<Turn>)
    requires UuidUnique(st.site.users) && st.site.index == Fresh(key, st.site.users) && ValidRun(cfg, key, st, ts)
    ensures var end := Run(cfg, key, st, ts).site;
      var heard := forall x :: KnownIsCurrent(st.site.users, Heard(cfg, key, st, ts), x);
      && (Agree(key, end.index, Fresh(key, end.users)) <==> heard)
      && (CoreAgrees(key, st.site) && AllKeep(cfg, key, st, ts, false) ==> (InStep(key, end) <==> heard))
  {
    IndexIsHeard(cfg, key, st, ts);
    IndexFollowsUsers(key, st.site.users, Heard(cfg, key, st, ts));
    if CoreAgrees(key, st.site) {
      RunInStep(cfg, key, st, ts, false);
    }
  }

  /** A user whom the limiter does not know after some turns, because only reloads brought it, is rejected
      until a completed diff touches it. */
  lemma ReloadedUserIsRejected(cfg: NodeConfig, key: string, st: State, ts: seq<Turn>, k: nat, x: string)
    requires UuidUnique(st.site.users) && st.site.index == Fresh(key, st.site.users) && ValidRun(cfg, key, st, ts)
    requires var es := Heard(cfg, key, st, ts); k <= |es| && Known(st.site.users, es[..k], x).None?
    ensures UserTag(key, x) in Run(cfg, key, st, ts).site.index.info <==>
      PutBackSince(st.site.users, Heard(cfg, key, st, ts), k, x)
  {
    IndexIsHeard(cfg, key, st, ts);
    RejectedUntilTouched(key, st.site.users, Heard(cfg, key, st, ts), k, x);
  }

  /** So it is exact, after any run with any failures, when the next pull that completes brings core and
      limiter back in step. */
  lemma MendsAfterAnyRun(cfg: NodeConfig, key: string, st: State, ts: seq<Turn>, t: Turn)
    requires UuidUnique(st.site.users) && st.site.index == Fresh(key, st.site.users) && ValidRun(cfg, key, st, ts)
    requires var before := Run(cfg, key, st, ts);
      && t.Pulled? && ValidTurn(before, t)
      && Completes(cfg, key, before.site, Fetch(before.seen, t.body), t.p, t.deleted, t.added)
    ensures var before, newU := Run(cfg, key, st, ts), ListOf(t.p.list);
      var s, reload, after := before.site, Fetch(before.seen, t.body).Changed?, Turned(cfg, key, before, t).site;
      && after.users == newU
      && (CoreAgrees(key, after) <==> reload || CoreRightElsewhere(key, s, newU))
      && (Agree(key, after.index, Fresh(key, newU)) <==>
          if reload then Agree(key, s.index, Fresh(key, newU)) else IndexRightElsewhere(key, s, newU))
  {
    var before := Run(cfg, key, st, ts);
    ListsStayUnique(cfg, key, st, ts);
    IndexIsHeard(cfg, key, st, ts);
    IndexKnows(key, st.site.users, Heard(cfg, key, st, ts), "");
    PullMends(cfg, key, before.site, Fetch(before.seen, t.body), t.p, t.deleted, t.added);
  }

  // ---------------------------------------------------------------- inputs that put them out of step

  /** A node that changes while its list does not loses its users: the unchanged list is answered as none,
      the reload commits the empty list and an inbound without users, and the limiter keeps the old ones. */
  lemma UnchangedListEmptiesNode(cfg: NodeConfig, key: string, s: Site, node: Answer<Common>, p: PullAnswers)
    requires UuidUnique(s.users) && InStep(key, s) && node.Changed? && p.list.Unchanged?
    requires ReloadStage(cfg, ClientNode(cfg, node.value), [], p.reload).Committed?
    ensures var t := Monitored(cfg, key, s, node, p, [], []);
      && t.users == [] && key in t.ib && t.ib[key].users == [] && t.index == s.index
      && (InStep(key, t) <==> s.users == [])
  {
    PullStep(cfg, key, s, node, p, [], []);
    if s.users != [] {
      assert Find(s.users, s.users[|s.users| - 1].uuid) != Find([], s.users[|s.users| - 1].uuid);
    }
  }

  /** An error answer is enough: the client remembers it as the last body, so the configuration that was in
      force all along counts as new the next time it is served. */
  lemma ErrorMakesNodeChange(cfg: NodeConfig, key: string, st: State, common: Common, text: string, p: PullAnswers,
                             q: PullAnswers)
    requires UuidUnique(st.site.users) && InStep(key, st.site) && q.list.Unchanged?
    requires ReloadStage(cfg, ClientNode(cfg, common), [], q.reload).Committed?
    ensures var ts := [Pulled(Failure(text), p, [], []), Pulled(Config(common), q, [], [])];
      var end := Run(cfg, key, st, ts).site;
      st.seen == Some(Config(common)) ==>
        end.users == [] && key in end.ib && end.ib[key].users == [] && (InStep(key, end) <==> st.site.users == [])
  {
    var a, b := Pulled(Failure(text), p, [], []), Pulled(Config(common), q, [], []);
    assert [a, b][..1] == [a] && [a][..0] == [];
    assert Run(cfg, key, st, [a]) == Turned(cfg, key, Run(cfg, key, st, []), a);
    assert st.seen == Some(Config(common)) ==> Run(cfg, key, st, [a]).site == st.site;
    UnchangedListEmptiesNode(cfg, key, st.site, Changed(common), q);
  }

  // ---------------------------------------------------------------- what is offered once

  lemma {:induction false} RunFrom(cfg: NodeConfig, key: string, st: State, a: seq<Turn>, b: seq<Turn>)
    ensures Run(cfg, key, st, a + b) == Run(cfg, key, Run(cfg, key, st, a), b)
  {
    if b == [] {
      assert a + b == a;
    } else {
      assert (a + b)[..|a + b| - 1] == a + b[..|b| - 1];
      RunFrom(cfg, key, st, a, b[..|b| - 1]);
    }
  }

  /** What the panel's configuration endpoint served last. */
  function LastBody(st: State, ts: seq<Turn>): Option<Body> {
    if ts == [] then st.seen
    else if ts[|ts| - 1].Pulled? then Some(ts[|ts| - 1].body)
    else LastBody(st, ts[..|ts| - 1])
  }

  /** The turn reloads the node. */
  predicate Reloads(st: State, t: Turn) {
    t.Pulled? && Fetch(st.seen, t.body).Changed? && !t.p.list.NoAnswer?
  }

  lemma {:induction false} SeenIsLast(cfg: NodeConfig, key: string, st: State, ts: seq<Turn>)
    ensures Run(cfg, key, st, ts).seen == LastBody(st, ts)
  {
    if ts != [] {
      SeenIsLast(cfg, key, st, ts[..|ts| - 1]);
    }
  }

  /** A configuration is offered once: after any run a pull reloads the node if and only if it brings a
      configuration that is not what was served last, and the list is answered too. */
  lemma {:induction false} OfferedOnce(cfg: NodeConfig, key: string, st: State, ts: seq<Turn>, t: Turn)
    ensures Reloads(Run(cfg, key, st, ts), t) <==>
      t.Pulled? && t.body.Config? && !t.p.list.NoAnswer? && LastBody(st, ts) != Some(t.body)
  {
    SeenIsLast(cfg, key, st, ts);
  }

  /** The panel serves this body throughout. */
  predicate ServesOnly(ts: seq<Turn>, body: Body) {
    forall t :: t in ts && t.Pulled? ==> t.body == body
  }

  /** No turn of a run reloads the node. */
  ghost predicate NoReload(cfg: NodeConfig, key: string, st: State, ts: seq<Turn>) {
    ts == []
    || (NoReload(cfg, key, st, ts[..|ts| - 1]) && !Reloads(Run(cfg, key, st, ts[..|ts| - 1]), ts[|ts| - 1]))
  }

  /** While the panel goes on serving what it served last no pull reloads the node, so a reload that was
      refused or rolled back is not tried again. */
  lemma {:induction false} NotTriedAgain(cfg: NodeConfig, key: string, st: State, ts: seq<Turn>, body: Body)
    requires st.seen == Some(body) && ServesOnly(ts, body)
    ensures NoReload(cfg, key, st, ts)
    ensures Run(cfg, key, st, ts).seen == Some(body) && Run(cfg, key, st, ts).site.info == st.site.info
  {
    if ts != [] {
      var front, t := ts[..|ts| - 1], ts[|ts| - 1];
      assert ts == front + [t];
      NotTriedAgain(cfg, key, st, front, body);
    }
  }

  /** A new configuration whose pull fails at the user list counts as served: it never reaches the node
      while the panel goes on serving it. */
  lemma LostConfiguration(cfg: NodeConfig, key: string, st: State, t: Turn, ts: seq<Turn>)
    requires t.Pulled? && t.p.list.NoAnswer? && ServesOnly(ts, t.body)
    ensures NoReload(cfg, key, Turned(cfg, key, st, t), ts)
    ensures Run(cfg, key, st, [t] + ts).site.info == st.site.info
  {
    TurnThenRun(cfg, key, st, t, ts);
    NotTriedAgain(cfg, key, Turned(cfg, key, st, t), ts, t.body);
  }

  lemma TurnThenRun(cfg: NodeConfig, key: string, st: State, t: Turn, ts: seq<Turn>)
    ensures Run(cfg, key, st, [t] + ts) == Run(cfg, key, Turned(cfg, key, st, t), ts)
  {
    RunFrom(cfg, key, st, [t], ts);
    assert [t][..0] == [];
    assert Run(cfg, key, st, []) == st;
  }

  // ---------------------------------------------------------------- a node that is down

  /** Whether the core has the inbound after a reload. */
  predicate UpAfter(up: bool, stage: ReloadStage_, r: ReloadAnswers) {
    match stage
    case Rejected => up
    case NotTornDown => up && r.delOld.Kept?
    case AddFailed => !r.addNew.Refused? || !r.addOld.Refused?
    case UsersFailed => r.delNew.Kept? || !r.addOld.Refused?
    case Committed => true
  }

  /** The turn's reload, if it is one, leaves the node up. */
  predicate KeepsUp(cfg: NodeConfig, up: bool, st: State, t: Turn) {
    if Reloads(st, t)
    then UpAfter(up, ReloadStage(cfg, ClientNode(cfg, t.body.common), ListOf(t.p.list), t.p.reload), t.p.reload)
    else up
  }

  /** Only reloads take an inbound down or bring it up, and it is exact which. */
  lemma TurnKeepsUp(cfg: NodeConfig, key: string, st: State, t: Turn)
    ensures key in Turned(cfg, key, st, t).site.ib <==> KeepsUp(cfg, key in st.site.ib, st, t)
  {
    hide WithoutUuids, UpTo, Updated, WithDynamic;
  }

  /** Down at every point of a run. */
  ghost predicate AlwaysDown(cfg: NodeConfig, key: string, st: State, ts: seq<Turn>) {
    key !in Run(cfg, key, st, ts).site.ib && (ts != [] ==> AlwaysDown(cfg, key, st, ts[..|ts| - 1]))
  }

  /** No turn of a run reloads a node that is down in a way that brings it up. */
  ghost predicate NoneBringsUp(cfg: NodeConfig, key: string, st: State, ts: seq<Turn>) {
    ts == []
    || (&& NoneBringsUp(cfg, key, st, ts[..|ts| - 1])
        && !KeepsUp(cfg, false, Run(cfg, key, st, ts[..|ts| - 1]), ts[|ts| - 1]))
  }

  /** A node that is down stays down over a run if and only if no reload of the run brings it up: diffs
      never do. */
  lemma {:induction false} DownUntilReload(cfg: NodeConfig, key: string, st: State, ts: seq<Turn>)
    requires key !in st.site.ib
    ensures AlwaysDown(cfg, key, st, ts) <==> NoneBringsUp(cfg, key, st, ts)
  {
    if ts != [] {
      var front, t := ts[..|ts| - 1], ts[|ts| - 1];
      DownUntilReload(cfg, key, st, front);
      TurnKeepsUp(cfg, key, Run(cfg, key, st, front), t);
    }
  }

  lemma {:induction false} NoReloadBringsNoneUp(cfg: NodeConfig, key: string, st: State, ts: seq<Turn>)
    requires NoReload(cfg, key, st, ts)
    ensures NoneBringsUp(cfg, key, st, ts)
  {
    if ts != [] {
      NoReloadBringsNoneUp(cfg, key, st, ts[..|ts| - 1]);
    }
  }

  /** A reload whose new inbound and whose rollback the core refuses takes the node down, and it stays down
      for as long as the panel serves that configuration, not just until the next pull. */
  lemma OfflineWhileSame(cfg: NodeConfig, key: string, st: State, t: Turn, ts: seq<Turn>)
    requires Reloads(st, t) && !KeepsUp(cfg, key in st.site.ib, st, t) && ServesOnly(ts, t.body)
    ensures AlwaysDown(cfg, key, Turned(cfg, key, st, t), ts) && key !in Run(cfg, key, st, [t] + ts).site.ib
  {
    var down := Turned(cfg, key, st, t);
    TurnKeepsUp(cfg, key, st, t);
    TurnThenRun(cfg, key, st, t, ts);
    NotTriedAgain(cfg, key, down, ts, t.body);
    NoReloadBringsNoneUp(cfg, key, down, ts);
    DownUntilReload(cfg, key, down, ts);
  }

  // ---------------------------------------------------------------- a panel that keeps its list

  /** The panel's list and its version. */
  datatype Offer = Offer(users: seq<UserInfo>, etag: string)

  /** The panel answers a request for the list as section 13.1.2 of RFC 9110 says, or fails; a list without a
      version is always sent. */
  predicate Follows(o: Offer, remembered: string, p: PullAnswers) {
    || p.list.NoAnswer?
    || if remembered == o.etag && o.etag != "" then p.list.Unchanged?
       else p.list == Changed(o.users) && p.etag == o.etag
  }

  /** The panel keeps the list the client has, and versions it. */
  predicate KeepsList(ts: seq<Turn>, o: Offer) {
    o.etag != "" && forall t :: t in ts && t.Pulled? ==> Follows(o, o.etag, t.p)
  }

  /** A list is offered once as well: while the panel keeps configuration and list, nothing changes. So a
      diff that failed is not tried again, and the core keeps what the failure left. */
  lemma {:induction false} QuietPanel(cfg: NodeConfig, key: string, st: State, ts: seq<Turn>, body: Body, o: Offer)
    requires st.seen == Some(body) && st.etag == o.etag && ServesOnly(ts, body) && KeepsList(ts, o)
    ensures var end := Run(cfg, key, st, ts);
      end.seen == st.seen && end.etag == st.etag && end.site == st.site.(index := end.site.index)
  {
    if ts != [] {
      var front, t := ts[..|ts| - 1], ts[|ts| - 1];
      assert ts == front + [t];
      QuietPanel(cfg, key, st, front, body, o);
    }
  }

  /** Neither the controller nor the core has a user for the node. */
  predicate Empty(key: string, s: Site) {
    s.users == [] && (key in s.ib ==> s.ib[key].users == [])
  }

  /** A node without users stays without for as long as the panel keeps its list, whatever its
      configuration does. */
  lemma {:induction false} StaysEmpty(cfg: NodeConfig, key: string, st: State, ts: seq<Turn>, o: Offer)
    requires Empty(key, st.site) && st.etag == o.etag && KeepsList(ts, o)
    ensures Empty(key, Run(cfg, key, st, ts).site) && Run(cfg, key, st, ts).etag == o.etag
  {
    if ts != [] {
      var front, t := ts[..|ts| - 1], ts[|ts| - 1];
      assert ts == front + [t];
      StaysEmpty(cfg, key, st, front, o);
      EmptyTurn(cfg, key, Run(cfg, key, st, front), t, o);
    }
  }

  lemma EmptyTurn(cfg: NodeConfig, key: string, st: State, t: Turn, o: Offer)
    requires Empty(key, st.site) && st.etag == o.etag != "" && (t.Pulled? ==> Follows(o, o.etag, t.p))
    ensures Empty(key, Turned(cfg, key, st, t).site) && Turned(cfg, key, st, t).etag == o.etag
  {
    hide WithDynamic;
  }

  /** So a configuration change alone empties the node until the panel's list changes. */
  lemma EmptyWhileListSame(cfg: NodeConfig, key: string, st: State, common: Common, p: PullAnswers, ts: seq<Turn>,
                           o: Offer)
    requires UuidUnique(st.site.users) && InStep(key, st.site) && st.etag == o.etag && KeepsList(ts, o)
    requires Fetch(st.seen, Config(common)).Changed? && p.list.Unchanged?
    requires ReloadStage(cfg, ClientNode(cfg, common), [], p.reload).Committed?
    ensures Empty(key, Run(cfg, key, st, [Pulled(Config(common), p, [], [])] + ts).site)
  {
    var t := Pulled(Config(common), p, [], []);
    UnchangedListEmptiesNode(cfg, key, st.site, Changed(common), p);
    TurnThenRun(cfg, key, st, t, ts);
    StaysEmpty(cfg, key, Turned(cfg, key, st, t), ts, o);
  }

  /** A user whom additions that failed put into the core, and whom no later list names, stays in the core,
      completed diffs or not, until a reload. */
  lemma {:induction false} StrayStays(cfg: NodeConfig, key: string, st: State, ts: seq<Turn>, x: string)
    requires UuidUnique(st.site.users) && ValidRun(cfg, key, st, ts) && NoReload(cfg, key, st, ts)
    requires key in st.site.ib && Find(st.site.users, x).None?
    requires forall t :: t in ts && t.Pulled? ==> Find(ListOf(t.p.list), x).None?
    ensures var end := Run(cfg, key, st, ts).site;
      && key in end.ib && Find(end.users, x).None?
      && UidAt(end.ib[key].users, x) == UidAt(st.site.ib[key].users, x)
  {
    if ts != [] {
      var front, t := ts[..|ts| - 1], ts[|ts| - 1];
      assert ts == front + [t];
      StrayStays(cfg, key, st, front, x);
      ListsStayUnique(cfg, key, st, front);
      var s := Run(cfg, key, st, front).site;
      if t.Pulled? && TakesDiff(Fetch(Run(cfg, key, st, front).seen, t.body), t.p) {
        DiffPassesBy(key, s, ListOf(t.p.list), t.deleted, t.added, t.p.del, t.p.add, x);
      }
    }
  }

  /** A diff of two lists without a uuid does not touch it. */
  lemma DiffPassesBy(key: string, s: Site, newU: seq<UserInfo>, deleted: seq<UserInfo>, added: seq<UserInfo>,
                     del: DelUsersHow, add: UsersHow, x: string)
    requires UuidUnique(s.users) && UuidUnique(newU) && IsDiff(UserKey, s.users, newU, deleted, added)
    requires key in s.ib && Find(s.users, x).None? && Find(newU, x).None?
    ensures var t := Diffed(key, s, newU, deleted, added, del, add);
      && key in t.ib && Find(t.users, x).None? && UidAt(t.ib[key].users, x) == UidAt(s.ib[key].users, x)
  {
    CoreAfterDiff(key, s.ib, deleted, added, del, add, x);
    DiffAt(s.users, newU, deleted, added, x);
    FindUuids(deleted, x);
    AddedUnique(s.users, newU);
    FindPrefix(added, |UpTo(added, add)|, x);
    assert added[..|UpTo(added, add)|] == UpTo(added, add);
  }
}
