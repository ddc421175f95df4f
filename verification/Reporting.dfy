/** One traffic reporting cycle of a controller (node/user.go, node/traffic_store.go,
    node/config_validation.go). */
module Reporting {
  import opened Base
  import opened Traffic

  type Uuid = string

  const DEFAULT_REPORT_FAILURE_CAP := 5

  /** The consecutive-failure budget in force: 0 means the default, a negative value means none (-1). */
  function ReportFailureCap(configured: int): int {
    if configured == 0 then DEFAULT_REPORT_FAILURE_CAP
    else if configured < 0 then -1
    else configured
  }

  predicate ReportRollbackDecision(consecutiveFailures: int, configured: int) {
    var cap := ReportFailureCap(configured);
    if cap < 0 then false else consecutiveFailures > cap
  }

  /** Strictly above the threshold, or else at or below it. */
  predicate Side(total: nat, threshold: int, above: bool) {
    (total > threshold) == above
  }

  /** A sequence, extended on condition. */
  function Also<T>(s: seq<T>, cond: bool, x: T): seq<T> {
    if cond then s + [x] else s
  }

  /** The entries on one side of a threshold, in order. */
  function Pass(es: seq<Entry>, threshold: int, above: bool): seq<Entry> {
    if es == [] then []
    else
      var last := es[|es| - 1];
      Also(Pass(es[..|es| - 1], threshold, above), Side(last.bytes.Total(), threshold, above), last)
  }

  /** Both sides keep the order and every entry goes to exactly one. */
  lemma {:induction false} PassIs(es: seq<Entry>, threshold: int)
    ensures forall e :: e in Pass(es, threshold, true) <==> e in es && e.bytes.up + e.bytes.down > threshold
    ensures forall e :: e in Pass(es, threshold, false) <==> e in es && e.bytes.up + e.bytes.down <= threshold
    ensures multiset(Pass(es, threshold, true)) + multiset(Pass(es, threshold, false)) == multiset(es)
  {
    if es != [] {
      var front, last := es[..|es| - 1], es[|es| - 1];
      assert es == front + [last];
      PassIs(front, threshold);
    }
  }

  lemma {:induction false} PassInOrder(a: seq<Entry>, b: seq<Entry>, threshold: int, above: bool)
    ensures Pass(a + b, threshold, above) == Pass(a, threshold, above) + Pass(b, threshold, above)
  {
    if b == [] {
      assert a + b == a;
    } else {
      assert (a + b)[..|a + b| - 1] == a + b[..|b| - 1];
      PassInOrder(a, b[..|b| - 1], threshold, above);
    }
  }

  method SplitUserTrafficByThreshold(traffic: seq<Entry>, threshold: int)
    returns (above: seq<Entry>, belowOrEqual: seq<Entry>)
    ensures above == Pass(traffic, threshold, true)
    ensures belowOrEqual == Pass(traffic, threshold, false)
    ensures forall e :: e in above <==> e in traffic && e.bytes.up + e.bytes.down > threshold
    ensures forall e :: e in belowOrEqual <==> e in traffic && e.bytes.up + e.bytes.down <= threshold
  {
    PassIs(traffic, threshold);
    above, belowOrEqual := [], [];
    for i := 0 to |traffic|
      invariant above == Pass(traffic[..i], threshold, true)
      invariant belowOrEqual == Pass(traffic[..i], threshold, false)
    {
      var t := traffic[i];
      assert traffic[..i + 1][..i] == traffic[..i];
      if t.bytes.up + t.bytes.down > threshold {
        above := above + [t];
      } else {
        belowOrEqual := belowOrEqual + [t];
      }
    }
    assert traffic[..|traffic|] == traffic;
  }

  function DynGet(m: map<Uuid, int>, u: Uuid): int {
    if u in m then m[u] else 0
  }

  /** The accumulator behind the dynamic speed limit. */
  class TrafficStore {
    var m: map<Uuid, int>

    constructor ()
      ensures m == map[]
    {
      m := map[];
    }

    method Add(uuid: Uuid, n: int)
      modifies this
      ensures m == old(m)[uuid := DynGet(old(m), uuid) + n]
    {
      m := m[uuid := (if uuid in m then m[uuid] else 0) + n];
    }

    method Delete(uuid: Uuid)
      modifies this
      ensures m == old(m) - {uuid}
    {
      m := m - {uuid};
    }

    method Reset()
      modifies this
      ensures m == map[]
    {
      m := map[];
    }

    /** Removes and returns exactly the uuids at or above a positive threshold, each once. */
    method Drain(threshold: int) returns (out: seq<Uuid>)
      modifies this
      ensures NoDup(out)
      ensures forall u :: u in out <==> threshold > 0 && u in old(m) && old(m)[u] >= threshold
      ensures m == map u | u in old(m) && u !in out :: old(m)[u]
    {
      out := [];
      if threshold > 0 {
        var rest := m.Keys;
        while rest != {}
          invariant rest <= old(m).Keys && NoDup(out)
          invariant forall u :: u in out <==> u in old(m) && u !in rest && old(m)[u] >= threshold
          invariant m == map u | u in old(m) && u !in out :: old(m)[u]
          decreases |rest|
        {
          var uuid :| uuid in rest;
          rest := rest - {uuid};
          if m[uuid] >= threshold {
            out := out + [uuid];
            m := m - {uuid};
          }
        }
      }
    }
  }

  /** uid -> uuid of a user list; the last user with a uid wins. */
  function UidToUuid(users: seq<UserInfo>): map<int, Uuid> {
    if users == [] then map[]
    else UidToUuid(users[..|users| - 1])[users[|users| - 1].id := users[|users| - 1].uuid]
  }

  /** What a report adds to the accumulator: entries of unknown uids add nothing. */
  function Feed(m: map<Uuid, int>, names: map<int, Uuid>, es: seq<Entry>): map<Uuid, int> {
    if es == [] then m
    else
      var m', last := Feed(m, names, es[..|es| - 1]), es[|es| - 1];
      if last.uid in names then m'[names[last.uid] := DynGet(m', names[last.uid]) + last.bytes.Total()] else m'
  }

  /** The uuid a user list gives an id: that of the last user with it. */
  function NameOf(users: seq<UserInfo>, id: int): Option<Uuid> {
    if users == [] then None
    else if users[|users| - 1].id == id then Some(users[|users| - 1].uuid)
    else NameOf(users[..|users| - 1], id)
  }

  /** The bytes, up and down, of the entries whose id the user list gives this uuid. */
  function BytesOf(users: seq<UserInfo>, es: seq<Entry>, u: Uuid): nat {
    if es == [] then 0
    else
      var last := es[|es| - 1];
      BytesOf(users, es[..|es| - 1], u)
      + if NameOf(users, last.uid) == Some(u) then last.bytes.up + last.bytes.down else 0
  }

  lemma {:induction false} NamesAre(users: seq<UserInfo>, id: int)
    ensures NameOf(users, id) == if id in UidToUuid(users) then Some(UidToUuid(users)[id]) else None
  {
    if users != [] {
      NamesAre(users[..|users| - 1], id);
    }
  }

  lemma {:induction false} FeedIs(m: map<Uuid, int>, users: seq<UserInfo>, es: seq<Entry>, u: Uuid)
    ensures DynGet(Feed(m, UidToUuid(users), es), u) == DynGet(m, u) + BytesOf(users, es, u)
  {
    if es != [] {
      FeedIs(m, users, es[..|es| - 1], u);
      NamesAre(users, es[|es| - 1].uid);
    }
  }

  /** What one controller's reporting reads and never changes during a cycle. */
  datatype Setup = Setup(uids: map<Key, int>, names: map<int, Uuid>, threshold: int, rollbacks: int, dynamic: bool)

  /** What it changes, with the ledgers of everything reported and everything dropped. */
  datatype Pipeline = Pipeline(held: Counters, failures: int, sent: seq<Entry>, dropped: seq<Entry>,
                               dyn: map<Uuid, int>)

  /** What a cycle does with the entries it drained: `s` holds zeroed counters, `above` are the entries
      to report, `below` those held back, and `ok` is the answer of the panel. */
  function Settle(p: Setup, s: Pipeline, above: seq<Entry>, below: seq<Entry>, rev: map<int, Key>, ok: bool): Pipeline {
    if above == [] then
      s.(held := AddAllBack(s.held, rev, below))
    else if ok then
      Pipeline(AddAllBack(s.held, rev, below), 0, s.sent + above, s.dropped,
               if p.dynamic then Feed(s.dyn, p.names, above) else s.dyn)
    else if ReportRollbackDecision(s.failures + 1, p.rollbacks) then
      s.(failures := s.failures + 1, dropped := s.dropped + (above + below))
    else
      s.(held := AddAllBack(s.held, rev, above + below), failures := s.failures + 1)
  }

  /** One cycle, for the order in which the counters are visited, the reverse uid map that gets built,
      and the answer of the panel. */
  function Cycle(p: Setup, s: Pipeline, order: seq<Key>, rev: map<int, Key>, ok: bool): Pipeline {
    var all, limit := Slice(s.held, p.uids, order), Max(p.threshold, 0);
    Settle(p, s.(held := Zeroed(s.held)), Pass(all, limit, true), Pass(all, limit, false), rev, ok)
  }

  /** The part of a controller that reports traffic. */
  class Reporter {
    const core: CoreCounters
    const tag: Tag
    const maxReportFailureRollbacks: int
    const enableDynamicSpeedLimit: bool
    var basicThreshold: Option<int>  // None while the node info is not there yet
    var userList: seq<UserInfo>
    var traffic: TrafficStore?
    var reportFailures: int
    ghost var sent: seq<Entry>
    ghost var dropped: seq<Entry>

    constructor (core: CoreCounters, tag: Tag, rollbacks: int, dynamic: bool, threshold: Option<int>,
                 users: seq<UserInfo>)
      ensures this.core == core && this.tag == tag
      ensures State() == Pipeline(Held(), 0, [], [], map[])
    {
      this.core, this.tag := core, tag;
      maxReportFailureRollbacks, enableDynamicSpeedLimit := rollbacks, dynamic;
      basicThreshold, userList, reportFailures := threshold, users, 0;
      sent, dropped := [], [];
      if dynamic {
        traffic := new TrafficStore();
      } else {
        traffic := null;
      }
    }

    ghost function Held(): Counters
      reads core
    {
      if tag in core.tags then core.tags[tag] else map[]
    }

    ghost function State(): Pipeline
      reads this, core, traffic
    {
      Pipeline(Held(), reportFailures, sent, dropped, if traffic == null then map[] else traffic.m)
    }

    ghost function Settings(): Setup
      reads this, core
    {
      Setup(core.uids, UidToUuid(userList), ReportThreshold(), maxReportFailureRollbacks,
            enableDynamicSpeedLimit && traffic != null)
    }

    function ReportThreshold(): int
      reads this
    {
      if basicThreshold.None? then 0 else basicThreshold.value
    }

    method FeedDynamicTraffic(userTraffic: seq<Entry>)
      modifies traffic
      ensures traffic != null ==> traffic.m == Feed(old(traffic.m), UidToUuid(userList), userTraffic)
      ensures traffic != null ==>
        forall u :: DynGet(traffic.m, u) == DynGet(old(traffic.m), u) + BytesOf(userList, userTraffic, u)
    {
      if traffic != null {
        forall u { FeedIs(traffic.m, userList, userTraffic, u); }
      }
      if traffic == null || |userTraffic| == 0 {
        return;
      }
      var uidToUuid: map<int, Uuid> := map[];
      for i := 0 to |userList|
        invariant uidToUuid == UidToUuid(userList[..i])
      {
        assert userList[..i + 1][..i] == userList[..i];
        uidToUuid := uidToUuid[userList[i].id := userList[i].uuid];
      }
      assert userList[..|userList|] == userList;
      for i := 0 to |userTraffic|
        invariant traffic.m == Feed(old(traffic.m), uidToUuid, userTraffic[..i])
      {
        assert userTraffic[..i + 1][..i] == userTraffic[..i];
        var t := userTraffic[i];
        if t.uid in uidToUuid {
          traffic.Add(uidToUuid[t.uid], t.bytes.up + t.bytes.down);
        }
      }
      assert userTraffic[..|userTraffic|] == userTraffic;
    }

    /** The counters of every other tag of the core. */
    ghost function Others(): map<Tag, Counters>
      reads core
    {
      core.tags - {tag}
    }

    /** Drains the tag and splits what came out by the report threshold. */
    method DrainAndSplit() returns (above: seq<Entry>, skipped: seq<Entry>, ghost order: seq<Key>)
      modifies core`tags
      ensures Enumerates(order, old(Held()))
      ensures var all := Slice(old(Held()), core.uids, order);
        && above == Pass(all, Max(ReportThreshold(), 0), true)
        && skipped == Pass(all, Max(ReportThreshold(), 0), false)
      ensures tag in core.tags || above == skipped == []
      ensures Held() == Zeroed(old(Held())) && Others() == old(Others())
    {
      hide ReadOut;
      above, order := core.GetUserTrafficSlice(tag, true);
      SliceIsHot(old(Held()), core.uids, order);
      PassHotIf(above, ReportThreshold());
      hide Pass, Slice, Enumerates;
      skipped := [];
      var threshold := ReportThreshold();
      if threshold > 0 {
        above, skipped := SplitUserTrafficByThreshold(above, threshold);
      }
    }

    /** Puts entries back into the tag's counters. */
    method RollBack(entries: seq<Entry>) returns (ghost rev: map<int, Key>)
      requires tag in core.tags || entries == []
      modifies core`tags
      ensures IsReverse(rev, core.uids)
      ensures Held() == AddAllBack(old(Held()), rev, entries) && Others() == old(Others())
    {
      var ok;
      ok, rev := core.AddUserTrafficSlice(tag, entries);
      assert ok;  // the drain found the tag's counters and nothing removes them
    }

    /** Reports what was drained and disposes of it by the panel's answer. */
    method Report(userTraffic: seq<Entry>, skipped: seq<Entry>, reportOk: bool) returns (ghost rev: map<int, Key>)
      requires tag in core.tags || userTraffic == skipped == []
      modifies this`reportFailures, this`sent, this`dropped, core`tags, traffic
      ensures IsReverse(rev, core.uids)
      ensures State() == Settle(Settings(), old(State()), userTraffic, skipped, rev, reportOk)
      ensures Others() == old(Others())
    {
      rev := SomeReverse(core.uids);
      if |userTraffic| > 0 {
        if !reportOk {
          reportFailures := reportFailures + 1;
          if ReportRollbackDecision(reportFailures, maxReportFailureRollbacks) {
            dropped := dropped + (userTraffic + skipped);
          } else {
            var rollback := userTraffic;
            if |skipped| > 0 {
              rollback := rollback + skipped;
            }
            assert rollback == userTraffic + skipped;
            rev := RollBack(rollback);
          }
        } else {
          reportFailures := 0;
          sent := sent + userTraffic;
          if enableDynamicSpeedLimit {
            FeedDynamicTraffic(userTraffic);
          }
          if |skipped| > 0 {
            rev := RollBack(skipped);
          }
        }
      } else if |skipped| > 0 {
        rev := RollBack(skipped);
      }
    }

    /** One cycle. `reportOk` is the panel's answer, should the cycle ask it. */
    method ReportUserTrafficTask(reportOk: bool) returns (ghost order: seq<Key>, ghost rev: map<int, Key>)
      modifies this`reportFailures, this`sent, this`dropped, core`tags, traffic
      ensures Settings().threshold == match basicThreshold case Some(bytes) => bytes case None => 0
      ensures Settings().uids == core.uids && Settings().rollbacks == maxReportFailureRollbacks
      ensures Settings().dynamic <==> enableDynamicSpeedLimit && traffic != null
      ensures forall id :: NameOf(userList, id).Some? <==> id in Settings().names
      ensures forall id :: id in Settings().names ==> NameOf(userList, id) == Some(Settings().names[id])
      ensures Enumerates(order, old(Held())) && IsReverse(rev, core.uids)
      ensures State() == Cycle(Settings(), old(State()), order, rev, reportOk)
      ensures Others() == old(Others())
    {
      forall id { NamesAre(userList, id); }
      var userTraffic, skipped;
      userTraffic, skipped, order := DrainAndSplit();
      rev := Report(userTraffic, skipped, reportOk);
    }
  }

  lemma PassHotIf(es: seq<Entry>, threshold: int)
    requires forall e :: e in es ==> e.bytes.Total() > 0
    ensures threshold <= 0 ==> Pass(es, 0, true) == es && Pass(es, 0, false) == []
  {
    if threshold <= 0 { PassHot(es); }
  }

  /** Every entry of a drained slice carries bytes. */
  lemma {:induction false} SliceIsHot(c: Counters, uids: map<Key, int>, order: seq<Key>)
    requires forall i :: 0 <= i < |order| ==> Hot(c, order[i])
    ensures forall e :: e in Slice(c, uids, order) ==> e.bytes.Total() > 0
  {
    if order != [] {
      SliceIsHot(c, uids, order[..|order| - 1]);
    }
  }

  lemma {:induction false} PassHot(es: seq<Entry>)
    requires forall e :: e in es ==> e.bytes.Total() > 0
    ensures Pass(es, 0, true) == es && Pass(es, 0, false) == []
  {
    if es != [] {
      var front, last := es[..|es| - 1], es[|es| - 1];
      assert es == front + [last];
      PassHot(front);
      assert last in es;
    }
  }
}
