/** Per-user traffic counters of a core and their drain / re-add pair (common/counter/traffic.go,
    core/xray/user.go, core/sing/user.go). */
module Traffic {
  import opened Base

  /** A counter key: "tag|uuid" inside xray, the uuid inside sing. */
  type Key = string
  type Tag = string

  datatype Direction = Up | Down

  datatype Bytes = Bytes(up: nat, down: nat) {
    function At(d: Direction): nat {
      if d.Up? then up else down
    }

    function Total(): nat {
      up + down
    }

    function Plus(b: Bytes): Bytes {
      Bytes(up + b.up, down + b.down)
    }
  }

  const ZERO := Bytes(0, 0)

  type Counters = map<Key, Bytes>

  /** One line of a traffic report: the panel knows a user by uid only. */
  datatype Entry = Entry(uid: int, bytes: Bytes)

  function Get(c: Counters, k: Key): Bytes {
    if k in c then c[k] else ZERO
  }

  /** Up and down together; 0 for an unknown key. */
  function TotalOf(c: Counters, k: Key): nat {
    if k in c then c[k].Total() else 0
  }

  /** One direction; 0 for an unknown key. */
  function AtOf(c: Counters, k: Key, d: Direction): nat {
    if k in c then c[k].At(d) else 0
  }

  /** Counter-wise sum. */
  function Merge(c: Counters, more: Counters): Counters {
    c + map k | k in more :: if k in c then c[k].Plus(more[k]) else more[k]
  }

  function Zeroed(c: Counters): Counters {
    map k | k in c :: ZERO
  }

  /** The counters of some keys; the others read zero. */
  function Only(c: Counters, part: seq<Key>): Counters {
    map k | k in c :: if k in part then c[k] else ZERO
  }

  predicate Hot(c: Counters, k: Key) {
    TotalOf(c, k) > 0
  }

  ghost predicate NoDup<T>(s: seq<T>) {
    forall i, j :: 0 <= i < j < |s| ==> s[i] != s[j]
  }

  /** An order in which a map iteration may visit the counters that hold something. */
  ghost predicate Enumerates(order: seq<Key>, c: Counters) {
    NoDup(order) && forall k :: k in order <==> Hot(c, k)
  }

  /** A key missing from uidMap reads as uid 0. */
  function UidOf(uids: map<Key, int>, k: Key): int {
    if k in uids then uids[k] else 0
  }

  function Slice(c: Counters, uids: map<Key, int>, order: seq<Key>): seq<Entry> {
    if order == [] then []
    else Slice(c, uids, order[..|order| - 1]) + [Entry(UidOf(uids, order[|order| - 1]), Get(c, order[|order| - 1]))]
  }

  /** One entry for every counter with bytes, under the uid the map gives it or 0, and the counters zeroed
      when asked to. */
  ghost predicate ReadOut(c: Counters, left: Counters, uids: map<Key, int>, reset: bool, order: seq<Key>,
                          slice: seq<Entry>)
  {
    && (forall k :: k in order <==> k in c && c[k].up + c[k].down > 0)
    && |slice| == |order|
    && (forall i :: 0 <= i < |order| ==>
          order[i] in c && slice[i] == Entry(if order[i] in uids then uids[order[i]] else 0, c[order[i]]))
    && left.Keys == c.Keys && (forall k :: k in c ==> left[k] == if reset then Bytes(0, 0) else c[k])
  }

  lemma {:induction false} SliceEntries(c: Counters, uids: map<Key, int>, order: seq<Key>)
    requires forall k :: k in order ==> k in c
    ensures |Slice(c, uids, order)| == |order|
    ensures forall i :: 0 <= i < |order| ==>
      Slice(c, uids, order)[i] == Entry(if order[i] in uids then uids[order[i]] else 0, c[order[i]])
  {
    if order != [] {
      assert order[|order| - 1] in order;
      SliceEntries(c, uids, order[..|order| - 1]);
    }
  }

  lemma SliceIs(c: Counters, uids: map<Key, int>, reset: bool, order: seq<Key>)
    requires Enumerates(order, c)
    ensures ReadOut(c, if reset then Zeroed(c) else c, uids, reset, order, Slice(c, uids, order))
  {
    assert forall k :: k in order <==> Hot(c, k);
    SliceEntries(c, uids, order);
  }

  lemma NoDupSnoc<T>(front: seq<T>, last: T)
    ensures NoDup(front + [last]) <==> NoDup(front) && last !in front
  {
    var s := front + [last];
    if NoDup(s) {
      forall i | 0 <= i < |front| ensures front[i] != last {
        assert s[i] != s[|front|];
      }
      forall i, j | 0 <= i < j < |front| ensures front[i] != front[j] {
        assert s[i] != s[j];
      }
    }
  }

  lemma SliceSnoc(c: Counters, uids: map<Key, int>, front: seq<Key>, last: Key)
    ensures Slice(c, uids, front + [last]) == Slice(c, uids, front) + [Entry(UidOf(uids, last), Get(c, last))]
  {
    assert (front + [last])[..|front|] == front;
  }

  /** What building uid -> key from key -> uid may produce: one key for each uid that occurs. */
  ghost predicate IsReverse(rev: map<int, Key>, uids: map<Key, int>) {
    && (forall k :: k in uids ==> uids[k] in rev)
    && (forall u :: u in rev ==> rev[u] in uids && uids[rev[u]] == u)
  }

  function AddBack(c: Counters, rev: map<int, Key>, e: Entry): Counters {
    if e.uid in rev && rev[e.uid] in c then c[rev[e.uid] := c[rev[e.uid]].Plus(e.bytes)] else c
  }

  function AddAllBack(c: Counters, rev: map<int, Key>, es: seq<Entry>): Counters {
    if es == [] then c else AddBack(AddAllBack(c, rev, es[..|es| - 1]), rev, es[|es| - 1])
  }

  /** The counters outside rest have been read, and zeroed when asked to. */
  ghost predicate Visited(was: Counters, uids: map<Key, int>, reset: bool,
                          c: Counters, slice: seq<Entry>, order: seq<Key>, rest: set<Key>)
  {
    && (forall k :: k in order <==> Hot(was, k) && k !in rest) && NoDup(order) && slice == Slice(was, uids, order)
    && c.Keys == was.Keys
    && (forall k :: k in was ==> c[k] == if reset && k !in rest then ZERO else was[k])
  }

  lemma VisitedNone(was: Counters, uids: map<Key, int>, reset: bool)
    ensures Visited(was, uids, reset, was, [], [], was.Keys)
  {
  }

  lemma VisitedOne(was: Counters, uids: map<Key, int>, reset: bool,
                   c: Counters, slice: seq<Entry>, order: seq<Key>, rest: set<Key>, k: Key)
    requires k in was && k !in rest && Visited(was, uids, reset, c, slice, order, rest + {k})
    ensures k in c && c[k] == was[k]
    ensures c[k].up + c[k].down > 0 ==>
      Visited(was, uids, reset, if reset then c[k := ZERO] else c,
              slice + [Entry(UidOf(uids, k), c[k])], order + [k], rest)
    ensures c[k].up + c[k].down == 0 ==> Visited(was, uids, reset, c, slice, order, rest)
  {
    SliceSnoc(was, uids, order, k);
    NoDupSnoc(order, k);
    hide Slice, NoDup;
  }

  lemma VisitedAll(was: Counters, uids: map<Key, int>, reset: bool, c: Counters, slice: seq<Entry>, order: seq<Key>)
    requires Visited(was, uids, reset, c, slice, order, {})
    ensures Enumerates(order, was) && slice == Slice(was, uids, order)
    ensures reset ==> c == Zeroed(was)
    ensures !reset ==> c == was
  {
  }

  /** The bytes a list of entries carries for one uid. */
  function SumUid(es: seq<Entry>, uid: int): Bytes {
    if es == [] then ZERO
    else
      var front := SumUid(es[..|es| - 1], uid);
      if es[|es| - 1].uid == uid then front.Plus(es[|es| - 1].bytes) else front
  }

  function KeySet(ks: seq<Key>): set<Key> {
    if ks == [] then {} else KeySet(ks[..|ks| - 1]) + {ks[|ks| - 1]}
  }

  lemma {:induction false} KeysNamed(ks: seq<Key>, n: nat)
    requires n <= |ks|
    ensures forall k :: k in KeySet(ks[..n]) <==> exists i :: 0 <= i < n && ks[i] == k
  {
    if n > 0 {
      assert ks[..n][..n - 1] == ks[..n - 1] && ks[..n][n - 1] == ks[n - 1];
      KeysNamed(ks, n - 1);
      assert KeySet(ks[..n]) == KeySet(ks[..n - 1]) + {ks[n - 1]};
    }
  }

  lemma MinusOne<V>(m: map<Key, V>, s: set<Key>, k: Key)
    ensures m - s - {k} == m - (s + {k})
  {
  }

  /** The counters of a running core, per tag, with the core-wide uid map. */
  class CoreCounters {
    var tags: map<Tag, Counters>
    var uids: map<Key, int>

    constructor ()
      ensures tags == map[] && uids == map[]
    {
      tags, uids := map[], map[];
    }

    /** The wrapped reader and writer of a connection count into the tag's counters (Tx up, Rx down). */
    method Count(tag: Tag, key: Key, up: nat, down: nat)
      modifies this`tags
      ensures tags == old(tags)[tag := Merge(if tag in old(tags) then old(tags)[tag] else map[],
                                             map[key := Bytes(up, down)])]
    {
      var c := if tag in tags then tags[tag] else map[];
      var now := if key in c then c[key] else ZERO;
      tags := tags[tag := c[key := Bytes(now.up + up, now.down + down)]];
      assert c[key := Bytes(now.up + up, now.down + down)] == Merge(c, map[key := Bytes(up, down)]);
    }

    /** Reads every counter that holds something, and zeroes it when asked to. */
    method ReadCounters(was: Counters, reset: bool) returns (c: Counters, slice: seq<Entry>, ghost order: seq<Key>)
      ensures Enumerates(order, was) && slice == Slice(was, uids, order)
      ensures reset ==> c == Zeroed(was)
      ensures !reset ==> c == was
    {
      hide Visited;
      var rest := was.Keys;
      c, slice, order := was, [], [];
      VisitedNone(was, uids, reset);
      while rest != {}
        invariant rest <= was.Keys && Visited(was, uids, reset, c, slice, order, rest)
        decreases |rest|
      {
        var k :| k in rest;
        ghost var before := rest;
        rest := rest - {k};
        assert rest + {k} == before;
        VisitedOne(was, uids, reset, c, slice, order, rest, k);
        if c[k].up + c[k].down > 0 {
          slice := slice + [Entry(if k in uids then uids[k] else 0, c[k])];
          order := order + [k];
          if reset {
            c := c[k := ZERO];
          }
        }
      }
      VisitedAll(was, uids, reset, c, slice, order);
    }

    /** Reads the counters of a tag. */
    method GetUserTrafficSlice(tag: Tag, reset: bool) returns (slice: seq<Entry>, ghost order: seq<Key>)
      modifies this`tags
      ensures tag !in old(tags) ==> tags == old(tags) && slice == [] && order == []
      ensures tag in old(tags) ==>
        && Enumerates(order, old(tags)[tag])
        && slice == Slice(old(tags)[tag], uids, order)
        && tags == if reset then old(tags)[tag := Zeroed(old(tags)[tag])] else old(tags)
      ensures tag in old(tags) ==> tag in tags && ReadOut(old(tags)[tag], tags[tag], uids, reset, order, slice)
    {
      slice, order := [], [];
      if tag in tags {
        hide Slice, Enumerates, Zeroed, ReadOut;
        var c;
        c, slice, order := ReadCounters(tags[tag], reset);
        assert tags[tag := tags[tag]] == tags;
        SliceIs(tags[tag], uids, reset, order);
        tags := tags[tag := c];
      }
    }

    /** Deletes users one by one, their counters with whatever was not reported and their uids; `refused` is
        the first whom the core will not remove, if there is one, and ends it. */
    method DelUsers(tag: Tag, users: seq<Key>, refused: nat) returns (ok: bool)
      modifies this
      ensures ok == (refused >= |users|)
      ensures var gone := KeySet(if ok then users else users[..refused]);
        && (forall k :: k in gone <==> exists i :: 0 <= i < |users| && i < refused && users[i] == k)
        && uids == old(uids) - gone
        && tags == if tag in old(tags) then old(tags)[tag := old(tags)[tag] - gone] else old(tags)
    {
      ghost var was := tags;
      for i := 0 to |users|
        invariant i <= refused
        invariant uids == old(uids) - KeySet(users[..i])
        invariant tags.Keys == was.Keys && forall other :: other in was && other != tag ==> tags[other] == was[other]
        invariant tag in was ==> tags[tag] == was[tag] - KeySet(users[..i])
      {
        if i == refused {
          KeysNamed(users, i);
          return false;
        }
        assert users[..i + 1][..i] == users[..i];
        MinusOne(old(uids), KeySet(users[..i]), users[i]);
        uids := uids - {users[i]};
        if tag in tags {
          MinusOne(was[tag], KeySet(users[..i]), users[i]);
          tags := tags[tag := tags[tag] - {users[i]}];
        }
      }
      assert users[..|users|] == users;
      KeysNamed(users, |users|);
      return true;
    }

    /** Adds entries back by uid, through a reverse of the whole uid map; unknown uids and unknown keys
        are skipped. Fails only when the tag has no counters. */
    method AddUserTrafficSlice(tag: Tag, traffic: seq<Entry>) returns (ok: bool, ghost rev: map<int, Key>)
      modifies this`tags
      ensures ok == (traffic == [] || tag in old(tags))
      ensures IsReverse(rev, uids)
      ensures tags == if ok && traffic != [] then old(tags)[tag := AddAllBack(old(tags)[tag], rev, traffic)]
                      else old(tags)
      // a counter gets the bytes of its uid's entries when the reverse map picks it, and no other changes
      ensures tag in old(tags) ==> tag in tags && tags[tag].Keys == old(tags)[tag].Keys
      ensures tag in old(tags) ==> forall k :: k in old(tags)[tag] ==>
        var was, now, mine := old(tags)[tag][k], tags[tag][k], k in uids && rev[uids[k]] == k;
        && now.up == was.up + (if mine then SumUid(traffic, uids[k]).up else 0)
        && now.down == was.down + (if mine then SumUid(traffic, uids[k]).down else 0)
    {
      if |traffic| == 0 {
        rev := SomeReverse(uids);
        return true, rev;
      }
      if tag !in tags {
        rev := SomeReverse(uids);
        return false, rev;
      }
      var c := tags[tag];
      var reverse: map<int, Key>, rest := map[], uids.Keys;
      while rest != {}
        invariant rest <= uids.Keys
        invariant forall k :: k in uids && k !in rest ==> uids[k] in reverse
        invariant forall u :: u in reverse ==> reverse[u] in uids && uids[reverse[u]] == u
        decreases |rest|
      {
        var k :| k in rest;
        rest := rest - {k};
        reverse := reverse[uids[k] := k];
      }
      ghost var was := c;
      for i := 0 to |traffic|
        invariant c == AddAllBack(was, reverse, traffic[..i])
      {
        var t := traffic[i];
        if t.uid in reverse && reverse[t.uid] in c {
          var k := reverse[t.uid];
          c := c[k := Bytes(c[k].up + t.bytes.up, c[k].down + t.bytes.down)];
        }
        assert traffic[..i + 1][..i] == traffic[..i];
      }
      assert traffic[..|traffic|] == traffic;
      forall k | k in was { AddAllBackAt(was, uids, reverse, traffic, k); }
      AddAllBackKeys(was, reverse, traffic);
      tags := tags[tag := c];
      return true, reverse;
    }
  }

  ghost function SomeReverse(uids: map<Key, int>): (rev: map<int, Key>)
    ensures IsReverse(rev, uids)
  {
    map u | u in uids.Values :: KeyFor(uids, u)
  }

  ghost function KeyFor(uids: map<Key, int>, u: int): (k: Key)
    requires u in uids.Values
    ensures k in uids && uids[k] == u
  {
    var k :| k in uids && uids[k] == u; k
  }

  // ---------------------------------------------------------------- drain and re-add

  /** The key is known to the uid map and shares its uid with no other key of the core. */
  ghost predicate Tracked(uids: map<Key, int>, k: Key) {
    k in uids && forall k' :: k' in uids && uids[k'] == uids[k] ==> k' == k
  }

  ghost predicate Covered(c: Counters, uids: map<Key, int>) {
    forall k :: Hot(c, k) ==> Tracked(uids, k)
  }

  /** Adding entries back gives a key the entries of its uid, when the reverse map picks that key. */
  lemma {:induction false} AddAllBackAt(c: Counters, uids: map<Key, int>, rev: map<int, Key>, es: seq<Entry>, k: Key)
    requires IsReverse(rev, uids) && k in c
    ensures AddAllBack(c, rev, es).Keys == c.Keys
    ensures AddAllBack(c, rev, es)[k]
         == if k in uids && rev[uids[k]] == k then c[k].Plus(SumUid(es, uids[k])) else c[k]
  {
    if es != [] {
      AddAllBackAt(c, uids, rev, es[..|es| - 1], k);
    }
  }

  lemma SliceStep(c: Counters, uids: map<Key, int>, part: seq<Key>, uid: int)
    requires part != []
    ensures var last := part[|part| - 1];
            var front := SumUid(Slice(c, uids, part[..|part| - 1]), uid);
      SumUid(Slice(c, uids, part), uid) == if UidOf(uids, last) == uid then front.Plus(Get(c, last)) else front
  {
    var s := Slice(c, uids, part);
    assert s[..|s| - 1] == Slice(c, uids, part[..|part| - 1]);
  }

  /** A slice carries, for the uid of a tracked key, that key's bytes and nothing else. */
  lemma {:induction false} SliceAt(c: Counters, uids: map<Key, int>, part: seq<Key>, k: Key)
    requires NoDup(part) && Tracked(uids, k)
    requires forall i :: 0 <= i < |part| ==> part[i] in uids
    ensures SumUid(Slice(c, uids, part), uids[k]) == if k in part then Get(c, k) else ZERO
  {
    if part != [] {
      var n := |part| - 1;
      var front, last := part[..n], part[n];
      assert part == front + [last];
      SliceAt(c, uids, front, k);
      SliceStep(c, uids, part, uids[k]);
      assert last in uids && (uids[last] == uids[k] <==> last == k);
      assert last == k ==> k !in front;
    }
  }

  ghost predicate AllTracked(uids: map<Key, int>, part: seq<Key>) {
    forall i :: 0 <= i < |part| ==> Tracked(uids, part[i])
  }

  /** The bytes of any part of a covered slice go back exactly where they came from. */
  lemma PartGoesBack(c: Counters, uids: map<Key, int>, rev: map<int, Key>, part: seq<Key>)
    requires IsReverse(rev, uids) && NoDup(part) && AllTracked(uids, part)
    ensures AddAllBack(Zeroed(c), rev, Slice(c, uids, part)) == Only(c, part)
  {
    var es := Slice(c, uids, part);
    AddAllBackKeys(Zeroed(c), rev, es);
    forall k | k in c
      ensures AddAllBack(Zeroed(c), rev, es)[k] == if k in part then c[k] else ZERO
    {
      PartGoesBackAt(c, uids, rev, part, k);
    }
  }

  lemma PartGoesBackAt(c: Counters, uids: map<Key, int>, rev: map<int, Key>, part: seq<Key>, k: Key)
    requires IsReverse(rev, uids) && NoDup(part) && AllTracked(uids, part) && k in c
    ensures var back := AddAllBack(Zeroed(c), rev, Slice(c, uids, part));
      k in back && back[k] == if k in part then c[k] else ZERO
  {
    var es := Slice(c, uids, part);
    AddAllBackAt(Zeroed(c), uids, rev, es, k);
    if k in part {
      var i :| 0 <= i < |part| && part[i] == k;
      assert Tracked(uids, part[i]);
      SliceAt(c, uids, part, k);
    } else if k in uids {
      forall i | 0 <= i < |part| ensures uids[part[i]] != uids[k] {
        assert Tracked(uids, part[i]);
      }
      OtherUid(c, uids, part, uids[k]);
    }
  }

  lemma {:induction false} AddAllBackKeys(c: Counters, rev: map<int, Key>, es: seq<Entry>)
    ensures AddAllBack(c, rev, es).Keys == c.Keys
  {
    if es != [] {
      AddAllBackKeys(c, rev, es[..|es| - 1]);
    }
  }

  /** No entry of a slice carries a uid that none of its keys has. */
  lemma {:induction false} OtherUid(c: Counters, uids: map<Key, int>, part: seq<Key>, uid: int)
    requires forall i :: 0 <= i < |part| ==> part[i] in uids && uids[part[i]] != uid
    ensures SumUid(Slice(c, uids, part), uid) == ZERO
  {
    if part != [] {
      SliceStep(c, uids, part, uid);
      OtherUid(c, uids, part[..|part| - 1], uid);
    }
  }

  lemma CoveredRestores(c: Counters, uids: map<Key, int>, order: seq<Key>, rev: map<int, Key>)
    requires Enumerates(order, c) && Covered(c, uids) && IsReverse(rev, uids)
    ensures AddAllBack(Zeroed(c), rev, Slice(c, uids, order)) == c
  {
    PartGoesBack(c, uids, rev, order);
    assert forall k :: k in c ==> c[k] == if k in order then c[k] else ZERO;
  }

  lemma UncoveredLoses(c: Counters, uids: map<Key, int>, order: seq<Key>, k: Key) returns (rev: map<int, Key>)
    requires Hot(c, k) && !Tracked(uids, k)
    ensures IsReverse(rev, uids) && AddAllBack(Zeroed(c), rev, Slice(c, uids, order)) != c
  {
    rev := SomeReverse(uids);
    if k in uids {
      var k' :| k' in uids && uids[k'] == uids[k] && k' != k;
      rev := rev[uids[k] := k'];
    }
    AddAllBackAt(Zeroed(c), uids, rev, Slice(c, uids, order), k);
  }

  /** Draining and re-adding restores the counters for every iteration order of the uid map if and only
      if every user with bytes is known to that map under a uid no other key shares. */
  lemma DrainReAddRestores(c: Counters, uids: map<Key, int>, order: seq<Key>)
    requires Enumerates(order, c)
    ensures (forall rev :: IsReverse(rev, uids) ==> AddAllBack(Zeroed(c), rev, Slice(c, uids, order)) == c)
       <==> Covered(c, uids)
  {
    if Covered(c, uids) {
      forall rev | IsReverse(rev, uids)
        ensures AddAllBack(Zeroed(c), rev, Slice(c, uids, order)) == c
      {
        CoveredRestores(c, uids, order, rev);
      }
    } else {
      var k :| Hot(c, k) && !Tracked(uids, k);
      var rev := UncoveredLoses(c, uids, order, k);
    }
  }
}
