/** Comparing two user lists by a printed key (userKey and compareUserList of node/user.go). */
module UserDiff {
  import opened Base

  // ---------------------------------------------------------------- printing integers

  function Digit(n: nat): (c: char)
    requires n < 10
    ensures c != '|' && c != '-'
  {
    ['0', '1', '2', '3', '4', '5', '6', '7', '8', '9'][n]
  }

  function Decimal(n: nat): (s: string)
    ensures s != [] && '|' !in s && s[0] != '-'
  {
    if n < 10 then [Digit(n)] else Decimal(n / 10) + [Digit(n % 10)]
  }

  /** %d */
  function Itoa(n: int): (s: string)
    ensures '|' !in s
  {
    if n < 0 then "-" + Decimal(-n) else Decimal(n)
  }

  lemma {:induction false} DecimalInjective(a: nat, b: nat)
    requires Decimal(a) == Decimal(b)
    ensures a == b
  {
    var s := Decimal(a);
    assert a >= 10 ==> s[..|s| - 1] == Decimal(a / 10) && s[|s| - 1] == Digit(a % 10);
    assert b >= 10 ==> s[..|s| - 1] == Decimal(b / 10) && s[|s| - 1] == Digit(b % 10);
    if a >= 10 && b >= 10 {
      DecimalInjective(a / 10, b / 10);
    }
  }

  lemma ItoaInjective(a: int, b: int)
    requires Itoa(a) == Itoa(b)
    ensures a == b
  {
    assert a < 0 ==> Itoa(a)[0] == '-' && Itoa(a)[1..] == Decimal(-a);
    assert b < 0 ==> Itoa(b)[0] == '-' && Itoa(b)[1..] == Decimal(-b);
    DecimalInjective(if a < 0 then -a else a, if b < 0 then -b else b);
  }

  // ---------------------------------------------------------------- the identity of a user

  function UserKey(u: UserInfo): string {
    u.uuid + "|" + Itoa(u.speedLimit) + "|" + Itoa(u.deviceLimit)
  }

  /** Two strings split at their last bar only one way. */
  lemma SplitAtLastBar(x: string, d: string, y: string, e: string)
    requires '|' !in d && '|' !in e && x + "|" + d == y + "|" + e
    ensures x == y && d == e
  {
    var s, t := x + "|" + d, y + "|" + e;
    assert s[|x|] == '|' && t[|y|] == '|';
    assert |x| == |y|;
    assert x == s[..|x|] && y == t[..|y|] && d == s[|x| + 1..] && e == t[|y| + 1..];
  }

  predicate SameIdentity(a: UserInfo, b: UserInfo) {
    a.uuid == b.uuid && a.speedLimit == b.speedLimit && a.deviceLimit == b.deviceLimit
  }

  /** Two users share a key exactly when uuid and both limits agree, even if a uuid holds a bar. The id
      is not part of the key. */
  lemma UserKeyInjective(a: UserInfo, b: UserInfo)
    ensures UserKey(a) == UserKey(b) <==>
      a.uuid == b.uuid && a.speedLimit == b.speedLimit && a.deviceLimit == b.deviceLimit
  {
    if UserKey(a) == UserKey(b) {
      SplitAtLastBar(a.uuid + "|" + Itoa(a.speedLimit), Itoa(a.deviceLimit),
                     b.uuid + "|" + Itoa(b.speedLimit), Itoa(b.deviceLimit));
      SplitAtLastBar(a.uuid, Itoa(a.speedLimit), b.uuid, Itoa(b.speedLimit));
      ItoaInjective(a.speedLimit, b.speedLimit);
      ItoaInjective(a.deviceLimit, b.deviceLimit);
    }
  }

  // ---------------------------------------------------------------- the diff, for any key

  function Keys<K>(key: UserInfo -> K, us: seq<UserInfo>): set<K> {
    if us == [] then {} else Keys(key, us[..|us| - 1]) + {key(us[|us| - 1])}
  }

  /** The keys of a list are the keys of its users. */
  lemma {:induction false} KeysAre<K>(key: UserInfo -> K, us: seq<UserInfo>, k: K)
    ensures k in Keys(key, us) <==> exists i :: 0 <= i < |us| && key(us[i]) == k
  {
    if us != [] {
      KeysAre(key, us[..|us| - 1], k);
    }
  }

  /** The users of the new list that the diff adds: those whose key is not an old one, and every repeat
      of an old key after its first use. */
  function Added<K(==)>(key: UserInfo -> K, old_: seq<UserInfo>, new_: seq<UserInfo>): seq<UserInfo> {
    if new_ == [] then []
    else
      var front, u := new_[..|new_| - 1], new_[|new_| - 1];
      if key(u) in Keys(key, old_) && key(u) !in Keys(key, front) then Added(key, old_, front)
      else Added(key, old_, front) + [u]
  }

  /** Index i holds the last of the first `n` users with key k. */
  ghost predicate LastAt<K>(key: UserInfo -> K, us: seq<UserInfo>, n: nat, i: nat, k: K)
    requires n <= |us|
  {
    i < n && key(us[i]) == k && forall j :: i < j < n ==> key(us[j]) != k
  }

  ghost predicate LastOfKey<K>(key: UserInfo -> K, us: seq<UserInfo>, u: UserInfo) {
    exists i :: 0 <= i < |us| && us[i] == u && LastAt(key, us, |us|, i, key(u))
  }

  ghost predicate DistinctKeys<K>(key: UserInfo -> K, us: seq<UserInfo>) {
    forall i, j :: 0 <= i < j < |us| ==> key(us[i]) != key(us[j])
  }

  ghost predicate AllLast<K>(key: UserInfo -> K, us: seq<UserInfo>, out: seq<UserInfo>) {
    forall i :: 0 <= i < |out| ==> LastOfKey(key, us, out[i])
  }

  /** Deleted users are the last ones of exactly the keys that are gone, each key once. */
  ghost predicate IsDiff<K>(key: UserInfo -> K, old_: seq<UserInfo>, new_: seq<UserInfo>,
                            deleted: seq<UserInfo>, added: seq<UserInfo>) {
    && added == Added(key, old_, new_)
    && AllLast(key, old_, deleted)
    && DistinctKeys(key, deleted)
    && Keys(key, deleted) == Keys(key, old_) - Keys(key, new_)
  }

  lemma KeysSnoc<K>(key: UserInfo -> K, us: seq<UserInfo>, u: UserInfo)
    ensures Keys(key, us + [u]) == Keys(key, us) + {key(u)}
  {
    assert (us + [u])[..|us|] == us;
  }

  lemma AddedSnoc<K>(key: UserInfo -> K, old_: seq<UserInfo>, front: seq<UserInfo>, u: UserInfo)
    ensures Added(key, old_, front + [u]) ==
            if key(u) in Keys(key, old_) && key(u) !in Keys(key, front) then Added(key, old_, front)
            else Added(key, old_, front) + [u]
  {
    assert (front + [u])[..|front|] == front;
  }

  method CompareBy<K(==)>(key: UserInfo -> K, old_: seq<UserInfo>, new_: seq<UserInfo>)
    returns (deleted: seq<UserInfo>, added: seq<UserInfo>)
    ensures IsDiff(key, old_, new_, deleted, added)
  {
    var oldMap := IndexByKey(key, old_);
    oldMap, added := TakeNew(key, old_, oldMap, new_);
    deleted := UsersAt(key, old_, oldMap);
  }

  /** Walks the new list: a key still in the index is used up, any other user is an added one. */
  method TakeNew<K(==)>(key: UserInfo -> K, ghost old_: seq<UserInfo>, index: map<K, nat>, new_: seq<UserInfo>)
    returns (left: map<K, nat>, added: seq<UserInfo>)
    requires index.Keys == Keys(key, old_)
    ensures left.Keys == Keys(key, old_) - Keys(key, new_) && forall k :: k in left ==> left[k] == index[k]
    ensures added == Added(key, old_, new_)
  {
    left, added := index, [];
    for i := 0 to |new_|
      invariant left.Keys == Keys(key, old_) - Keys(key, new_[..i])
      invariant forall k :: k in left ==> left[k] == index[k]
      invariant added == Added(key, old_, new_[..i])
    {
      var u := new_[i];
      KeysSnoc(key, new_[..i], u);
      AddedSnoc(key, old_, new_[..i], u);
      assert new_[..i + 1] == new_[..i] + [u];
      if key(u) !in left {
        added := added + [u];
      } else {
        left := left - {key(u)};
      }
    }
    assert new_[..|new_|] == new_;
  }

  /** The users an index points at, in some order. */
  method UsersAt<K(==)>(key: UserInfo -> K, us: seq<UserInfo>, index: map<K, nat>) returns (out: seq<UserInfo>)
    requires forall k :: k in index ==> LastAt(key, us, |us|, index[k], k)
    ensures Keys(key, out) == index.Keys && DistinctKeys(key, out) && AllLast(key, us, out)
  {
    out := [];
    var rest := index.Keys;
    while rest != {}
      invariant rest <= index.Keys
      invariant Keys(key, out) == index.Keys - rest
      invariant DistinctKeys(key, out) && AllLast(key, us, out)
      decreases |rest|
    {
      var k :| k in rest;
      TakeOne(index.Keys, rest, k);
      rest := rest - {k};
      OneMore(key, us, out, us[index[k]], index[k]);
      out := out + [us[index[k]]];
    }
  }

  lemma TakeOne<K>(all: set<K>, rest: set<K>, k: K)
    requires rest <= all && k in rest
    ensures all - (rest - {k}) == (all - rest) + {k}
  {
  }

  lemma OneMore<K>(key: UserInfo -> K, us: seq<UserInfo>, out: seq<UserInfo>, u: UserInfo, at: nat)
    requires DistinctKeys(key, out) && AllLast(key, us, out) && key(u) !in Keys(key, out)
    requires at < |us| && us[at] == u && LastAt(key, us, |us|, at, key(u))
    ensures Keys(key, out + [u]) == Keys(key, out) + {key(u)}
    ensures DistinctKeys(key, out + [u]) && AllLast(key, us, out + [u])
  {
    KeysSnoc(key, out, u);
    DistinctSnoc(key, out, u);
  }

  lemma DistinctSnoc<K>(key: UserInfo -> K, us: seq<UserInfo>, u: UserInfo)
    requires DistinctKeys(key, us) && key(u) !in Keys(key, us)
    ensures DistinctKeys(key, us + [u])
  {
    KeysAre(key, us, key(u));
  }

  method IndexByKey<K(==)>(key: UserInfo -> K, us: seq<UserInfo>) returns (m: map<K, nat>)
    ensures m.Keys == Keys(key, us)
    ensures forall k :: k in m ==> LastAt(key, us, |us|, m[k], k)
  {
    m := map[];
    for i := 0 to |us|
      invariant m.Keys == Keys(key, us[..i])
      invariant forall k :: k in m ==> LastAt(key, us, i, m[k], k)
    {
      KeysSnoc(key, us[..i], us[i]);
      assert us[..i + 1] == us[..i] + [us[i]];
      m := m[key(us[i]) := i];
    }
    assert us[..|us|] == us;
  }

  lemma {:induction false} AddedKeys<K>(key: UserInfo -> K, old_: seq<UserInfo>, new_: seq<UserInfo>)
    ensures Keys(key, new_) - Keys(key, old_) <= Keys(key, Added(key, old_, new_)) <= Keys(key, new_)
    ensures forall u :: u in Added(key, old_, new_) ==> u in new_
  {
    if new_ != [] {
      var front, u := new_[..|new_| - 1], new_[|new_| - 1];
      assert new_ == front + [u];
      AddedKeys(key, old_, front);
      KeysSnoc(key, front, u);
      KeysSnoc(key, Added(key, old_, front), u);
    }
  }

  /** For all lists, duplicates included: the old keys without the deleted ones, together with the added
      ones, are exactly the new keys. */
  lemma DiffReachesNew<K>(key: UserInfo -> K, old_: seq<UserInfo>, new_: seq<UserInfo>,
                          deleted: seq<UserInfo>, added: seq<UserInfo>)
    requires IsDiff(key, old_, new_, deleted, added)
    ensures (Keys(key, old_) - Keys(key, deleted)) + Keys(key, added) == Keys(key, new_)
  {
    AddedKeys(key, old_, new_);
  }

  /** For all lists: a user is added exactly for a place in the new list whose key no old user has, or
      some earlier new user has. */
  lemma {:induction false} AddedWhere<K>(key: UserInfo -> K, old_: seq<UserInfo>, new_: seq<UserInfo>, v: UserInfo)
    ensures v in Added(key, old_, new_) <==>
      exists i :: 0 <= i < |new_| && new_[i] == v
                  && ((forall j :: 0 <= j < |old_| ==> key(old_[j]) != key(v))
                      || exists j :: 0 <= j < i && key(new_[j]) == key(v))
  {
    if new_ != [] {
      var front, u := new_[..|new_| - 1], new_[|new_| - 1];
      AddedWhere(key, old_, front, v);
      KeysAre(key, old_, key(u));
      KeysAre(key, front, key(u));
      assert forall i :: 0 <= i < |front| ==> front[i] == new_[i];
    }
  }

  lemma {:induction false} AddedAre<K>(key: UserInfo -> K, old_: seq<UserInfo>, new_: seq<UserInfo>, v: UserInfo)
    requires DistinctKeys(key, new_)
    ensures v in Added(key, old_, new_) <==> v in new_ && key(v) !in Keys(key, old_)
  {
    if new_ != [] {
      var front, u := new_[..|new_| - 1], new_[|new_| - 1];
      assert new_ == front + [u];
      KeysAre(key, front, key(u));
      AddedAre(key, old_, front, v);
    }
  }

  /** On lists without repeated keys: deleted are the old users whose key is gone, added the new ones
      whose key is new. */
  lemma DiffByKey<K>(key: UserInfo -> K, old_: seq<UserInfo>, new_: seq<UserInfo>,
                     deleted: seq<UserInfo>, added: seq<UserInfo>, u: UserInfo)
    requires DistinctKeys(key, old_) && DistinctKeys(key, new_) && IsDiff(key, old_, new_, deleted, added)
    ensures u in deleted <==> u in old_ && key(u) !in Keys(key, new_)
    ensures u in added <==> u in new_ && key(u) !in Keys(key, old_)
  {
    AddedAre(key, old_, new_, u);
    KeysAre(key, deleted, key(u));
    KeysAre(key, old_, key(u));
    if u in deleted {
      var i :| 0 <= i < |deleted| && deleted[i] == u;
      assert LastOfKey(key, old_, deleted[i]);
    }
    if u in old_ && key(u) !in Keys(key, new_) {
      var i :| 0 <= i < |deleted| && key(deleted[i]) == key(u);
      assert LastOfKey(key, old_, deleted[i]);
    }
  }

  // ---------------------------------------------------------------- the diff, by user key

  method CompareUserList(old_: seq<UserInfo>, new_: seq<UserInfo>)
    returns (deleted: seq<UserInfo>, added: seq<UserInfo>)
    ensures IsDiff(UserKey, old_, new_, deleted, added)
    ensures Keys(UserKey, deleted) == Keys(UserKey, old_) - Keys(UserKey, new_)
    ensures (Keys(UserKey, old_) - Keys(UserKey, deleted)) + Keys(UserKey, added) == Keys(UserKey, new_)
  {
    hide UserKey;
    deleted, added := CompareBy(UserKey, old_, new_);
    DiffReachesNew(UserKey, old_, new_, deleted, added);
  }
}
