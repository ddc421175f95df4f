/** Every run of generate / report / speed-check rounds: conservation of bytes, the bound on what stays
    in the core, and the accounting of the dynamic speed limit. */
module ReportRuns {
  import opened Base
  import opened Traffic
  import opened Reporting

  // ---------------------------------------------------------------- one cycle, key by key

  lemma SumUidSnoc(front: seq<Entry>, last: Entry, uid: int)
    ensures SumUid(front + [last], uid)
         == if last.uid == uid then SumUid(front, uid).Plus(last.bytes) else SumUid(front, uid)
  {
    assert (front + [last])[..|front|] == front;
  }

  lemma {:induction false} SumUidConcat(a: seq<Entry>, b: seq<Entry>, uid: int)
    ensures SumUid(a + b, uid) == SumUid(a, uid).Plus(SumUid(b, uid))
  {
    if b == [] {
      assert a + b == a;
    } else {
      var front, last := b[..|b| - 1], b[|b| - 1];
      SumUidConcat(a, front, uid);
      SumUidSnoc(a + front, last, uid);
      SumUidSnoc(front, last, uid);
      assert a + b == a + front + [last] && b == front + [last];
    }
  }

  /** The keys of an order on one side of the threshold. */
  function PassKeys(c: Counters, order: seq<Key>, threshold: int, above: bool): seq<Key> {
    if order == [] then []
    else
      var last := order[|order| - 1];
      Also(PassKeys(c, order[..|order| - 1], threshold, above), Side(TotalOf(c, last), threshold, above), last)
  }

  ghost predicate Selects(part: seq<Key>, c: Counters, order: seq<Key>, threshold: int, above: bool) {
    NoDup(part) && forall k :: k in part <==> k in order && Side(TotalOf(c, k), threshold, above)
  }

  lemma {:induction false} PassKeysAre(c: Counters, order: seq<Key>, threshold: int, above: bool)
    requires NoDup(order)
    ensures Selects(PassKeys(c, order, threshold, above), c, order, threshold, above)
  {
    if order != [] {
      var front, last := order[..|order| - 1], order[|order| - 1];
      assert order == front + [last];
      NoDupSnoc(front, last);
      PassKeysAre(c, front, threshold, above);
      SelectsSnoc(PassKeys(c, front, threshold, above), c, front, last, threshold, above);
    }
  }

  lemma SelectsSnoc(part: seq<Key>, c: Counters, front: seq<Key>, last: Key, threshold: int, above: bool)
    requires Selects(part, c, front, threshold, above) && last !in front
    ensures Selects(Also(part, Side(TotalOf(c, last), threshold, above), last), c, front + [last], threshold, above)
  {
    var side := Side(TotalOf(c, last), threshold, above);
    NoDupSnoc(part, last);
    forall k ensures k in Also(part, side, last) <==> k in front + [last] && Side(TotalOf(c, k), threshold, above) {
      assert k in front + [last] <==> k in front || k == last;
      assert k in part + [last] <==> k in part || k == last;
    }
  }

  lemma PassSnoc(front: seq<Entry>, last: Entry, threshold: int, above: bool)
    ensures Pass(front + [last], threshold, above)
         == Also(Pass(front, threshold, above), Side(last.bytes.Total(), threshold, above), last)
  {
    assert (front + [last])[..|front|] == front;
  }

  /** Splitting the slice is slicing the split order. */
  lemma {:induction false} PassSlice(c: Counters, uids: map<Key, int>, order: seq<Key>, threshold: int, above: bool)
    ensures Pass(Slice(c, uids, order), threshold, above) == Slice(c, uids, PassKeys(c, order, threshold, above))
  {
    if order != [] {
      var front, last := order[..|order| - 1], order[|order| - 1];
      PassSlice(c, uids, front, threshold, above);
      PassSnoc(Slice(c, uids, front), Entry(UidOf(uids, last), Get(c, last)), threshold, above);
      SliceSnoc(c, uids, PassKeys(c, front, threshold, above), last);
    }
  }

  lemma {:induction false} SliceConcat(c: Counters, uids: map<Key, int>, a: seq<Key>, b: seq<Key>)
    ensures Slice(c, uids, a + b) == Slice(c, uids, a) + Slice(c, uids, b)
  {
    if b == [] {
      assert a + b == a;
    } else {
      assert (a + b)[..|a + b| - 1] == a + b[..|b| - 1];
      SliceConcat(c, uids, a, b[..|b| - 1]);
    }
  }

  predicate Over(p: Setup, held: Counters, k: Key) {
    TotalOf(held, k) > Max(p.threshold, 0)
  }

  /** The cycle asks the panel exactly when some user is above the threshold. */
  predicate Asks(p: Setup, held: Counters) {
    exists k :: k in held && Over(p, held, k)
  }

  predicate DropsNow(p: Setup, s: Pipeline, ok: bool) {
    Asks(p, s.held) && !ok && ReportRollbackDecision(s.failures + 1, p.rollbacks)
  }

  datatype Fate = Stays | Reported | Dropped

  /** What one cycle does to one user's bytes: all stay, all are reported, or all are dropped. */
  function FateOf(p: Setup, s: Pipeline, ok: bool, k: Key): Fate {
    if Asks(p, s.held) && ok && Over(p, s.held, k) then Reported
    else if DropsNow(p, s, ok) then Dropped
    else Stays
  }

  function If(cond: bool, n: nat): nat {
    if cond then n else 0
  }

  ghost predicate ValidCycle(p: Setup, s: Pipeline, order: seq<Key>, rev: map<int, Key>) {
    Enumerates(order, s.held) && IsReverse(rev, p.uids) && Covered(s.held, p.uids)
  }

  /** The order falls into the keys to report and the keys to hold back. */
  ghost predicate SplitOf(p: Setup, held: Counters, above: seq<Key>, below: seq<Key>) {
    && NoDup(above) && NoDup(below) && NoDup(above + below)
    && AllTracked(p.uids, above) && AllTracked(p.uids, below) && AllTracked(p.uids, above + below)
    && (forall k :: k in above <==> Over(p, held, k))
    && (forall k :: k in below <==> Hot(held, k) && !Over(p, held, k))
    && (above == [] <==> !Asks(p, held))
  }

  lemma HotIsTracked(p: Setup, held: Counters, part: seq<Key>)
    requires Covered(held, p.uids) && forall k :: k in part ==> Hot(held, k)
    ensures AllTracked(p.uids, part)
  {
    forall i | 0 <= i < |part| ensures Tracked(p.uids, part[i]) {
      assert part[i] in part;
    }
  }

  lemma NoDupConcat<T>(a: seq<T>, b: seq<T>)
    requires NoDup(a) && NoDup(b) && forall x :: x in a ==> x !in b
    ensures NoDup(a + b)
  {
    forall i, j | 0 <= i < |a| && 0 <= j < |b| ensures a[i] != b[j] {
      assert a[i] in a && b[j] in b;
    }
  }

  lemma SplitKeysAre(p: Setup, held: Counters, order: seq<Key>, above: seq<Key>, below: seq<Key>)
    requires Enumerates(order, held) && Covered(held, p.uids)
    requires Selects(above, held, order, Max(p.threshold, 0), true)
    requires Selects(below, held, order, Max(p.threshold, 0), false)
    ensures SplitOf(p, held, above, below)
  {
    forall k ensures (k in above <==> Over(p, held, k)) && (k in below <==> Hot(held, k) && !Over(p, held, k)) {
      assert Over(p, held, k) ==> Hot(held, k);
    }
    forall k ensures k in above + below ==> Hot(held, k) {
    }
    HotIsTracked(p, held, above);
    HotIsTracked(p, held, below);
    HotIsTracked(p, held, above + below);
    NoDupConcat(above, below);
    AskedIfAny(p, held, above);
  }

  lemma AskedIfAny(p: Setup, held: Counters, above: seq<Key>)
    requires forall k :: k in above <==> Over(p, held, k)
    ensures above == [] <==> !Asks(p, held)
  {
    if above != [] {
      assert above[0] in above && above[0] in held;
    }
  }

  lemma SplitKeys(p: Setup, s: Pipeline, order: seq<Key>, rev: map<int, Key>) returns (above: seq<Key>, below: seq<Key>)
    requires ValidCycle(p, s, order, rev)
    ensures SplitOf(p, s.held, above, below)
    ensures var all, limit := Slice(s.held, p.uids, order), Max(p.threshold, 0);
      Pass(all, limit, true) == Slice(s.held, p.uids, above) && Pass(all, limit, false) == Slice(s.held, p.uids, below)
  {
    var limit := Max(p.threshold, 0);
    above, below := PassKeys(s.held, order, limit, true), PassKeys(s.held, order, limit, false);
    PassKeysAre(s.held, order, limit, true);
    PassKeysAre(s.held, order, limit, false);
    SplitKeysAre(p, s.held, order, above, below);
    PassSlice(s.held, p.uids, order, limit, true);
    PassSlice(s.held, p.uids, order, limit, false);
  }

  /** The counters after a cycle, without orders or reverse maps. */
  function HeldAfter(p: Setup, s: Pipeline, ok: bool): Counters {
    map k | k in s.held :: if FateOf(p, s, ok, k).Stays? then s.held[k] else ZERO
  }

  lemma PartIsFate(p: Setup, s: Pipeline, ok: bool, part: seq<Key>)
    requires forall k :: k in s.held && Hot(s.held, k) ==> (FateOf(p, s, ok, k).Stays? <==> k in part)
    ensures Only(s.held, part) == HeldAfter(p, s, ok)
  {
    forall k | k in s.held ensures Only(s.held, part)[k] == HeldAfter(p, s, ok)[k] {
      if !Hot(s.held, k) {
        assert s.held[k] == ZERO;
      }
    }
  }

  function ReportedNow(p: Setup, s: Pipeline, ok: bool, above: seq<Key>): seq<Entry> {
    if Asks(p, s.held) && ok then Slice(s.held, p.uids, above) else []
  }

  function DroppedNow(p: Setup, s: Pipeline, ok: bool, all: seq<Key>): seq<Entry> {
    if DropsNow(p, s, ok) then Slice(s.held, p.uids, all) else []
  }

  /** What a cycle leaves, in closed form. */
  ghost predicate Closed(p: Setup, s: Pipeline, s': Pipeline, ok: bool, above: seq<Key>, below: seq<Key>) {
    && s'.held == HeldAfter(p, s, ok)
    && s'.sent == s.sent + ReportedNow(p, s, ok, above)
    && s'.dropped == s.dropped + DroppedNow(p, s, ok, above + below)
    && s'.failures == if !Asks(p, s.held) then s.failures else if ok then 0 else s.failures + 1
  }

  lemma SettleClosed(p: Setup, s: Pipeline, above: seq<Key>, below: seq<Key>, rev: map<int, Key>, ok: bool)
    requires SplitOf(p, s.held, above, below) && IsReverse(rev, p.uids)
    ensures Closed(p, s, Settle(p, s.(held := Zeroed(s.held)), Slice(s.held, p.uids, above),
                                Slice(s.held, p.uids, below), rev, ok), ok, above, below)
  {
    SliceConcat(s.held, p.uids, above, below);
    assert Slice(s.held, p.uids, above) == [] <==> above == [];
    if DropsNow(p, s, ok) {
      assert HeldAfter(p, s, ok) == Zeroed(s.held);
    } else if Asks(p, s.held) && !ok {
      PartGoesBack(s.held, p.uids, rev, above + below);
      PartIsFate(p, s, ok, above + below);
    } else {
      PartGoesBack(s.held, p.uids, rev, below);
      PartIsFate(p, s, ok, below);
    }
  }

  lemma CycleClosed(p: Setup, s: Pipeline, order: seq<Key>, rev: map<int, Key>, ok: bool)
    returns (above: seq<Key>, below: seq<Key>)
    requires ValidCycle(p, s, order, rev)
    ensures SplitOf(p, s.held, above, below)
    ensures Closed(p, s, Cycle(p, s, order, rev, ok), ok, above, below)
  {
    above, below := SplitKeys(p, s, order, rev);
    SettleClosed(p, s, above, below, rev, ok);
  }

  lemma FateOnBooks(p: Setup, s: Pipeline, ok: bool, above: seq<Key>, below: seq<Key>, k: Key, d: Direction)
    requires SplitOf(p, s.held, above, below) && Tracked(p.uids, k)
    ensures SumUid(ReportedNow(p, s, ok, above), p.uids[k]).At(d)
      == If(FateOf(p, s, ok, k).Reported?, AtOf(s.held, k, d))
    ensures SumUid(DroppedNow(p, s, ok, above + below), p.uids[k]).At(d)
      == If(FateOf(p, s, ok, k).Dropped?, AtOf(s.held, k, d))
  {
    SliceAt(s.held, p.uids, above, k);
    SliceAt(s.held, p.uids, above + below, k);
    assert k in above + below <==> Hot(s.held, k);
    assert Get(s.held, k).At(d) == AtOf(s.held, k, d);
  }

  lemma HeldByFate(p: Setup, s: Pipeline, ok: bool, k: Key, d: Direction)
    ensures AtOf(HeldAfter(p, s, ok), k, d) == If(FateOf(p, s, ok, k).Stays?, AtOf(s.held, k, d))
  {
  }

  /** After a cycle each user's counter, and the ledgers of reported and dropped bytes of each tracked
      user, have moved by that user's fate: bytes never split, never go to another user. */
  lemma CycleFates(p: Setup, s: Pipeline, order: seq<Key>, rev: map<int, Key>, ok: bool, k: Key, d: Direction)
    requires ValidCycle(p, s, order, rev) && Tracked(p.uids, k)
    ensures var s', fate, uid := Cycle(p, s, order, rev, ok), FateOf(p, s, ok, k), p.uids[k];
      && AtOf(s'.held, k, d) == If(fate.Stays?, AtOf(s.held, k, d))
      && SumUid(s'.sent, uid).At(d) == SumUid(s.sent, uid).At(d) + If(fate.Reported?, AtOf(s.held, k, d))
      && SumUid(s'.dropped, uid).At(d) == SumUid(s.dropped, uid).At(d) + If(fate.Dropped?, AtOf(s.held, k, d))
  {
    assert k in p.uids;
    hide Cycle, SplitOf, ReportedNow, DroppedNow, SumUid, Tracked, FateOf, Enumerates, IsReverse;
    var above, below := CycleClosed(p, s, order, rev, ok);
    FateOnBooks(p, s, ok, above, below, k, d);
    HeldByFate(p, s, ok, k, d);
    hide HeldAfter;
    SumUidConcat(s.sent, ReportedNow(p, s, ok, above), p.uids[k]);
    SumUidConcat(s.dropped, DroppedNow(p, s, ok, above + below), p.uids[k]);
  }

  /** Some user has more than the threshold, and anything at all. */
  predicate SomeoneAbove(held: Counters, threshold: int) {
    exists k :: k in held && held[k].up + held[k].down > threshold && held[k].up + held[k].down > 0
  }

  lemma AsksIfAbove(p: Setup, held: Counters)
    ensures Asks(p, held) <==> SomeoneAbove(held, p.threshold)
  {
    if k :| k in held && Over(p, held, k) {
      assert held[k].up + held[k].down > p.threshold;
    }
    if k :| k in held && held[k].up + held[k].down > p.threshold && held[k].up + held[k].down > 0 {
      assert Over(p, held, k);
    }
  }

  /** More failures in a row than the setting allows: five when it is unset, and no number when it is
      negative. */
  predicate Exhausted(setting: int, failures: int) {
    (setting == 0 && failures > 5) || (setting > 0 && failures > setting)
  }

  lemma NeverExhausted(setting: int, failures: int)
    requires setting < 0
    ensures !Exhausted(setting, failures)
  {
  }

  /** The dropped ledger moves exactly when the panel was asked, refused, and has refused too often. */
  lemma DropsExactlyPastCap(p: Setup, s: Pipeline, order: seq<Key>, rev: map<int, Key>, ok: bool)
    requires ValidCycle(p, s, order, rev)
    ensures var s', asked := Cycle(p, s, order, rev, ok), SomeoneAbove(s.held, p.threshold);
      && (s'.dropped != s.dropped <==> asked && !ok && Exhausted(p.rollbacks, s.failures + 1))
      && s'.failures == if !asked then s.failures else if ok then 0 else s.failures + 1
  {
    AsksIfAbove(p, s.held);
    var above, below := CycleClosed(p, s, order, rev, ok);
    var gone := DroppedNow(p, s, ok, above + below);
    assert DropsNow(p, s, ok) ==> gone != [];
    assert gone != [] ==> |s.dropped + gone| > |s.dropped|;
  }

  /** The dynamic accumulator hears of reported bytes only, and only when it is in use. */
  lemma DynamicOnlyOnSuccess(p: Setup, s: Pipeline, order: seq<Key>, rev: map<int, Key>, ok: bool)
    requires ValidCycle(p, s, order, rev)
    ensures !p.dynamic || !SomeoneAbove(s.held, p.threshold) || !ok ==> Cycle(p, s, order, rev, ok).dyn == s.dyn
  {
    AsksIfAbove(p, s.held);
    var above, below := SplitKeys(p, s, order, rev);
    assert Slice(s.held, p.uids, above) == [] <==> above == [];
  }

  /** One cycle in numbers: what is left of a user's bytes, and what the two ledgers gain for its uid. */
  lemma CycleInNumbers(p: Setup, s: Pipeline, order: seq<Key>, rev: map<int, Key>, ok: bool, k: Key)
    requires ValidCycle(p, s, order, rev) && Tracked(p.uids, k) && k in s.held
    ensures var s', was, uid := Cycle(p, s, order, rev, ok), s.held[k], p.uids[k];
      var asked := SomeoneAbove(s.held, p.threshold);
      var reported := asked && ok && was.up + was.down > p.threshold;
      var dropped := asked && !ok && Exhausted(p.rollbacks, s.failures + 1);
      && k in s'.held && s'.held[k] == (if reported || dropped then Bytes(0, 0) else was)
      && SumUid(s'.sent, uid).up == SumUid(s.sent, uid).up + (if reported then was.up else 0)
      && SumUid(s'.sent, uid).down == SumUid(s.sent, uid).down + (if reported then was.down else 0)
      && SumUid(s'.dropped, uid).up == SumUid(s.dropped, uid).up + (if dropped then was.up else 0)
      && SumUid(s'.dropped, uid).down == SumUid(s.dropped, uid).down + (if dropped then was.down else 0)
  {
    AsksIfAbove(p, s.held);
    CycleFates(p, s, order, rev, ok, k, Up);
    CycleFates(p, s, order, rev, ok, k, Down);
    var above, below := CycleClosed(p, s, order, rev, ok);
    hide Cycle, ValidCycle, SplitOf, ReportedNow, DroppedNow, SumUid, Asks, SomeoneAbove;
    assert (s.held[k].up == s.held[k].down == 0) || s.held[k].up + s.held[k].down > 0;
  }

  /** The same for a uid map that is part of a larger one, also for users who are not in it just now. */
  lemma LiveFates(p: Setup, all: map<Key, int>, s: Pipeline, order: seq<Key>, rev: map<int, Key>, ok: bool, k: Key,
                  d: Direction)
    requires ValidCycle(p, s, order, rev) && PartOf(p.uids, all) && Tracked(all, k)
    ensures var s', fate, uid := Cycle(p, s, order, rev, ok), FateOf(p, s, ok, k), all[k];
      && AtOf(s'.held, k, d) == If(fate.Stays?, AtOf(s.held, k, d))
      && SumUid(s'.sent, uid).At(d) == SumUid(s.sent, uid).At(d) + If(fate.Reported?, AtOf(s.held, k, d))
      && SumUid(s'.dropped, uid).At(d) == SumUid(s.dropped, uid).At(d) + If(fate.Dropped?, AtOf(s.held, k, d))
  {
    if k in p.uids {
      CycleFates(p, s, order, rev, ok, k, d);
    } else {
      var above, below := CycleClosed(p, s, order, rev, ok);
      AbsentOnBooks(p, all, s, ok, above, below, k);
      hide Cycle, SplitOf, ReportedNow, DroppedNow, SumUid, Tracked, FateOf, Enumerates, IsReverse;
      HeldByFate(p, s, ok, k, d);
      SumUidConcat(s.sent, ReportedNow(p, s, ok, above), all[k]);
      SumUidConcat(s.dropped, DroppedNow(p, s, ok, above + below), all[k]);
    }
  }

  lemma AbsentOnBooks(p: Setup, all: map<Key, int>, s: Pipeline, ok: bool, above: seq<Key>, below: seq<Key>, k: Key)
    requires SplitOf(p, s.held, above, below) && PartOf(p.uids, all) && Tracked(all, k) && k !in p.uids
    requires Covered(s.held, p.uids)
    ensures SumUid(ReportedNow(p, s, ok, above), all[k]) == ZERO
      && SumUid(DroppedNow(p, s, ok, above + below), all[k]) == ZERO
    ensures forall d :: AtOf(s.held, k, d) == 0
  {
    assert !Hot(s.held, k);
    OtherUid(s.held, p.uids, above, all[k]);
    OtherUid(s.held, p.uids, above + below, all[k]);
  }

  // ---------------------------------------------------------------- rounds and runs

  predicate PartOf(some: map<Key, int>, all: map<Key, int>) {
    forall k :: k in some ==> k in all && all[k] == some[k]
  }

  /** What happens up to and in one reporting cycle. Users are deleted from the core, with their counters,
      between the traffic counted `before` and `after`; the live uid map, the user list and the report
      threshold of the node info are then what they are; accumulators are forgotten with deleted users and on
      a reload; the cycle runs; a speed check drains with some threshold. */
  datatype Round = Round(before: Counters, gone: set<Key>, after: Counters, uids: map<Key, int>, names: map<int, Uuid>,
                         threshold: int, forgot: set<Uuid>, order: seq<Key>, rev: map<int, Key>, ok: bool, drain: int)

  /** `live` is the uid map; `taken` and `lost` count the bytes drained from the dynamic accumulator and
      forgotten with it; `answers` are the panel's. */
  datatype State = State(p: Pipeline, live: map<Key, int>, taken: map<Uuid, int>, lost: map<Uuid, int>,
                         answers: seq<bool>)

  const START := State(Pipeline(map[], 0, [], [], map[]), map[], map[], map[], [])

  predicate Trips(dyn: map<Uuid, int>, drain: int, u: Uuid) {
    drain > 0 && u in dyn && dyn[u] >= drain
  }

  /** Takes entries out of the accumulator and adds them to a ledger. */
  function Moved(ledger: map<Uuid, int>, dyn: map<Uuid, int>, out: set<Uuid>): map<Uuid, int> {
    ledger + map u | u in dyn :: DynGet(ledger, u) + if u in out then dyn[u] else 0
  }

  function Tripped(dyn: map<Uuid, int>, drain: int): set<Uuid> {
    set u | u in dyn && Trips(dyn, drain, u)
  }

  function Forget(s: State, forgot: set<Uuid>): State {
    s.(p := s.p.(dyn := s.p.dyn - forgot), lost := Moved(s.lost, s.p.dyn, forgot))
  }

  function SpeedCheck(s: State, drain: int): State {
    var out := Tripped(s.p.dyn, drain);
    s.(p := s.p.(dyn := s.p.dyn - out), taken := Moved(s.taken, s.p.dyn, out))
  }

  /** The counters a cycle meets. */
  function Counted(held: Counters, r: Round): Counters {
    Merge(Merge(held, r.before) - r.gone, r.after)
  }

  /** The controller's settings with the uid map, the user list and the threshold of a round. */
  function Now(p: Setup, r: Round): Setup {
    p.(uids := r.uids, names := r.names, threshold := r.threshold)
  }

  /** The state the cycle of a round meets. */
  function Met(s: State, r: Round): State {
    var f := Forget(s, r.forgot);
    f.(p := f.p.(held := Counted(s.p.held, r)), live := r.uids)
  }

  function Play(p: Setup, s: State, r: Round): State {
    var m := Met(s, r);
    SpeedCheck(m.(p := Cycle(Now(p, r), m.p, r.order, r.rev, r.ok),
                  answers := Heard(m.answers, Asks(Now(p, r), m.p.held), r.ok)), r.drain)
  }

  function Heard(answers: seq<bool>, asked: bool, ok: bool): seq<bool> {
    if asked then answers + [ok] else answers
  }

  /** `p.uids` holds every user of the run under an id of its own. The live map is part of it, a user who
      left it was deleted, and traffic that is not deleted is counted for live users only. Order and
      reverse map are any the iteration may give. */
  ghost predicate ValidRound(p: Setup, s: State, r: Round) {
    && Enumerates(r.order, Counted(s.p.held, r))
    && IsReverse(r.rev, r.uids)
    && PartOf(r.uids, p.uids)
    && Covered(r.before, p.uids) && Covered(r.after, p.uids)
    && (forall k :: k in s.live && k !in r.uids ==> k in r.gone)
    && (forall k :: Hot(r.after, k) || (Hot(r.before, k) && k !in r.gone) ==> k in r.uids)
  }

  function Run(p: Setup, s: State, rs: seq<Round>): State {
    if rs == [] then s else Play(p, Run(p, s, rs[..|rs| - 1]), rs[|rs| - 1])
  }

  ghost predicate ValidRun(p: Setup, s: State, rs: seq<Round>) {
    rs == [] || (ValidRun(p, s, rs[..|rs| - 1]) && ValidRound(p, Run(p, s, rs[..|rs| - 1]), rs[|rs| - 1]))
  }

  lemma LastRound(p: Setup, rs: seq<Round>)
    requires ValidRun(p, START, rs)
    ensures rs == [] ==> Run(p, START, rs).p.dropped == [] && Run(p, START, rs).p.failures == 0
    ensures rs == [] ==> Run(p, START, rs).answers == []
    ensures rs != [] ==>
      var front, r := rs[..|rs| - 1], rs[|rs| - 1];
      ValidRun(p, START, front) && ValidRound(p, Run(p, START, front), r)
      && Run(p, START, rs) == Play(p, Run(p, START, front), r)
  {
  }

  /** Everything a user ever generated. */
  function Generated(rs: seq<Round>, k: Key, d: Direction): nat {
    if rs == [] then 0
    else Generated(rs[..|rs| - 1], k, d) + AtOf(rs[|rs| - 1].before, k, d) + AtOf(rs[|rs| - 1].after, k, d)
  }

  /** Everything deleted unreported with a user's counters: what they held at each deletion. */
  function Removed(p: Setup, rs: seq<Round>, k: Key, d: Direction): nat {
    if rs == [] then 0
    else
      var front, r := rs[..|rs| - 1], rs[|rs| - 1];
      Removed(p, front, k, d) + If(k in r.gone, AtOf(Merge(Run(p, START, front).p.held, r.before), k, d))
  }

  /** Every user with bytes is live, under an id no other user of the run has. */
  ghost predicate LiveHeld(p: Setup, s: State) {
    PartOf(s.live, p.uids) && Covered(s.p.held, p.uids) && forall k :: Hot(s.p.held, k) ==> k in s.live
  }

  lemma PartTracks(some: map<Key, int>, all: map<Key, int>, k: Key)
    requires PartOf(some, all) && k in some && Tracked(all, k)
    ensures Tracked(some, k)
  {
  }

  lemma RoundIsValidCycle(p: Setup, s: State, r: Round)
    requires LiveHeld(p, s) && ValidRound(p, s, r)
    ensures ValidCycle(Now(p, r), Met(s, r).p, r.order, r.rev) && LiveHeld(p, Met(s, r))
  {
    var held := Counted(s.p.held, r);
    forall k | Hot(held, k) ensures Tracked(p.uids, k) && k in r.uids && Tracked(r.uids, k) {
      assert Hot(r.after, k) || (k !in r.gone && (Hot(s.p.held, k) || Hot(r.before, k)));
      PartTracks(r.uids, p.uids, k);
    }
  }

  lemma RoundKeepsLive(p: Setup, s: State, r: Round)
    requires LiveHeld(p, s) && ValidRound(p, s, r)
    ensures LiveHeld(p, Play(p, s, r))
  {
    RoundIsValidCycle(p, s, r);
    var m := Met(s, r);
    var above, below := CycleClosed(Now(p, r), m.p, r.order, r.rev, r.ok);
    forall k | Hot(HeldAfter(Now(p, r), m.p, r.ok), k) ensures Hot(m.p.held, k) {
    }
  }

  lemma {:induction false} RunStaysLive(p: Setup, rs: seq<Round>)
    requires ValidRun(p, START, rs)
    ensures LiveHeld(p, Run(p, START, rs))
  {
    if rs != [] {
      RunStaysLive(p, rs[..|rs| - 1]);
      RoundKeepsLive(p, Run(p, START, rs[..|rs| - 1]), rs[|rs| - 1]);
    }
  }

  /** All bytes of a user that are on some book: held in the core, reported, or dropped. */
  function OnBooks(p: Setup, s: Pipeline, k: Key, d: Direction): nat
    requires k in p.uids
  {
    AtOf(s.held, k, d) + SumUid(s.sent, p.uids[k]).At(d) + SumUid(s.dropped, p.uids[k]).At(d)
  }

  lemma MergeAt(a: Counters, b: Counters, k: Key, d: Direction)
    ensures AtOf(Merge(a, b), k, d) == AtOf(a, k, d) + AtOf(b, k, d)
    ensures TotalOf(Merge(a, b), k) == TotalOf(a, k) + TotalOf(b, k)
  {
  }

  lemma CountedAt(held: Counters, r: Round, k: Key, d: Direction)
    ensures AtOf(Counted(held, r), k, d) + If(k in r.gone, AtOf(Merge(held, r.before), k, d))
         == AtOf(held, k, d) + AtOf(r.before, k, d) + AtOf(r.after, k, d)
    ensures TotalOf(Counted(held, r), k) <= TotalOf(held, k) + TotalOf(r.before, k) + TotalOf(r.after, k)
  {
    MergeAt(held, r.before, k, d);
    MergeAt(Merge(held, r.before) - r.gone, r.after, k, d);
    hide Merge;
  }

  lemma RoundBalances(p: Setup, s: State, r: Round, k: Key, d: Direction)
    requires LiveHeld(p, s) && ValidRound(p, s, r) && Tracked(p.uids, k)
    ensures OnBooks(p, Play(p, s, r).p, k, d) + If(k in r.gone, AtOf(Merge(s.p.held, r.before), k, d))
         == OnBooks(p, s.p, k, d) + AtOf(r.before, k, d) + AtOf(r.after, k, d)
  {
    RoundIsValidCycle(p, s, r);
    CountedAt(s.p.held, r, k, d);
    hide Counted, Merge;
    LiveFates(Now(p, r), p.uids, Met(s, r).p, r.order, r.rev, r.ok, k, d);
    hide Cycle;
  }

  /** Conservation, per user and per direction, after any run with any pattern of panel failures and any
      deletions: generated = held in core + reported + dropped + deleted unreported. */
  lemma {:induction false} Conservation(p: Setup, rs: seq<Round>, k: Key, d: Direction)
    requires ValidRun(p, START, rs) && Tracked(p.uids, k)
    ensures var s := Run(p, START, rs).p;
      Generated(rs, k, d)
        == AtOf(s.held, k, d) + SumUid(s.sent, p.uids[k]).At(d) + SumUid(s.dropped, p.uids[k]).At(d)
           + Removed(p, rs, k, d)
  {
    if rs != [] {
      var before, r := rs[..|rs| - 1], rs[|rs| - 1];
      Conservation(p, before, k, d);
      RunStaysLive(p, before);
      RoundBalances(p, Run(p, START, before), r, k, d);
    }
  }

  /** Refusals at the end of the panel's answers. */
  function TrailingFailures(answers: seq<bool>): nat {
    if answers == [] || answers[|answers| - 1] then 0 else TrailingFailures(answers[..|answers| - 1]) + 1
  }

  lemma RoundCountsFailures(p: Setup, s: State, r: Round)
    requires LiveHeld(p, s) && ValidRound(p, s, r)
    ensures var s' := Play(p, s, r); var asked := SomeoneAbove(Met(s, r).p.held, r.threshold);
      && s'.answers == Heard(s.answers, asked, r.ok)
      && (s'.p.dropped != s.p.dropped <==> asked && !r.ok && Exhausted(p.rollbacks, s.p.failures + 1))
      && s'.p.failures == if !asked then s.p.failures else if r.ok then 0 else s.p.failures + 1
  {
    RoundIsValidCycle(p, s, r);
    AsksIfAbove(Now(p, r), Met(s, r).p.held);
    DropsExactlyPastCap(Now(p, r), Met(s, r).p, r.order, r.rev, r.ok);
    hide Cycle, Counted, SomeoneAbove, Exhausted;
  }

  /** The failure counter is the number of consecutive refusals; cycles with nothing to report leave it. */
  lemma {:induction false} FailuresAreConsecutive(p: Setup, rs: seq<Round>)
    requires ValidRun(p, START, rs)
    ensures Run(p, START, rs).p.failures == TrailingFailures(Run(p, START, rs).answers)
  {
    hide Run, ValidRun, Play, Met, SomeoneAbove, Exhausted, ValidRound, LiveHeld;
    LastRound(p, rs);
    if rs != [] {
      var before, r := rs[..|rs| - 1], rs[|rs| - 1];
      FailuresAreConsecutive(p, before);
      RunStaysLive(p, before);
      RoundCountsFailures(p, Run(p, START, before), r);
      HeardFailures(Run(p, START, before).answers, r.ok);
    }
  }

  lemma HeardFailures(answers: seq<bool>, ok: bool)
    ensures TrailingFailures(answers + [ok]) == if ok then 0 else TrailingFailures(answers) + 1
  {
    assert (answers + [ok])[..|answers|] == answers;
  }

  /** After any run the next round drops bytes exactly when it asks the panel, is refused, and the refusals
      since the last success then are too many. */
  lemma DropsAfterRefusals(p: Setup, rs: seq<Round>, r: Round)
    requires ValidRun(p, START, rs) && ValidRound(p, Run(p, START, rs), r)
    ensures var s := Run(p, START, rs);
      Play(p, s, r).p.dropped != s.p.dropped <==>
        && SomeoneAbove(Met(s, r).p.held, r.threshold) && !r.ok
        && Exhausted(p.rollbacks, TrailingFailures(s.answers) + 1)
  {
    hide *;
    RunStaysLive(p, rs);
    FailuresAreConsecutive(p, rs);
    RoundCountsFailures(p, Run(p, START, rs), r);
  }

  /** A negative setting never drops anything. */
  lemma {:induction false} NegativeNeverDrops(p: Setup, rs: seq<Round>)
    requires ValidRun(p, START, rs) && p.rollbacks < 0
    ensures Run(p, START, rs).p.dropped == []
  {
    hide *;
    LastRound(p, rs);
    if rs != [] {
      NeverExhausted(p.rollbacks, TrailingFailures(Run(p, START, rs[..|rs| - 1]).answers) + 1);
      NegativeNeverDrops(p, rs[..|rs| - 1]);
      DropsAfterRefusals(p, rs[..|rs| - 1], rs[|rs| - 1]);
    }
  }

  /** The largest threshold of a run. */
  function Highest(rs: seq<Round>): (m: nat)
    ensures forall r :: r in rs ==> r.threshold <= m
  {
    if rs == [] then 0
    else
      assert rs == rs[..|rs| - 1] + [rs[|rs| - 1]];
      Max(rs[|rs| - 1].threshold, Highest(rs[..|rs| - 1]))
  }

  /** What may be held after a cycle with f consecutive failures, when the threshold was never above `top`
      and no round brought more than G new bytes. */
  function HeldBound(p: Setup, top: nat, f: int, G: nat): int {
    if Exhausted(p.rollbacks, f) then top else top + f * G
  }

  /** Held bytes within the bound. */
  predicate Within(p: Setup, top: nat, s: Pipeline, k: Key, G: nat) {
    s.failures >= 0 && TotalOf(s.held, k) <= HeldBound(p, top, s.failures, G)
  }

  lemma LowIsWithin(p: Setup, top: nat, f: nat, G: nat)
    ensures top <= HeldBound(p, top, f, G)
  {
    assert f * G >= 0;
  }

  lemma OneMoreFailure(p: Setup, top: nat, f: nat, G: nat)
    requires !ReportRollbackDecision(f + 1, p.rollbacks)
    ensures HeldBound(p, top, f, G) + G == HeldBound(p, top, f + 1, G)
  {
    assert (f + 1) * G == f * G + G;
  }

  /** A user's bytes end a cycle at or below the threshold, or the cycle failed and rolled them back. */
  lemma CycleLowersOrFails(p: Setup, s: Pipeline, ok: bool, k: Key)
    ensures var h := TotalOf(HeldAfter(p, s, ok), k);
      || h <= Max(p.threshold, 0)
      || (h == TotalOf(s.held, k) && Asks(p, s.held) && !ok && !ReportRollbackDecision(s.failures + 1, p.rollbacks))
  {
  }

  lemma CycleKeepsBound(p: Setup, top: nat, s: Pipeline, s': Pipeline, ok: bool, above: seq<Key>, below: seq<Key>,
                        k: Key, G: nat)
    requires Closed(p, s, s', ok, above, below) && p.threshold <= top
    requires s.failures >= 0 && TotalOf(s.held, k) <= HeldBound(p, top, s.failures, G) + G
    ensures Within(p, top, s', k, G)
  {
    CycleLowersOrFails(p, s, ok, k);
    LowIsWithin(p, top, s'.failures, G);
    if TotalOf(s'.held, k) > Max(p.threshold, 0) {
      OneMoreFailure(p, top, s.failures, G);
    }
  }

  lemma RoundKeepsBound(p: Setup, top: nat, s: State, r: Round, k: Key, G: nat)
    requires LiveHeld(p, s) && ValidRound(p, s, r) && r.threshold <= top
    requires Within(p, top, s.p, k, G) && TotalOf(r.before, k) + TotalOf(r.after, k) <= G
    ensures Within(p, top, Play(p, s, r).p, k, G)
  {
    RoundIsValidCycle(p, s, r);
    CountedAt(s.p.held, r, k, Up);
    var q, m := Now(p, r), Met(s, r).p;
    var above, below := CycleClosed(q, m, r.order, r.rev, r.ok);
    var c := Cycle(q, m, r.order, r.rev, r.ok);
    CycleKeepsBound(q, top, m, c, r.ok, above, below, k, G);
    assert Play(p, s, r).p.held == c.held && Play(p, s, r).p.failures == c.failures;
  }

  lemma {:induction false} RunKeepsBound(p: Setup, top: nat, rs: seq<Round>, k: Key, G: nat)
    requires ValidRun(p, START, rs) && forall r :: r in rs ==> r.threshold <= top
    requires forall i :: 0 <= i < |rs| ==> TotalOf(rs[i].before, k) + TotalOf(rs[i].after, k) <= G
    ensures Within(p, top, Run(p, START, rs).p, k, G)
  {
    if rs != [] {
      var before, r := rs[..|rs| - 1], rs[|rs| - 1];
      assert r in rs;
      RunKeepsBound(p, top, before, k, G);
      RunStaysLive(p, before);
      RoundKeepsBound(p, top, Run(p, START, before), r, k, G);
    }
  }

  /** The accumulator in the core stays bounded however long the panel is away: by the largest threshold so
      far and what came in since the last success, and once refusals exhaust the setting by the threshold. */
  lemma HeldIsBounded(p: Setup, rs: seq<Round>, k: Key, G: nat)
    requires ValidRun(p, START, rs)
    requires forall i :: 0 <= i < |rs| ==> TotalOf(rs[i].before, k) + TotalOf(rs[i].after, k) <= G
    ensures var s := Run(p, START, rs); var f := TrailingFailures(s.answers);
      k in s.p.held ==>
        s.p.held[k].up + s.p.held[k].down <= Highest(rs) + if Exhausted(p.rollbacks, f) then 0 else f * G
  {
    RunKeepsBound(p, Highest(rs), rs, k, G);
    FailuresAreConsecutive(p, rs);
    hide Run, ValidRun;
  }

  // ---------------------------------------------------------------- the dynamic accumulator

  /** Bytes of the entries whose uid the user list names uuid u. */
  function SumUuid(names: map<int, Uuid>, es: seq<Entry>, u: Uuid): nat {
    if es == [] then 0
    else
      var last := es[|es| - 1];
      SumUuid(names, es[..|es| - 1], u)
      + (if last.uid in names && names[last.uid] == u then last.bytes.up + last.bytes.down else 0)
  }

  lemma {:induction false} SumUuidConcat(names: map<int, Uuid>, a: seq<Entry>, b: seq<Entry>, u: Uuid)
    ensures SumUuid(names, a + b, u) == SumUuid(names, a, u) + SumUuid(names, b, u)
  {
    if b == [] {
      assert a + b == a;
    } else {
      assert (a + b)[..|a + b| - 1] == a + b[..|b| - 1];
      SumUuidConcat(names, a, b[..|b| - 1], u);
    }
  }

  lemma {:induction false} FeedAdds(m: map<Uuid, int>, names: map<int, Uuid>, es: seq<Entry>, u: Uuid)
    ensures DynGet(Feed(m, names, es), u) == DynGet(m, u) + SumUuid(names, es, u)
  {
    if es != [] {
      FeedAdds(m, names, es[..|es| - 1], u);
    }
  }

  lemma MovedAt(ledger: map<Uuid, int>, dyn: map<Uuid, int>, out: set<Uuid>, u: Uuid)
    ensures DynGet(dyn - out, u) + DynGet(Moved(ledger, dyn, out), u) == DynGet(dyn, u) + DynGet(ledger, u)
  {
  }

  /** Either nothing was reported, or exactly the entries above the threshold were reported and fed. */
  lemma CycleFeeds(p: Setup, s: Pipeline, order: seq<Key>, rev: map<int, Key>, ok: bool, u: Uuid)
    requires p.dynamic
    ensures var s' := Cycle(p, s, order, rev, ok);
      DynGet(s'.dyn, u) - SumUuid(p.names, s'.sent, u) == DynGet(s.dyn, u) - SumUuid(p.names, s.sent, u)
  {
    var above := Pass(Slice(s.held, p.uids, order), Max(p.threshold, 0), true);
    if above != [] && ok {
      FeedAdds(s.dyn, p.names, above, u);
      SumUuidConcat(p.names, s.sent, above, u);
    }
  }

  /** The reported bytes of a user, each counted under the name the user list gave its id at that time. */
  function Credited(p: Setup, rs: seq<Round>, u: Uuid): int {
    if rs == [] then 0
    else
      var front, r := rs[..|rs| - 1], rs[|rs| - 1];
      var was, now := Run(p, START, front), Run(p, START, rs);
      Credited(p, front, u) + SumUuid(r.names, now.p.sent, u) - SumUuid(r.names, was.p.sent, u)
  }

  /** With the dynamic limit on, the accumulator, what speed checks took from it and what was forgotten with
      deleted users or on a reload hold every reported byte of a user known at the time exactly once, across
      failures, rollbacks, retries and changes of the user list, and no dropped byte. */
  lemma {:induction false} DynamicCountsReportedOnce(p: Setup, rs: seq<Round>, u: Uuid)
    requires p.dynamic
    ensures var s := Run(p, START, rs);
      DynGet(s.p.dyn, u) + DynGet(s.taken, u) + DynGet(s.lost, u) == Credited(p, rs, u)
  {
    if rs != [] {
      var before, r := rs[..|rs| - 1], rs[|rs| - 1];
      DynamicCountsReportedOnce(p, before, u);
      RoundCountsOnce(p, Run(p, START, before), r, u);
    }
  }

  lemma RoundCountsOnce(p: Setup, s: State, r: Round, u: Uuid)
    requires p.dynamic
    ensures var s' := Play(p, s, r);
      DynGet(s'.p.dyn, u) + DynGet(s'.taken, u) + DynGet(s'.lost, u) - SumUuid(r.names, s'.p.sent, u)
      == DynGet(s.p.dyn, u) + DynGet(s.taken, u) + DynGet(s.lost, u) - SumUuid(r.names, s.p.sent, u)
  {
    var m := Met(s, r);
    var c := Cycle(Now(p, r), m.p, r.order, r.rev, r.ok);
    MovedAt(s.lost, s.p.dyn, r.forgot, u);
    CycleFeeds(Now(p, r), m.p, r.order, r.rev, r.ok, u);
    MovedAt(s.taken, c.dyn, Tripped(c.dyn, r.drain), u);
    hide Cycle, Moved, Tripped;
  }
}
