/** Reloading the whole process (cmd/reload.go, and its caller in cmd/server.go): the runtime, a core and a
    node runner, is swapped for one built from a new configuration, restored when that fails, or lost. */
module ProcessReload {
  import opened Base

  // ---------------------------------------------------------------- what is built and closed

  datatype Config = Config(text: string)

  /** Cores and runners are numbered in the order they are built. A runner may be built and yet not start. */
  datatype Event =
    | CoreUp(core: nat, conf: Config)
    | CoreDown(core: nat)
    | RunnerBuilt(runner: nat, core: nat, conf: Config, started: bool)
    | RunnerDown(runner: nat)

  /** A runner as the interface value reload is given: no value, a node, or a typed pointer to no node,
      which does not compare equal to nil. */
  datatype Runner = NoRunner | NilNode | Node(id: nat)

  /** How starting the nodes ends: started, or failed with no runner, or failed with a runner that has
      already rolled its controllers back. */
  datatype NodesHow = Started | FailedBare | FailedBuilt

  /** What the factories answer during one reload: new core, new nodes, old core again, old nodes again. */
  datatype Script = Script(newCore: bool, newNodes: NodesHow, oldCore: bool, oldNodes: NodesHow)

  datatype Outcome = Succeeded | KeptOld | RestoredOld | Offline | Crashed

  /** Everything built and closed so far. */
  datatype History = History(log: seq<Event>, cores: nat, runners: nat)

  function WithCore(h: History, c: Config): History {
    History(h.log + [CoreUp(h.cores, c)], h.cores + 1, h.runners)
  }

  function WithNodes(h: History, core: nat, c: Config, how: NodesHow): History {
    if how.FailedBare? then h
    else History(h.log + [RunnerBuilt(h.runners, core, c, how.Started?)], h.cores, h.runners + 1)
  }

  function RunnerOf(h: History, how: NodesHow): Runner {
    if how.FailedBare? then NoRunner else Node(h.runners)
  }

  function WithoutCore(h: History, core: Option<nat>): History {
    if core.None? then h else h.(log := h.log + [CoreDown(core.value)])
  }

  function WithoutRunner(h: History, r: Runner): History {
    if r.Node? then h.(log := h.log + [RunnerDown(r.id)]) else h
  }

  // ---------------------------------------------------------------- one reload as a value

  datatype Result = Result(history: History, core: Option<nat>, nodes: Runner, outcome: Outcome)

  /** The nodes of configuration c started on a core just built, or both closed again. */
  function NodesOn(h: History, core: nat, c: Config, how: NodesHow, good: Outcome): Result {
    var built := WithNodes(h, core, c, how);
    if how.Started? then Result(built, Some(core), RunnerOf(h, how), good)
    else Result(WithoutCore(WithoutRunner(built, RunnerOf(h, how)), Some(core)), None, NoRunner, Offline)
  }

  function Restore(h: History, oldC: Config, s: Script): Result {
    if !s.oldCore then Result(h, None, NoRunner, Offline)
    else NodesOn(WithCore(h, oldC), h.cores, oldC, s.oldNodes, RestoredOld)
  }

  /** Closing a nil node dereferences it: the process dies with the new core up. */
  function Reload(h: History, oldC: Config, newC: Config, core: Option<nat>, nodes: Runner, s: Script): Result {
    if !s.newCore then Result(h, core, nodes, KeptOld)
    else if nodes.NilNode? then Result(WithCore(h, newC), core, nodes, Crashed)
    else
      var down := WithoutCore(WithoutRunner(WithCore(h, newC), nodes), core);
      var up := NodesOn(down, h.cores, newC, s.newNodes, Succeeded);
      if up.outcome.Succeeded? then up else Restore(up.history, oldC, s)
  }

  // ---------------------------------------------------------------- the orchestrator

  /** The two factories, whose answers are given. */
  class Builders {
    var history: History

    constructor ()
      ensures history == History([], 0, 0)
    {
      history := History([], 0, 0);
    }

    method NewCore(c: Config, ok: bool) returns (core: Option<nat>)
      modifies this
      ensures core == (if ok then Some(old(history).cores) else None)
      ensures history == if ok then WithCore(old(history), c) else old(history)
    {
      if !ok {
        return None;
      }
      core := Some(history.cores);
      history := History(history.log + [CoreUp(history.cores, c)], history.cores + 1, history.runners);
    }

    method NewNodes(c: Config, core: nat, how: NodesHow) returns (r: Runner, ok: bool)
      modifies this
      ensures ok == how.Started? && r == RunnerOf(old(history), how)
      ensures history == WithNodes(old(history), core, c, how)
    {
      if how.FailedBare? {
        return NoRunner, false;
      }
      r, ok := Node(history.runners), how.Started?;
      history := History(history.log + [RunnerBuilt(history.runners, core, c, ok)], history.cores, history.runners + 1);
    }

    method CloseCore(core: nat)
      modifies this
      ensures history == WithoutCore(old(history), Some(core))
    {
      history := history.(log := history.log + [CoreDown(core)]);
    }

    /** Closing a runner; a nil node is dereferenced. */
    method CloseRunner(r: Runner) returns (alive: bool)
      modifies this
      ensures alive == !r.NilNode? && history == WithoutRunner(old(history), r)
    {
      match r
      case Node(id) =>
        history := history.(log := history.log + [RunnerDown(id)]);
        return true;
      case NilNode =>
        return false;
      case NoRunner =>
        return true;
    }
  }

  /** The three phases: build the new core, tear the old runtime down, start the new nodes; and when
      those fail, tear the new runtime down and rebuild the old one. */
  method ReloadProcess(b: Builders, oldC: Config, newC: Config, oldCore: Option<nat>, oldNodes: Runner, s: Script)
    returns (core: Option<nat>, nodes: Runner, outcome: Outcome)
    modifies b
    ensures Result(b.history, core, nodes, outcome) == Reload(old(b.history), oldC, newC, oldCore, oldNodes, s)
  {
    var newCore := b.NewCore(newC, s.newCore);
    if newCore.None? {
      return oldCore, oldNodes, KeptOld;
    }
    if oldNodes != NoRunner {
      var alive := b.CloseRunner(oldNodes);
      if !alive {
        return oldCore, oldNodes, Crashed;
      }
    }
    if oldCore.Some? {
      b.CloseCore(oldCore.value);
    }
    var newNodes, ok := b.NewNodes(newC, newCore.value, s.newNodes);
    if ok {
      return newCore, newNodes, Succeeded;
    }
    if newNodes != NoRunner {
      var alive := b.CloseRunner(newNodes);
    }
    b.CloseCore(newCore.value);
    var restoredCore := b.NewCore(oldC, s.oldCore);
    if restoredCore.None? {
      return None, NoRunner, Offline;
    }
    var restoredNodes;
    restoredNodes, ok := b.NewNodes(oldC, restoredCore.value, s.oldNodes);
    if !ok {
      if restoredNodes != NoRunner {
        var alive := b.CloseRunner(restoredNodes);
      }
      b.CloseCore(restoredCore.value);
      return None, NoRunner, Offline;
    }
    return restoredCore, restoredNodes, RestoredOld;
  }

  // ---------------------------------------------------------------- the caller

  /** How the caller keeps the runner between reloads: as the interface value it was given, or, as the
      server command does, in a variable of the node pointer type. */
  datatype Keeper = Interface | Pointer

  /** What such a variable holding this runner is handed to reload as. */
  function Kept(k: Keeper, r: Runner): Runner {
    if k.Pointer? && r.NoRunner? then NilNode else r
  }

  datatype State = State(history: History, core: Option<nat>, nodes: Runner, conf: Config, crashed: bool)

  datatype Change = Change(conf: Config, script: Script)

  /** The first boot, when it succeeds. */
  function Booted(c: Config): State {
    State(History([CoreUp(0, c), RunnerBuilt(0, 0, c, true)], 1, 1), Some(0), Node(0), c, false)
  }

  /** One change of the configuration file. */
  function Step(k: Keeper, st: State, ch: Change): State {
    if st.crashed then st
    else
      var r := Reload(st.history, st.conf, ch.conf, st.core, st.nodes, ch.script);
      State(r.history, r.core, Kept(k, r.nodes), if r.outcome.Succeeded? then ch.conf else st.conf, r.outcome.Crashed?)
  }

  function Run(k: Keeper, st: State, changes: seq<Change>): State {
    if changes == [] then st else Step(k, Run(k, st, changes[..|changes| - 1]), changes[|changes| - 1])
  }

  /** The server command's variables. */
  class Server {
    const builders: Builders
    var vc: Option<nat>
    var nodes: Option<nat>
    var c: Config
    var crashed: bool

    ghost function Now(): State
      reads this, builders
    {
      State(builders.history, vc, if nodes.Some? then Node(nodes.value) else NilNode, c, crashed)
    }

    constructor (conf: Config)
      ensures fresh(builders) && Now() == Booted(conf)
    {
      builders := new Builders();
      vc, nodes, c, crashed := Some(0), Some(0), conf, false;
      new;
      var core := builders.NewCore(conf, true);
      var r, ok := builders.NewNodes(conf, 0, Started);
    }

    /** Called for each changed configuration file, one at a time. */
    method OnChange(newC: Config, s: Script)
      requires !crashed
      modifies this, builders
      ensures Now() == Step(Pointer, old(Now()), Change(newC, s))
    {
      var held := if nodes.Some? then Node(nodes.value) else NilNode;
      var newCore, newNodes, outcome := ReloadProcess(builders, c, newC, vc, held, s);
      match outcome
      case Succeeded =>
        vc, nodes, c := newCore, Some(newNodes.id), newC;
      case KeptOld =>
      case RestoredOld =>
        vc, nodes := newCore, Some(newNodes.id);
      case Offline =>
        vc, nodes := None, None;
      case Crashed =>
        crashed := true;
    }
  }

  // ---------------------------------------------------------------- an independent observer of the log

  datatype Serving = Serving(core: nat, conf: Config)

  /** What an observer of builds and closes knows: the cores and runners that are open, those ever built,
      and whether nothing went wrong so far. */
  datatype Ledger = Ledger(clean: bool, cores: map<nat, Config>, runners: map<nat, Serving>,
                           everCores: set<nat>, everRunners: set<nat>)

  const BLANK := Ledger(true, map[], map[], {}, {})

  /** Nothing is built twice or closed while not open; a runner is built only on an open core and while no
      other runner is open; a core is closed only when no runner is open on it. */
  function Observe(l: Ledger, e: Event): Ledger {
    match e
    case CoreUp(c, conf) =>
      Ledger(l.clean && c !in l.everCores, l.cores[c := conf], l.runners, l.everCores + {c}, l.everRunners)
    case CoreDown(c) =>
      Ledger(l.clean && c in l.cores && (forall r :: r in l.runners ==> l.runners[r].core != c),
             l.cores - {c}, l.runners, l.everCores, l.everRunners)
    case RunnerBuilt(r, c, conf, started) =>
      Ledger(l.clean && r !in l.everRunners && l.runners == map[] && c in l.cores && l.cores[c] == conf,
             l.cores, l.runners[r := Serving(c, conf)], l.everCores, l.everRunners + {r})
    case RunnerDown(r) =>
      Ledger(l.clean && r in l.runners, l.cores, l.runners - {r}, l.everCores, l.everRunners)
  }

  function LedgerOf(log: seq<Event>): Ledger {
    if log == [] then BLANK else Observe(LedgerOf(log[..|log| - 1]), log[|log| - 1])
  }

  lemma LedgerStep(log: seq<Event>, e: Event)
    ensures LedgerOf(log + [e]) == Observe(LedgerOf(log), e)
  {
    assert (log + [e])[..|log|] == log;
  }

  /** The log is clean and exactly these are open. */
  ghost predicate Holds(h: History, cores: map<nat, Config>, runners: map<nat, Serving>) {
    var l := LedgerOf(h.log);
    && l.clean && l.cores == cores && l.runners == runners
    && (forall c: nat :: c in l.everCores <==> c < h.cores)
    && (forall r: nat :: r in l.everRunners <==> r < h.runners)
  }

  lemma CoreUpHolds(h: History, c: Config, cores: map<nat, Config>, runners: map<nat, Serving>)
    requires Holds(h, cores, runners)
    ensures Holds(WithCore(h, c), cores[h.cores := c], runners)
  {
    LedgerStep(h.log, CoreUp(h.cores, c));
  }

  lemma CoreDownHolds(h: History, core: nat, cores: map<nat, Config>)
    requires Holds(h, cores, map[]) && core in cores
    ensures Holds(WithoutCore(h, Some(core)), cores - {core}, map[])
  {
    LedgerStep(h.log, CoreDown(core));
  }

  lemma RunnerUpHolds(h: History, core: nat, c: Config, how: NodesHow, cores: map<nat, Config>)
    requires Holds(h, cores, map[]) && core in cores && cores[core] == c
    ensures Holds(WithNodes(h, core, c, how), cores,
                  if how.FailedBare? then map[] else map[h.runners := Serving(core, c)])
  {
    LedgerStep(h.log, RunnerBuilt(h.runners, core, c, how.Started?));
  }

  lemma RunnerDownHolds(h: History, r: nat, cores: map<nat, Config>, s: Serving)
    requires Holds(h, cores, map[r := s])
    ensures Holds(WithoutRunner(h, Node(r)), cores, map[])
  {
    LedgerStep(h.log, RunnerDown(r));
    assert map[r := s] - {r} == map[];
  }

  // ---------------------------------------------------------------- over all runs

  ghost predicate LeftOver(h: History, c: Config)
    requires h.cores > 0
  {
    Holds(h, map[h.cores - 1 := c], map[])
  }

  /** Clean, and open are exactly the core and the runner held, both built from the configuration held;
      after a crash, the core that was being tried. */
  ghost predicate Inv(st: State) {
    if st.crashed then st.history.cores > 0 && exists c :: LeftOver(st.history, c)
    else if st.core.Some? then
      st.nodes.Node? && Holds(st.history, map[st.core.value := st.conf],
                              map[st.nodes.id := Serving(st.core.value, st.conf)])
    else !st.nodes.Node? && Holds(st.history, map[], map[])
  }

  lemma NodesOnHolds(h: History, core: nat, c: Config, how: NodesHow, good: Outcome)
    requires Holds(h, map[core := c], map[])
    ensures var r := NodesOn(h, core, c, how, good);
      if how.Started? then r.nodes.Node? && Holds(r.history, map[core := c], map[r.nodes.id := Serving(core, c)])
      else Holds(r.history, map[], map[])
  {
    hide Holds;
    RunnerUpHolds(h, core, c, how, map[core := c]);
    var built := WithNodes(h, core, c, how);
    if how.FailedBuilt? {
      RunnerDownHolds(built, h.runners, map[core := c], Serving(core, c));
    }
    if !how.Started? {
      CoreDownHolds(WithoutRunner(built, RunnerOf(h, how)), core, map[core := c]);
      assert map[core := c] - {core} == map[];
    }
  }

  lemma RestoreHolds(h: History, oldC: Config, s: Script)
    requires Holds(h, map[], map[])
    ensures var r := Restore(h, oldC, s);
      if r.outcome.RestoredOld?
      then r.core.Some? && r.nodes.Node?
          && Holds(r.history, map[r.core.value := oldC], map[r.nodes.id := Serving(r.core.value, oldC)])
      else r.outcome.Offline? && r.core.None? && r.nodes.NoRunner? && Holds(r.history, map[], map[])
  {
    hide Holds;
    if s.oldCore {
      CoreUpHolds(h, oldC, map[], map[]);
      assert map[][h.cores := oldC] == map[h.cores := oldC];
      NodesOnHolds(WithCore(h, oldC), h.cores, oldC, s.oldNodes, RestoredOld);
    }
  }

  /** The old runtime comes down, runner first, and only the new core is left. */
  lemma TornDownHolds(st: State, newC: Config)
    requires Inv(st) && !st.crashed && !st.nodes.NilNode?
    ensures Holds(WithoutCore(WithoutRunner(WithCore(st.history, newC), st.nodes), st.core),
                  map[st.history.cores := newC], map[])
  {
    var h, new_ := st.history, st.history.cores;
    if st.core.Some? {
      var core := st.core.value;
      assert core in LedgerOf(h.log).cores;
      NeverReused(h, core);
      hide Holds;
      CoreUpHolds(h, newC, map[core := st.conf], map[st.nodes.id := Serving(core, st.conf)]);
      var both := map[core := st.conf][new_ := newC];
      RunnerDownHolds(WithCore(h, newC), st.nodes.id, both, Serving(core, st.conf));
      CoreDownHolds(WithoutRunner(WithCore(h, newC), st.nodes), core, both);
      assert both - {core} == map[new_ := newC];
    } else {
      hide Holds;
      CoreUpHolds(h, newC, map[], map[]);
      assert map[][new_ := newC] == map[new_ := newC];
    }
  }

  lemma {:induction false} OpenWereBuilt(log: seq<Event>)
    requires LedgerOf(log).clean
    ensures LedgerOf(log).cores.Keys <= LedgerOf(log).everCores
    ensures LedgerOf(log).runners.Keys <= LedgerOf(log).everRunners
  {
    if log != [] {
      OpenWereBuilt(log[..|log| - 1]);
    }
  }

  lemma NeverReused(h: History, core: nat)
    requires var l := LedgerOf(h.log); l.clean && core in l.cores && forall c: nat :: c in l.everCores <==> c < h.cores
    ensures core != h.cores
  {
    OpenWereBuilt(h.log);
    assert core in LedgerOf(h.log).everCores;
  }

  lemma StepKeeps(k: Keeper, st: State, ch: Change)
    requires Inv(st)
    ensures Inv(Step(k, st, ch))
  {
    if !st.crashed && ch.script.newCore {
      var h, s := st.history, ch.script;
      if st.nodes.NilNode? {
        CoreUpHolds(h, ch.conf, map[], map[]);
        assert map[][h.cores := ch.conf] == map[h.cores := ch.conf];
        assert LeftOver(WithCore(h, ch.conf), ch.conf);
      } else {
        TornDownHolds(st, ch.conf);
        hide Holds;
        var down := WithoutCore(WithoutRunner(WithCore(h, ch.conf), st.nodes), st.core);
        NodesOnHolds(down, h.cores, ch.conf, s.newNodes, Succeeded);
        if !s.newNodes.Started? {
          RestoreHolds(NodesOn(down, h.cores, ch.conf, s.newNodes, Succeeded).history, st.conf, s);
        }
      }
    }
  }

  lemma BootHolds(c: Config)
    ensures Inv(Booted(c))
  {
    var h := History([], 0, 0);
    CoreUpHolds(h, c, map[], map[]);
    assert map[][0 := c] == map[0 := c];
    RunnerUpHolds(WithCore(h, c), 0, c, Started, map[0 := c]);
    assert WithNodes(WithCore(h, c), 0, c, Started) == Booted(c).history;
  }

  /** Whatever the factories answer and however often the configuration changes: nothing is closed twice
      or left open beside what is held, runners close before their core, never two runners at once. */
  lemma {:induction false} EveryRunIsClean(k: Keeper, c: Config, changes: seq<Change>)
    ensures Inv(Run(k, Booted(c), changes))
  {
    if changes == [] {
      BootHolds(c);
    } else {
      EveryRunIsClean(k, c, changes[..|changes| - 1]);
      StepKeeps(k, Run(k, Booted(c), changes[..|changes| - 1]), changes[|changes| - 1]);
    }
  }

  // ---------------------------------------------------------------- counting closes

  function Count(log: seq<Event>, e: Event): nat {
    if log == [] then 0 else Count(log[..|log| - 1], e) + if log[|log| - 1] == e then 1 else 0
  }

  lemma {:induction false} ClosedOnce(log: seq<Event>, c: nat, r: nat)
    requires LedgerOf(log).clean
    ensures var l := LedgerOf(log);
      && Count(log, CoreDown(c)) == (if c in l.everCores && c !in l.cores then 1 else 0)
      && Count(log, RunnerDown(r)) == (if r in l.everRunners && r !in l.runners then 1 else 0)
  {
    if log != [] {
      ClosedOnce(log[..|log| - 1], c, r);
      OpenWereBuilt(log[..|log| - 1]);
    }
  }

  /** Every core and every runner ever built is the one held, or was closed exactly once; the held ones
      were not closed. (After a crash the core that was being tried is the one left open.) */
  lemma HeldOrClosedOnce(k: Keeper, c: Config, changes: seq<Change>, core: nat, r: nat)
    ensures var st := Run(k, Booted(c), changes); var log := st.history.log;
      var left := if st.crashed then Some(st.history.cores - 1) else st.core;
      && (core < st.history.cores ==> Count(log, CoreDown(core)) == if left == Some(core) then 0 else 1)
      && (r < st.history.runners ==> Count(log, RunnerDown(r)) == if !st.crashed && st.nodes == Node(r) then 0 else 1)
  {
    EveryRunIsClean(k, c, changes);
    ClosedOnce(Run(k, Booted(c), changes).history.log, core, r);
  }

  // ---------------------------------------------------------------- what the outcome says

  /** After one reload of a clean state: which configuration is live, as the outcome says. */
  lemma OutcomeTells(st: State, newC: Config, s: Script)
    requires Inv(st) && !st.crashed
    ensures var r := Reload(st.history, st.conf, newC, st.core, st.nodes, s);
      match r.outcome
      case Succeeded =>
        r.core.Some? && r.nodes.Node?
            && Holds(r.history, map[r.core.value := newC], map[r.nodes.id := Serving(r.core.value, newC)])
      case RestoredOld =>
        && r.core.Some? && r.nodes.Node?
        && Holds(r.history, map[r.core.value := st.conf], map[r.nodes.id := Serving(r.core.value, st.conf)])
        && r.core.value >= st.history.cores && r.nodes.id >= st.history.runners
      case KeptOld => r.history == st.history && r.core == st.core && r.nodes == st.nodes
      case Offline => r.core.None? && r.nodes.NoRunner? && Holds(r.history, map[], map[])
      case Crashed => st.nodes.NilNode?
  {
    StepKeeps(Interface, st, Change(newC, s));
  }

  /** The outcome of a reload of a running process, by the first factory call that fails. */
  lemma OutcomeIs(st: State, newC: Config, s: Script)
    requires !st.nodes.NilNode?
    ensures var o := Reload(st.history, st.conf, newC, st.core, st.nodes, s).outcome;
      && (o.KeptOld? <==> !s.newCore)
      && (o.Succeeded? <==> s.newCore && s.newNodes.Started?)
      && (o.RestoredOld? <==> s.newCore && !s.newNodes.Started? && s.oldCore && s.oldNodes.Started?)
      && (o.Offline? <==> s.newCore && !s.newNodes.Started? && !(s.oldCore && s.oldNodes.Started?))
      && !o.Crashed?
  {
  }

  /** The configuration of the last reload that succeeded, or else the first one. */
  function LastGood(c: Config, changes: seq<Change>): Config {
    if changes == [] then c
    else
      var last := changes[|changes| - 1];
      if last.script.newCore && last.script.newNodes.Started? then last.conf
      else LastGood(c, changes[..|changes| - 1])
  }

  /** A caller that keeps the interface value never crashes, always holds the last configuration that came
      up, and comes back from being offline at the next reload whose factories succeed. */
  lemma {:induction false} NextReloadBoots(c: Config, changes: seq<Change>)
    ensures var st := Run(Interface, Booted(c), changes);
      && !st.crashed && !st.nodes.NilNode? && st.conf == LastGood(c, changes)
      && (changes != [] && changes[|changes| - 1].script.newCore && changes[|changes| - 1].script.newNodes.Started? ==>
            st.core.Some? && st.nodes.Node?)
  {
    if changes != [] {
      NextReloadBoots(c, changes[..|changes| - 1]);
      var before, last := Run(Interface, Booted(c), changes[..|changes| - 1]), changes[|changes| - 1];
      OutcomeIs(before, last.conf, last.script);
    }
  }

  // ---------------------------------------------------------------- the server command's variable

  /** Once the server command is offline it stays without a runtime whatever the factories answer: a change
      whose core cannot be built leaves it offline, and any other one crashes it. */
  lemma {:induction false} OfflineForGood(st: State, changes: seq<Change>)
    requires !st.crashed && st.nodes.NilNode? && st.core.None?
    ensures var end := Run(Pointer, st, changes);
      && end.core.None? && !end.nodes.Node?
      && (end.crashed <==> exists i :: 0 <= i < |changes| && changes[i].script.newCore)
  {
    if changes != [] {
      var n := |changes| - 1;
      OfflineForGood(st, changes[..n]);
      var before := Run(Pointer, st, changes[..n]);
      assert before.nodes.NilNode? by {
        StaysNil(st, changes[..n]);
      }
      if i :| 0 <= i < n && changes[i].script.newCore {
        assert changes[..n][i].script.newCore;
      }
      if before.crashed {
        var j :| 0 <= j < n && changes[..n][j].script.newCore;
        assert changes[j].script.newCore;
      }
    }
  }

  lemma {:induction false} StaysNil(st: State, changes: seq<Change>)
    requires st.nodes.NilNode?
    ensures Run(Pointer, st, changes).nodes.NilNode?
  {
    if changes != [] {
      StaysNil(st, changes[..|changes| - 1]);
    }
  }

  lemma {:induction false} PointerHolds(c: Config, changes: seq<Change>)
    ensures var st := Run(Pointer, Booted(c), changes); Inv(st) && st.nodes != NoRunner
  {
    EveryRunIsClean(Pointer, c, changes);
    if changes != [] {
      PointerHolds(c, changes[..|changes| - 1]);
    }
  }

  /** In every run of the server command a change crashes it exactly when it is offline and the new core
      can be built; a caller that keeps the interface value goes on there, and fares the same otherwise. */
  lemma CrashesExactly(c: Config, changes: seq<Change>, ch: Change)
    requires !Run(Pointer, Booted(c), changes).crashed
    ensures var st := Run(Pointer, Booted(c), changes);
      var next, fixed := Step(Pointer, st, ch),
          Step(Interface, st.(nodes := if st.nodes.NilNode? then NoRunner else st.nodes), ch);
      && (next.crashed <==> st.core.None? && ch.script.newCore)
      && !fixed.crashed && (next.crashed || next == fixed.(nodes := Kept(Pointer, fixed.nodes)))
  {
    PointerHolds(c, changes);
    hide Holds;
  }

  /** At exit the command closes the core it booted with, whatever it has been replaced by: that one is
      then closed twice, and the one in use never, unless no reload tore the first runtime down. */
  lemma ExitClosesFirstCore(k: Keeper, c: Config, changes: seq<Change>)
    ensures var st := Run(k, Booted(c), changes); var log := st.history.log + [CoreDown(0)];
      && st.history.cores > 0
      && (Count(log, CoreDown(0)) == 1 <==> !st.crashed && st.core == Some(0))
      && (!st.crashed && st.core.Some? && st.core != Some(0) ==>
            Count(log, CoreDown(0)) == 2 && Count(log, CoreDown(st.core.value)) == 0)
  {
    var st := Run(k, Booted(c), changes);
    EveryRunIsClean(k, c, changes);
    CoresGrow(k, c, changes);
    var log := st.history.log + [CoreDown(0)];
    assert log[..|log| - 1] == st.history.log;
    ClosedOnce(st.history.log, 0, 0);
    if st.core.Some? {
      ClosedOnce(st.history.log, st.core.value, 0);
    }
  }

  lemma CoresGrowStep(h: History, oldC: Config, newC: Config, core: Option<nat>, nodes: Runner, s: Script)
    ensures var r := Reload(h, oldC, newC, core, nodes, s);
      r.history.cores >= h.cores && (r.outcome.Crashed? ==> r.history.cores > h.cores)
  {
  }

  lemma {:induction false} CoresGrow(k: Keeper, c: Config, changes: seq<Change>)
    ensures Run(k, Booted(c), changes).history.cores > 0
    ensures Run(k, Booted(c), changes).crashed ==> Run(k, Booted(c), changes).history.cores > 1
  {
    if changes != [] {
      CoresGrow(k, c, changes[..|changes| - 1]);
      var before, last := Run(k, Booted(c), changes[..|changes| - 1]), changes[|changes| - 1];
      CoresGrowStep(before.history, before.conf, last.conf, before.core, before.nodes, last.script);
    }
  }
}
