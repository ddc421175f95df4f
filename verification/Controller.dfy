/** One node on one core (node/controller.go, node/reload.go, startTasks of node/task.go), against an
    abstract core whose calls may fail. */
module Controllers {
  import opened Base
  import opened PortRegistry
  import opened UserDiff
  import opened UserIndex

  // ---------------------------------------------------------------- the core

  /** What a core serves under a tag. */
  datatype Inbound = Inbound(info: NodeInfo, users: seq<UserInfo>)

  type Inbounds = map<string, Inbound>

  /** AddNode: done, refused with nothing installed, or failed after the inbound was installed (xray
      registers the inbound before the outbound). A panic counts as one of the failures. */
  datatype AddHow = Installed | Refused | HalfInstalled

  /** DelNode: done, failed with the inbound still there, or failed after the inbound was removed. */
  datatype DelHow = Removed | Kept | HalfRemoved

  /** AddUsers: done, or failed after the first `done` users. */
  datatype UsersHow = AllAdded | Partly(done: nat)

  function AfterAddNode(ib: Inbounds, tag: string, info: NodeInfo, how: AddHow): Inbounds {
    if how.Refused? then ib else ib[tag := Inbound(info, [])]
  }

  function AfterDelNode(ib: Inbounds, tag: string, how: DelHow): Inbounds {
    if how.Kept? then ib else ib - {tag}
  }

  function UpTo(users: seq<UserInfo>, how: UsersHow): seq<UserInfo> {
    if how.AllAdded? || how.done >= |users| then users else users[..how.done]
  }

  function AfterAddUsers(ib: Inbounds, tag: string, users: seq<UserInfo>, how: UsersHow): Inbounds {
    if tag in ib then ib[tag := ib[tag].(users := ib[tag].users + UpTo(users, how))] else ib
  }

  /** DelUsers: done, or failed after some of the users asked for were gone. */
  datatype DelUsersHow = AllGone | Partial(gone: set<string>)

  function Uuids(us: seq<UserInfo>): set<string> {
    set u | u in us :: u.uuid
  }

  /** The uuids that go. */
  function Gone(asked: seq<UserInfo>, how: DelUsersHow): set<string> {
    if how.AllGone? then Uuids(asked) else Uuids(asked) * how.gone
  }

  function WithoutUuids(us: seq<UserInfo>, gone: set<string>): seq<UserInfo> {
    if us == [] then []
    else
      var front, last := WithoutUuids(us[..|us| - 1], gone), us[|us| - 1];
      if last.uuid in gone then front else front + [last]
  }

  function AfterDelUsers(ib: Inbounds, tag: string, asked: seq<UserInfo>, how: DelUsersHow): Inbounds {
    if tag in ib then ib[tag := ib[tag].(users := WithoutUuids(ib[tag].users, Gone(asked, how)))] else ib
  }

  class Core {
    var inbounds: Inbounds

    constructor ()
      ensures inbounds == map[]
    {
      inbounds := map[];
    }

    method AddNode(tag: string, info: NodeInfo, how: AddHow) returns (ok: bool)
      modifies this
      ensures ok == how.Installed? && inbounds == AfterAddNode(old(inbounds), tag, info, how)
    {
      if !how.Refused? {
        inbounds := inbounds[tag := Inbound(info, [])];
      }
      return how.Installed?;
    }

    method DelNode(tag: string, how: DelHow) returns (ok: bool)
      modifies this
      ensures ok == how.Removed? && inbounds == AfterDelNode(old(inbounds), tag, how)
    {
      if !how.Kept? {
        inbounds := inbounds - {tag};
      }
      return how.Removed?;
    }

    method AddUsers(tag: string, users: seq<UserInfo>, how: UsersHow) returns (ok: bool)
      modifies this
      ensures ok == (tag in old(inbounds) && how.AllAdded?) && inbounds == AfterAddUsers(old(inbounds), tag, users, how)
    {
      if tag !in inbounds {
        return false;
      }
      inbounds := inbounds[tag := inbounds[tag].(users := inbounds[tag].users + UpTo(users, how))];
      return how.AllAdded?;
    }

    method DelUsers(tag: string, users: seq<UserInfo>, how: DelUsersHow) returns (ok: bool)
      modifies this
      ensures ok == (tag in old(inbounds) && how.AllGone?) && inbounds == AfterDelUsers(old(inbounds), tag, users, how)
    {
      if tag !in inbounds {
        return false;
      }
      inbounds := inbounds[tag := inbounds[tag].(users := WithoutUuids(inbounds[tag].users, Gone(users, how)))];
      return how.AllGone?;
    }
  }

  // ---------------------------------------------------------------- configuration and outside answers

  /** The certificate modes that need no renewal ("none", empty, "file", "self"), or any other mode. */
  datatype CertMode = Fixed(name: string) | Renewable(name: string)

  /** Panel host, node type and node id as printed belong to the panel client and are set once. */
  datatype NodeConfig = NodeConfig(apiHost: string, nodeType: Protocol, nodeId: string, name: string, core: string,
                                   listenIP: string, dynamicLimit: bool, dynamicConfig: bool,
                                   certConfig: Option<CertMode>)

  function KindName(p: Protocol): string {
    match p
    case Vless => "vless"
    case Vmess => "vmess"
    case Trojan => "trojan"
    case Shadowsocks => "shadowsocks"
    case Tuic => "tuic"
    case Hysteria => "hysteria"
    case Hysteria2 => "hysteria2"
    case AnyTLS => "anytls"
    case Unknown(name) => name
  }

  /** The node info the client makes of a configuration: id and type are its own. */
  function ClientNode(cfg: NodeConfig, common: Common): NodeInfo {
    NodeInfo(cfg.nodeId, KindName(cfg.nodeType), Some(common))
  }

  function DefaultCoreFor(protocol: Protocol): string {
    match protocol
    case Tuic | Hysteria | Hysteria2 | AnyTLS => "sing"
    case Vmess | Vless | Trojan | Shadowsocks => "xray"
    case Unknown(_) => ""
  }

  function CoreTypeOf(cfg: NodeConfig): string {
    if cfg.core != "" then cfg.core else DefaultCoreFor(cfg.nodeType)
  }

  /** [host]-type:id */
  function BuildNodeTag(cfg: NodeConfig, node: NodeInfo): string {
    "[" + cfg.apiHost + "]-" + node.kind + ":" + node.id
  }

  function LogicalTagOf(cfg: NodeConfig, node: NodeInfo): string {
    if cfg.name == "" then BuildNodeTag(cfg, node) else cfg.name
  }

  /** Everything outside that one bring-up and its teardown meet: what the panel's endpoints serve (None is
      an error), the certificate, and how each core call ends. */
  datatype Answers = Answers(client: bool, body: Body, users: Option<seq<UserInfo>>, etag: string,
                             alive: Option<map<int, int>>, cert: bool, addNode: AddHow, addUsers: UsersHow,
                             undoNode: DelHow, closeNode: DelHow)

  /** A node to bring up. */
  datatype Plan = Plan(cfg: NodeConfig, a: Answers) {
    /** The node info its own, new panel client makes of what is served. */
    function Info(): Option<NodeInfo> {
      if a.body.Config? then Some(ClientNode(cfg, a.body.common)) else None
    }
  }

  // ---------------------------------------------------------------- one bring-up as a value

  /** The shared state of the process. */
  datatype World = World(reg: Reg, limiters: map<string, Limiter>, inbounds: Inbounds)

  /** Where a bring-up ends. */
  datatype Stage =
    | NoPanel | NoSpecs | Taken      // nothing reserved yet
    | NoCert                         // listeners reserved
    | NoNode                         // and limiter registered
    | NoUsers | NoTasks              // and inbound installed
    | Up

  function PlanKey(p: Plan): string
    requires p.Info().Some?
  {
    RuntimeKey(CoreTypeOf(p.cfg), LogicalTagOf(p.cfg, p.Info().value))
  }

  function PlanTag(p: Plan): string
    requires p.Info().Some?
  {
    LogicalTagOf(p.cfg, p.Info().value)
  }

  predicate PanelAnswers(a: Answers) {
    a.body.Config? && a.users.Some? && a.alive.Some?
  }

  function PlanSpecs(p: Plan): Option<seq<Spec>>
    requires p.Info().Some?
  {
    ListenerSpecsFor(p.Info().value, p.cfg.listenIP)
  }

  predicate CertNeeded(node: NodeInfo) {
    node.common.Some? && NeedsCert(ProtocolSecurity(node))
  }

  /** Where a bring-up ends once its listeners are reserved. */
  function InstallStage(cfg: NodeConfig, node: NodeInfo, users: seq<UserInfo>, a: Answers): Stage {
    if CertNeeded(node) && !a.cert then NoCert
    else if !a.addNode.Installed? then NoNode
    else if users != [] && !a.addUsers.AllAdded? then NoUsers
    else if cfg.dynamicLimit && !cfg.dynamicConfig then NoTasks
    else Up
  }

  /** The first step that fails, if any. */
  function StageOf(p: Plan, r: Reg): Stage {
    if !PanelAnswers(p.a) then NoPanel
    else if PlanSpecs(p).None? then NoSpecs
    else if PortRegistry.Refuses(r, PlanKey(p), PlanTag(p), PlanSpecs(p).value) then Taken
    else InstallStage(p.cfg, p.Info().value, p.a.users.value, p.a)
  }

  /** The inbounds when the core calls of a bring-up are over, before any rollback. */
  function Served(key: string, node: NodeInfo, users: seq<UserInfo>, a: Answers, ib: Inbounds): Inbounds {
    var added := AfterAddNode(ib, key, node, a.addNode);
    if a.addNode.Installed? && users != [] then AfterAddUsers(added, key, users, a.addUsers) else added
  }

  /** The limiters after an unfinished installation and its rollback. */
  function UndoneLimiters(stage: Stage, key: string, m: map<string, Limiter>): map<string, Limiter> {
    if stage.NoCert? then m else m - {key}
  }

  /** The inbounds after an unfinished installation and its rollback. */
  function UndoneInbounds(stage: Stage, key: string, node: NodeInfo, users: seq<UserInfo>, a: Answers,
                          ib: Inbounds): Inbounds
  {
    if stage.NoCert? then ib
    else if stage.NoNode? then Served(key, node, users, a, ib)
    else AfterDelNode(Served(key, node, users, a, ib), key, a.undoNode)
  }

  function ReservedFor(p: Plan, r: Reg): Reg
    requires PanelAnswers(p.a) && PlanSpecs(p).Some?
  {
    Reserved(r, PlanKey(p), PlanTag(p), PlanSpecs(p).value)
  }

  predicate Early(stage: Stage) {
    stage.NoPanel? || stage.NoSpecs? || stage.Taken?
  }

  /** The shared state after a bring-up that failed. */
  function Failed(p: Plan, w: World): World {
    var stage := StageOf(p, w.reg);
    if Early(stage) then w
    else
      World(Released(ReservedFor(p, w.reg), PlanKey(p)),
            UndoneLimiters(stage, PlanKey(p), w.limiters),
            UndoneInbounds(stage, PlanKey(p), p.Info().value, p.a.users.value, p.a, w.inbounds))
  }

  /** The shared state after a bring-up that succeeded with limiter l. */
  function Succeeded(p: Plan, w: World, l: Limiter): World {
    if !StageOf(p, w.reg).Up? then w
    else World(ReservedFor(p, w.reg), w.limiters[PlanKey(p) := l],
          Served(PlanKey(p), p.Info().value, p.a.users.value, p.a, w.inbounds))
  }

  /** The shared state after a running controller with this key was closed. */
  function ClosedWorld(w: World, key: string, how: DelHow): World {
    World(Released(w.reg, key), w.limiters - {key}, AfterDelNode(w.inbounds, key, how))
  }

  // ---------------------------------------------------------------- periodic tasks

  datatype Task = Monitor | Report | RenewCert | SpeedCheck

  predicate Renews(cfg: NodeConfig, node: NodeInfo) {
    && node.common.Some? && NeedsCert(ProtocolSecurity(node))
    && cfg.certConfig.Some? && cfg.certConfig.value.Renewable?
  }

  /** The tasks startTasks leaves running, whether or not it succeeds. */
  function TasksStarted(cfg: NodeConfig, node: NodeInfo): set<Task> {
    {Monitor, Report}
    + (if Renews(cfg, node) then {RenewCert} else {})
    + (if cfg.dynamicLimit && cfg.dynamicConfig then {SpeedCheck} else {})
  }

  /** The tasks of a running node: it pulls and reports, renews a certificate where there is one to renew,
      and checks speeds when the dynamic limit is on. */
  predicate HasTask(cfg: NodeConfig, c: Common, task: Task) {
    match task
    case Monitor => true
    case Report => true
    case RenewCert => OffersTls(c) && cfg.certConfig.Some? && cfg.certConfig.value.Renewable?
    case SpeedCheck => cfg.dynamicLimit
  }

  lemma TasksAre(cfg: NodeConfig, node: NodeInfo)
    requires node.common.Some?
    ensures cfg.dynamicConfig || !cfg.dynamicLimit ==>
      forall task :: task in TasksStarted(cfg, node) <==> HasTask(cfg, node.common.value, task)
  {
    CertForTls(node);
  }

  /** The tasks running after a bring-up that ended at some stage: the rollback stops none. */
  function TasksLeft(stage: Stage, cfg: NodeConfig, node: NodeInfo): set<Task> {
    if stage.NoTasks? || stage.Up? then TasksStarted(cfg, node) else {}
  }

  lemma PutRemove<K, V>(m: map<K, V>, k: K, v: V)
    ensures m[k := v] - {k} == m - {k}
  {
  }

  // ---------------------------------------------------------------- one reload as a value

  /** How the calls of one reload end: certificate, old inbound out, new inbound and users in, new inbound
      out again, old inbound and users back. */
  datatype ReloadAnswers = ReloadAnswers(cert: bool, delOld: DelHow, addNew: AddHow, usersNew: UsersHow,
                                         delNew: DelHow, addOld: AddHow, usersOld: UsersHow)

  datatype ReloadStage_ = Rejected | NotTornDown | AddFailed | UsersFailed | Committed

  /** How far the first steps get: NotTornDown when the old inbound could not be removed. */
  function EarlyStage(cfg: NodeConfig, newN: NodeInfo, r: ReloadAnswers): ReloadStage_ {
    if (CertNeeded(newN) && cfg.certConfig.Some? && !r.cert) || ListenerSpecsFor(newN, cfg.listenIP).None? then Rejected
    else if !r.delOld.Removed? then NotTornDown
    else Committed
  }

  /** The first forward step that fails, if any. */
  function ReloadStage(cfg: NodeConfig, newN: NodeInfo, newU: seq<UserInfo>, r: ReloadAnswers): ReloadStage_ {
    if !EarlyStage(cfg, newN, r).Committed? then EarlyStage(cfg, newN, r)
    else if !r.addNew.Installed? then AddFailed
    else if newU != [] && !r.usersNew.AllAdded? then UsersFailed
    else Committed
  }

  function NewTag(cfg: NodeConfig, tag: string, newN: NodeInfo): string {
    if cfg.name == "" then BuildNodeTag(cfg, newN) else tag
  }

  function NewKey(cfg: NodeConfig, coreType: string, tag: string, newN: NodeInfo): string {
    RuntimeKey(coreType, NewTag(cfg, tag, newN))
  }

  function AliveOf(a: Option<map<int, int>>): map<int, int> {
    if a.Some? then a.value else map[]
  }

  function Restored(ib: Inbounds, key: string, info: NodeInfo, users: seq<UserInfo>, r: ReloadAnswers): Inbounds {
    var added := AfterAddNode(ib, key, info, r.addOld);
    if r.addOld.Installed? && users != [] then AfterAddUsers(added, key, users, r.usersOld) else added
  }

  /** The inbounds just before a failed reload starts putting the old one back. */
  function NewGone(addFailed: bool, ib: Inbounds, newKey: string, newN: NodeInfo, newU: seq<UserInfo>,
                   r: ReloadAnswers): Inbounds
  {
    var added := AfterAddNode(ib, newKey, newN, r.addNew);
    if addFailed then added else AfterDelNode(AfterAddUsers(added, newKey, newU, r.usersNew), newKey, r.delNew)
  }

  /** The inbounds after a reload. */
  function Reloaded(stage: ReloadStage_, ib: Inbounds, key: string, info: NodeInfo, users: seq<UserInfo>,
                    newKey: string, newN: NodeInfo, newU: seq<UserInfo>, r: ReloadAnswers): Inbounds {
    match stage
    case Rejected => ib
    case NotTornDown => AfterDelNode(ib, key, r.delOld)
    case AddFailed | UsersFailed =>
      Restored(NewGone(stage.AddFailed?, ib - {key}, newKey, newN, newU, r), key, info, users, r)
    case Committed => (ib - {key})[newKey := Inbound(newN, newU)]
  }

  /** The registered limiter keys after a reload. */
  function ReloadedKeys(stage: ReloadStage_, keys: set<string>, key: string, newKey: string): set<string> {
    match stage
    case Rejected | NotTornDown => keys
    case AddFailed | UsersFailed => (keys - {newKey}) + {key}
    case Committed => (keys - {key}) + {newKey}
  }

  lemma RuntimeKeyInjective(coreType: string, a: string, b: string)
    ensures RuntimeKey(coreType, a) == RuntimeKey(coreType, b) <==> a == b
  {
    var x, y := RuntimeKey(coreType, a), RuntimeKey(coreType, b);
    assert a == x[|coreType| + 1..] && b == y[|coreType| + 1..];
  }

  // ---------------------------------------------------------------- one pull as a value

  /** What the panel's configuration endpoint serves: a configuration, or anything that is an error. */
  datatype Body = Config(common: Common) | Failure(text: string)

  /** An error, "same as before", or something new. */
  datatype Answer<+T> = NoAnswer | Unchanged | Changed(value: T)

  /** The client compares a body with the last one it saw, errors included, and offers it only once. */
  function Fetch(seen: Option<Body>, body: Body): Answer<Common> {
    if seen == Some(body) then Unchanged
    else if body.Failure? then NoAnswer
    else Changed(body.common)
  }

  /** The panel client remembers the last body and the version (ETag) of the last list it read. */
  class PanelClient {
    var seen: Option<Body>
    var userEtag: string

    constructor ()
      ensures seen == None && userEtag == ""
    {
      seen, userEtag := None, "";
    }

    method GetNodeInfo(body: Body) returns (a: Answer<Common>)
      modifies this`seen
      ensures a == Fetch(old(seen), body) && seen == Some(body)
      ensures a.Unchanged? <==> old(seen) == Some(body)
      ensures a.NoAnswer? <==> old(seen) != Some(body) && body.Failure?
      ensures a.Changed? ==> body == Config(a.value)
    {
      if seen == Some(body) {
        return Unchanged;
      }
      seen := Some(body);
      match body
      case Failure(_) =>
        return NoAnswer;
      case Config(common) =>
        return Changed(common);
    }

    /** `reply` is the panel's: an error, "not modified", or a list under a version. */
    method GetUserList(reply: Answer<seq<UserInfo>>, etag: string) returns (list: Option<seq<UserInfo>>)
      modifies this`userEtag
      ensures list == (if reply.NoAnswer? then None else Some(ListOf(reply)))
      ensures userEtag == EtagAfter(old(userEtag), reply, etag)
    {
      match reply
      case NoAnswer =>
        return None;
      case Unchanged =>
        return Some([]);
      case Changed(users) =>
        userEtag := etag;
        return Some(users);
    }
  }

  /** The version remembered after a reply to a request for the list. */
  function EtagAfter(was: string, reply: Answer<seq<UserInfo>>, etag: string): string {
    if reply.Changed? then etag else was
  }

  /** How the other calls of one pull end; `etag` is the version of a list that comes. */
  datatype PullAnswers = PullAnswers(list: Answer<seq<UserInfo>>, etag: string, alive: map<int, int>,
                                     del: DelUsersHow, add: UsersHow, reload: ReloadAnswers)

  /** An unchanged list is answered as no list, which is the empty one. */
  function ListOf(list: Answer<seq<UserInfo>>): seq<UserInfo> {
    if list.Changed? then list.value else []
  }

  /** What one running controller knows, with its limiter's index and all inbounds of the core. */
  datatype Site = Site(info: NodeInfo, users: seq<UserInfo>, index: Index, ib: Inbounds)

  function ReloadedSite(cfg: NodeConfig, key: string, s: Site, common: Common, newU: seq<UserInfo>,
                        r: ReloadAnswers): Site
  {
    var newN := ClientNode(cfg, common);
    var stage := ReloadStage(cfg, newN, newU, r);
    var ib := Reloaded(stage, s.ib, key, s.info, s.users, key, newN, newU, r);
    if stage.Committed? then Site(newN, newU, s.index, ib) else s.(ib := ib)
  }

  /** The core after the deletions of a diff, and whether they went through. */
  function AfterDeletions(key: string, ib: Inbounds, deleted: seq<UserInfo>, how: DelUsersHow): Inbounds {
    if deleted == [] then ib else AfterDelUsers(ib, key, deleted, how)
  }

  predicate DeletionsDone(key: string, ib: Inbounds, deleted: seq<UserInfo>, how: DelUsersHow) {
    deleted == [] || (key in ib && how.AllGone?)
  }

  function AfterAdditions(key: string, ib: Inbounds, added: seq<UserInfo>, how: UsersHow): Inbounds {
    if added == [] then ib else AfterAddUsers(ib, key, added, how)
  }

  predicate AdditionsDone(key: string, ib: Inbounds, added: seq<UserInfo>, how: UsersHow) {
    added == [] || (key in ib && how.AllAdded?)
  }

  function Diffed(key: string, s: Site, newU: seq<UserInfo>, deleted: seq<UserInfo>, added: seq<UserInfo>,
                  del: DelUsersHow, add: UsersHow): Site
  {
    var less := AfterDeletions(key, s.ib, deleted, del);
    var more := AfterAdditions(key, less, added, add);
    if !DeletionsDone(key, s.ib, deleted, del) then s.(ib := less)
    else if !AdditionsDone(key, less, added, add) then s.(ib := more)
    else Site(s.info, newU, Updated(key, s.index, added, deleted), more)
  }

  /** One pull: a new configuration is reloaded with whatever list came along; otherwise a list that is not
      empty is applied as a diff, and the controller's list moves only when both core calls went through. */
  function Monitored(cfg: NodeConfig, key: string, s: Site, node: Answer<Common>, p: PullAnswers,
                     deleted: seq<UserInfo>, added: seq<UserInfo>): Site
  {
    if node.NoAnswer? || p.list.NoAnswer? then s
    else if node.Changed? then ReloadedSite(cfg, key, s, node.value, ListOf(p.list), p.reload)
    else if ListOf(p.list) == [] then s
    else Diffed(key, s, ListOf(p.list), deleted, added, p.del, p.add)
  }

  predicate TakesDiff(node: Answer<Common>, p: PullAnswers) {
    node.Unchanged? && ListOf(p.list) != []
  }

  predicate Commits(cfg: NodeConfig, node: Answer<Common>, p: PullAnswers) {
    && node.Changed? && !p.list.NoAnswer?
    && ReloadStage(cfg, ClientNode(cfg, node.value), ListOf(p.list), p.reload).Committed?
  }

  /** The logical tag of every node info this client makes. */
  function ClientTag(cfg: NodeConfig): string {
    LogicalTagOf(cfg, NodeInfo(cfg.nodeId, KindName(cfg.nodeType), None))
  }

  /** A panel client's node infos all have one tag, so no reload changes a tag or a key. */
  lemma ClientTagStays(cfg: NodeConfig, common: Common)
    ensures LogicalTagOf(cfg, ClientNode(cfg, common)) == ClientTag(cfg)
    ensures NewTag(cfg, ClientTag(cfg), ClientNode(cfg, common)) == ClientTag(cfg)
  {
  }

  // ---------------------------------------------------------------- the controller

  class Controller {
    const cfg: NodeConfig
    const apiClient: PanelClient
    const coreType: string
    const server: Core
    const limiters: LimiterMap
    const portRegistry: Registry
    var logicalTag: string
    var runtimeKey: string
    var limiter: Limiter?
    var info: Option<NodeInfo>
    var userList: seq<UserInfo>
    var aliveMap: map<int, int>
    var running: set<Task>

    ghost predicate Wired()
      reads this, portRegistry
    {
      portRegistry.Valid()
    }

    ghost function SharedState(): World
      reads portRegistry, portRegistry.backing, limiters, server
      requires portRegistry.n <= portRegistry.backing.Length
    {
      World(portRegistry.State(), limiters.m, server.inbounds)
    }

    constructor (coreType: string, cfg: NodeConfig, client: PanelClient, server: Core, limiters: LimiterMap,
                 registry: Registry)
      ensures this.apiClient == client && this.coreType == coreType && this.cfg == cfg
      ensures this.server == server && this.limiters == limiters && this.portRegistry == registry
      ensures runtimeKey == "" && running == {}
    {
      apiClient := client;
      this.coreType, this.cfg, this.server := coreType, cfg, server;
      this.limiters, this.portRegistry := limiters, registry;
      logicalTag, runtimeKey, limiter, info, userList, aliveMap, running := "", "", null, None, [], map[], {};
    }

    /** Undoes, in reverse order, the steps whose flag is set. */
    method Rollback(listenerReserved: bool, limiterAdded: bool, addedNode: bool, how: DelHow)
      requires Wired()
      modifies this`limiter, portRegistry, portRegistry.backing, limiters, server
      ensures Wired() && portRegistry.backing == old(portRegistry.backing)
      ensures SharedState().reg == if listenerReserved then Released(old(SharedState().reg), runtimeKey)
        else old(SharedState().reg)
      ensures limiters.m == if limiterAdded then old(limiters.m) - {RuntimeKey(coreType, logicalTag)}
        else old(limiters.m)
      ensures server.inbounds == if addedNode then AfterDelNode(old(server.inbounds), runtimeKey, how)
        else old(server.inbounds)
    {
      if addedNode {
        var ok := server.DelNode(runtimeKey, how);
      }
      if limiterAdded {
        limiters.DeleteLimiter(coreType, logicalTag);
        limiter := null;
      }
      if listenerReserved {
        portRegistry.Release(runtimeKey);
      }
    }

    method StartTasks(node: NodeInfo) returns (ok: bool)
      modifies this`running
      ensures ok == !(cfg.dynamicLimit && !cfg.dynamicConfig)
      ensures running == old(running) + TasksStarted(cfg, node)
    {
      running := running + {Monitor} + {Report};
      if node.common.Some? && NeedsCert(ProtocolSecurity(node)) && cfg.certConfig.Some? {
        if cfg.certConfig.value.Renewable? {
          running := running + {RenewCert};
        }
      }
      if cfg.dynamicLimit {
        if !cfg.dynamicConfig {
          return false;
        }
        running := running + {SpeedCheck};
      }
      return true;
    }

    /** The steps after the reservation: certificate, limiter, inbound, users, tasks. The flags tell the
        rollback which steps were taken. */
    method Install(node: NodeInfo, a: Answers) returns (ok: bool, limiterAdded: bool, addedNode: bool)
      requires node.common.Some? && running == {} && runtimeKey == RuntimeKey(coreType, logicalTag)
      modifies this`limiter, this`info, this`running, limiters, server
      ensures var stage := InstallStage(cfg, node, userList, a);
        && ok == stage.Up? && limiterAdded == !stage.NoCert?
          && addedNode == (stage.NoUsers? || stage.NoTasks? || stage.Up?)
        && running == TasksLeft(stage, cfg, node)
      ensures limiterAdded ==>
        limiter != null && fresh(limiter) && limiter.State() == Fresh(runtimeKey, userList)
        && limiter.aliveList == aliveMap && limiters.m == old(limiters.m)[runtimeKey := limiter]
      ensures !limiterAdded ==> limiters.m == old(limiters.m)
      ensures server.inbounds == if limiterAdded then Served(runtimeKey, node, userList, a, old(server.inbounds))
        else old(server.inbounds)
      ensures ok ==> info == Some(node)
    {
      limiterAdded, addedNode := false, false;
      if NeedsCert(ProtocolSecurity(node)) {
        if !a.cert {
          return false, limiterAdded, addedNode;
        }
      }
      limiter := limiters.AddLimiter(coreType, logicalTag, userList, aliveMap);
      limiterAdded := true;
      ok := server.AddNode(runtimeKey, node, a.addNode);
      if !ok {
        return;
      }
      addedNode := true;
      if |userList| > 0 {
        ok := server.AddUsers(runtimeKey, userList, a.addUsers);
        if !ok {
          return;
        }
      }
      info := Some(node);
      ok := StartTasks(node);
    }

    /** Asks the panel and settles the identifiers and listeners; None when a step failed. */
    method Resolve(a: Answers) returns (specs: Option<seq<Spec>>)
      requires coreType == CoreTypeOf(cfg) && apiClient.seen == None
      modifies this`userList, this`aliveMap, this`logicalTag, this`runtimeKey, apiClient
      ensures apiClient.seen == Some(a.body)
      ensures specs.Some? <==> PanelAnswers(a) && PlanSpecs(Plan(cfg, a)).Some?
      ensures specs.Some? ==>
        && specs == PlanSpecs(Plan(cfg, a)) && userList == a.users.value && apiClient.userEtag == a.etag
        && logicalTag == PlanTag(Plan(cfg, a)) && runtimeKey == PlanKey(Plan(cfg, a))
        && Some(aliveMap) == a.alive
    {
      var answer := apiClient.GetNodeInfo(a.body);
      if !answer.Changed? {
        return None;
      }
      var node := ClientNode(cfg, answer.value);
      var list := apiClient.GetUserList(if a.users.Some? then Changed(a.users.value) else NoAnswer, a.etag);
      if list.None? {
        return None;
      }
      userList := list.value;
      if a.alive.None? {
        return None;
      }
      aliveMap := a.alive.value;
      if cfg.name == "" {
        logicalTag := BuildNodeTag(cfg, node);
      } else {
        logicalTag := cfg.name;
      }
      runtimeKey := RuntimeKey(coreType, logicalTag);
      specs := ListenerSpecsFor(node, cfg.listenIP);
    }

    /** Installs, and on failure undoes every step taken since the reservation, which goes too. */
    method InstallOrUndo(node: NodeInfo, a: Answers) returns (ok: bool)
      requires Wired() && node.common.Some? && running == {} && runtimeKey == RuntimeKey(coreType, logicalTag)
      modifies this`limiter, this`info, this`running, portRegistry, portRegistry.backing, limiters, server
      ensures Wired() && portRegistry.backing == old(portRegistry.backing)
      ensures ok == InstallStage(cfg, node, userList, a).Up?
      ensures running == TasksLeft(InstallStage(cfg, node, userList, a), cfg, node)
      ensures ok ==> limiter != null && fresh(limiter) && limiter.State() == Fresh(runtimeKey, userList)
      ensures ok ==> info == Some(node) && limiter.aliveList == aliveMap
      ensures ok ==> limiters.m == old(limiters.m)[runtimeKey := limiter]
      ensures ok ==> server.inbounds == Served(runtimeKey, node, userList, a, old(server.inbounds))
      ensures portRegistry.State() == if ok then old(portRegistry.State())
        else Released(old(portRegistry.State()), runtimeKey)
      ensures !ok ==> limiters.m == UndoneLimiters(InstallStage(cfg, node, userList, a), runtimeKey, old(limiters.m))
      ensures !ok ==>
        server.inbounds == UndoneInbounds(InstallStage(cfg, node, userList, a), runtimeKey, node, userList, a,
                                          old(server.inbounds))
    {
      var limiterAdded, addedNode;
      ok, limiterAdded, addedNode := Install(node, a);
      if !ok {
        if limiterAdded {
          PutRemove(old(limiters.m), runtimeKey, limiter);
        }
        Rollback(true, limiterAdded, addedNode, a.undoNode);
      }
    }

    /** Reserves the listeners, then installs. */
    method BringUp(specs: seq<Spec>, node: NodeInfo, a: Answers) returns (ok: bool)
      requires Wired() && node.common.Some? && running == {} && runtimeKey == RuntimeKey(coreType, logicalTag)
      modifies this`limiter, this`info, this`running, portRegistry, portRegistry.backing, limiters, server
      ensures Wired() && (portRegistry.backing == old(portRegistry.backing) || fresh(portRegistry.backing))
      ensures PortRegistry.Refuses(old(portRegistry.State()), runtimeKey, logicalTag, specs) ==>
        !ok && SharedState() == old(SharedState()) && running == {}
      ensures !PortRegistry.Refuses(old(portRegistry.State()), runtimeKey, logicalTag, specs) ==>
        var stage, reg := InstallStage(cfg, node, userList, a),
                          Reserved(old(portRegistry.State()), runtimeKey, logicalTag, specs);
        && ok == stage.Up?
        && running == TasksLeft(stage, cfg, node)
        && (ok ==> limiter != null && fresh(limiter) && limiter.State() == Fresh(runtimeKey, userList)
                   && info == Some(node) && limiter.aliveList == aliveMap
                   && portRegistry.State() == reg
                   && limiters.m == old(limiters.m)[runtimeKey := limiter]
                   && server.inbounds == Served(runtimeKey, node, userList, a, old(server.inbounds)))
        && (!ok ==> portRegistry.State() == Released(reg, runtimeKey)
                    && limiters.m == UndoneLimiters(stage, runtimeKey, old(limiters.m))
                    && server.inbounds == UndoneInbounds(stage, runtimeKey, node, userList, a, old(server.inbounds)))
    {
      ok := portRegistry.Reserve(runtimeKey, logicalTag, specs);
      if ok {
        ok := InstallOrUndo(node, a);
      }
    }

    /** Brings the node up, or undoes every step it took. Its panel client is new. */
    method Start(a: Answers) returns (ok: bool)
      requires Wired() && coreType == CoreTypeOf(cfg) && running == {} && apiClient.seen == None
      modifies this, apiClient, portRegistry, portRegistry.backing, limiters, server
      ensures Wired() && (portRegistry.backing == old(portRegistry.backing) || fresh(portRegistry.backing))
      ensures var p, was := Plan(cfg, a), old(SharedState());
        var stage := StageOf(p, was.reg);
        && ok == stage.Up?
        && (ok ==> limiter != null && fresh(limiter) && limiter.State() == Fresh(PlanKey(p), a.users.value)
                   && SharedState() == Succeeded(p, was, limiter)
                   && runtimeKey == PlanKey(p) && logicalTag == PlanTag(p) && info == p.Info()
                   && userList == a.users.value && apiClient.userEtag == a.etag
                   && Some(aliveMap) == a.alive == Some(limiter.aliveList))
        && (!ok ==> SharedState() == Failed(p, was))
        && apiClient.seen == Some(a.body)
        && running == if p.Info().Some? then TasksLeft(stage, cfg, p.Info().value) else {}
      // a running node pulls and reports; it renews and checks speeds when it has to
      ensures ok ==> a.body.Config? && forall task: Task :: task in running <==> HasTask(cfg, a.body.common, task)
    {
      var specs := Resolve(a);
      if specs.None? {
        return false;
      }
      TasksAre(cfg, ClientNode(cfg, a.body.common));
      hide TasksStarted, HasTask;
      ok := BringUp(specs.value, ClientNode(cfg, a.body.common), a);
    }

    /** Tears a controller down; safe on one that never got a runtime key. */
    method Close(how: DelHow) returns (ok: bool)
      requires Wired()
      modifies this`running, portRegistry, portRegistry.backing, limiters, server
      ensures Wired() && portRegistry.backing == old(portRegistry.backing)
      ensures running == {}
      ensures runtimeKey == "" ==> ok && SharedState() == old(SharedState())
      ensures runtimeKey != "" && runtimeKey == RuntimeKey(coreType, logicalTag) ==>
        ok == how.Removed? && SharedState() == ClosedWorld(old(SharedState()), runtimeKey, how)
    {
      if runtimeKey != "" {
        limiters.DeleteLimiter(coreType, logicalTag);
      }
      running := {};
      if runtimeKey == "" {
        return true;
      }
      ok := server.DelNode(runtimeKey, how);
      portRegistry.Release(runtimeKey);
    }

    // -------------------------------------------------------------- reload

    /** Puts the old limiter and the old inbound back, as far as the core lets it. */
    method RestoreOld(newTag: string, r: ReloadAnswers)
      requires info.Some? && limiter != null && runtimeKey == RuntimeKey(coreType, logicalTag)
      modifies this`limiter, limiters, server
      ensures server.inbounds == Restored(old(server.inbounds), runtimeKey, info.value, userList, r)
      ensures newTag == logicalTag ==> limiter == old(limiter) && limiters.m == old(limiters.m)
      ensures newTag != logicalTag ==>
        && limiter != null && fresh(limiter) && limiter.State() == Fresh(runtimeKey, userList)
          && limiter.aliveList == aliveMap
        && limiters.m == (old(limiters.m) - {RuntimeKey(coreType, newTag)})[runtimeKey := limiter]
    {
      if newTag != logicalTag {
        limiters.DeleteLimiter(coreType, newTag);
        limiter := limiters.AddLimiter(coreType, logicalTag, userList, aliveMap);
      }
      var ok := server.AddNode(runtimeKey, info.value, r.addOld);
      if !ok {
        return;
      }
      if |userList| > 0 {
        ok := server.AddUsers(runtimeKey, userList, r.usersOld);
      }
    }

    /** Installs the new inbound and its users on a core that has let go of the old one; takes a half
        installed one down again when its users cannot be added. */
    method InstallNew(newKey: string, newN: NodeInfo, newU: seq<UserInfo>, r: ReloadAnswers) returns (ok: bool)
      modifies server
      ensures ok == (r.addNew.Installed? && (newU == [] || r.usersNew.AllAdded?))
      ensures ok ==> server.inbounds == old(server.inbounds)[newKey := Inbound(newN, newU)]
      ensures !ok ==> server.inbounds == NewGone(!r.addNew.Installed?, old(server.inbounds), newKey, newN, newU, r)
    {
      ghost var ib := server.inbounds;
      ok := server.AddNode(newKey, newN, r.addNew);
      if !ok {
        return;
      }
      if |newU| > 0 {
        ok := server.AddUsers(newKey, newU, r.usersNew);
        if !ok {
          var gone := server.DelNode(newKey, r.delNew);
        } else {
          assert [] + newU == newU;
          assert server.inbounds == ib[newKey := Inbound(newN, newU)];
        }
      }
    }

    /** Moves the registered limiter to the new tag, when it is a new one. */
    method SwapLimiter(newTag: string, newU: seq<UserInfo>, newA: Option<map<int, int>>) returns (l: Limiter)
      requires limiter != null && runtimeKey == RuntimeKey(coreType, logicalTag)
      modifies limiters
      ensures newTag == logicalTag ==> l == limiter && limiters.m == old(limiters.m)
      ensures newTag != logicalTag ==>
        && fresh(l) && l.State() == Fresh(RuntimeKey(coreType, newTag), newU)
        && limiters.m == (old(limiters.m) - {runtimeKey})[RuntimeKey(coreType, newTag) := l]
    {
      l := limiter;
      if newTag != logicalTag {
        limiters.DeleteLimiter(coreType, logicalTag);
        l := limiters.AddLimiter(coreType, newTag, newU, AliveOf(newA));
      }
    }

    /** The first, harmless steps: certificate, listener check, and taking the old inbound down. */
    method Prepare(newN: NodeInfo, r: ReloadAnswers) returns (ok: bool)
      requires newN.common.Some?
      modifies server
      ensures ok == !(EarlyStage(cfg, newN, r).Rejected? || EarlyStage(cfg, newN, r).NotTornDown?)
      ensures server.inbounds == if EarlyStage(cfg, newN, r).Rejected? then old(server.inbounds)
                                 else AfterDelNode(old(server.inbounds), runtimeKey, r.delOld)
    {
      if NeedsCert(ProtocolSecurity(newN)) && cfg.certConfig.Some? {
        if !r.cert {
          return false;
        }
      }
      if ListenerSpecsFor(newN, cfg.listenIP).None? {
        return false;
      }
      ok := server.DelNode(runtimeKey, r.delOld);
    }

    /** The new state becomes the controller's. */
    method Commit(newTag: string, newKey: string, newN: NodeInfo, newU: seq<UserInfo>, newA: Option<map<int, int>>,
                  newLimiter: Limiter)
      modifies this`info, this`userList, this`aliveMap, this`runtimeKey, this`logicalTag, this`limiter,
               newLimiter`aliveList
      ensures info == Some(newN) && userList == newU && aliveMap == AliveOf(newA)
      ensures runtimeKey == newKey && logicalTag == newTag && limiter == newLimiter
      ensures newA.Some? ==> limiter.aliveList == newA.value
    {
      info, userList, aliveMap := Some(newN), newU, AliveOf(newA);
      runtimeKey, logicalTag, limiter := newKey, newTag, newLimiter;
      if newA.Some? {
        limiter.aliveList := newA.value;
      }
    }

    /** The swap proper, once the old inbound is down: new limiter, new inbound, commit; or back. */
    method Swap(newTag: string, newKey: string, newN: NodeInfo, newU: seq<UserInfo>, newA: Option<map<int, int>>,
                r: ReloadAnswers)
      returns (done: bool)
      requires info.Some? && limiter != null && runtimeKey == RuntimeKey(coreType, logicalTag)
      requires newKey == RuntimeKey(coreType, newTag) && (newKey == runtimeKey <==> newTag == logicalTag)
      requires runtimeKey in limiters.m && limiters.m[runtimeKey] == limiter
      modifies this`info, this`userList, this`aliveMap, this`runtimeKey, this`logicalTag, this`limiter,
               limiters, server, limiter`aliveList
      ensures done == (r.addNew.Installed? && (newU == [] || r.usersNew.AllAdded?))
      ensures done ==>
        && info == Some(newN) && userList == newU && aliveMap == AliveOf(newA) && logicalTag == newTag
          && runtimeKey == newKey
        && limiters.m.Keys == (old(limiters.m.Keys) - {old(runtimeKey)}) + {newKey}
        && server.inbounds == old(server.inbounds)[newKey := Inbound(newN, newU)]
      ensures !done ==>
        && unchanged(`info, `userList, `aliveMap, `logicalTag, `runtimeKey)
        && limiters.m.Keys == (old(limiters.m.Keys) - {newKey}) + {runtimeKey}
        && server.inbounds == Restored(NewGone(!r.addNew.Installed?, old(server.inbounds), newKey, newN, newU, r),
                                       runtimeKey, info.value, userList, r)
      ensures limiter != null && runtimeKey in limiters.m && limiters.m[runtimeKey] == limiter
      ensures forall k :: k in limiters.m && k != runtimeKey ==>
        k in old(limiters.m) && limiters.m[k] == old(limiters.m)[k]
      ensures done && newTag != old(logicalTag) ==> fresh(limiter) && limiter.State() == Fresh(newKey, newU)
      ensures newTag == old(logicalTag) ==> limiter == old(limiter) && limiters.m == old(limiters.m)
      ensures newTag == old(logicalTag) && !done ==> limiter.aliveList == old(limiter.aliveList)
      ensures done && newA.Some? ==> limiter.aliveList == newA.value
    {
      hide RuntimeKey, Fresh, Restored, NewGone;
      var newLimiter := SwapLimiter(newTag, newU, newA);
      done := InstallNew(newKey, newN, newU, r);
      if !done {
        RestoreOld(newTag, r);
        return;
      }
      Commit(newTag, newKey, newN, newU, newA, newLimiter);
    }

    /** The new node lacks the payload of its protocol, or the certificate it needs for TLS. */
    predicate Unacceptable(c: Common, r: ReloadAnswers) {
      !HasPayload(c) || (OffersTls(c) && cfg.certConfig.Some? && !r.cert)
    }

    /** Replaces the node's configuration: everything new when every step succeeds, everything old
        otherwise. A panel that sends no alive list passes None. */
    method ReloadNodeConfig(newN: NodeInfo, newU: seq<UserInfo>, newA: Option<map<int, int>>, r: ReloadAnswers)
      returns (done: bool)
      requires newN.common.Some? && info.Some? && limiter != null && runtimeKey == RuntimeKey(coreType, logicalTag)
      requires runtimeKey in limiters.m && limiters.m[runtimeKey] == limiter
      modifies this`info, this`userList, this`aliveMap, this`runtimeKey, this`logicalTag, this`limiter,
               limiters, server, limiter`aliveList
      ensures done == ReloadStage(cfg, newN, newU, r).Committed?
      ensures info == (if done then Some(newN) else old(info)) && userList == (if done then newU else old(userList))
      ensures aliveMap == if done then AliveOf(newA) else old(aliveMap)
      ensures logicalTag == if done then NewTag(cfg, old(logicalTag), newN) else old(logicalTag)
      ensures runtimeKey == RuntimeKey(coreType, logicalTag)
      ensures limiter != null && runtimeKey in limiters.m && limiters.m[runtimeKey] == limiter
      ensures server.inbounds
           == Reloaded(ReloadStage(cfg, newN, newU, r), old(server.inbounds), old(runtimeKey), old(info).value,
                       old(userList), NewKey(cfg, coreType, old(logicalTag), newN), newN, newU, r)
      ensures limiters.m.Keys
           == ReloadedKeys(ReloadStage(cfg, newN, newU, r), old(limiters.m).Keys, old(runtimeKey),
                           NewKey(cfg, coreType, old(logicalTag), newN))
      ensures forall k :: k in limiters.m && k != runtimeKey ==>
        k in old(limiters.m) && limiters.m[k] == old(limiters.m)[k]
      // the index behind the limiter: rebuilt when the tag changed, otherwise left as it was
      ensures done && logicalTag != old(logicalTag) ==> fresh(limiter) && limiter.State() == Fresh(runtimeKey, newU)
      ensures NewTag(cfg, old(logicalTag), newN) == old(logicalTag) ==>
        limiter == old(limiter) && limiters.m == old(limiters.m) && limiter.State() == old(limiter.State())
      ensures NewTag(cfg, old(logicalTag), newN) == old(logicalTag) && !done ==>
        limiter.aliveList == old(limiter.aliveList)
      ensures done && newA.Some? ==> limiter.aliveList == newA.value
      // a node without its payload, or without the certificate it needs, changes nothing at all
      ensures Unacceptable(newN.common.value, r) ==>
        && !done && unchanged(this) && server.inbounds == old(server.inbounds) && limiters.m == old(limiters.m)
        && limiter.State() == old(limiter.State()) && limiter.aliveList == old(limiter.aliveList)
      // any other is done exactly when the core does everything it is asked
      ensures done <==>
        && !Unacceptable(newN.common.value, r)
        && r.delOld.Removed? && r.addNew.Installed? && (newU == [] || r.usersNew.AllAdded?)
    {
      ListenersWanted(newN, cfg.listenIP);
      CertForTls(newN);
      var newTag, newKey := logicalTag, runtimeKey;
      if cfg.name == "" {
        newTag := BuildNodeTag(cfg, newN);
        newKey := RuntimeKey(coreType, newTag);
      }
      RuntimeKeyInjective(coreType, logicalTag, newTag);
      done := Prepare(newN, r);
      if done {
        done := Swap(newTag, newKey, newN, newU, newA, r);
      }
    }

    // -------------------------------------------------------------- pulls

    /** A running controller with its limiter registered. */
    ghost predicate Running()
      reads this, limiters
    {
      && info.Some? && limiter != null && runtimeKey == RuntimeKey(coreType, logicalTag) && logicalTag == ClientTag(cfg)
      && runtimeKey in limiters.m && limiters.m[runtimeKey] == limiter
    }

    ghost function SiteNow(): Site
      reads this, limiter, server
      requires info.Some? && limiter != null
    {
      Site(info.value, userList, limiter.State(), server.inbounds)
    }

    /** Applies a new list as a diff: core first, then limiter, then the list itself. */
    method ApplyList(newU: seq<UserInfo>, del: DelUsersHow, add: UsersHow)
      returns (done: bool, ghost deleted: seq<UserInfo>, ghost added: seq<UserInfo>)
      requires Running()
      modifies this`userList, limiter, server
      ensures IsDiff(UserKey, old(userList), newU, deleted, added)
      ensures SiteNow() == Diffed(runtimeKey, old(SiteNow()), newU, deleted, added, del, add)
      ensures done == (DeletionsDone(runtimeKey, old(server.inbounds), deleted, del)
                       && AdditionsDone(runtimeKey, AfterDeletions(runtimeKey, old(server.inbounds), deleted, del),
                                        added, add))
      ensures limiter.aliveList == if done then old(limiter.aliveList) - IdsOf(deleted) else old(limiter.aliveList)
      // nothing can be done for a node the core does not have
      ensures runtimeKey !in old(server.inbounds) && deleted + added != [] ==> !done && SiteNow() == old(SiteNow())
    {
      var d, a := CompareUserList(userList, newU);
      deleted, added := d, a;
      done := true;
      if |d| > 0 {
        done := server.DelUsers(runtimeKey, d, del);
        if !done {
          return;
        }
      }
      if |a| > 0 {
        done := server.AddUsers(runtimeKey, a, add);
        if !done {
          return;
        }
      }
      if |a| > 0 || |d| > 0 {
        limiter.UpdateUser(runtimeKey, a, d);
      }
      userList := newU;
    }

    /** One run of the periodic pull. */
    method NodeInfoMonitor(body: Body, p: PullAnswers)
      returns (ghost deleted: seq<UserInfo>, ghost added: seq<UserInfo>)
      requires Running()
      modifies this`info, this`userList, this`aliveMap, this`runtimeKey, this`logicalTag, this`limiter,
               apiClient, limiters, limiter, server
      ensures Running() && unchanged(`runtimeKey, `logicalTag, `limiter) && limiters.m == old(limiters.m)
      ensures apiClient.seen == Some(body)
      ensures var node := Fetch(old(apiClient.seen), body);
        && apiClient.userEtag
           == (if node.NoAnswer? then old(apiClient.userEtag) else EtagAfter(old(apiClient.userEtag), p.list, p.etag))
        && (TakesDiff(node, p) ==> IsDiff(UserKey, old(userList), ListOf(p.list), deleted, added))
        && SiteNow() == Monitored(cfg, runtimeKey, old(SiteNow()), node, p, deleted, added)
        && aliveMap == (if Commits(cfg, node, p) then p.alive else old(aliveMap))
        && (Commits(cfg, node, p) ==> limiter.aliveList == p.alive)
        && (!Commits(cfg, node, p) && (node.Changed? || node.NoAnswer? || p.list.NoAnswer?) ==>
              limiter.aliveList == old(limiter.aliveList))
        && (node.Unchanged? && !p.list.NoAnswer? ==> limiter.aliveList in {p.alive, p.alive - IdsOf(deleted)})
      // an error, nothing new, and an empty list change nothing
      ensures p.list.NoAnswer? || (body.Failure? && old(apiClient.seen) != Some(body)) ==> SiteNow() == old(SiteNow())
      ensures old(apiClient.seen) == Some(body) && (p.list.Unchanged? || p.list == Changed([])) ==>
        SiteNow() == old(SiteNow())
      // a new list moves when the core takes it all
      ensures old(apiClient.seen) == Some(body) && p.list.Changed? && p.list.value != [] ==>
        (p.del.AllGone? && p.add.AllAdded? && runtimeKey in old(server.inbounds) ==> userList == p.list.value)
      // a new configuration takes the place of the old one, with the list that came or none, when the core
      // does all it is asked; one that cannot be accepted changes nothing
      ensures body.Config? && old(apiClient.seen) != Some(body) && !p.list.NoAnswer? ==>
        && (Unacceptable(body.common, p.reload) ==> SiteNow() == old(SiteNow()))
        && (!Unacceptable(body.common, p.reload) && p.reload.delOld.Removed? && p.reload.addNew.Installed?
            && p.reload.usersNew.AllAdded? ==>
              && info == Some(NodeInfo(cfg.nodeId, KindName(cfg.nodeType), Some(body.common)))
              && userList == if p.list.Changed? then p.list.value else [])
    {
      deleted, added := [], [];
      if body.Config? {
        ClientTagStays(cfg, body.common);
      }
      var node := apiClient.GetNodeInfo(body);
      if node.NoAnswer? {
        return;
      }
      var list := apiClient.GetUserList(p.list, p.etag);
      if list.None? {
        return;
      }
      var newU := list.value;
      if node.Changed? {
        var done := ReloadNodeConfig(ClientNode(cfg, node.value), newU, Some(p.alive), p.reload);
        return;
      }
      limiter.aliveList := p.alive;
      if |newU| == 0 {
        return;
      }
      var done;
      done, deleted, added := ApplyList(newU, p.del, p.add);
    }
  }
}
