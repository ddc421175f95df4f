# Bookkeeping of yunzes-node, verified

yunzes-node is a proxy-node daemon. This project models the bookkeeping it has to get right while
connections come and go, the panel does not answer, and configurations are replaced: the connection
limiter, the traffic reporting pipeline, the listener registry, bring-up and teardown of nodes, the
periodic pull, the two kinds of reload, the user diff and the limiter index built on it, the online-device
table, the JSON comment stripper and the DNS settings parser. The properties proved are about every input, every run and
every pattern of failures.

`dafny verify dfyconfig.toml` checks everything.

## How it is built

Each operation that changes state is a method on a class with the source's fields, proved equal to a
function on values (`Tables`, `Pipeline`, `Reg`, `World`, `History`, ...). What the source promises is
then proved about those functions, mostly over sequences of events, and the results that fix what an
operation does are stated in numbers and literals rather than with the functions that compute it. Maps that the source iterates over
are visited in an arbitrary order; where the order can matter (the reverse uid map, the list of online
devices) the contract names it and the theorems hold for every order.

| file | what it models |
|---|---|
| Base.dfy | options and the panel's user record |
| ConnLimiter.dfy, ConnRuns.dfy | per-user connection counts and address slots; their runs |
| Online.dfy | which addresses each user is on, and which were on lately |
| Traffic.dfy, Reporting.dfy, ReportRuns.dfy | drain and re-add, one reporting cycle, runs of cycles |
| UserDiff.dfy, UserIndex.dfy | the diff of two user lists, and the index kept up by it |
| PortRegistry.dfy | listeners, conflicts, reservations |
| Controller.dfy, Node.dfy, Lifecycle.dfy, Startup.dfy | one node, all nodes, what bring-up, close and reload guarantee, and when nodes come up |
| Pulls.dfy | the periodic pull: when core, controller and limiter speak of the same users |
| Service.dfy | all nodes from start through any pulls to close |
| ProcessReload.dfy | replacing the core and all nodes of the process |
| Json5.dfy, Json5Scan.dfy, Json5Lexer.dfy, Json5Bytes.dfy | the stripper's lexer, its in-place scan, when the two agree, and what becomes of each byte |
| DnsEnv.dfy | the KEY=VALUE textarea |

The proxy cores are abstract: a core is a map from tags to inbounds whose calls may end in any of the
ways the real ones can (done, refused, or failed half way). What the panel, the certificate step and the
factories answer are parameters, so every theorem is about all of their answers.

## Where the code and its comments part

The model follows the code; these are proved, with the exact condition where one exists.

- A connection that a later check turns away keeps the count and slot it was given, and a connection from
  an IPv4-mapped address keeps its slot after it is closed, because the release names the unstripped
  address (`ConnRuns.Quiescence`, `ConnRuns.ReleaseUndoesAdmission`).
- The limiter can release the count in both modes, but without realtime tracking no caller does, so a user
  who has reached the connection limit stays locked out (`ConnRuns.NonRealtimeLockout`), and the sweep
  meant to keep addresses for a minute drops every one (`ConnRuns.SweepDropsEveryTimestamp`).
- While the panel counts a user's device limit as reached, from one report to the next the user gets one
  device: that of the first connection from an address still noted. A second one takes a deletion of the
  user in between, which every change of the user's limits causes; the first is then not reported either
  (`Online.OneDeviceReturns`, `Online.AtMostOneDevice`, `Online.ReportListsLetIn`). An address that only
  another user was listed on opens the connection (`Online.AnyonesAddressOpens`).
- Re-adding drained traffic restores it only for users that the core-wide uid map knows under a uid of
  their own (`Traffic.DrainReAddRestores`).
- The identity used by the user diff leaves out the id, so a user that keeps uuid and limits and gets a
  new id keeps the old one in the limiter (`UserIndex.IncrementalMatchesFresh`).
- A configuration reload under an unchanged tag, and no other happens, replaces the core's users and the
  controller's list but leaves the limiter's index alone. Users who came with the reload are unknown to the
  limiter, which rejects unknown users, until a later diff touches them; the next pull of the same list has
  an empty diff (`UserIndex.SwappedListAgrees`, `Pulls.ThreeAgree`, `Pulls.ReloadedUserIsRejected`).
- An unchanged user list is answered as no list, and a reload takes that for the empty one: a configuration
  change alone empties the node, and it stays empty until the panel's list changes
  (`Pulls.UnchangedListEmptiesNode`, `Pulls.EmptyWhileListSame`). It does not even take a change: the client
  remembers an error answer as the last body, so the configuration in force counts as new afterwards
  (`Pulls.ErrorMakesNodeChange`).
- A configuration is offered to the controller once, by a pull that brings another body than the one before
  (`Pulls.OfferedOnce`). So a reload that was refused or rolled back is not tried again at the next pull, as
  the comment at node/reload.go:44-46 says it is (`Pulls.NotTriedAgain`); a configuration whose pull fails at
  the user list never reaches the node (`Pulls.LostConfiguration`); and a node whose rollback failed is not
  offline until the next pull, as the log at node/reload.go:146 says, but for as long as the panel serves
  that configuration (`Pulls.OfflineWhileSame`), and then until a reload gets through: no diff brings it back
  (`Pulls.DownUntilReload`).
- A list is offered once as well: its version is remembered before it is applied, so a diff that failed is
  not tried again while the panel keeps configuration and list (`Pulls.QuietPanel`). A later diff repairs
  exactly the users it touches (`Pulls.MendsAfterAnyRun`); a user whom failed additions put into the core and
  no later list names is served by it until a reload (`Pulls.StrayStays`).
- When the additions of a diff fail after its deletions, or either stops half way, the core is left with
  users the controller does not list, or without users it does; when that is so is exact
  (`Pulls.CoreStep`).
- The IPv4 wildcard conflicts with every other address of the same port and transport, IPv6 ones included
  (`PortRegistry.ConflictMeaning`).
- A bring-up that fails because the dynamic speed limit is on without settings leaves its periodic tasks
  running (`Lifecycle.TasksOutliveFailure`).
- An AddNode of xray that fails after the inbound was registered (core/xray/node.go:24-36) leaves the inbound
  in the core: the failed bring-up has not noted the node as added yet, so its rollback does not take it
  down (node/controller.go:255-258; `Lifecycle.FailedStartInbounds`).
- After a process reload that ends offline, the server command holds a nil node pointer, which is not a
  nil runner: the next reload whose core can be built crashes instead of coming back
  (`ProcessReload.OfflineForGood`, `ProcessReload.CrashesExactly`). At exit it closes the core it booted
  with, not the one in use (`ProcessReload.ExitClosesFirstCore`).
- The JSON stripper passes over the byte after a star in a block comment, so `/***/` does not close, and
  it passes over a byte after a slash that opens no comment, which can cost a comma
  (`Json5Lexer.ScanIsLexer`, `Json5Lexer.StarsHideTheEnd`, `Json5Lexer.StrayLosesComma`).

## Model

| member | source | states |
|---|---|---|
| ConnLimits.ConnLimiter.AddConnCount | limiter/conn.go:44-130 | a rejection happens exactly when a cap is reached and changes nothing at all; an admission changes exactly the user's count and slot |
| ConnLimits.ConnLimiter.ReachesLimit | limiter/conn.go:61-71 | the count that stops early gives the same verdict as counting every address |
| ConnLimits.ConnLimiter.DelConnCount | limiter/conn.go:166-197 | takes one connection off the count and two off the slot, dropping entries that reach zero |
| ConnLimits.ConnLimiter.ClearOnlineIP | limiter/conn.go:200-226 | drops exactly the packet-only slots (or expired timestamps) of all users, and users whose table was already empty |
| ConnLimits.ReleaseConn.Close | core/sing/conn_release.go:19-24 | the first close releases once, later ones release nothing |
| ConnLimits.ManagedWriter.Close | core/xray/app/dispatcher/linkmanager.go:24-30 | leaves the link manager and releases once however often it is closed |
| ConnRuns.RunKeeps | limiter/conn.go:26-226 | every interleaving of connects, closes and sweeps keeps slots and counts equal to what the live connections account for |
| ConnRuns.SlotEncoding | limiter/conn.go:100-197 | after every realtime run a slot is twice the charged connections plus the packet bit and absent exactly at zero; the count is the live connections, and the slots add up to it and the IPv4-mapped connections closed so far |
| ConnRuns.CapsHold | limiter/conn.go:44-114 | after every run, in both modes, no count and no number of addresses passes a nonzero limit |
| ConnRuns.AdmissionCountsLiveConnections | limiter/conn.go:26-73 | after every realtime run the verdict depends on nothing but the connections still open and the packet marks |
| ConnRuns.AdmissionCountsWhatWasLetIn | limiter/conn.go:44-130 | after every run without realtime a user is refused exactly when as many of its TCP connections have ever been let in as the connection limit allows, or it was let in from as many addresses since the last sweep as the address limit allows and this is none of them |
| ConnRuns.Quiescence | limiter/conn.go:166-226 | when all connections are closed two sweeps empty the limiter if and only if every connection carried a release and none kept a mapped address |
| ConnRuns.ReleaseUndoesAdmission | limiter/conn.go:142-197 | a release restores the tables its admission found if and only if the address was not IPv4-mapped and the user had no empty table |
| ConnRuns.ReleaseTakesOne | limiter/conn.go:166-197 | in both modes a release takes one off the user's count and off nobody else's, and touches addresses in realtime mode only |
| ConnRuns.NonRealtimeLockout | core/sing/hook.go:83-92 | without realtime tracking a full user is rejected in every later state |
| ConnRuns.SweepDropsEveryTimestamp | limiter/conn.go:200-226 | two non-realtime sweeps leave exactly the addresses whose timestamp is a minute or more ahead of both, so none, however fresh |
| Online.OnlineTable.CheckDevice | limiter/limiter.go:204-232 | refuses exactly when the alive count has reached a positive limit and the device is new, or, for a user with none, its address not noted, and then changes nothing; otherwise the device is on under its uid and no other moves |
| Online.OnlineTable.GetOnlineDevice | limiter/limiter.go:248-265 | lists every device once with its uid, notes each address as just seen, and empties the table |
| Online.OnlineTable.Forget | limiter/limiter.go:136-142 | takes away exactly the devices of the deleted users and leaves the noted addresses |
| Online.OnlineTable.GCStale | limiter/old_online.go:97-111 | with a positive age drops exactly the addresses noted longer ago than that, and returns how many |
| Online.ReportListsLetIn | limiter/limiter.go:136-265 | a report lists exactly the devices let in since the later of the last report and their user's last deletion, each once; refused connections leave no trace |
| Online.ReportedUid | limiter/limiter.go:204-265 | a device is reported under the uid of the connect that brought it |
| Online.NotedAre | limiter/limiter.go:248-265 | after a report each listed address is noted with a user who was on it, and no other address changes |
| Online.NotedOnlyShrinks | limiter/limiter.go:204-265 | between reports no address becomes noted and none gets another user |
| Online.OneDeviceReturns | limiter/limiter.go:136-230 | over any report-free run of connects, collections and deletions in which the user is at the limit at each of its connects, the only device it has is that of its first connect, since its last deletion, from an address noted at that moment |
| Online.AtMostOneDevice | limiter/limiter.go:136-230 | so two devices in one such run, at the same time or in turn, are the same or have a deletion of the user between them |
| Online.AnyonesAddressOpens | limiter/limiter.go:212-265 | right after a report a user at the limit is let in from an address exactly when it was noted before or anybody at all is listed on it |
| Traffic.CoreCounters.GetUserTrafficSlice | core/xray/user.go:60-90 | returns one entry for every counter with bytes, in iteration order, and zeroes exactly those when asked to |
| Traffic.CoreCounters.AddUserTrafficSlice | core/sing/user.go:151-184 | each counter gains the bytes of its uid's entries if the reverse map picks it and nothing otherwise; fails only on a tag without counters |
| Traffic.CoreCounters.DelUsers | core/xray/user.go:32-58 | takes the counters, unreported bytes included, and the uids of the users named, up to the first whom the core will not remove |
| Traffic.DrainReAddRestores | core/xray/user.go:60-128 | drain then re-add restores the counters for every map order if and only if each user with bytes has a uid of its own |
| Reporting.SplitUserTrafficByThreshold | node/user.go:204-213 | one side gets exactly the entries whose up and down bytes together are strictly above the threshold, the other the rest |
| Reporting.PassInOrder | node/user.go:204-213 | both sides keep the order |
| Reporting.TrafficStore.Drain | node/traffic_store.go:72-86 | returns and removes exactly the uuids at or above a positive threshold and leaves the others as they are |
| Reporting.Reporter.FeedDynamicTraffic | node/user.go:167-182 | each user's accumulator gains the bytes of the entries whose uid the user list gives it, the last user with a uid counting |
| Reporting.Reporter.Report | node/user.go:24-101 | what is rolled back, dropped or kept, and the failure counter, for either answer of the panel |
| Reporting.Reporter.ReportUserTrafficTask | node/user.go:11-101 | one cycle changes counters, failures, accumulator and ledgers as the cycle function says, for the node's threshold (none counts as 0), list and settings, and no other tag |
| ReportRuns.CycleFates | node/user.go:11-101 | in one cycle all of a user's bytes stay, or all are reported, or all are dropped; none go to another user |
| ReportRuns.CycleInNumbers | node/user.go:11-101 | what one cycle leaves of a user's bytes and adds to its ledgers, in numbers: reported when asked, accepted and above the threshold; dropped when asked and refused more than 5 times in a row, or the number set, or never for a negative one; kept otherwise |
| ReportRuns.DynamicOnlyOnSuccess | node/user.go:80-85 | the dynamic accumulator is fed only when it is in use and a report was accepted |
| ReportRuns.DropsExactlyPastCap | node/config_validation.go:21-43 | bytes are dropped exactly when the panel was asked, refused, and the failures in a row then exceed 5 with the setting unset, or the positive number set |
| ReportRuns.DropsAfterRefusals | node/user.go:39-55 | over any run a round drops exactly when it is refused and the refusals since the last success then are that many |
| ReportRuns.NegativeNeverDrops | node/config_validation.go:25-27 | over any run a negative setting drops nothing |
| ReportRuns.Conservation | node/user.go:11-101 | over any run with any deletions and changes of the uid map and the threshold, per user and direction: generated = held in the core + reported + dropped + what the deletions took, which is what the counters held at each of them |
| ReportRuns.FailuresAreConsecutive | node/user.go:41-78 | the failure counter is the number of refusals since the last success |
| ReportRuns.HeldIsBounded | node/user.go:24-101 | with at most G new bytes a round a user holds at most T + f*G bytes after f refusals in a row, and at most T once they exceed the setting, where T is the largest threshold so far |
| ReportRuns.DynamicCountsReportedOnce | node/user.go:80-182 | across failures, retries and changes of the user list, the dynamic accumulator with what speed checks took and deletions or reloads forgot holds each reported byte of a then known user once and no dropped byte |
| UserDiff.UserKeyInjective | node/user.go:218-220 | two users share a key exactly when uuid and both limits agree, also with bars in the uuid |
| UserDiff.DiffReachesNew | node/user.go:222-242 | for all lists, repeats included: the old keys without the deleted ones and with the added ones are exactly the new keys |
| UserDiff.AddedWhere | node/user.go:222-242 | for all lists a user is added exactly for a place whose key no old user has or an earlier new one has |
| UserDiff.DiffByKey | node/user.go:222-242 | on lists without repeats the diff is exactly the set difference both ways |
| UserDiff.CompareUserList | node/user.go:222-242 | the two loops over an index compute such a diff, for any iteration order: the deleted keys are the old ones not new, the added ones bring the rest to the new |
| UserIndex.Limiter.UpdateUser | limiter/limiter.go:136-159 | deletes then adds the users' entries in both maps, and forgets devices, buckets and alive counts of the deleted |
| UserIndex.LimiterMap.AddLimiter | limiter/limiter.go:80-110 | registers an index built from the whole list, replacing one under the same key |
| UserIndex.FreshHolds | limiter/limiter.go:80-110 | a new index has an entry for exactly the users listed, with the id, speed limit and device limit of the last of each uuid, under runtime key, bar and uuid |
| UserIndex.UpdateHolds | limiter/limiter.go:136-159 | after an update an added user has its own id and limits, a deleted one that is not added has no entry, any other what it had |
| UserIndex.ForgottenAre | limiter/limiter.go:136-142 | devices, buckets and alive counts go for exactly the users deleted |
| UserIndex.AgreeMeans | limiter/limiter.go:80-110 | agreement means equal uid maps, equal user sets and equal static limits |
| UserIndex.IncrementalMatchesFresh | limiter/limiter.go:80-159 | applying the diff to an index gives what a fresh one has if and only if kept users keep their ids |
| UserIndex.UnchangedUsersKeepDynamic | limiter/limiter.go:136-159 | a user on both lists with the same limits keeps its entry, dynamic limit and expiry included |
| UserIndex.SwappedListAgrees | node/reload.go:121-195 | an index that stays while the list is replaced agrees with the new list if and only if both hold the same users with the same ids and limits |
| UserIndex.IndexKnows | node/task.go:81-149 | after any sequence of diffs, same-tag reloads and dynamic limits the index holds for a uuid what the last diff that touched it said |
| UserIndex.IndexFollowsUsers | node/task.go:81-149 | so it agrees with one built fresh from the current list if and only if that is what the list says, for every uuid |
| UserIndex.RejectedUntilTouched | limiter/limiter.go:136-202 | a user the index does not hold at some point is held later if and only if the last diff that touched it since then put it on the list |
| PortRegistry.ConflictMeaning | node/port_registry.go:131-148 | two listeners clash exactly when port and transport are equal and the addresses are equal or one is 0.0.0.0; the relation is symmetric |
| PortRegistry.ListenersWanted | node/port_registry.go:154-232 | a node wants a listener for each transport of its protocol, at the port of its payload cut to 16 bits and its listen address; without the payload it is an error |
| PortRegistry.CertForTls | node/controller.go:77-104 | a certificate is needed exactly for tuic, hysteria, hysteria2 and anytls, and for vless, vmess and trojan with TLS in their payload |
| PortRegistry.NodeSpecsAreCompatible | node/port_registry.go:154-232 | a node's own one or two listeners never clash and use its 16-bit port |
| PortRegistry.Registry.Reserve | node/port_registry.go:57-86 | succeeds exactly when key and tag are free and no held listener has the port and transport of a wanted one at the same address or with one of them at 0.0.0.0, which the empty address stands for; then all is taken, and otherwise nothing |
| PortRegistry.Registry.Compact | node/port_registry.go:103-114 | compacts the array in place to the other owners' listeners in order and clears the cells behind |
| PortRegistry.Registry.DropTag | node/port_registry.go:97-102 | removing the first matching tag removes all of them |
| PortRegistry.Registry.Release | node/port_registry.go:90-115 | gives up exactly what the key holds; an unknown key changes nothing |
| PortRegistry.RunKeeps | node/port_registry.go:57-115 | over any run keys and tags are one to one, every listener's owner is live, and no two held listeners clash |
| PortRegistry.ReleaseUndoesReserve | node/port_registry.go:57-115 | a reservation followed by its release restores the registry exactly |
| Controllers.Controller.Start | node/controller.go:154-281 | a failed start leaves the shared state as its rollback says for the step that failed; a successful one serves the node under a fresh limiter with the panel's alive list and runs exactly the tasks the node needs; the panel client remembers what it read |
| Controllers.Controller.Rollback | node/controller.go:173-191 | undoes exactly the steps whose flag is set |
| Controllers.Controller.Close | node/controller.go:285-312 | stops all tasks; without a runtime key it changes nothing else, with one it takes down limiter, inbound and listeners under that key, also those of another owner when the controller's start was refused (Node.Start keeps no such controller) |
| Controllers.Controller.ReloadNodeConfig | node/reload.go:53-208 | without its payload or the certificate it needs a new node changes nothing at all; any other is done exactly when the old inbound is removed, the new one installed and its users, if any, all added; every field is then new and otherwise old; the controller's limiter is always the registered one, with its users rebuilt only when the tag changed |
| Controllers.PanelClient.GetNodeInfo | api/panel/node.go:142-170 | a body seen last time is "unchanged", any other is remembered, errors included, and then an error or a new configuration |
| Controllers.PanelClient.GetUserList | api/panel/user.go:36-86 | an error, nothing for "not modified", or the list, whose version only then is remembered |
| Controllers.Controller.ApplyList | node/task.go:122-144 | a list as a diff: users, limiter index and core end as the step function says for each way the core calls end, the list moving only when both went through |
| Controllers.Controller.NodeInfoMonitor | node/task.go:81-149 | one pull, for every answer and failure, moves list, index, node info and inbounds as the step function says and keeps key, tag and limiter; an error, nothing new and an empty list change nothing; a new list or an acceptable configuration takes its place when the core does all it is asked |
| Nodes.Node.Start | node/node.go:44-73 | either every node is up, or the first failing one and all before it are undone in reverse order |
| Nodes.Node.Close | node/node.go:104-120 | closes every controller, last first |
| Lifecycle.FailedStartRestoresRegistry | node/node.go:44-73 | whatever fails, a failed start leaves the port registry exactly as it was |
| Lifecycle.FailedStartLimiters | node/controller.go:173-191 | a failed start removes exactly the limiters under the keys it used, so the map is restored if and only if those keys were free |
| Lifecycle.FailedStartInbounds | node/node.go:125-140 | with unused keys a failed start restores the core's inbounds if and only if the failing node left nothing behind and every teardown call let its inbound go |
| Startup.StartsExactly | node/controller.go:154-281 | a node starts exactly when its core is known, the panel answers all requests, payload and needed certificate are there, inbound and users go in, a dynamic limit has its settings, and registry key, tag and listeners are free |
| Startup.KeysAre | node/controller.go:314-316 | tag and key are the name or [host]-type:id, and core, bar, tag |
| Startup.HoldsListeners | node/port_registry.go:78-85 | a node that came up holds exactly the listeners it wants, the empty address as 0.0.0.0, under its key and tag |
| Startup.AllComeUp | node/node.go:44-73 | all nodes come up exactly when each could start alone and no two share key, tag, or a port and transport at clashing addresses |
| Lifecycle.SuccessfulStart | node/node.go:44-73 | after a successful start runtime keys differ and listeners of different nodes never conflict |
| Lifecycle.StartedServe | node/controller.go:251-280 | after a successful start every node is served with all its users under the limiter made for it |
| Lifecycle.CloseUndoesStart | node/node.go:104-120 | start then close gives the registry back, and with free keys and obedient teardown the whole shared state |
| Lifecycle.TasksOutliveFailure | node/task.go:24-70 | a failed start leaves tasks running exactly when all went well until the missing dynamic limit settings |
| Lifecycle.ReloadServes | node/reload.go:99-208 | after a reload the node is served with the list the reload was given or the one it had, as the controller believes, when it was refused early, committed, never taken down, or brought back, and for a changed node only then |
| Pulls.DiffInWords | node/task.go:119-144 | what a diff leaves in core, list and limiter for a uuid, when both core calls go through and when either stops part way |
| Pulls.CoreStep | node/task.go:97-147 | a core that serves the controller's users before a pull does so after it if and only if a stated condition on the answers holds, for diffs and reloads and every failure of either |
| Pulls.PullStep | node/task.go:81-149 | for core, controller and limiter together: also a committed reload must bring the very users there were |
| Pulls.RunInStep | node/task.go:81-149 | over any run of pulls and dynamic limits they speak of the same users throughout if and only if every pull meets its condition |
| Pulls.ThreeAgree | node/task.go:81-149 | at the end of any run the limiter agrees with the list if and only if for every uuid the last completed diff that touched it said what the list says; with a core in step, that is when all three agree |
| Pulls.MendsAfterAnyRun | node/task.go:81-149 | after any run with any failures, a pull that completes brings the core back in step if and only if it is a reload or the core was right about every user the diff leaves alone, and the limiter if and only if it was right about those, or agreed with the reloaded list |
| Pulls.StrayStays | node/task.go:130-141 | a user in the core whom neither the controller's list nor any later one names stays there over every run without a reload |
| Pulls.ReloadedUserIsRejected | node/task.go:97-144 | a user only reloads brought stays unknown to the limiter, over any run, until a completed diff touches it; the last that does decides |
| Pulls.UnchangedListEmptiesNode | api/panel/user.go:48-50 | a new configuration with an unchanged list, reloaded, leaves the node without users, in step if and only if it had none |
| Pulls.EmptyWhileListSame | api/panel/user.go:36-50 | and it stays without users over every run in which the panel keeps that list, whatever its configuration does |
| Pulls.ErrorMakesNodeChange | api/panel/node.go:150-162 | the same follows from one error answer and then the configuration in force, unchanged |
| Pulls.OfferedOnce | api/panel/node.go:150-162 | after any run a pull reloads the node if and only if it brings a configuration other than the body served last, and the list is answered |
| Pulls.NotTriedAgain | node/reload.go:40-46 | while the panel goes on serving the body it served last, no pull reloads the node |
| Pulls.LostConfiguration | node/task.go:82-91 | nor does one after a new configuration whose pull failed at the user list, so the node info stays as it was |
| Pulls.DownUntilReload | node/reload.go:99-182 | a node the core does not serve stays so over a run if and only if no reload of the run ends in one of the ways that install it |
| Pulls.OfflineWhileSame | node/reload.go:141-148 | a reload that leaves the core without the inbound, as when the new node and the rollback are both refused, does so for every run in which the panel serves that body |
| Pulls.QuietPanel | api/panel/user.go:36-86 | while the panel keeps body and list, no pull changes node info, list, or anything in the core, in whatever state failures left them |
| Service.RunPulls | node/task.go:77-149 | any pulls of several controllers in any order, with any answers, keep every key, tag and registered limiter, all inbounds under other keys, and the port registry |
| Service.PullAgain | node/task.go:81-149 | the pulls of a controller and its panel client are a run of turns, so all results about runs of pulls are about them |
| Service.StartedInStep | node/controller.go:251-280 | after a successful start core, controller and limiter are in step for every node |
| Service.QuietAfterStart | node/controller.go:199-220 | the start counts as the first pull: while the panel keeps what it served then, no pull reloads the node or changes its list or inbound, and the three stay in step |
| Service.StartPullClose | node/node.go:44-120 | start, any pulls, close: the start succeeds exactly when all nodes can come up together; the port registry ends exactly as it was, whatever failed; after a start that succeeded so do limiters and inbounds under all other keys, the limiters under the nodes' own are gone, and an inbound of theirs is left only if the core would not let it go, and exactly then if no reload took it down |
| ProcessReload.ReloadProcess | cmd/reload.go:109-166 | builds and closes exactly as the three phases say, for every answer of the factories |
| ProcessReload.Server.OnChange | cmd/server.go:98-142 | how the server command rebinds core, nodes and configuration for each outcome |
| ProcessReload.EveryRunIsClean | cmd/reload.go:93-108 | over any run nothing is closed twice or left open, runners close before their core, and no two runners are open at once |
| ProcessReload.HeldOrClosedOnce | cmd/reload.go:93-166 | every core and runner ever built is the one held or was closed exactly once |
| ProcessReload.OutcomeTells | cmd/reload.go:67-91 | the outcome says which configuration is live, and a restored runtime is a rebuilt one |
| ProcessReload.NextReloadBoots | cmd/reload.go:86-91 | a caller that keeps the interface value never crashes and comes back from being offline |
| ProcessReload.OfflineForGood | cmd/server.go:136-140 | the server command never comes back from being offline, and crashes at the first core that can be built |
| ProcessReload.CrashesExactly | cmd/server.go:98-116 | in any run it crashes exactly when offline and the new core can be built, and otherwise fares as with the interface value |
| ProcessReload.ExitClosesFirstCore | cmd/server.go:77 | at exit the first core is closed, a second time unless it is still in use |
| Json5Scan.ConsumeComment | common/json5/json5.go:21-47 | in place: blanks what the scan takes for the comment, changes nothing else, and stops where it says |
| Json5Scan.Prep | common/json5/json5.go:49-93 | the two nested loops over the buffer compute the scan of the input, in range and terminating on every input |
| Json5Lexer.ScanIsLexer | common/json5/json5.go:21-93 | the scan computes the pure lexer if and only if stars in block comments are followed by blanks and no look-ahead reaches a brace over a stray slash |
| Json5Lexer.PlainIsFaithful | common/json5/json5.go:95-97 | inputs whose slashes open comments and whose block comments hold no inner star are among them |
| Json5Bytes.CleanBytes | common/json5/json5.go:95-97 | on every input, with the bytes as numbers: strings stay, comments become blanks (32), and so does a comma (44) outside both when the next byte that is no blank (32, 9, 10, 13) and no comment is 93 or 125; everything else stays |
| Json5Bytes.TidyBytes | common/json5/json5.go:49-97 | the scan does the same on every input whose slashes outside strings open comments and whose block comments hold no inner star |
| Json5Bytes.ScanBytes | common/json5/json5.go:49-97 | and on every other input it is faithful to |
| Json5Lexer.CleanKeepsMeaning | common/json5/json5.go:95-97 | a strict JSON lexer reads from the cleaned bytes the strings and symbols the author meant, at the same positions |
| Json5Lexer.ScanKeepsMeaning | common/json5/json5.go:95-107 | so does it from what the scan leaves, on every input the scan is faithful to |
| Json5Lexer.ScanLeavesSettled | common/json5/json5.go:49-93 | a plain input comes through unchanged if and only if it has no comment and no trailing comma |
| Json5Lexer.KeptOrBlank | common/json5/json5.go:49-93 | on every input the length is kept and each byte is kept or blanked |
| Json5Lexer.StarsHideTheEnd | common/json5/json5.go:31-44 | a block comment of two more stars is not closed and swallows what follows |
| Json5Lexer.StrayLosesComma | common/json5/json5.go:75-87 | a comma is lost over a slash that opens no comment |
| DnsEnv.ParseFlatDNSEnv | node/cert_resolve.go:16-41 | the loop over lines computes the parse, and the early return on blank input changes nothing |
| DnsEnv.RenderedIsRead | node/cert_resolve.go:11-15 | pairs written with any padding among lines to skip are read back, the last line of a key winning, and none at all reads as nothing |
| DnsEnv.EveryTextIsItems | node/cert_resolve.go:16-41 | every text is such a text, so this says what is read from all of them |
| DnsEnv.TypedIsRead | node/cert_resolve.go:11-41 | KEY=VALUE lines of visible ASCII with blanks and tabs around are read back, the last line of a key winning, and no other key |
| DnsEnv.CrlfReads | node/cert_resolve.go:16-41 | a text with CR LF line ends reads as the one with LF |
| DnsEnv.RoundTrip | node/cert_resolve.go:11-15 | any nonempty map written as lines in any order reads back as that map |
| DnsEnv.SkippedEntry | node/cert_resolve.go:21-34 | a line is skipped exactly when nothing but white space stands before its first equals sign |

## Left out

- Interleavings inside one call: each method is one atomic step. The source accepts one connection too many between the checks and the change of AddConnCount, and reads counters before it zeroes them.
- Machine integers: counters, failures and slots are unbounded; only the conversion of a port to 16 bits is modelled.
- Nested concurrent maps are map values in a field, and the record behind a user entry is a value; sharing of one record by two maps does not occur in the source.
- ConnRuns.AdmissionCountsWhatWasLetIn: limits are not negative and times do not run backwards; ConnRuns.CapsHold covers limits of any sign.
- ConnRuns.RunKeeps: addresses carry the IPv4-mapped prefix at most once, as every textual IP address does.
- ReportRuns.Conservation: traffic is generated for users the live uid map knows, each with a uid of its own that it keeps when deleted and added again; Traffic.DrainReAddRestores says what goes wrong otherwise.
- UserIndex.IndexFollowsUsers, Pulls.RunInStep, Pulls.ThreeAgree: lists have distinct uuids; entries deleted when a dynamic limit runs out are not part of these runs.
- Pulls.QuietPanel, Pulls.EmptyWhileListSame: the panel answers conditional requests for its list as section 13.1.2 of RFC 9110 says; the other results about pulls are about any answers. A configuration answered "not modified" counts as the body seen last.
- Controllers.Controller.ReloadNodeConfig: reloads to another tag are modelled as the code has them, but no panel client causes one (Controllers.ClientTagStays), so results over runs of pulls are about unchanged tags.
- Json5Lexer.ScanIsLexer: inputs where a comma's look-ahead meets a slash that opens no comment directly before a quote are outside, because the scan then reads strings out of phase with the lexer; Json5Lexer.StrayLosesComma shows one.
- Lifecycle.FailedStartInbounds: stated for keys the core did not serve before; what becomes of an inbound the core already has is the core's affair.
- Token-bucket rate limiting, the choice between node and user speed limits, and the expiry of dynamic limits in CheckLimit: arithmetic of a foreign library and a clock.
- The panel-driven bring-up (StartNodes), interval handling, ports and protocols of the builders of inbounds: field copying before the same Start.
- Closing all links of a user and online-user filtering: no invariant of theirs is used here.
- What else a pull does: the dynamic traffic accumulator it resets or thins out is in ReportRuns, not in the controller; the intervals are not modelled.
- Panics inside a bring-up count as a failure of the core call they come from; panics inside a reload are not modelled.
- HTTP, certificates, file watching, logging, timers and the scheduling of periodic tasks.
