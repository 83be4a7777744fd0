# Verified model of OTIV

OTIV runs one OpenVPN container per instance and tunnels TCP through WebSockets. This project models the parts of it
that carry state, interleaving or language-level meaning, and proves what they promise. Docker, OpenVPN, the
operating system and the disk are environments: whatever they may do is a parameter, a nondeterministic outcome or an
object that may fail.

`dafny verify dfyconfig.toml` checks everything.

| file | what it models |
|---|---|
| `Text.dfy`, `Vpn.dfy` | the string, `%d` and list operations the program uses; the client record |
| `Protocol.dfy` | VPN requests, their registering goroutines, kicks, administrator steps and reconnecting clients as one labelled step system; a run is any interleaving |
| `KickSafety.dfy`, `Handshake.dfy`, `Admission.dfy`, `Requests.dfy`, `Carrying.dfy` | what every run of that system keeps, which runs exist, and which sessions can still come to carry a client |
| `Handling.dfy` | the handler's `conns` map and its loops; the ban pass and the timeout pass |
| `Passes.dfy` | the passes are runs of the step system and inherit kick safety |
| `BanRace.dfy`, `PortReuse.dfy` | bans, step by step, among requests that keep coming; what happens when a source port is given out again too early |
| `Registry.dfy`, `Management.dfy` | the instance registry: operations as value-level steps, and the class over mutable instances, Docker and `instances.json` proved to take them |
| `Administration.dfy` | the administrator steps of the step system are the registry's operations |
| `Hosts.dfy` | hostnames and the dnsmasq hosts file |
| `Blocker.dfy` | the IP blocker against the history of its events |
| `Relay.dfy`, `Connect.dfy`, `Tunnels.dfy` | the relay loops over connections whose reads and writes may go in any way; the CONNECT hand-over; one tunnel direction end to end, as a step system the loops are shown to follow |
| `Status.dfy` | the management interface's `status 2` report |
| `Args.dfy`, `Flags.dfy`, `Meaning.dfy`, `CommandLine.dfy` | the client's argument reordering, Go's flag parser, exactly when the two together keep the meaning, and printed command lines read back |
| `Urls.dfy` | the client's URL helpers |

## Assumptions

- A dial returns a source port that no session which has not deleted its entry yet holds
  (`Protocol.FreshPort`). The program relies on this mapping, but closes the TCP connection a little before it deletes
  the entry. `PortReuse` drops the assumption: there every dial gets any port the operating system may give it, and
  `PortReuse.ReuseSafeIff` says exactly when a session keeps its entry.
- OpenVPN reads the CCD file and admits the client in one step, and refuses a name whose file says `disable`.
- A management kill that goes through ends every session of the name on that instance.
- UUIDs and container ids are never handed out twice; stopping and force-removing a container succeed, as the
  program ignores their errors; a name conflict in Docker is one way for the creation to fail.
- CCD writes may fail. Writes of `instances.json` and of `blocked_ips.json` succeed, and the process ends only between
  two operations.
- Each blocker method is one step. The program reads the file before it takes the lock
  (backend/internal/api/ipblock.go:48).

## Model

| member | source | states |
|---|---|---|
| KickSafety.KickInvRun | backend/internal/api/handler.go:511-524 | in every interleaving: a kick that wrote its CCD file finds it in place until the instance is deleted, an HTTP kick past its first step did write, only running instances have clients, only live ones CCD files |
| KickSafety.OutForever | backend/internal/vpn/manager.go:467-503 | once a client is disabled and not connected it is so in every later state of every run, across reconnects, other kicks, stop, start, restart and deletion |
| KickSafety.KickedStaysOut | backend/internal/vpn/manager.go:128-136 | after the management kill of a ban or timeout kick one of whose writes succeeded, the client is connected in no later state, however the steps interleave |
| KickSafety.HandlerKickStaysOut | backend/internal/api/handler.go:511-524 | the same for a kick over HTTP without any condition, because it stops when its first write fails |
| KickSafety.ThroughStep | backend/internal/vpn/manager.go:128-136 | in every state of every run, whoever a finished kick disabled and killed is disabled and not connected |
| KickSafety.WayBackIn | backend/internal/api/handler.go:588-648 | a client without a CCD file has a run that brings it back: through the checks, the dial and the join |
| KickSafety.NeverConnectsIff | backend/internal/vpn/manager.go:467-482 | an offline client can never come back if and only if its CCD file is in place or the instance is gone |
| KickSafety.StopHolds | backend/internal/vpn/manager.go:649-666 | a stopped instance has no client and takes no request in any later state until it is started again; its CCD files and the other instances' clients stay |
| KickSafety.DeleteHolds | backend/internal/vpn/manager.go:413-431 | a deleted instance never has a client, a CCD file or a new request again, not after a restart either; those of the others stay |
| Requests.RequestBridged | backend/internal/api/handler.go:588-642 | a request on a running, unlocked instance with room reaches the relay loops |
| Handshake.HandshakeRun | backend/internal/api/handler.go:626-648 | the whole handshake invariant over any interleaving: each session's two channels and two goroutines fit together, ports are distinct, conns and sessions agree |
| Handshake.ConnsExact | backend/internal/api/handler.go:626-648 | conns holds an entry if and only if it is that of a session between registration and deletion, under its own port |
| Handshake.DeleteAfterInsert | backend/internal/api/handler.go:643-648 | a deletion always finds the session's own entry; an insertion overwrites none |
| Handshake.FailedDialUnlisted | backend/internal/proxy/ws_proxy.go:13-29 | a session whose dial failed, or gave no port, is in conns in no later state |
| Handshake.NeverStuck | backend/internal/api/handler.go:626-648 | until the handler is done one of its two goroutines can step, and then the registering goroutine has exited: nothing blocks for ever on portCh or registered |
| Handshake.BoundedSteps | backend/internal/api/handler.go:588-648 | the two goroutines of a session take at most twelve steps in any run |
| Handshake.EmptyWhenAllDone | backend/internal/api/handler.go:643-648 | when all sessions are done the map is empty |
| Handshake.CloseHitsHolder | backend/internal/api/handler.go:113-143 | closing the WebSocket under a seen port closes that of the session registered under it and no other |
| Admission.LimitCheckIff | backend/internal/api/handler.go:601-606 | with a limit of its own an instance refuses a request if and only if at least so many ports are registered for it; without one, if and only if at least the configured limit are, when that is positive; otherwise never |
| Admission.OtherChecksIff | backend/internal/api/handler.go:588-612 | a request comes in if and only if the instance exists and runs, is refused by the lock check if and only if it is locked, and gets an address if and only if the instance exists and runs then |
| Admission.UpgradedWasChecked | backend/internal/api/handler.go:588-616 | in every run of the process: a session past its checks came in while its instance ran, then found it unlocked, then with fewer ports registered than its own or else the configured limit, then running, in this order |
| Admission.AdmissionBound | backend/internal/api/handler.go:597-606 | with a constant limit max, the instance's own or else the configured one, and at most k sessions between check and registration, registered plus in flight never exceeds max - 1 + k |
| Admission.OneAtATime | backend/internal/vpn/manager.go:139-144 | admitted one at a time, never more than the limit, in every state of every run from the start |
| Admission.LockFreezes | backend/internal/api/handler.go:597-600 | while an instance is locked, registered plus past the lock check never increases |
| Admission.Overshoot | backend/internal/api/handler.go:601-606 | the bound is tight: with room for one, k requests that come together all pass the check |
| Handling.Handler.CountConns | backend/internal/api/handler.go:147-157 | the number of ports registered for the instance, which is what the limit check of the step system compares |
| Handling.PortOfIPv4 | backend/internal/api/handler.go:121-129 | every port printed behind an IPv4 address is read back |
| Handling.PortOfIPv6 | backend/internal/api/handler.go:165-173 | and behind an IPv6 address in brackets |
| Handling.NoPort | backend/internal/api/handler.go:121-128 | an address without a colon, or with more than one and no brackets, has no port |
| Handling.Handler.FillHTTPClientIPs | backend/internal/api/handler.go:162-181 | in place, the address of each client whose port can be read and is registered becomes that of the HTTP client; every other client and every other field stays |
| Handling.Handler.CloseWSForCN | backend/internal/api/handler.go:113-143 | closes the WebSocket registered under the port of the first listed client of the name whose port can be read |
| Handling.Handler.DisableCN | backend/internal/vpn/manager.go:470-482 | succeeds for a valid name of a known instance whose directory takes writes, and adds just that entry |
| Handling.Handler.KickClient | backend/internal/vpn/manager.go:484-503 | writes the entry again and removes every client of the name if the management port answers |
| Handling.Handler.KickRequest | backend/internal/api/handler.go:511-524 | one kick and nothing else, or nothing at all when the CCD write fails |
| Handling.KickRemovesIff | backend/internal/api/handler.go:511-524 | after a request answered with success no client of the name is left if and only if the management port answered or none was connected |
| Handling.KickedYetConnected | backend/internal/api/handler.go:522-523 | an instance of the failure: answered with success, and the client stays |
| Handling.Handler.KickVPNClientsByHTTPIP | backend/internal/api/handler.go:335-374 | exactly the banned names are kicked, whatever order the instances come in and however often a name is met |
| Handling.KickedMore | backend/internal/api/handler.go:352-373 | one more kick, perhaps a repeated one, on top of a set of kicks is that set with it |
| Handling.KickedTwice | backend/internal/api/handler.go:352-373 | kicks after kicks come to those kicks together, in any order |
| Handling.BannedExact | backend/internal/api/handler.go:352-373 | a ban is after a name of an instance if and only if that runs, answers, and lists a client of the name whose port is registered for the IP |
| Handling.BanDisables | backend/internal/api/handler.go:335-374 | for every name of every instance: its CCD entry is there afterwards if and only if it was before, or the name is valid, the directory takes writes, and a listed client of a running instance from the IP has it |
| Handling.BanKills | backend/internal/api/handler.go:335-374 | for every client: it is killed if and only if it has such a name |
| Handling.ClosedByName | backend/internal/api/handler.go:113-143 | closing by name closes a WebSocket if and only if it is registered under the port of the first listed client of the name whose port can be read |
| Handling.BanClosesIff | backend/internal/api/handler.go:113-143 | for every listing, names repeated or not, whose clients are on sessions of their own that are still open: the WebSockets closed are exactly those that carry a listed client from the IP if and only if each of these clients is the first of its name whose port can be read |
| Handling.BanCloses | backend/internal/api/handler.go:113-143 | so it is wherever no name is listed twice |
| Handling.BanClosesOther | backend/internal/api/handler.go:119-142 | a listing for which it is not: of two clients of one name, from two IPs, the ban of the second closes the WebSocket of the first |
| Handling.BanTwice | backend/internal/api/handler.go:335-374 | a ban repeated at once changes nothing |
| Handling.ShownIsBanned | backend/internal/api/handler.go:159-181 | when all ports are registered, a ban hits a name if and only if the administrator is shown a client of it with the IP |
| Handling.Handler.SelectTimedOut | backend/internal/vpn/manager.go:105-126 | the loop collects exactly the names selected below |
| Handling.Handler.EnforceTimeouts | backend/internal/vpn/manager.go:100-137 | exactly the names selected in the state before the pass are kicked |
| Handling.SelectedExact | backend/internal/vpn/manager.go:105-126 | by the settings and the connect times alone: on an instance that runs and answers, a name with a limit of its own is selected if and only if a listed client of it has been connected for longer, whatever the configured limit is; any other name if and only if the configured limit is positive and exceeded |
| Handling.TimeoutExact | backend/internal/vpn/manager.go:128-136 | the pass disables and kills exactly the selected names, where the name is valid and the directory or the management port answers |
| Handling.SelectedIff | backend/internal/vpn/manager.go:105-126 | a name is selected if and only if a listed client of it, on a running instance, exceeds a positive effective limit |
| Handling.LimitExactUpTo | backend/internal/vpn/manager.go:121 | for ages up to any bound the int64 comparison is the exact one if and only if the limit is at most 9223372036 seconds or wraps to the bound or more |
| Handling.LimitExactIff | backend/internal/vpn/manager.go:121 | for all ages an int64 holds: if and only if the limit is at most 9223372036 seconds |
| Handling.WrappedLimit | backend/internal/vpn/manager.go:121 | limits from 9223372037 to 18446744073 seconds make every client overdue, however new |
| Handling.OverdueExact | backend/internal/vpn/manager.go:117-123 | so within that range overdue means connected for longer than the limit |
| Passes.KickIsRun | backend/internal/vpn/manager.go:128-136 | one kick, of a pass or over HTTP, as the passes see it, is a run of the step system with CCD write, close and kill in this order |
| Passes.RefusedKickStops | backend/internal/api/handler.go:511-518 | a kick over HTTP whose first write fails takes no further step, whatever runs beside it |
| Passes.PassIsRun | backend/internal/vpn/manager.go:128-136 | any list of kicks is such a run, and it closes exactly the WebSockets the passes say |
| Passes.PassKeepsOut | backend/internal/vpn/manager.go:100-137 | whoever a pass disabled and killed is connected in no later state of any run |
| Passes.BanKeepsOut | backend/internal/api/handler.go:335-374 | a ban that runs undisturbed keeps every valid name the IP was connected under out for good; for disturbed ones see BanRace |
| Passes.BanSparesIff | backend/internal/api/handler.go:335-374 | who survives such a ban, for every session in every stage: it can come to carry a client afterwards if and only if it could before and the name is not hit, or its file cannot be written; over its own WebSocket, if and only if besides the ban does not close that one |
| Carrying.MayCarryIff | backend/internal/api/handler.go:588-648 | a session, wherever its two goroutines stand, has a run in which it carries a client if and only if its instance lives, the name is not disabled, and it is not past its relay and has not failed its dial; over an open WebSocket, if and only if besides nobody closed that |
| BanRace.WorldRun | backend/internal/api/handler.go:325-374 | in every interleaving of requests, blocks, bans, kicks and administrator steps all invariants above hold, every session's request passed the middleware, and a ban's kicks are of the clients it found and have ended when it goes on |
| BanRace.BlockShutsOut | backend/internal/api/handler.go:273-282 | blocking an IP refuses its next request and nobody else's, lifting the block lets it in again |
| BanRace.NoNewRequests | backend/internal/api/handler.go:273-282 | once an IP is blocked, and until the ban is lifted, in every later state of every interleaving its sessions are those of requests that were past the middleware already |
| BanRace.BanNeverStuck | backend/internal/api/handler.go:337-373 | at every point a ban can go on, ends early only where no port is registered for the IP, and can end only when no client and no instance is left |
| BanRace.BanAsksAll | backend/internal/api/handler.go:352-359 | a ban asks every instance that exists when it takes the list, whatever runs between its steps |
| BanRace.BanKicksIff | backend/internal/api/handler.go:337-373 | whatever runs between its steps, a ban kicks a client if and only if its port was registered for the IP at the snapshot and it was connected when its instance was listed; when the ban is over those kicks have ended |
| BanRace.BanHolds | backend/internal/api/handler.go:325-374 | a client some kick of a ban has disabled and killed is connected in no later state, whatever runs beside and after the ban; and while the IP is blocked it gets no new session |
| BanRace.SurvivesIff | backend/internal/api/handler.go:335-374 | after any run, with every ban in force, a session goes on to carry a client of a name that was not disabled if and only if no kick of the name wrote its file, the instance lives, the relay is not over and the WebSocket is not closed, registered or not |
| BanRace.BanExact | backend/internal/api/handler.go:335-374 | a ban from snapshot to end amid everything else: a session of the instance goes on to carry a client of the name if and only if none of the clients of that name listed with a port of the snapshot has its file written by the ban, and the session itself is not over or closed |
| PortReuse.ReuseSafeIff | backend/internal/api/handler.go:626-648 | when all dials get any port no open connection has, a session has its own entry whenever it is registered and relaying, in every run from its dial on, if and only if no session that had not deleted its entry held its port at the dial; otherwise some run deletes it |
| Registry.InvRun | backend/internal/vpn/manager.go:258-318 | in every state between operations, whatever Docker does: running if and only if it has a container, no container shared, Docker holds exactly theirs, the file agrees, stored timeouts are positive and hostnames storable |
| Registry.FieldByField | backend/internal/vpn/manager.go:147-203 | what each operation makes of an instance, field by field: the lock, limit, timeout or hostname asked for, the status, and everything else as before |
| Registry.CreatedOrDeleted | backend/internal/vpn/manager.go:332-390 | a new instance has the name, time and subnet it was made with, runs, and has neither limit, lock, timeout nor hostname; a failed creation changes nothing; a deletion takes just that instance |
| Registry.SettingsLast | backend/internal/vpn/manager.go:147-244 | what was set stays set over any run that does not set it again, through stops, starts and restarts |
| Administration.Follows | backend/internal/vpn/manager.go:147-174 | whatever operation the registry takes, the step system has the step that leads to the same instances with the same status, lock and limit |
| Registry.RestartKeeps | backend/internal/vpn/manager.go:205-244 | after any run a restart keeps every instance but for status and container id, which change together, whichever starts fail |
| Registry.HostsAlwaysValid | backend/internal/vpn/manager.go:601-611 | in every reachable state the hosts file reads back as its entries and every name in it is a valid label |
| Registry.NamesStepIff | backend/internal/vpn/manager.go:579-590 | an operation keeps the hostnames of every instance distinct if and only if it is not the administrator giving a client the name of another, nor a draw with a UUID part that hits one |
| Registry.NamesRun | backend/internal/vpn/manager.go:635-647 | so over any run without these two, restarts included, no two clients of an instance share a hostname |
| Registry.SubnetsInjective | backend/internal/vpn/manager.go:718-722 | different numbers give different subnets |
| Registry.FirstFreeFits | backend/internal/vpn/manager.go:713-725 | allocation is first fit and falls back only when all 247 subnets are in use |
| Registry.AllocationFree | backend/internal/vpn/manager.go:713-725 | with fewer than 247 instances the allocated subnet is of the form 10.i.0.0, 8 <= i <= 254, and unused |
| Registry.AllocationFreeIff | backend/internal/vpn/manager.go:713-725 | the allocated subnet is unused if and only if some subnet of the range is |
| Registry.IsolatedRun | backend/internal/vpn/manager.go:332-390 | over runs that create only while fewer than 247 instances exist, all subnets are distinct and of that form |
| Management.Manager.SaveInstances | backend/internal/vpn/manager.go:320-330 | in whatever order the map is walked, the file decodes to the records, one each |
| Management.Manager.AllocateSubnet | backend/internal/vpn/manager.go:713-725 | the loops find the first fit |
| Management.Manager.StartContainer | backend/internal/vpn/manager.go:258-318 | a new container held by the instance, or, wherever creating, connecting or starting fails, Docker and instance as before |
| Management.Manager.CreateInstance | backend/internal/vpn/manager.go:332-390 | on success exactly one new container, held by a running instance, with the address of its management port and an allocated subnet; on failure, wherever it fails, instances, records, Docker and file are untouched |
| Management.AddressOf | backend/internal/vpn/manager.go:687-695 | the container is named otiv- and the id without its hyphens, and the management address is that name with port 7505 |
| Management.NamesDiffer | backend/internal/vpn/manager.go:687-690 | different UUIDs give different container names |
| Management.Manager.StartInstance | backend/internal/vpn/manager.go:668-685 | succeeds if and only if the instance exists and runs already or every Docker call goes through; then it runs, in exactly one new container, and otherwise nothing changes |
| Management.Manager.StopInstance | backend/internal/vpn/manager.go:649-666 | the stop step: stopped, without container, and Docker without that one |
| Management.Manager.DeleteInstance | backend/internal/vpn/manager.go:413-431 | the delete step: the instance and its container are gone, and nothing else |
| Management.Manager.SetLocked | backend/internal/vpn/manager.go:147-157 | the lock is the one asked for, and nothing else changes |
| Management.Manager.SetMaxClients | backend/internal/vpn/manager.go:160-174 | the limit changes, zero for anything not positive, and nothing else |
| Management.Manager.SetClientTimeout | backend/internal/vpn/manager.go:186-203 | a positive limit is stored, any other deletes the entry |
| Management.Manager.SetHostname | backend/internal/vpn/manager.go:579-599 | the sanitized name is stored and the hosts file written from the new names |
| Management.Manager.UniqueFriendlyName | backend/internal/vpn/manager.go:635-647 | for any draws: the first of fifty that no client of the instance uses, or the one after them with the start of a UUID behind it if all fifty are in use |
| Management.Manager.GetInstanceClients | backend/internal/vpn/manager.go:507-546 | every listed client comes back with its stored hostname, new ones are named by naming steps of the registry, and the hosts file is that of the listed clients |
| Management.Manager.LoadInstances | backend/internal/vpn/manager.go:205-244 | the restart step: records as saved, old containers replaced, running exactly where the start succeeded, management addresses recomputed; fails exactly when the file cannot be read or parsed, and then touches nothing |
| Management.Manager.Shutdown | backend/internal/vpn/manager.go:697-711 | removes exactly the containers of the instances and keeps records and file |
| Hosts.MapRuneTable | backend/internal/vpn/manager.go:552-567 | what becomes of each character, by explicit alphabets: lower case, digits and hyphens stay, upper case becomes lower case, blanks and underscores become hyphens, the rest goes |
| Hosts.SanitizeIs | backend/internal/vpn/manager.go:568-575 | of the mapped name the hyphens at both ends go and the first 63 characters of the rest stay; where nothing is left the name is host |
| Hosts.SanitizeOnce | backend/internal/vpn/manager.go:551-576 | the result of one pass is a valid label if and only if the truncation does not cut right after a hyphen |
| Hosts.CutAfterHyphen | backend/internal/vpn/manager.go:551-576 | a name for which it is not |
| Hosts.IdempotentIff | backend/internal/vpn/manager.go:551-576 | a second pass changes nothing if and only if the first gave a valid label |
| Hosts.SanitizeTwice | backend/internal/vpn/manager.go:590 | two passes always give a valid label and reach a fixed point |
| Hosts.FriendlyStorable | backend/internal/vpn/manager.go:626-647 | every name drawn, with or without the UUID part, is a valid label that sanitizing leaves alone |
| Hosts.NamesDiffer | backend/internal/vpn/manager.go:626-633 | the 484 pairs of words give 484 different names |
| Hosts.WriteDNSHosts | backend/internal/vpn/manager.go:601-611 | a line for each listed client with a hostname and an address, in order |
| Hosts.HostsRoundTrip | backend/internal/vpn/manager.go:601-611 | the file reads back as exactly those entries, each name a valid label |
| Hosts.HostsExact | backend/internal/vpn/manager.go:601-611 | the entries read back are those of the clients with a stored hostname and an address, one each, in their order; so an address resolves to a name if and only if a listed client has that address and a hostname that sanitizes to the name |
| Blocker.IpBlocker.IsBlocked | backend/internal/api/ipblock.go:37-43 | from any state memory and file agree afterwards; without outside edits the answer is whether the latest deciding event is a block |
| Blocker.IpBlocker.SyncFromFile | backend/internal/api/ipblock.go:47-79 | a parsed file wins, a missing file clears, an unreadable or corrupt one is overwritten from memory; the identity when both agree |
| Blocker.IpBlocker.RecordFailure | backend/internal/api/ipblock.go:82-93 | true exactly on every tenth failure since the last reset, block or start, and then blocked |
| Blocker.IpBlocker.ResetFailures | backend/internal/api/ipblock.go:95-99 | drops the count and nothing else |
| Blocker.IpBlocker.Block | backend/internal/api/ipblock.go:101-107 | blocked, count dropped, file agrees |
| Blocker.IpBlocker.Unblock | backend/internal/api/ipblock.go:109-114 | not blocked, the count kept, file agrees |
| Blocker.IpBlocker.Save | backend/internal/api/ipblock.go:126-133 | in whatever order the map is walked, the file holds the map, one entry each |
| Blocker.IpBlocker.Load | backend/internal/api/ipblock.go:135-147 | what the file holds; nothing when it cannot be read or parsed |
| Blocker.IpBlocker.Restart | backend/internal/api/ipblock.go:27-35 | a new process keeps the blocked addresses and forgets the failures |
| Blocker.SyncedIff | backend/internal/api/ipblock.go:47-79 | after a look at the file, blocked are the addresses of its entries, each since its last entry; nobody without a file; the same as before when it cannot be read or parsed |
| Blocker.BlockedByIffLatest | backend/internal/api/ipblock.go:82-114 | the event-by-event account is what the latest deciding event says |
| Blocker.CountsFailure | backend/internal/api/ipblock.go:82-93 | the stored count is the number of failures modulo ten, so between 1 and 9, and reaches ten on every tenth |
| Blocker.Login | backend/internal/api/handler.go:273-312 | the block check comes first, only a wrong password counts as a failure, only a right one resets; which answer and which role, exactly |
| Blocker.TenWrong | backend/internal/api/ipblock.go:82-93 | n failures in a row, n at most ten, from an address that is neither blocked nor has failures: it has n failures, and is blocked if and only if n is ten |
| Blocker.WrongLogins | backend/internal/api/handler.go:284-312 | logins with wrong passwords in a row from such an address, any number: the first ten are answered as such, every later one is refused, and the address is blocked if and only if there were ten |
| Relay.PrefixConn.Read | client/internal/bridge/bridge.go:218-231 | while the buffer holds bytes a read succeeds with as many of them as fit; after that it gives what the connection gives, and fails exactly when that fails |
| Relay.AnySizes | client/internal/bridge/bridge.go:218-231 | for any sequence of read sizes no byte is lost, doubled or moved, the buffer is given in full before the connection is touched, and while it lasts the reads give all that was asked for |
| Relay.ConnToWS | backend/internal/proxy/ws_proxy.go:44-64 | the loop sends, loses and leaves exactly what the recursive account of it says, for any chunks and failures |
| Relay.PumpConserves | backend/internal/proxy/ws_proxy.go:44-64 | by that account every byte read is in a frame, in order, or in the lost chunk, or still to be read |
| Relay.PumpFrames | client/internal/bridge/bridge.go:37-54 | frames are never empty nor longer than the buffer; a chunk is lost only to a write that failed, and then all writes before it went through |
| Relay.PumpComplete | client/internal/bridge/bridge.go:37-54 | unless a write failed, the loop stopped at the first failing read, and the frames are the buffer followed by all the connection yielded until then |
| Relay.PumpEnough | client/internal/bridge/bridge.go:37-54 | no write fails when as many succeed as there are rounds, at most one for each byte of the buffer and each read |
| Relay.WSToConn | backend/internal/proxy/ws_proxy.go:31-42 | what is delivered is the bytes of the frames, in order, as far as there is room; the loop fails if and only if there is not enough, and has then taken exactly one frame more than fits |
| Connect.BufReader.ReadLine | client/internal/bridge/bridge.go:173-174 | gives the first line, keeping all behind it, and fails if and only if no line feed comes before a read fails |
| Connect.SameHead | client/internal/bridge/bridge.go:173-174 | filling the buffer until the head is in it loses nothing, and finds the head if and only if it comes before a read fails |
| Connect.HandOver | client/internal/bridge/bridge.go:170-215 | succeeds if and only if the request head, which does not begin with an empty line, comes in full before a read fails; the tunnelled stream then starts exactly behind the head, what was read of it in front of what was not |
| Connect.HeadPrinted | client/internal/bridge/bridge.go:173-174 | a head as a client writes it, lines with either line end and an empty one, is found to be exactly that, whatever follows; without the empty line none is found |
| Connect.EmptyFirstLine | client/internal/bridge/bridge.go:173-178 | a request that begins with an empty line is refused |
| Connect.HandOverRequest | client/internal/bridge/bridge.go:170-215 | for every such request the hand-over succeeds if and only if the head arrives before a read fails, however it is cut up, and leaves exactly the body |
| Tunnels.EndToEnd | client/internal/bridge/bridge.go:96-147 | for all chunk sizes and stop points the far end has a prefix of what the near end sent, and all that was read once the tunnel is idle |
| Tunnels.LoopsAreSteps | backend/internal/proxy/ws_proxy.go:31-67 | both loops, with any part of the frames getting through, are a run of that step system to the very state they end in: bytes read, frames not taken, bytes delivered, both ends stopped |
| Tunnels.AllGiven | backend/internal/proxy/ws_proxy.go:31-67 | with writes, frames and room enough the far end is given all that the near end yields |
| Tunnels.Tunnelled | client/internal/bridge/bridge.go:170-215 | hand-over, loop in and loop out run together: the far end is given exactly the bytes of the frames that get through, cut to its room, a prefix of the near end's stream behind the request head and all of what it yields when nothing runs out; a run of the step system comes to the same end |
| Status.Scanner.Scan | backend/internal/vpn/instance.go:44-45 | one line at a time, with either line end, nothing skipped |
| Status.GetClients | backend/internal/vpn/instance.go:49-79 | the loop, from the greeting line to END |
| Status.StatusRoundTrip | backend/internal/vpn/instance.go:49-79 | a printed report, its client lines with or without a time and mixed with cut off and other lines, ended by END, is read as exactly its clients in order, whatever follows; a client named like the column title is the only one dropped |
| Status.CounterOfDec | backend/internal/vpn/instance.go:66-76 | a printed number comes through the parser unchanged if and only if it fits an int64, as a time if it is positive besides |
| Status.CounterOfText | backend/internal/vpn/instance.go:66-76 | a field that does not begin like a number leaves the counter at zero and the time unset |
| Text.SplitJoin | backend/internal/vpn/instance.go:57 | splitting undoes joining for separator-free parts |
| Text.ScanOfDec | backend/internal/vpn/instance.go:66-72 | scanning undoes printing for every number that fits an int64 and leaves the variable alone for others |
| Text.ScanPrinted | backend/internal/vpn/instance.go:66-72 | blanks in front, one sign, and whatever stands behind the digits do not matter; the number must fit an int64 |
| Vpn.ValidCNIff | backend/internal/vpn/manager.go:30-34 | a name is accepted if and only if it has one to 64 characters, all letters, digits, underscores or hyphens |
| Args.ReorderArgs | client/cmd/otiv-client/main.go:544-559 | the loop gives the flag groups followed by the positionals |
| Args.StablePartition | client/cmd/otiv-client/main.go:544-559 | the groups cut the list up without remainder; each stays in one piece and in its order |
| Args.ReorderPermutes | client/cmd/otiv-client/main.go:544-559 | on every input the result is a permutation |
| Args.Idempotent | client/cmd/otiv-client/main.go:544-559 | on every input a second pass changes nothing, also when a flag without a value meets the first positional |
| CommandLine.EndToEnd | client/cmd/otiv-client/main.go:541-559 | a command line with its flags anywhere and in any of the forms -n v, --n v, -n=v, --n=v is read, after reordering, as exactly its settings and its positionals, each in order |
| CommandLine.UnknownFlag | client/cmd/otiv-client/main.go:541-559 | a flag that is not defined is an error, or the call for help, after the settings in front of it |
| CommandLine.FlagsEnd | client/cmd/otiv-client/main.go:541-559 | a double dash is dropped and everything behind it is positional; Go's parser also stops at a lone dash and at an empty argument, and keeps them |
| Meaning.MeaningKeptIff | client/cmd/otiv-client/main.go:541-559 | for every argument list and every set of defined flags: a flags-first parse of the reordered list gives the assignments, positionals or error of a flags-anywhere parse of the list if and only if a condition read off the list from left to right holds |
| Meaning.InOrderIff | client/cmd/otiv-client/main.go:544-559 | reordering changes nothing if and only if all flag groups stand in front |
| Flags.ReorderKeepsMeaning | client/cmd/otiv-client/main.go:541-543 | the meaning is kept whenever every flag has its value with it or right behind it |
| Flags.TrailingFlagIff | client/cmd/otiv-client/main.go:544-559 | with a flag without a value at the end of such a list, if and only if there are no positionals; otherwise it swallows the first |
| Flags.TrailingPort | client/cmd/otiv-client/main.go:544-559 | for instance, -port at the end takes the URL for its value |
| Meaning.LoneDashIff | client/cmd/otiv-client/main.go:544-559 | with a lone - behind such a list and anything behind it: if and only if no positional stands in front, no flag follows and the rest is in order |
| Meaning.DoubleDashIff | client/cmd/otiv-client/main.go:544-559 | with a -- behind such a list and anything behind it: if and only if the rest is in order, or, with positionals in front, nothing or only positionals follow and their exchange is not seen |
| Meaning.DashValueIff | client/cmd/otiv-client/main.go:544-559 | with a flag whose value looks like a flag and takes a value along: if and only if that one is not seen to move |
| Urls.NormalizeTwice | client/cmd/otiv-client/main.go:57-70 | on every string normalising is idempotent and gives a WebSocket scheme |
| Urls.NoInstance | client/cmd/otiv-client/main.go:77-92 | a URL names no instance if and only if it has no /vpn/ or nothing behind the first one; otherwise its id is what stands there less one slash at the end |
| Urls.FirstVPN | client/cmd/otiv-client/main.go:77-83 | where the first /vpn/ is: behind the host, except for the host vpn |
| Urls.HttpSpelling | client/cmd/otiv-client/main.go:72-75 | wsToHTTP swaps the scheme and nothing else |
| Urls.CutSpelling | client/cmd/otiv-client/main.go:85-92 | the URL is cut into base and guid if and only if the host is not vpn |
| Urls.Pipeline | client/cmd/otiv-client/main.go:57-92 | for all five spellings: id, base, both ways to the base, and the configuration address |
| Urls.HostVPN | client/cmd/otiv-client/main.go:77-92 | what instanceID, baseURL, configURL and wsBaseURL return for the host vpn instead, and that the two ways to the base part |
| Urls.SameInstanceIff | client/cmd/otiv-client/main.go:695-702 | the configuration is asked for under the instance's id if and only if the URL has no trailing slash |
| Urls.WsBaseWithoutVPN | client/cmd/otiv-client/main.go:333-344 | a URL without /vpn/ is cut behind the host, whatever its path |
| Urls.WsBaseOther | client/cmd/otiv-client/main.go:333-344 | cut also where the second part is not empty, which goes; unchanged with fewer than two slashes |

## Where code and documentation differ

- The comment on `reorderArgs` says the flags may stand anywhere. `Meaning.MeaningKeptIff` says for which lists that is
  so. It fails at a flag without its value (`Flags.TrailingPort`), at `-`, at `--`, and at a value that looks like a flag and is taken to have
  a value of its own.
- A ban is meant to close the WebSockets of its IP. It looks them up by name, so it closes another one where a name is
  listed twice. OpenVPN lists a name twice while an old connection lingers beside a new one, and connections that have
  not authenticated yet all under one placeholder; `Handling.BanClosesIff` has the exact condition.
- A ban does not shut its IP out: a request that is past the middleware goes on, and so does every session of the IP
  under a name the ban does not find. `BanRace.SurvivesIff` and `BanRace.BanExact` say exactly which.
- One `sanitizeHostname` may leave a hyphen at the end (`Hosts.SanitizeOnce`, `Hosts.CutAfterHyphen`). The hosts file is right because the
  name is sanitized once when stored and again when written.
- `instanceID` drops a trailing slash, `configURL` keeps it (`Urls.SameInstanceIff`).
- A limit above 9223372036 seconds wraps in the timeout comparison (`Handling.LimitExactIff`); just above it everyone
  is overdue (`Handling.WrappedLimit`).
- A kick over HTTP answers success also when the management command fails. `Handling.KickRemovesIff` says exactly when
  the client is gone nevertheless; `Handling.KickedYetConnected` is a case in which it is not.

## Left out

- Admission.AdmissionBound: the limit is constant over the run. The limit without a bound on requests in flight does not hold, as Admission.Overshoot shows.
- Handling.BanCloses: for listings in which no name appears twice; Handling.BanClosesIff has the others.
- Handling.BanClosesIff: for clients on sessions of their own that are still open, as the handshake invariant has it.
- Meaning.MeaningKeptIff: flags that take a value, as all of the client's do; boolean flags are not modelled.
- Handling.ShownIsBanned: for instances all of whose listed clients have a registered port.
- KickSafety.KickedStaysOut: needs one successful write of the kick; KickSafety.NeverConnectsIff says what happens without.
- Handling.SelectedExact: for limits up to 9223372036 seconds; Handling.LimitExactUpTo has the larger ones.
- Connect.HandOverRequest: the lines of the head hold no line feed and do not end in a carriage return, as lines cannot.
- CommandLine.EndToEnd: a value that is not attached does not look like a flag, nor does a positional; Meaning.MeaningKeptIff has the others.
- Management.Manager.UniqueFriendlyName: the name with a UUID part, after fifty draws, is not checked for uniqueness by the program either; Registry.NamesStepIff has what follows from that.
- Tunnels.EndToEnd: a prefix, not everything: what is under way when one relay stops is lost, and the program makes no promise about it.
- BanRace.BanHolds: needs a kick that wrote and killed; BanRace.SurvivesIff says what happens where the write fails.
- BanRace.SurvivesIff: for names none of whose clients is disabled and still connected; such a one stays until it is killed or leaves.
- Passes.BanSparesIff: likewise, and the ban runs undisturbed; BanRace.BanExact has the ban amid other steps.
- PortReuse.ReuseSafeIff: for a session whose relay is still running. After that its entry may go to a session that got its port, which is the case the condition excludes for that one.
- Connect.BufReader.ReadLine: a connection that gives nothing a hundred times in a row without failing is read on, where the program gives up.
- Connect.HandOver: of the HTTP request only where its head ends is modelled; method, target and header syntax are not, nor the 405 and 502 answers, nor the error channel of the two loops, whose capacity of two lets both end.
- Status.GetClients: a failed dial is a failed listing in Handling; lines above the scanner's 64 KiB limit and the deadline are not modelled.
- Blocker.IpBlocker.SyncFromFile: atomic, although the program reads the file before it takes the lock; the list for the administrator is not modelled.
- Blocker.Login: tokens and their roles beyond the answer are not modelled, nor how the client's IP is taken from headers.
- Management.Manager.LoadInstances: JSON is abstract: records in, records out, or a file that does not parse.
- Crashes in the middle of an operation and failed writes of the two JSON files.
- The real Docker, OpenVPN, dnsmasq, WebSocket framing and HTTP routing: abstract environments with failures.
- Certificates, TLS and random tokens: foreign cryptography; certificates are opaque, UUIDs are new ids.
- The relay to arbitrary TCP targets, its address filter, the origin check, DNS application on the client, configuration files and downloads: nothing stateful, or one-branch claims.
- The web frontend: display only.
