# DROS in Dafny

DROS turns declarative gateway objects into ordered, checked changes to a live
Linux router. These modules model its protocols, compilers and orderings, with
the outside world (queue file, links, XFRM policies and states, policy rules,
WireGuard peers, files) as explicit state that every command changes step by
step, and prove what the code is there to guarantee.

| part | modules |
|---|---|
| event queue and its concurrent protocol | `EventQueue`, `EventProtocol`, `Convergence`, `ConvergenceLimits` |
| XFRM event handler | `XfrmHandler`, `XfrmKernel`, `XfrmCommands` |
| XFRM inventory, ownership tests and uninstall | `XfrmInventory`, `XfrmGrammar`, `XfrmSections`, `XfrmListing`, `XfrmOwnership`, `XfrmUninstall` |
| uninstall planning and application | `DeleteOrder`, `DeleteApply` |
| firewall compiler, NAT and marks | `Firewall`, `FirewallMeaning`, `FirewallTranslation`, `FirewallNat`, `FirewallMark` |
| dependency orders and file names | `DepthFirst`, `InterfaceOrder`, `FileNameLimit`, `PluginRegistry` |
| reconcilers and overlays | `WireGuard`, `RouteRules`, `Overlay`, `PrefixDelegation` |
| shared notions | `Wrappers`, `Sequences`, `Texts`, `Numerals`, `Ordering`, `Graphs` |

Code that updates variables or objects step by step is a method or a class with
the same branches, tied by its `ensures` to a function of its inputs or of the
old state; the lemmas are about those functions. A Python exception is a
`Failure`, a `None` or an error value of its own. A command that can fail for
reasons outside the model fails nondeterministically.

Four promises do not hold as one would like to state them. Each is given its
exact condition and a concrete failing case:

- A drained queue means that installed transports and live interfaces agree,
  unless the last handler of that very event raised: the batch is cut all the
  same and nothing retries. Disagreement and such a handler are equivalent
  (`Convergence.DrainedIff`); a missing transport stays missing until its start
  is handled again (`ConvergenceLimits.RaisedStaysMissing`,
  `ConvergenceLimits.RaisingLosesStart`).
- Nothing keeps the policies and states of two transports apart, and starting or
  stopping one deletes by key. Without raising, all drained runs agree for a
  transport if and only if no other manual transport shares a key with it
  (`ConvergenceLimits.AgreementIff`); two transports between the same addresses
  do (`ConvergenceLimits.SamePeersAreRivals`), and the second one up takes the
  first one's policies away (`ConvergenceLimits.SecondStart`,
  `ConvergenceLimits.TwoTunnelsClash`).
- The forward rule of an `ipmap` admits the packets it translated if and only if
  the target address also satisfies `daddr` and `daddrNot`
  (`FirewallNat.IpmapAdmitsIff`); the ordinary one-to-one map is translated and
  then dropped (`FirewallNat.IpmapCanDrop`). What an earlier raw `forwardAllowRule`
  says comes before any admission (`FirewallNat.EarlierRawDrops`); the verdict on
  a translated packet is given in full by `FirewallNat.IpmapIsForwarded` and
  `FirewallNat.PortmapIsForwarded`.
- Generated ifupdown file names sort in dependency order if and only if there
  are at most 99 of them (`InterfaceOrder.FilesInOrderIff`); a chain of 100
  interfaces breaks the order (`FileNameLimit.LimitIsReached`).

## Model

| member | source | states |
|---|---|---|
| EventQueue.CoalesceEventPayloads | src/dros/events.py:185-201 | the dict that deletes and reinserts keys computes the last occurrences of the readable lines' keys |
| EventQueue.CoalescedOrder | src/dros/events.py:185-201 | each key of the batch once, exactly the batch's keys, ordered by where each occurs last |
| EventQueue.CoalescedUnique | src/dros/events.py:185-201 | those three facts determine the result, so no other coalescing meets them |
| EventQueue.DecodeText | src/dros/events.py:37-45 | splitting and decoding the text of any list of enqueued payloads gives back their keys in order |
| EventQueue.CutLeavesAppended | src/dros/events.py:175-182 | with appends as the only writers, cutting a batch leaves exactly the text appended since the read, and the fallback is not taken |
| EventQueue.FallbackDropsLines | src/dros/events.py:178-182 | the fallback drops as many lines from the front as the batch had, or all there are |
| EventQueue.EventFile.Enqueue | src/dros/events.py:34-46 | one complete line is added at the end of the file, which is created if missing |
| EventQueue.EventFile.DeleteBatch | src/dros/events.py:166-182 | the prefix is cut, with the line-counting fallback; an empty batch or a missing file changes nothing |
| EventQueue.ProcessEventQueueLocked | src/dros/events.py:107-154 | one handler call per key in coalesced order, after which the file holds exactly what arrived during the calls |
| EventProtocol.StepKeepsQueue | src/dros/events.py:107-182 | every step of hooks, interfaces and daemon, crashes included, keeps: the file is the uncut lines in order, and every cut or taken line was handed to a handler or still waits in the batch |
| EventProtocol.NoLostEvents | src/dros/events.py:157-182 | in every reachable state of every interleaving, a line left the file only after process_event was called for it, after it was appended |
| EventProtocol.CutIsExact | src/dros/events.py:166-182 | whenever the daemon cuts, the file starts with its batch (the fallback is unreachable) and the rest is what was appended since the read |
| EventProtocol.DutyIff | src/dros/plugins/network_xfrm.py:80-100 | which events concern a transport: starts of enabled manual ones, stops of all manual ones, with or without the `xfrm/` prefix, and no others |
| EventProtocol.DaemonGoesOn | src/dros/events.py:134-154 | a busy daemon can always take its next step: it cuts exactly when the batch is done, runs the commands of a duty in turn, and a handler may raise at any of them |
| EventProtocol.MarksFollowHandlers | src/dros/events.py:134-153 | the marks of the protocol tell the truth: set by a handler that raised according to what it left, cleared by one that ended |
| Convergence.StepKeeps | src/dros/plugins/network_xfrm.py:80-201 | every step of every process, down to the single ip command, keeps for a transport without rivals: needed and missing, or present and unneeded, implies an event under way or a handler that raised; a stale liveness answer is covered by a later event; the marks of raised handlers are true |
| Convergence.NeverStuck | src/dros/plugins/network_xfrm.py:80-201 | in every reachable state, live and not installed means a start is under way, installed and not live means a stop is, unless the last handler of it raised and left it so |
| Convergence.DrainedIff | src/dros/plugins/network_xfrm.py:80-201 | with a drained queue a needed transport is missing if and only if its last start handler raised and left it missing; an unneeded one is there if and only if its last stop handler raised and left it there |
| Convergence.DrainedAgrees | src/dros/plugins/network_xfrm.py:80-201 | so without such a handler an enabled manual transport is installed when an enabled interface that names it is live, and only when some interface is; without disabled interfaces, if and only if |
| ConvergenceLimits.MissingUntilStarted | src/dros/events.py:134-153 | in any run from any state in which a transport is missing and not being started, it stays missing as long as process_event is not called for its start |
| ConvergenceLimits.RaisedStaysMissing | src/dros/events.py:134-153 | the same after a start handler that raised with its transport missing: the batch goes on and is cut, and nothing brings the transport back |
| ConvergenceLimits.RaisingLosesStart | src/dros/events.py:134-153 | from every drained state without the transport there is a run in which its interface comes up, the handler raises, and the drained system stays without it |
| ConvergenceLimits.SecondStart | src/dros/plugins/network_xfrm.py:178-201 | two enabled transports come up one after the other and nothing fails: in the drained state the first is still installed if and only if each of its entries either shares no key with the second or is one of the second's own |
| ConvergenceLimits.SamePeersAreRivals | src/dros/plugins/network_xfrm.py:300-331 | transports between the same addresses with the same selector protocol share their policy keys, whatever their SPIs; with different request ids the first does not survive the start of the second |
| ConvergenceLimits.TwoTunnelsClash | src/dros/plugins/network_xfrm.py:178-201 | a concrete pair: two valid tunnels between the same routers with their own keys come up, no handler fails, and the drained system has lost the first one |
| ConvergenceLimits.RivalStopRemoves | src/dros/plugins/network_xfrm.py:190-201 | a stop event for a transport that shares a key takes an installed and needed one away, and the drained system stays so although nothing raised |
| ConvergenceLimits.AgreementIff | src/dros/plugins/network_xfrm.py:80-201 | every drained run without raising agrees for a transport if and only if no other manual transport shares a policy or state key with it |
| XfrmHandler.HasLiveInterface | src/dros/plugins/network_xfrm.py:103-175 | it answers if and only if nothing contradicts the configuration (unsupported, ambiguous, wrong type or endpoints, no inventory), and then yes exactly when a user of the transport has a link |
| XfrmHandler.VerifiableIff | src/dros/plugins/network_xfrm.py:103-175 | over the fields of objects and links: every interface that names the transport is valid and of a kind that can use it, and on the real root each has at most one link, of its kind and, for gre, with its two ends |
| XfrmHandler.ActsIff | src/dros/plugins/network_xfrm.py:94-100 | a start looks at the enabled interfaces and acts when one is live, a stop looks at all and acts when none is, and neither acts away from the real root |
| XfrmHandler.LookUpDecides | src/dros/plugins/network_xfrm.py:80-100 | when the objects and links are those of the protocol's configuration and live set, a look-up that answers leads to commands exactly when the protocol's Check step does; where it does not answer, the handler raises |
| XfrmHandler.HandleEvent | src/dros/plugins/network_xfrm.py:80-100 | a start acts only for a live enabled interface, a stop only when no interface at all is live, and an unanswerable question leaves the kernel untouched; acting leaves the kernel as all the commands of the duty do, or those before the refused one exactly when the directions collide |
| XfrmKernel.DirectionsByParty | src/dros/plugins/network_xfrm.py:300-331 | for either local party: what party A sends carries the A-to-B SPI and request id, what B sends the B-to-A ones; the local end is its private address if set, else its public one, the remote end its public address |
| XfrmKernel.Kernel.DeleteEntry | src/dros/plugins/network_xfrm.py:367-421 | the entry with the key goes, all others stay (also those of the same addresses with another prefix, mark or interface id), and the command says whether there was one |
| XfrmKernel.Kernel.AddEntry | src/dros/plugins/network_xfrm.py:334-407 | the entry is added unless its key is taken |
| XfrmKernel.ScopedStay | src/dros/plugins/network_xfrm.py:367-421 | an entry of the same addresses with a mark, an interface id, ports or a wider prefix is never taken out |
| XfrmKernel.StopTransport | src/dros/plugins/network_xfrm.py:190-201 | all policies and states with either key are gone, every other entry is unchanged, in order |
| XfrmKernel.StartXfrm | src/dros/plugins/network_xfrm.py:178-187 | it raises exactly when the two directions share an ESP identity, and then leaves just the first state of its own; otherwise both directions are installed, from the local address to the remote one and back, each with the numbers of the party that sends; all other entries stay, in order |
| XfrmKernel.StartedIsClaimed | src/dros/xfrm_delete.py:332-413 | what a start installed, the uninstall's inspection recognises as owned |
| XfrmKernel.StopUndoesStart | src/dros/plugins/network_xfrm.py:178-201 | a stop takes away exactly what a start installed, and starting twice is starting once |
| XfrmCommands.UndisturbedIff | src/dros/plugins/network_xfrm.py:190-201 | stopping one transport leaves another one installed, whatever else the kernel holds, if and only if the two share no policy and no state key |
| XfrmCommands.CommandsStart | src/dros/plugins/network_xfrm.py:178-201 | the eight commands of a start, run one by one, are all possible and together do what the start promises |
| XfrmInventory.Pairs | src/dros/xfrm_delete.py:204-213 | alternating words become fields; an odd number, an unknown or a repeated key raises |
| XfrmInventory.TextInventory | src/dros/xfrm_delete.py:216-287 | the line and section loops compute the record grammar: every section read, ignored, marked unrecognised, or raising |
| XfrmInventory.Matching | src/dros/xfrm_delete.py:332-413 | the candidate loop and its four exits |
| XfrmInventory.MatchingIsUniqueOwned | src/dros/xfrm_delete.py:332-413 | True exactly when one entry alone has the identity and passes the ownership test; False exactly when every entry was read and none has it |
| XfrmOwnership.OwnedIff | src/dros/xfrm_delete.py:332-413 | an entry has the identity and passes the ownership test if and only if, read as values with defaults filled in, it equals what DROS installs for the direction: addresses, sizes, protocols, numbers, mode, template, action, type, priority, level, and nothing that scopes or narrows it |
| XfrmOwnership.IdentityIff | src/dros/xfrm_delete.py:332-353 | what an entry is recognised by, read as values, and exactly which unreadable fields raise |
| XfrmOwnership.InstalledReadsAsOwn | src/dros/plugins/network_xfrm.py:334-406 | what a start installs does read so |
| XfrmOwnership.DifferentIsRefused | src/dros/xfrm_delete.py:332-413 | an entry with the identity that differs in any of those is refused |
| XfrmOwnership.ClaimedIff | src/dros/xfrm_delete.py:332-413 | an entry is claimed exactly when every entry can be read, one alone has the identity, and that one reads as what DROS installs |
| XfrmOwnership.ProtocolNames | src/dros/xfrm_delete.py:197-201 | protocols go by number or by name in either case |
| XfrmGrammar.PairsIff | src/dros/xfrm_delete.py:204-213 | reading fields succeeds exactly when names and values alternate and each name is known and comes once; every name then has the word that follows it |
| Texts.NextWord | src/dros/xfrm_delete.py:205 | white space of any kind and length separates words |
| Texts.StripIff | src/dros/xfrm_delete.py:226-228 | strip takes the white space off both ends, and leaves nothing exactly of blank text |
| Texts.SplitLinesFirst | src/dros/xfrm_delete.py:225 | lines end at any line break, a carriage return with its newline counting as one; a last line needs none |
| XfrmGrammar.GrammarIff | src/dros/xfrm_delete.py:216-287 | a line is read if and only if it is legible (well-formed fields, no section said twice, no key shown, the identity complete), and is then recognised if and only if every section of it is known |
| XfrmGrammar.LineIff | src/dros/xfrm_delete.py:225-287 | a blank line says nothing, a legible one gives its record, any other raises |
| XfrmGrammar.LastUsedIff | src/dros/xfrm_delete.py:265-268 | the usage times that are passed over: a hyphen, `invalid-time`, or a timestamp |
| XfrmGrammar.TimestampIff | src/dros/xfrm_delete.py:265-268 | a timestamp is six groups of digits with their separators and nothing else |
| XfrmGrammar.FailClosed | src/dros/xfrm_delete.py:216-413 | a line outside the grammar raises, or gives a record that makes every later match on it fail |
| XfrmGrammar.NumbersFailClosed | src/dros/xfrm_delete.py:332-413 | a missing or unreadable number makes every later match on the record fail, and a state's SPI every match whatever is asked for |
| XfrmSections.PolicyParses | src/dros/xfrm_delete.py:225-286 | the printed sections of any policy of a direction read back as its record |
| XfrmSections.StateParses | src/dros/xfrm_delete.py:225-286 | the same for a state, with any usage metadata in between |
| XfrmListing.ListingRoundTrip | src/dros/xfrm_delete.py:216-287 | printing any number of entries in the one-line format and reading the text back recovers the records |
| XfrmListing.RecordMatches | src/dros/xfrm_delete.py:37-44 | a printed record matches exactly the directions that share its identity |
| XfrmListing.RecordIsOwned | src/dros/xfrm_delete.py:355-408 | the record of any direction passes the ownership test of that direction |
| XfrmListing.ListedIsClaimed | src/dros/xfrm_delete.py:332-413 | in a printed listing with distinct identities each entry is claimed and any other identity is reported absent |
| XfrmUninstall.CheckPolicyConsumers | src/dros/xfrm_delete.py:416-452 | it passes exactly when every policy is one of the transport's own or has no template that can use its states |
| XfrmUninstall.UnrelatedIff | src/dros/xfrm_delete.py:416-452 | a listed policy passes exactly when its selector can be read and it matches a direction itself, or no template of it can use any direction |
| XfrmUninstall.UsesIff | src/dros/xfrm_delete.py:416-452 | a template can use a direction's states exactly when it asks for ESP in transport mode and no address, request id or SPI, wildcards aside, speaks against it |
| XfrmUninstall.PassedOverFor | src/dros/xfrm_delete.py:416-452 | a template is passed over only for a field that was read and differs, and can be judged whenever its fields can be read |
| XfrmUninstall.WildcardIsConsumer | src/dros/xfrm_delete.py:436-451 | a template that can use one direction's states is never passed over because of the other directions |
| XfrmUninstall.InspectXfrm | src/dros/xfrm_delete.py:455-462 | an answer implies exclusive, provable ownership and says which directions are present |
| XfrmUninstall.UninstallXfrm | src/dros/xfrm_delete.py:510-522 | a failed inspection changes nothing; a normal return means both identities are gone and all else is as it was; every other exit stops between the ordered deletions, policies first |
| XfrmUninstall.GoneIsAbsent | src/dros/xfrm_delete.py:520-522 | after the deletions the second inspection finds nothing, so the final check cannot fail for what was deleted |
| XfrmUninstall.DoneIsExact | src/dros/xfrm_delete.py:510-522 | what was deleted was the unique candidate and passed the ownership test; exactly the entries with neither identity remain |
| DeleteOrder.LayeredIffAcyclic | src/dros/delete.py:195-209 | the layered loop gives up if and only if the selection's references are cyclic (no ready name implies a cycle, by pigeonhole) |
| DeleteOrder.LayeredOrders | src/dros/delete.py:195-209 | otherwise each pending name comes once, every dependent before what it names |
| DeleteOrder.LayeredLoop | src/dros/delete.py:195-209 | the while loop over the pending dict computes the layers |
| DeleteOrder.RefersIff | src/dros/delete.py:159-176 | only interfaces and gateways are named by others, by at least one path, and nothing names itself |
| DeleteOrder.GraphIff | src/dros/delete.py:159-192 | inside the selection an edge leads from an object to each other one that it names by at least one path, where those named are interfaces or gateways |
| DeleteOrder.OrderedSelection | src/dros/delete.py:159-209 | it reports exactly the unselected objects that name a selected one, else fails exactly on a cycle, else returns a dependents-first order |
| DeleteApply.VerifiedIff | src/dros/delete.py:224-245 | a planned file is verified exactly when it is there, a regular file with one link and no symbolic link, starts with the generated header and has the planned digest |
| DeleteApply.ServiceOwnedIff | src/dros/xfrm_delete.py:465-507 | the unit is accepted exactly when it is stopped, has no drop-ins, and is loaded from the owned file or, without one, not known at all |
| DeleteApply.StoppedUnitIff | src/dros/delete.py:553-577 | the unit counts as stopped when it shows as inactive or failed, and disabled or static |
| DeleteApply.CheckRuntime | src/dros/delete.py:255-313 | it answers if and only if nothing stands in the way: no other tunnel that may carry packets between the transport's addresses, no difference of type, addresses or installation, and no unselected interface that rests on it by link, master or index |
| DeleteApply.Router.StopInterface | src/dros/delete.py:544-552 | an interface with anything in the way is left alone; success means the interface was observed absent; failure touched nothing but that interface |
| DeleteApply.Router.StopTransport | src/dros/delete.py:553-577 | without exclusive, provable ownership nothing in the kernel changes; success means that the unit shows as stopped and both identities are gone from policies and states; no other unit is touched |
| DeleteApply.Router.UnlinkFiles | src/dros/delete.py:578-580 | files go in order, and each one that went was still the planned generated file |
| DeleteApply.Router.Uninstall | src/dros/delete.py:541-584 | one resource is gone, or the run stopped at one of its steps in order; whatever changed, the interface, entries and files touched had passed their ownership tests, and an interface that fails its test stops everything |
| DeleteApply.Router.CheckFiles | src/dros/delete.py:530-535 | it passes exactly when every planned file is still the generated file that was planned |
| DeleteApply.Router.ApplyDeletePlan | src/dros/delete.py:514-589 | a failed preflight mutates nothing; success removes exactly the plan and leaves every transport's unit seen as stopped; any stop is inside one resource, with the earlier ones gone and the later ones, and all other units, untouched; each resource touched had passed its ownership tests in the world just before it |
| DeleteApply.StoppedIsSafe | src/dros/delete.py:541-580 | after any failing exit, a removed file belongs to a resource of the plan whose interface, policies and states are absent |
| DeleteApply.StoppedLeavesRest | src/dros/delete.py:541-589 | files and links of no touched resource are unchanged |
| DeleteApply.StoppedLeavesEntries | src/dros/delete.py:541-589 | policies and states of no touched resource are unchanged |
| Firewall.RenderPolicy | src/dros/plugins/network_firewall.py:240-309 | the two loops emit the lines of the interface and user rules, each into its chain |
| Firewall.RenderNat | src/dros/plugins/network_firewall.py:312-380 | the loop emits the translation, local-output, admission and hairpin lines of each NAT rule |
| Firewall.RenderFirewall | src/dros/plugins/network_firewall.py:69-93 | objects in name order; the defaults are those of `main`, else those of the object with the least name, else the built-in ones |
| Firewall.NameOrderIs | src/dros/plugins/network_firewall.py:69-82 | whichever list has each name once in increasing order gives the configurations in turn |
| FirewallMeaning.PreMeans | src/dros/plugins/network_firewall.py:150-215 | the fixed chains settle loopback, connection state and essential ICMP as the defaults say |
| FirewallMeaning.InterfaceMeans | src/dros/plugins/network_firewall.py:242-301 | what one interface rule adds to any chain is what it says of a packet: ping, DHCPv6, services, forwarding targets, private networks, policies |
| FirewallMeaning.AdmissionMeans | src/dros/plugins/network_firewall.py:329-374 | the filter rule of a NAT rule accepts exactly the packets the NAT rule lets pass |
| FirewallMeaning.ObjectMeans | src/dros/plugins/network_firewall.py:76-81 | the lines of one object, scattered over all chains, mean at each stage what the object says |
| FirewallMeaning.CompilerPreservesMeaning | src/dros/plugins/network_firewall.py:69-347 | for all objects, hooks and packets, evaluating the rules under jump, return and verdict semantics decides as a direct interpreter of the configuration: pre, portmap, auto, user, policy, default |
| FirewallTranslation.ObjectsTranslate | src/dros/plugins/network_firewall.py:292-380 | the lines of all objects, scattered over the chains of the NAT table, do at each stage what the objects say |
| FirewallTranslation.NatTablePreservesMeaning | src/dros/plugins/network_firewall.py:206-236 | for all objects, hooks and packets the NAT table does to a packet what the configuration says: the first rule that wants it sets destination and port, or source; locally generated packets only where asked for; hairpins; masquerading last and for IPv4 interfaces; raw rules in the chain of their type |
| FirewallNat.DecidedAt | src/dros/plugins/network_firewall.py:345-372 | the prerouting chain does to a packet what the first rule that wants it says |
| FirewallNat.PortmapIsForwarded | src/dros/plugins/network_firewall.py:345-362 | in any configuration, the forward verdict on the packet that prerouting makes where a portmap of family ip or ip6 decides: connection state first, then what the earlier raw rules say, else accept; after one that returns, the later chains decide |
| FirewallNat.PortmapIsAccepted | src/dros/plugins/network_firewall.py:345-362 | so the packet is accepted, unless ct invalid, when no earlier raw forwardAllow rule drops or returns it |
| FirewallNat.RedirectIsAccepted | src/dros/plugins/network_firewall.py:329-344 | the input chain accepts every packet that prerouting makes where a redirect decides, unless dropped as ct invalid |
| FirewallNat.RedirectAdmitsOnlyTranslated | src/dros/plugins/network_firewall.py:334-344 | the redirect's input rule matches exactly the translated packets whose original destination its prerouting rule matches |
| FirewallNat.NatOpensNothing | src/dros/plugins/network_firewall.py:334-344 | the input verdict of an untranslated packet does not depend on any NAT rule |
| FirewallNat.IpmapAdmitsIff | src/dros/plugins/network_firewall.py:367-372 | an ipmap's forward rule admits what it translated if and only if the target address satisfies daddr and daddrNot too |
| FirewallNat.IpmapIsForwarded | src/dros/plugins/network_firewall.py:367-372 | in any configuration, the forward verdict on the packet that prerouting makes where an ipmap decides: the same as for a portmap when the target address satisfies daddr and daddrNot, and otherwise the one of the configuration without the rule |
| FirewallNat.IpmapIsAccepted | src/dros/plugins/network_firewall.py:367-372 | so with such a target the packet is accepted, unless ct invalid, when no earlier raw forwardAllow rule drops or returns it |
| FirewallNat.EarlierRawDrops | src/dros/plugins/network_firewall.py:312-328 | a raw rule in front that drops makes a translated packet with an admissible target dropped |
| FirewallNat.IpmapCanDrop | src/dros/plugins/network_firewall.py:367-372 | the ordinary one-to-one map is translated and then dropped, whatever the two interfaces |
| FirewallMark.KeepsOtherBitsIff | src/dros/plugins/network_firewall.py:809-811 | setting a mark keeps the bits outside the mask, for every packet, if and only if the mark lies within its mask |
| FirewallMark.ClassHoldsLast | src/dros/plugins/network_firewall.py:809-811 | after any sequence of settings in equal or disjoint masks, a class holds the last mark set for it, or what it held before |
| FirewallMark.RuleMatchesLast | src/dros/plugins/network_routing.py:434-439 | a routing rule of a class that was marked matches exactly when it names the last mark |
| FirewallMark.OutsideAllKept | src/dros/plugins/network_firewall.py:809-811 | bits outside all masks are unchanged |
| FirewallMark.RenderMark | src/dros/plugins/network_firewall.py:383-394 | the nested loops emit raw and structured mark rules into the two chains |
| FirewallMark.StructuredMeans | src/dros/plugins/network_firewall.py:397-414 | the rules of an item mark exactly the packets it selects, and no output packet when it asks for an ingress device |
| FirewallMark.NoIngressInOutput | src/dros/plugins/network_firewall.py:397-414 | no rule of the output chain asks for an ingress device |
| FirewallMark.MarksPreserveMeaning | src/dros/plugins/network_firewall.py:383-414 | for all items and packets the mark chains leave the mark that a direct reading of the items gives |
| FirewallMark.RoutingFollowsMarks | src/dros/plugins/network_routing.py:434-439 | after the whole chain that the mark rules compile to, a routing rule of a class that the packet was marked in matches exactly when it names the last mark asked for; in any other class it matches as it did before |
| FirewallMark.ChainKeepsOthers | src/dros/plugins/network_firewall.py:383-414 | the compiled chain changes no bit outside the masks of the marks asked for |
| DepthFirst.VisitSound | src/dros/plugins/network_interfaces.py:1652-1679 | one visit keeps the invariant of states, stack, order and reported cycles, and terminates by the count of unvisited names |
| DepthFirst.SortIsTopological | src/dros/plugins/network_interfaces.py:1639-1687 | no error if and only if no cycle is reachable from the roots, every reported cycle is real, and otherwise the order is the dependency closure, once each, dependencies first |
| InterfaceOrder.InterfaceDependencies | src/dros/plugins/network_interfaces.py:1690-1711 | the existing interfaces that a vlan, bridge or pppoe interface names, each once |
| InterfaceOrder.Sorter.VisitName | src/dros/plugins/network_interfaces.py:1652-1679 | the recursive closure over states, stack and output computes a visit |
| InterfaceOrder.SortInterfaces | src/dros/plugins/network_interfaces.py:1639-1687 | the sort from the roots in key order; with errors the list is empty |
| InterfaceOrder.KeyIff | src/dros/plugins/network_interfaces.py:1714-1715 | interfaces are compared by the place of their type, then by name |
| InterfaceOrder.IndependentByKey | src/dros/plugins/network_interfaces.py:1681-1687 | roots without dependencies come in key order |
| InterfaceOrder.DependenciesByKey | src/dros/plugins/network_interfaces.py:1669-1679 | an interface comes right after its dependencies, which come in key order |
| InterfaceOrder.SortedByDependency | src/dros/plugins/network_interfaces.py:1639-1711 | the theorem on the order, for the dependencies of interface specs |
| InterfaceOrder.InterfacesForUpdateOrder | src/dros/plugins/network_interfaces.py:579-593 | it raises, with real cycles, if and only if one can be reached from the selected interfaces; otherwise the order is that of all interfaces, or of the selected ones when another part is cyclic |
| InterfaceOrder.FileOrder | src/dros/plugins/network_interfaces.py:596-600 | the position of each interface among those that have a file |
| InterfaceOrder.HasFileIff | src/dros/plugins/network_interfaces.py:596-600 | the types that have a file |
| InterfaceOrder.SafeNameIs | src/dros/plugins/network_interfaces.py:1748-1750 | a file name keeps each allowed character in its place and has an underscore for any other |
| InterfaceOrder.FilesInOrderIff | src/dros/plugins/network_interfaces.py:603-605 | the names of n generated files sort in their order, whatever the interfaces are called, if and only if n is at most 99 |
| FileNameLimit.LimitIsReached | src/dros/plugins/network_interfaces.py:596-605 | the bound is tight: for every n from 100 on there is an acyclic configuration of n interfaces, each vlan with a configured parent, in which a dependency's file sorts after its dependent's |
| InterfaceOrder.FilesFollowDependencies | src/dros/plugins/network_interfaces.py:579-605 | for any roots without reachable cycle and at most 99 files, a dependency's file sorts strictly below that of each dependent in the order from those roots |
| PluginRegistry.AlwaysSound | src/dros/plugins/base.py:70-98 | after any sequence of register calls every package, file and kind has exactly one owner, which declares it |
| PluginRegistry.TakenIffClash | src/dros/plugins/base.py:71-93 | a call fails if and only if a registered plugin has the name or declares one of the things |
| PluginRegistry.PluginRegistry.Register | src/dros/plugins/base.py:70-98 | a failed call changes nothing and names a true conflict; a successful one adds the plugin and its ownerships |
| PluginRegistry.PluginRegistry.PluginForKind | src/dros/plugins/base.py:100-104 | the one plugin that declares the kind, or an error exactly when none does |
| PluginRegistry.VisitGood | src/dros/plugins/base.py:111-125 | one visit keeps the order good, or raises an error that names a missing plugin or one on a cycle |
| PluginRegistry.OrderIffStartable | src/dros/plugins/base.py:106-129 | an order exists if and only if no dependency is missing or cyclic, and holds every plugin once after all its dependencies |
| PluginRegistry.Starter.VisitName | src/dros/plugins/base.py:111-125 | the recursive closure over visiting, visited and ordered computes a visit |
| PluginRegistry.PluginRegistry.BootstrapOrder | src/dros/plugins/base.py:106-129 | the same for the registry's own plugins |
| WireGuard.RemoveStale | src/dros/plugins/network_interfaces.py:1030-1038 | the stale peers of the listing, and no others, are removed in order, up to the first removal that fails |
| WireGuard.Verify | src/dros/plugins/network_interfaces.py:1039-1058 | exit 85 exactly for an unconfigured peer; exit 0 exactly when the listing is within the configured keys and holds all but possibly the own key |
| WireGuard.Reconcile | src/dros/plugins/network_interfaces.py:1013-1059 | whatever others do, the answers the script got are those of its commands in order and determine its exit code, and a verified listing is what the kernel held then; undisturbed it exits 0 with the configured keys less the own key |
| WireGuard.ReconciledHolds | src/dros/plugins/network_interfaces.py:1014-1058 | what an undisturbed run leaves: the inline key if there is one, and exactly the configured peers other than the interface's own key |
| WireGuard.ExitMeans | src/dros/plugins/network_interfaces.py:1013-1059 | exit 0 means that a missing interface was brought up, or that the listing read last, after all removals, was within the configured keys and held all but the own key read before; 85 and 86 tell the truth; only listed, unconfigured peers were removed |
| WireGuard.ReconciledOnce | src/dros/plugins/network_interfaces.py:1013-1059 | the result does not depend on the peers before, and reconciling twice is reconciling once |
| WireGuard.AddconfEnoughIff | src/dros/plugins/network_interfaces.py:1014-1016 | adding the configuration is enough by itself exactly when no retired peer is there |
| RouteRules.ValidateRuleSet | src/dros/plugins/network_routing.py:306-329 | the errors are exactly the reversed range, the repeated priorities and the priorities out of range |
| RouteRules.RuleTable.Flush | src/dros/plugins/network_routing.py:599-613 | one deletion per listed line removes exactly the rules of the range, repeated priorities included, and nothing else |
| RouteRules.RuleTable.Apply | src/dros/plugins/network_routing.py:211-230 | for any ordered rule list no addition is refused, and the result is the rules below, the configured rules in order, the rules above |
| RouteRules.ShownIsRead | src/dros/plugins/network_routing.py:604-609 | the shell expression reads from every listed line the priority it shows |
| RouteRules.PriorityReadIff | src/dros/plugins/network_routing.py:604-609 | a line is read exactly when digits stand before its first colon, or its end |
| RouteRules.AppliedHolds | src/dros/plugins/network_routing.py:211-230 | the range holds exactly the configured rules, sorted; everything outside is untouched, in order |
| RouteRules.AppliedTwice | src/dros/plugins/network_routing.py:211-230 | applying twice is applying once |
| RouteRules.DisjointCommute | src/dros/plugins/network_routing.py:211-230 | rule sets with disjoint ranges can be applied in either order |
| Overlay.LoadConfigObjects | src/dros/config_objects.py:936-975 | the nested loops over directories, files and documents, with every way to raise |
| Overlay.Loader.AddDocument | src/dros/config_objects.py:952-974 | one document: skipped, duplicate, conflicting, or put in place of its key |
| Overlay.ParseIff | src/dros/config_objects.py:987-1025 | which documents describe an object and which one, which are skipped as disabled, and that all others raise |
| Overlay.DocumentIff | src/dros/config_objects.py:952-974 | a key comes once in a directory; an inclusive load refuses to override a disabled object or to override by one; anything else replaces |
| Overlay.OverlaysAgree | src/dros/config_objects.py:936-1025 | whenever the inclusive load succeeds, the ordinary load succeeds with exactly its enabled objects in the same order |
| Overlay.LaterOverrides | src/dros/config_objects.py:940-974 | a loaded store holds for each key what the last document with it says |
| PrefixDelegation.ValidateConfig | src/dros/plugins/network_ipv6pd.py:194-246 | no error exactly when lengths, subnet ids and prefix lengths are in range |
| PrefixDelegation.ValidIff | src/dros/plugins/network_ipv6pd.py:194-246 | the ranges: lengths from 1 to 64, downstream prefixes of 64, and delegated subnet ids below two to the power of what is left |
| PrefixDelegation.DelegatedLengthIs | src/dros/plugins/network_ipv6pd.py:531-537 | the delegated length goes before the hint, and 60 is expected when neither is known |
| PrefixDelegation.RenderBlocks | src/dros/plugins/network_ipv6pd.py:297-313 | one block for each delegated downstream, in order |
| PrefixDelegation.InsideIffValid | src/dros/plugins/network_ipv6pd.py:240-246 | a subnet id passes the validation if and only if its /64 lies inside the delegated prefix, where it is then aligned |
| PrefixDelegation.DisjointIffDifferent | src/dros/plugins/network_ipv6pd.py:304-309 | two /64s of a prefix are disjoint if and only if their subnet ids differ |
| PrefixDelegation.SubnetsFit | src/dros/plugins/network_ipv6pd.py:274-316 | for every validated configuration: delegated length plus sla-len is 64, sla-id fits sla-len, the /64 is inside the prefix, and different ids give disjoint ones |

## Left out

- YAML, pydantic and regular-expression matching, and the `ipaddress` module: documents, specs and addresses are values; the address functions and the reference search of `_references` are parameters.
- The text of nft, ifupdown, systemd and dhcp6c files, except the XFRM inventory grammar and the ifupdown file names: rules and blocks are structured values.
- Raw nft rules and policies are opaque: a raw rule has an arbitrary outcome on each packet; in a mark chain it may change the mark but gives no verdict.
- Firewall rules that other plugins add to the user chains.
- FirewallTranslation.NatTablePreservesMeaning: is about the first packet of a connection, by which nft translates the later ones; source ports that masquerading or a taken port makes nft choose are not modelled.
- Firewall.RenderFirewall: leaves the mark rules to `FirewallMark.RenderMark`, as they go to a table of their own, and the MSS clamp chain out.
- Masks of `iif`, `iifGroup` and port ranges are sets; nft's rejection of a rule for an address family it cannot match is not modelled.
- FirewallNat.PortmapIsForwarded: family inet is outside the claim, as nft has no `inet daddr`.
- Convergence.DrainedAgrees: is about transports without rivals whose last handlers did not raise, which `ConvergenceLimits.AgreementIff` and `Convergence.DrainedIff` show to be needed; a transport named `xfrm/...` is excluded, as the handler strips that prefix and then looks for another name.
- ConvergenceLimits.AgreementIff: is about transports whose two directions do not collide on their states, because a start of any other always raises (`XfrmKernel.StartXfrm`).
- EventProtocol.NoLostEvents: covers complete lines written by hooks; a line that is JSON but no object makes the coalescing raise, and a crash inside the rewrite of the file can lose lines, neither of which hooks or the protocol's atomic steps produce.
- Locks are atomic steps: a busy process or apply lock is a daemon that does not run.
- The handlers of other plugins for the same event, and event kinds other than the XFRM ones, do nothing to the modelled state.
- XfrmHandler.HandleEvent: takes one inventory of links for the whole call; the separate look-up and commands are in `EventProtocol`. The commands fail only as those of `XfrmKernel.StartXfrm` do.
- XfrmKernel.StartXfrm: a deletion fails only for want of the entry, and an addition only when the key is taken (in `EventProtocol` a handler may raise at any command); algorithm and key material are not modelled.
- XfrmInventory.TextInventory: covers the one-line format; the JSON form of the inventory is not modelled, and integers are unsigned without underscores, so a sign or an underscore reads as invalid.
- `plan_xfrm` and `build_delete_plan` (exclusivity of the source configuration, discovery of files) are not modelled; a plan is any list of resources.
- DeleteApply.Router.ApplyDeletePlan: assumes no outside writer between its steps; the state of the systemd unit after stopping it is a nondeterministic answer.
- Paths that leave the system root are not modelled; a symbolic link anywhere on a path is a property of the directory entry.
- RouteRules.RuleTable.Flush: takes the listing as a snapshot; the pipe of the script lists while it deletes. Priorities that the kernel cannot hold (negative ones) are not rules here.
- Route tables, gateways and route batches; FwMark texts are their 32-bit values.
- WireGuard.Reconcile: a failed `wg addconf` is a failure without effect, and later interference stands for a partial one; allowed addresses and endpoints of peers are not modelled.
- Overlay.OverlaysAgree: goes one way; the inclusive load also fails on conflicts that the ordinary load never sees. Files are given in sorted order.
- PrefixDelegation.ValidateConfig: covers the checks on numbers that the subnets depend on; the forms of addresses, DUIDs and ULA prefixes are not modelled.
- PrefixDelegation.SubnetsFit: is about a delegated prefix of the configured length; a provider may delegate another length. Two downstreams with the same subnet id pass the validation, and then share their /64.
- Interface identifiers, router advertisements and DUIDs of the prefix delegation client.
- Downloads, web interface, monitors, certificates and the catalogue of kinds.
