# An OT security lab, modelled and verified

This project models the parts of the lab that carry state, protocols and arithmetic, and proves what
they are for. `dafny verify dfyconfig.toml` checks all of it.

| files | what they model |
|---|---|
| `Text` | words, lines, splitting, joining, sorting and decimal numbers, as the other modules need them |
| `Firewall`, `FirewallText`, `Kernel`, `TableRoundTrip`, `FirewallMeaning`, `NatAgreement` | the router's firewall compiler, a reader and evaluator of what it prints, and the meaning of the printed file |
| `CtState`, `Revert`, `RevertTheorems` | reading the live chain back into rules |
| `Networks`, `AddressSpace`, `AddressRequests`, `AddressRouter`, `TunnelDefaults` | CIDR blocks, the zones and tunnels that share one address space, the requests that change them, suggested tunnels |
| `AlertLog`, `AlertIndexer`, `AlertRuns` | the alert tailer as a process that can die between any two lasting effects |
| `DnsCodec`, `DnsTheorems`, `DnsReplies` | DNS messages as bytes, and replies to queries |
| `DnsTunnel`, `DnsTunnelTheorems`, `DnsServer`, `DnsInterleaving`, `DnsQueries`, `DnsHandler` | chunk reassembly and downloads per message id, all ids together, what a client asks by name and is answered in bytes, and the handler's objects |
| `Plant`, `PlantUpdate`, `PlantTheorems`, `PlantLaws`, `PlantValves`, `PlantSensors` | the plant simulator over real numbers |
| `ArpMonitor`, `ArpHistory`, `HtmlEscape`, `OperationGate` | the ARP monitor, the HTML escape, the run-one-link gate |

Code that changes things in place is modelled by methods and classes (`AddressRouter.Router`,
`DnsHandler.Handler`, `PlantUpdate.TE`, `ArpMonitor.Monitor`, `OperationGate.Operation`, and the loops
of the compiler, the reverter, the codec and the tailer), each proved equal to a function; the theorems
are about those functions. Clocks, random numbers, command results, bulk answers and interface lists
are parameters.

## How the parts fit together

**Firewall.** The compiler's loops build strings, so its meaning is stated on strings: `Kernel.Restore`
reads a file as `iptables-restore` does, `Kernel.Filter` and `Kernel.Translate` evaluate the tables it
found, with jumps into user chains and a rate-limited log target that does not terminate. Matching of
interfaces, addresses and ports is a parameter (`Matchers`), so the theorems hold for any. A packet has
one verdict and a number of log records, and the policy says both.

**Revert.** The live chain is any listing whose state lists may be permuted. Reading it drops exactly
the managed lines and returns the user rules, and applying those again writes the same file.

**Address space.** A state is safe when builtin zones, configured zones and tunnels are pairwise disjoint
and tunnels differ in name and port. Every request, refused or not, keeps this; what each request does is
said in terms of the addresses in use, both of the methods and of the function that runs are made of.

**Alert tailer.** A run is a list of rounds; in each the process has a number of lasting effects left
before it dies, the file grows while it is being read, the server answers as it likes, the path may
point to a new file, and after a death the process starts again from its state file, on the same file or
on one that replaced it in the meantime. The history of lives on a file is an account: what each life
delivered and where the next one began. Each drain is tied to the server's answers: one batch per accepted
request, a rejection exactly after a refused one, and everything complete delivered when all are accepted.
After a finished drain the file at the path is followed from its first byte.

**DNS.** The codec is proved both against itself and against a reader written from sections 4.1.1 to
4.1.4 of RFC 1035. The tunnel is a step function on what is kept under one message id; ids are proved
independent, so theorems about one id hold in every interleaving. `DnsQueries` says the same from outside,
from the names a client asks for to the answers, and `DnsServer` goes on from the answers to the bytes.

**Plant.** A tick is a function of the state, the inputs, the clock and arbitrary `pow`, `sqrt` and
division by zero. The runs are lists of ticks. Balances over runs, for the total and for each species, stand
beside the laws that fix pressure, level, flows, reaction and cost in a tick.

## Where the code and its description differ

- Revert strips `LOG` from any target, so an action of the user's own that starts with `LOG` is not
  printed again; `RevertTheorems.RebuildReproduces` says exactly which actions are.
- A port given with a protocol other than tcp and udp is shown in the rule table but not printed
  (router/app.py:1004). `FirewallMeaning.PortIsMeant`: the printed line means the rule if and only if it has
  no port or one of those protocols. `PortOfAllIsLost`: "port 443, protocol all" accepts every new packet.
- The suggested tunnel is "not colliding" as text only: `TunnelDefaults.SuggestionMayOverlap` gives a
  tunnel it overlaps, and `SuggestionClearance` says, by arithmetic on the stored networks, exactly when
  there is one.
- The state file of the tailer is emptied before it is written. `AlertRuns.RestartRepeats`: a restart repeats
  at most one batch if and only if the file can be read or no more than a batch was delivered.
  `AlertRuns.DieInDrain` and `RepeatFiftyOne` are runs in which it repeats more.
- A file that is replaced while no process lives is not finished, although the comment at
  wazuh/alerts-indexer.py:180-185 says so: the new one is read from 0 (lines 193-196). `AlertLog.NothingLost`:
  nothing of the old one is lost if and only if no alert lies behind the furthest delivered point.
- The message for a bad port-forward target asks for IPv4, but IPv6 is accepted (router/app.py:1127-1130).
  `NatAgreement.TargetReadsBack`: the printed `address:port` splits into its halves if and only if neither
  holds a colon; `Ipv6TargetIsLost` is the forward to `::1`.
- A reply copies the question count of the query but carries one question: `DnsReplies.RfcReadsReply` says
  exactly which queries get a reply that reads by RFC 1035.
- An encoded name ends at its first empty label: `DnsTheorems.RoundTripCondition`. A label of 64 bytes or
  more is encoded although section 2.3.4 of RFC 1035 forbids it: `DnsTheorems.RfcReadsResponse`.
- A TXT request that completes a message early loses it: `DnsTunnel.LostMessage`.
- The loop that should refresh the delayed samples never runs (simulation/simulation/TE_process.cc:400), so
  the cost is always priced by the first samples: `PlantSensors.RunsStayInRange`. Flows are computed before
  positions and Cv scales are clamped, so a setpoint beyond 100 acts for one tick; the mole balance counts
  the flows that acted.

## Model

| member | source | states |
|---|---|---|
| Firewall.NatAssociatedForwardLine | router/app.py:959-969 | the line built piece by piece is the printed form of the forward's accept rule |
| Firewall.BuildIptablesRules | router/app.py:972-1029 | the loops produce exactly the filter table of the declared chains, log chains, state rules, user rules, enabled automatic forwards, ICS accept and catch-all, in that order |
| Firewall.BuildNatRules | router/app.py:1032-1054 | the loop produces exactly the nat table with one DNAT rule per enabled forward |
| FirewallText.Heads | router/app.py:981-987 | tables, chains and policies, word by word |
| FirewallText.LogLines | router/app.py:988-991 | the four lines of the logging chains, word by word, with the rate limit and the blank at the end of the log lines |
| FirewallText.ForwardLines | router/app.py:993-994 | the state rules, the ICS rule and the catch-all, word by word |
| TableRoundTrip.LoadTable | router/app.py:981-995 | reading the printed lines of any table gives back its chains, policies and rules, without error |
| FirewallMeaning.ApplyLoads | router/app.py:1057-1066 | the file that Apply writes, both tables in one, loads as exactly the rules it was made from |
| FirewallMeaning.WalkDenied | router/app.py:988-991 | a jump to LOGDROP or LOGREJECT ends in that verdict, logged once when the limiter allows and never decided by the log rule |
| FirewallMeaning.ChainMeansPolicy | router/app.py:993-1027 | first-match evaluation of the FORWARD chain, jumps included, gives for every packet the policy's verdict and log count for the rules as printed |
| FirewallMeaning.PortIsMeant | router/app.py:998-1004 | the printed options of a rule hold as the rule is meant, for all matchers and packets, if and only if it has no port or protocol tcp or udp |
| FirewallMeaning.CompileMeansPrinted | router/app.py:972-1029 | for all rules, forwards and packets, the applied file loads and decides as the documented policy of the rules without their unprinted ports |
| FirewallMeaning.CompilePreservesMeaning | router/app.py:972-1029 | for all rules whose ports are printed, all forwards and packets, the text that is printed, read and evaluated by the chain's rules decides as the documented policy |
| FirewallMeaning.PortOfAllIsLost | router/app.py:1004-1004 | the file for one rule "all, port 443, ACCEPT" accepts every new packet, where the policy drops those to other ports |
| FirewallMeaning.RouterIsOpen | router/app.py:981-987 | INPUT and OUTPUT accept every packet, unlogged, whatever the rules |
| NatAgreement.TranslationIsFirstClaim | router/app.py:1042-1054 | the loaded PREROUTING chain rewrites a packet to the target of the first enabled forward that claims it, if that target has no colon, and leaves it alone otherwise |
| NatAgreement.TargetReadsBack | router/app.py:1051-1051 | a printed target splits into its two halves if and only if neither holds a colon |
| NatAgreement.Ipv6TargetIsLost | router/app.py:1127-1130 | a forward to the accepted target ::1 translates nothing |
| NatAgreement.TablesAgree | router/app.py:1010-1017 | a new packet claimed by a forward with an automatic rule is, once translated, accepted unless a user rule decides it first; an unclaimed packet is not translated; only the claiming forward's target must read back |
| NatAgreement.DisabledForwardsAreInert | router/app.py:1014-1016 | removing the disabled forwards changes no byte of the applied file |
| CtState.NormalizeByWords | router/app.py:782-793 | the regular-expression rewriting of a line is a rewriting of its words |
| CtState.NormalForgetsOrder | router/app.py:782-793 | a line normalizes to the same text however its state list is ordered: the sorted one |
| Revert.CollectManaged | router/app.py:807-816 | the managed lines are the four fixed ones and those of the enabled automatic forwards |
| Revert.ParseIptablesRules | router/app.py:796-842 | the loop reads exactly the kept FORWARD lines, numbered from 1, and fails where indexing would |
| RevertTheorems.ReadBackOne | router/app.py:824-841 | a printed user rule reads back as the rule, with an unprinted port and the comment dropped and the log prefix undone |
| Revert.LineIsRead | router/app.py:824-841 | any line of options and a jump is read field by field, with any address, any protocol and no port or interface where it says none |
| Revert.BareLineIsRead | router/test_app.py:352-356 | the line of a bare jump is read as a rule for all |
| RevertTheorems.UserIsRead | router/app.py:821-822 | no user rule's line is ever taken for a managed one |
| RevertTheorems.RevertInvertsApply | router/app.py:796-842 | from any listing of the applied chain with permuted state lists, Revert drops exactly the managed lines and returns the user rules in order |
| RevertTheorems.RebuildReproduces | router/app.py:826-828 | rebuilding from the reverted rules writes the same file if and only if no action starts with LOG other than LOGDROP and LOGREJECT |
| RevertTheorems.ApplyRevertApply | router/app.py:1057-1066 | Apply, listing, Revert, Apply writes the same file for rules with the three standard actions |
| Networks.OverlapIsSharing | router/app.py:2055-2056 | the overlap test holds if and only if some address lies in both networks |
| Networks.OverlappingIsNested | router/app.py:1410-1413 | of two overlapping networks the one with the longer prefix lies inside the other |
| Networks.CanonicalParses | router/app.py:2058-2058 | the stored text of a network parses to the same network |
| Networks.ParseIs | router/app.py:2041-2043 | a subnet parses if its version and prefix exist, and to the network of that prefix that holds its address |
| AddressRouter.Router.ParseNets | router/app.py:36-59 | the loop collects exactly the networks of the subnets that parse, in order |
| AddressRouter.Router.CollectNets | router/app.py:36-59 | the loops collect exactly the networks of zones and tunnels whose subnets parse |
| AddressRouter.Router.AddZone | router/app.py:2034-2062 | done if and only if the interface is free, the subnet parses and none of its addresses is in a builtin, zone or tunnel network; then one zone more, at the end, with that interface, label and network, and otherwise nothing changes; the refusals come in the order of the checks |
| AddressRouter.Router.DeleteZone | router/app.py:2065-2087 | the zone at a valid index goes, those before stay and those behind move up; other indices change nothing |
| AddressRouter.Router.AddTunnel | router/app.py:1383-1437 | done if and only if name, link, port and subnet are as demanded, all stored subnets parse and no address is in use; then one tunnel more, at the end, with that name, label, port and network, and otherwise nothing changes; an unparsable stored subnet raises |
| AddressRouter.Router.DeleteTunnel | router/app.py:1440-1460 | exactly the tunnels of that name go, the others stay in order |
| AddressRequests.ZoneIsAdded | router/app.py:2045-2061 | the request's function, used over whole runs, does just what the method promises |
| AddressRequests.ZoneIsDropped | router/app.py:2074-2075 | the same of the deletion of a zone |
| AddressRequests.TunnelIsAdded | router/app.py:1398-1425 | the same of a new tunnel |
| AddressRequests.TunnelsAreDropped | router/app.py:1445-1456 | the same of the deletion of a tunnel |
| AddressRequests.KnownHolds | router/app.py:2045-2047 | the networks a request is checked against hold exactly the addresses of 192.168.95.0/24, 192.168.90.0/24, the zones and the tunnels |
| AddressRequests.AddedZoneIsLabelled | router/app.py:191-197 | every address of an added zone is labelled with it, and every other address as before |
| AddressRequests.BuiltinsAreLabelled | router/app.py:191-197 | the addresses of 192.168.95.0/24 and 192.168.90.0/24 are labelled LAN and DMZ, whatever is configured |
| AddressSpace.RunIsSafe | router/app.py:2047-2058 | over every run of additions and deletions, builtin zones, zones and tunnels stay pairwise disjoint |
| AddressSpace.AtMostOneContains | router/app.py:191-197 | in disjoint networks at most one contains an address |
| AddressSpace.LabelIgnoresOrder | router/app.py:177-197 | in a safe state the label of an address is the same for every order of the zone list |
| AddressSpace.LabelsStayUnambiguous | router/app.py:177-197 | after any run every address has at most one owner and one label |
| TunnelDefaults.SuggestTunnelDefaults | router/app.py:147-157 | the search ends with the least number free as subnet and as port, at most twice the number of tunnels |
| TunnelDefaults.TakenIsBounded | router/app.py:151-157 | when the first n numbers are all taken, n is at most the subnets and ports in use |
| TunnelDefaults.SuggestionClearance | router/app.py:147-157 | the least free suggestion n, with base B = 10.100.n.0, overlaps a stored tunnel if and only if some IPv4 tunnel with a prefix below 24 has base <= B < base + size, or one above 24 has base / 256 = B / 256; beyond 255 it is the text of no network |
| TunnelDefaults.SuggestionMayOverlap | router/app.py:147-157 | a tunnel on 10.100.0.0/16 is overlapped by the first suggestion |
| AlertLog.NothingIsSkipped | wazuh/alerts-indexer.py:140-173 | whatever the lives on a file, all alerts up to the furthest point were delivered |
| AlertLog.DeliveredCount | wazuh/alerts-indexer.py:157-169 | exactly what hand-overs repeat is delivered more than once |
| AlertLog.RepeatsAreBounded | wazuh/alerts-indexer.py:157-163 | without a torn state write each restart repeats at most one batch |
| AlertLog.NothingLost | wazuh/alerts-indexer.py:193-196 | of a file that is gone every alert was delivered by some life if and only if none lies behind the furthest point |
| AlertIndexer.StartOffset | wazuh/alerts-indexer.py:186-197 | the offset is the saved one if the state file is about this inode and fits, otherwise 0, and never behind the end |
| AlertIndexer.SaveState | wazuh/alerts-indexer.py:53-55 | the file is emptied, then written; a death can fall before, between or after |
| AlertIndexer.ReadOne | wazuh/alerts-indexer.py:144-156 | one line is consumed if it is complete, decodable or not; an unfinished one is left unread |
| AlertIndexer.Flush | wazuh/alerts-indexer.py:157-163 | death, refusal and acceptance by the server's answer: an accepted batch is on the server and recorded at its line boundary, a refused one rewinds to the last recorded boundary |
| AlertIndexer.FinishDrain | wazuh/alerts-indexer.py:164-173 | the last batch is sent with the same three ends, and undecodable lines behind it are recorded as read without a request |
| AlertIndexer.Drain | wazuh/alerts-indexer.py:140-173 | for any growth and answers: the server gains exactly one batch per accepted request, all but the last full, together the alerts from the start to the last delivered point; rejected exactly if the last request was refused, and then rewound; finished means nothing decodable is left; dead only when the effects are used up |
| AlertRuns.LastingDrainLives | wazuh/alerts-indexer.py:140-173 | with three effects per alert and two more, a drain does not die |
| AlertRuns.AcceptedDrainDelivers | wazuh/alerts-indexer.py:140-173 | if then every request is accepted, the drain finishes and every complete line of the file has been delivered |
| AlertRuns.Poll | wazuh/alerts-indexer.py:200-218 | one pass is a drain and what follows: if it finished and the path holds another file, that one is taken up from its first byte under its own inode, recorded as such if the process lives, and exactly the old file joins the finished ones; in every other case the process stays where the drain left it |
| AlertRuns.Start | wazuh/alerts-indexer.py:186-197 | a restart resumes at a line boundary at or before where the last life got; a file replaced meanwhile is abandoned and the new one starts at 0 |
| AlertRuns.Run | wazuh/alerts-indexer.py:186-218 | over every run with deaths, rejections, growth and rotations: nothing before the furthest point is skipped, files followed to their end are delivered whole, files replaced while no process lived lose exactly what lies behind the furthest point, untorn restarts repeat at most one batch each, every round in which all is accepted and the process lasts delivers all that is complete, and after a finished drain the file at the path is followed and delivered likewise |
| AlertRuns.RotationIsFollowed | wazuh/alerts-indexer.py:207-215 | in the round after a rotation, with all accepted and the process lasting, the new file and what was appended to it is delivered whole |
| AlertRuns.DoRound | wazuh/alerts-indexer.py:199-218 | one round keeps all guarantees, and delivers all that is complete when the server accepts and the process lasts |
| AlertRuns.AcceptedPollDelivers | wazuh/alerts-indexer.py:200-201 | the drain of a poll with every request accepted delivers every complete line, growth included |
| AlertRuns.RestartRepeats | wazuh/alerts-indexer.py:53-55 | wherever the process may be found dead, the next one repeats at most one batch if and only if the state file can be read or no more than one batch lay before the last delivered point |
| AlertRuns.DieInDrain | wazuh/alerts-indexer.py:53-55 | a drain from a fresh start on any file of more than one batch, with five effects, dies with an emptied state file and makes the next start repeat more than one batch |
| AlertRuns.RepeatFiftyOne | wazuh/alerts-indexer.py:53-55 | such a run on a file of fifty-one alerts |
| AlertRuns.WoundIsComplete | wazuh/alerts-indexer.py:207-215 | every alert complete in a finished file was accepted |
| DnsCodec.NumberOfPut | caldera/app/contacts/contact_dns.py:102-107 | a number that fits reads back from its big-endian bytes |
| DnsCodec.GetQnameBytes | caldera/app/contacts/contact_dns.py:130-136 | the loop's bytes, or its exception, are those of the name |
| DnsCodec.ParseQnameLabels | caldera/app/contacts/contact_dns.py:139-148 | the loop's labels and computed length, or its exception, are those of the name, also on truncated input |
| DnsTheorems.NameReadsBack | caldera/app/contacts/contact_dns.py:130-148 | an encoded name parses, whatever follows it, to its labels before the first empty one, with its encoded length |
| DnsTheorems.HeaderReadsBack | caldera/app/contacts/contact_dns.py:102-107 | twelve header bytes, each field at its place (section 4.1.1 of RFC 1035) |
| DnsTheorems.QueryReadsBack | caldera/app/contacts/contact_dns.py:109-112 | name, type and class, each at its place (section 4.1.2 of RFC 1035) |
| DnsTheorems.DecodeOfEncode | caldera/app/contacts/contact_dns.py:115-127 | decoding an encoded response with non-empty labels gives the same packet, whatever answers follow |
| DnsTheorems.RoundTripCondition | caldera/app/contacts/contact_dns.py:115-148 | the round trip holds if and only if no label is empty |
| DnsTheorems.FittingNameIsWhole | caldera/app/contacts/contact_dns.py:139-148 | a parsed name whose computed length fits was the encoding of its labels |
| DnsTheorems.DecodedLabelsAreWhole | caldera/app/contacts/contact_dns.py:115-127 | no message that decodes has an empty or cut-off label |
| DnsTheorems.PointerResolves | caldera/app/contacts/contact_dns.py:158-164 | the pointer 0xc00c resolves to the name at offset 12 (section 4.1.4 of RFC 1035) |
| DnsTheorems.AnswerReadsBack | caldera/app/contacts/contact_dns.py:158-164 | the fields of an answer, each at its place behind the pointer (section 4.1.3 of RFC 1035) |
| DnsTheorems.RfcReadsAnswers | caldera/app/contacts/contact_dns.py:199-203 | a reader of RFC 1035 finds exactly the answers, each owned by the question name, as the records from their offset on |
| DnsTheorems.RfcReadsResponse | caldera/app/contacts/contact_dns.py:189-203 | that reader, taking all four counts from the header, finds exactly the question and the answers and the end of the message if and only if every label has 1 to 63 bytes and the header counts one question and the answers |
| DnsReplies.ReplyFlagsMean | caldera/app/contacts/contact_dns.py:58-80 | reply flags have QR set, keep opcode and RD, and carry AA, TC, RA and the code as given |
| DnsReplies.SignalIsReadable | caldera/app/contacts/contact_dns.py:652-659 | the last octet of the random address has the wanted parity, and the address fits four bytes |
| DnsReplies.ReplyEncodable | caldera/app/contacts/contact_dns.py:222-245 | the reply to a decoded query can be encoded if and only if its answers fit their fields |
| DnsReplies.ReplyReachesClient | caldera/app/contacts/contact_dns.py:222-245 | the client decodes the reply to its own id, name, type and class, with the flags promised |
| DnsReplies.RfcReadsReply | caldera/app/contacts/contact_dns.py:222-245 | a client that reads by RFC 1035 finds its question and all answers in the reply if and only if its query counted one question and had labels of 1 to 63 bytes |
| DnsTunnel.StepKeeps | caldera/app/contacts/contact_dns.py:282-291 | each event keeps the chunk counter equal to the filled slots and every stored response unexhausted |
| DnsTunnel.RunKeeps | caldera/app/contacts/contact_dns.py:274-308 | every run keeps both, whatever is sent |
| DnsTunnel.CompleteIsFull | caldera/app/contacts/contact_dns.py:287-291 | a message counts as complete exactly when it was announced with no negative number of chunks and can be exported |
| DnsTunnel.LostMessage | caldera/app/contacts/contact_dns.py:411-415 | a message is dropped without an answer exactly by a TXT request while a chunk is missing |
| DnsTunnelTheorems.TrackStep | caldera/app/contacts/contact_dns.py:282-291 | one more piece, new or repeated, keeps the message equal to the set of pieces seen |
| DnsTunnelTheorems.Reassembly | caldera/app/contacts/contact_dns.py:411-415 | for every order and repetition of non-empty pieces, each event exports the whole message when the last missing piece arrives and nothing otherwise |
| DnsTunnelTheorems.ExportIsHandedOn | caldera/app/contacts/contact_dns.py:435-458 | exactly an exported message is processed or served |
| DnsTunnelTheorems.ServedInOrder | caldera/app/contacts/contact_dns.py:540-560 | any run without a new store serves the next texts of the unread data in order; the entry is gone exactly when all are served |
| DnsTunnelTheorems.TextsDeliver | caldera/app/contacts/contact_dns.py:552-560 | those texts are ceil(size / 254) many, fit the length byte, end in a comma only at the last, and carry the data |
| DnsTunnelTheorems.Download | caldera/app/contacts/contact_dns.py:293-308 | the texts served from a fresh entry are the whole data if and only if they are ceil(size / 254), if and only if the entry is gone |
| DnsTunnelTheorems.RequestIsServed | caldera/app/contacts/contact_dns.py:540-550 | a one-chunk TXT request with nothing pending is served and leaves nothing pending |
| DnsServer.IdsAreIndependent | caldera/app/contacts/contact_dns.py:377-417 | in every interleaving, what an id ends with and every answer it gets are those of its own events alone |
| DnsServer.TextFits | caldera/app/contacts/contact_dns.py:613-616 | no served text overflows the length byte |
| DnsServer.EveryReplyIsRead | caldera/app/contacts/contact_dns.py:372-417 | every query answered at once gets a reply that encodes, that its client decodes to its own question, and whose bytes say the outcome: one A record with even last octet for "send more", with odd for "ready", one TXT record with length and text, one AAAA record, or none with NXDOMAIN or success |
| DnsServer.ReplyIsRead | caldera/app/contacts/contact_dns.py:596-624 | the same of the answers that follow when processing has ended |
| DnsInterleaving.InterleavedReassembly | caldera/app/contacts/contact_dns.py:377-417 | for each of the seven message types, among any datagrams of any ids, an id whose requests carry the non-empty pieces of a message, in any order and repeated, is answered "send more" until all have arrived, and then exactly the message is processed; upload data without a known upload and downloads asked for by A requests are refused |
| DnsInterleaving.InterleavedDownload | caldera/app/contacts/contact_dns.py:540-560 | among any datagrams of any ids, the TXT answers an id gets from a fresh entry are the stored data in order, complete if and only if the entry is gone |
| DnsQueries.QueryReachesItsId | caldera/app/contacts/contact_dns.py:388-403 | every A or TXT query under the domain, in whatever case, concerns the id in its first label and no other; AAAA, other types and foreign names get their fixed answers and change nothing |
| DnsQueries.FirstFaultDecides | caldera/app/contacts/contact_dns.py:632-638 | of the labels behind the id the first that is missing or unreadable decides: silence or refusal, and nothing changes |
| DnsQueries.QueriesReassemble | caldera/app/contacts/contact_dns.py:377-417 | A queries id.type.index.total.data.domain for the non-empty pieces of a message, in any order, repeated and among any datagrams, are answered "send more" until all have come, and then the whole message is processed, or refused for downloads and unannounced upload data; for readers that read back what the client writes |
| DnsQueries.FirstMessage | caldera/app/contacts/contact_dns.py:377-417 | "send more" while a piece is missing, the message with the last one |
| DnsQueries.QueriesDownload | caldera/app/contacts/contact_dns.py:530-560 | once a beacon or payload request has been processed, TXT queries for instructions, payload name and payload get in order the texts of what was stored for that type, and are refused after the last |
| DnsHandler.TunneledMessage.AddChunk | caldera/app/contacts/contact_dns.py:282-285 | the object changes as the function says, also for negative, excessive and repeated indices and empty contents |
| DnsHandler.TunneledMessage.ExportContents | caldera/app/contacts/contact_dns.py:290-291 | the join of the chunks, or its exception |
| DnsHandler.StoredResponse.ReadData | caldera/app/contacts/contact_dns.py:299-308 | the bytes read and the new offset, or nothing |
| DnsHandler.Handler.StoreDataChunk | caldera/app/contacts/contact_dns.py:632-649 | only the message of that id changes; a type mismatch changes nothing |
| DnsHandler.Handler.Complete | caldera/app/contacts/contact_dns.py:411-417 | completion, export and processing of one id, with all other ids untouched |
| DnsHandler.Handler.ProcessDownload | caldera/app/contacts/contact_dns.py:540-560 | one reply served from one repository, the entry removed when exhausted |
| DnsHandler.Handler.Receive | caldera/app/contacts/contact_dns.py:377-417 | the dictionaries of aliased objects change exactly as the step of that id says, and for no other id |
| DnsHandler.Handler.StoreBeaconResponse | caldera/app/contacts/contact_dns.py:591-594 | a fresh response replaces the entry of that id only |
| DnsHandler.Handler.StorePayload | caldera/app/contacts/contact_dns.py:508-528 | payload and name are stored under that id only |
| DnsHandler.Handler.HandleEach | caldera/app/contacts/contact_dns.py:362-417 | over any list of datagrams the objects show the states and give the answers of the whole-server run, so the theorems about that run hold of the objects |
| PlantUpdate.ApplySensorFault | simulation/simulation/TE_process.cc:62-86 | reading and bias for each fault mode |
| PlantUpdate.TE.MoveValves | simulation/simulation/TE_process.cc:225-361 | latched e-stop, setpoints, fault inputs and slewing give the four valves |
| PlantUpdate.TE.Flow | simulation/simulation/TE_process.cc:371-388 | the statement sequence gives the flows of positions, pressure and level |
| PlantUpdate.TE.Update | simulation/simulation/TE_process.cc:225-537 | the in-place update of all fields is one tick of the process followed by one of the sensors |
| PlantUpdate.TE.Simulate | simulation/simulation/main.cc:27-34 | update after update is the run of ticks that the theorems are about |
| PlantTheorems.Balance | simulation/simulation/TE_process.cc:423-435 | in one tick A + B + C + 2 D changes by at least dt times inflow less outflow whatever the reaction, and by exactly that if and only if no clamp fires |
| PlantTheorems.BalanceOverRun | simulation/simulation/TE_process.cc:423-476 | the balance telescopes over every run, exact if and only if no clamp fires in any tick |
| PlantLaws.SpeciesBalance | simulation/simulation/TE_process.cc:423-435 | in one tick, whatever the reaction, B, A - C and A + D change by what the feeds bring less what purge and product take, exactly when no clamp of those species fires |
| PlantLaws.SpeciesOverRun | simulation/simulation/TE_process.cc:423-476 | these balances telescope over every run |
| PlantLaws.ReactionIs | simulation/simulation/TE_process.cc:408-426 | D forms at kpar * Pa^1.2 * Pc^ncpar, with the two defaults |
| PlantLaws.PartialsAddUp | simulation/simulation/TE_process.cc:418-419 | the partial pressures of a mixture add up to its pressure |
| PlantLaws.GasLaw | simulation/simulation/TE_process.cc:361-394 | pressure times vapor volume is vapor moles times 8.314 times 373, and each fraction times the vapor is its species |
| PlantLaws.LevelIs | simulation/simulation/TE_process.cc:361-368 | the level is the liquid's share of 30 cubic metres in percent |
| PlantLaws.FlowsAre | simulation/simulation/TE_process.cc:370-388 | each flow in proportion to its own valve's opening and Cv, purge and product to the root of the pressure above 100 kPa, and none below, nor product from an empty tank |
| PlantLaws.CostIs | simulation/simulation/TE_process.cc:530-535 | cost times product is the priced purge, held while nothing is drawn off |
| PlantLaws.ClockIs | simulation/simulation/TE_process.cc:345-347 | simulated hours are microseconds times the time scale over 3.6e9 |
| PlantTheorems.SensorsNeverTouchPlant | simulation/simulation/TE_process.cc:478-528 | runs that differ only in sensors, sensor faults and noise have the same true trajectory at every tick |
| PlantValves.SlewTwice | simulation/simulation/TE_process.cc:23-35 | slewing for two times is slewing once for their sum |
| PlantValves.ValveConverges | simulation/simulation/TE_process.cc:350-361 | over any run a steered healthy valve is where one slew of the whole duration would put it, the end clamp changing nothing |
| PlantValves.DistanceLeft | simulation/simulation/TE_process.cc:23-35 | the distance left is max(0, first distance - rate * duration), with no overshoot |
| PlantValves.StopLatches | simulation/simulation/TE_process.cc:234-246 | a stop that is not taken back stays on |
| PlantValves.EStopReaches | simulation/simulation/TE_process.cc:234-246 | under a latched stop a healthy valve is at 0, 0, 100 or 100 if and only if it has no slew limit or had time for the distance |
| PlantValves.StuckStays | simulation/simulation/TE_process.cc:348-361 | a stuck valve keeps its position for a whole run, through setpoints and the stop |
| PlantValves.StoppedPlantIsIsolated | simulation/simulation/TE_process.cc:241-246 | under a latched stop with the feeds closed, both stay closed over any run, and unless a clamp fires the total of moles never grows |
| PlantSensors.DriftSegment | simulation/simulation/TE_process.cc:62-86 | in a drift segment reading less truth is the bias at its start plus the sum of severity * dt, and the sum alone if the sensor did not drift before, for each of the seven sensors |
| PlantSensors.BiasOnlyFromDrift | simulation/simulation/TE_process.cc:62-86 | outside drift the bias is zero in every run |
| PlantSensors.FrozenHolds | simulation/simulation/TE_process.cc:65-68 | a frozen sensor holds its last reading for the whole segment |
| PlantSensors.Recovery | simulation/simulation/TE_process.cc:81-84 | a healthy tick reads the truth and clears the bias, whatever came before |
| PlantSensors.DropoutReads | simulation/simulation/TE_process.cc:49-56 | a dropping sensor reads zeros exactly while the clock modulo ten seconds is below severity times ten seconds, and the truth otherwise |
| PlantSensors.NoiseIsBounded | simulation/simulation/TE_process.cc:38-44 | a noisy sensor is off by (2 * draw - 1) * severity, and so by at most its severity |
| PlantSensors.FaultIsTaken | simulation/simulation/TE_process.cc:455-473 | a fault mode from 0 to 4 and a severity that is not negative are taken over, others clamped, and kept while nothing else is sent |
| PlantSensors.RunsStayInRange | simulation/simulation/TE_process.cc:438-476 | every tick ends with positions, scales, moles, pressure, level, modes and severities in range, and the delayed samples are never refreshed |
| ArpMonitor.ReadArpTable | router/arpmon.py:20-34 | each address maps to its last complete line, header and unresolved entries skipped |
| ArpHistory.LineIsEntry | router/arpmon.py:24-30 | of a line's six columns, however padded, the first is the address, the fourth the hardware address, the sixth the device, and flags 0x0 make it no entry |
| ArpHistory.ShortLineIsNone | router/arpmon.py:25-26 | a line of fewer columns is no entry |
| ArpHistory.LastAboutIs | router/arpmon.py:23-30 | an address has the entry of its last complete line, and none if it has no complete line |
| ArpMonitor.Monitor.Poll | router/arpmon.py:72-110 | the loop over the dictionary is the sequence of its sightings |
| ArpMonitor.ClaimedAreOthers | router/arpmon.py:60-69 | the claimants are exactly the other addresses with that MAC, sorted, whatever the order of the dictionary |
| ArpMonitor.ClaimedForgetsOrder | router/arpmon.py:60-69 | two dictionaries with the same addresses and MACs name the same claimants, in whatever order they were filled |
| ArpMonitor.LogRefinesState | router/arpmon.py:72-110 | replaying the events gives the current addresses, and each event is right about its point of replay: unknown address, previous MAC, exact claimants |
| ArpMonitor.OneNewStation | router/arpmon.py:80-93 | an address gets at most one new_station, and none if known at the start |
| ArpMonitor.NewIffFirstSeen | router/arpmon.py:80-93 | it gets one exactly if it was unknown at the start and is known at the end |
| ArpMonitor.PollRecords | router/arpmon.py:72-108 | after a poll each listed address has its listed MAC and the others are as before |
| ArpHistory.RecordsRemember | router/arpmon.py:72-108 | over any sightings a record keeps the time and device of its first sighting and has the hardware address and time of its last |
| ArpHistory.EventsAreSightings | router/arpmon.py:80-105 | every event carries the time, address, hardware address and device of a sighting |
| HtmlEscape.EscapeIsSimultaneous | plc/webserver/webserver.py:2549-2565 | the ordered replacements substitute every character at once |
| HtmlEscape.EscapeIsSafe | plc/webserver/webserver.py:2549-2565 | no special character is left and every ampersand starts one of the five entities |
| HtmlEscape.UnescapeRecovers | plc/webserver/webserver.py:2549-2565 | decoding from left to right recovers every input, with and without quotes |
| HtmlEscape.EscapeIsInjective | plc/webserver/webserver.py:2549-2565 | no two values, None among them, are escaped alike |
| HtmlEscape.OrderMatters | plc/webserver/webserver.py:2559-2561 | with the ampersand last the result is right exactly for texts without angle brackets |
| OperationGate.Operation.SetState | caldera/app/objects/c_operation.py:117-132 | the state is set, and a change event is emitted exactly if it differs |
| OperationGate.Operation.AddLink | caldera/app/objects/c_operation.py:178-179 | the chain grows by that link |
| OperationGate.Operation.Invoke | caldera/app/objects/c_operation.py:216-216 | a new call begins with its link not added, and the chain as it was |
| OperationGate.Operation.Apply | caldera/app/objects/c_operation.py:216-225 | one stretch between awaits: adds and returns the id in running and run_one_link, does nothing elsewhere |
| OperationGate.GateIsExact | caldera/app/objects/c_operation.py:216-225 | for every schedule each setting of run_one_link is used by one link, overwritten, or still in force |
| OperationGate.NeverMoreThanGranted | caldera/app/objects/c_operation.py:216-225 | links added outside running never outnumber the settings of run_one_link |
| OperationGate.NoneElsewhere | caldera/app/objects/c_operation.py:216-225 | no call adds a link in any other state |
| OperationGate.ExactlyOnce | caldera/app/objects/c_operation.py:216-225 | a call that has returned has added its own link exactly once, any other not at all |
| OperationGate.WakeReturns | caldera/app/objects/c_operation.py:216-225 | a waking call returns exactly in running and run_one_link, leaving paused behind the latter |
| OperationGate.LogLeadsToState | caldera/app/objects/c_operation.py:117-132 | the emitted changes lead, without gap or self-loop, from the first state to the current one |

## Left out

- FirewallMeaning.CompilePreservesMeaning: speaks of rules whose ports are printed (`CompileMeansPrinted` and `PortIsMeant` say what becomes of the others), fields that are single words, forwards with protocol tcp or udp and the actions ACCEPT, DROP and REJECT, as the forms produce them; other text in a field is not part of the model.
- NatAgreement.TablesAgree: speaks of the first packet of a connection; the claiming forward's target, if any, has no colon and matches itself; connection tracking beyond the packet's state is a parameter.
- RevertTheorems.RevertInvertsApply: identifies the listed chain with the printed lines up to the order of state lists; the kernel's own rewriting of addresses, matches and defaults is not modelled.
- AddressSpace.RunIsSafe: starts from a safe state; `import_config`, which does not check overlaps, is a new start.
- TunnelDefaults.SuggestionClearance: speaks of tunnels whose stored subnet is the canonical text of a network, as the form stores it.
- AlertRuns.Run: an inode is never reused and a file is not truncated in place; a request that fails is taken as not accepted by the server; lines that are JSON but no object, or no UTF-8, a state file with a bare offset, and writes between a finished drain and the rotation check are not modelled; errors of single documents in an accepted batch count as accepted.
- DnsCodec.ParseQnameLabels: bytes above ASCII in a label are an error, where the code decodes UTF-8.
- DnsQueries.QueriesReassemble: how a client writes numbers and bytes is a parameter, demanded only to be read back; names longer than DNS allows are not excluded.
- DnsServer.EveryReplyIsRead: lower-casing is ASCII; how `int` and `bytes.fromhex` read a label is a parameter.
- DnsHandler.Handler.Receive: what follows an await is a later event; that it follows from a request for the same id is not used. JSON, base64, heartbeats and saving of uploads are parameters or absent.
- PlantTheorems.BalanceOverRun: real numbers, not floating point, and vapor moles that are not zero when a tick starts.
- PlantValves.ValveConverges: a clock that does not go back.
- PlantUpdate.TE.Update: the fields of a valve, of the moles, of the flows and of a sensor are grouped into values; JSON inputs are optional values of the right type.
- ArpMonitor.LogRefinesState: a run without a failing write; a restart between polls continues from the saved state, which is the state.
- OperationGate.Operation.Apply: the sleep is the end of a stretch; its duration is not modelled, nor is the order in which the event service handles emitted changes.
- Web pages, sessions, subprocess calls, sockets and file handles of all components.
- `steady_state` of the simulator, which computes the first state with a linear solver.
- `_generate_pointer_and_qname_bytes`, which nothing calls.
- Index-guarded list moves and deletions, flag parsing, template text and payload coding, which would only add easy members.
