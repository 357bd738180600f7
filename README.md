# JTableVisor core, modelled in Dafny

TableVisor is a proxy layer that sits between an OpenFlow controller and
one or more devices (OpenFlow switches, or P4 devices driven through a
command line). Messages pass through a chain of stages ("applications")
between the controller side and the devices:

- the **stage chain** (`Stages`): every stage has a neighbour towards the
  control plane and one towards the data plane, dispatches each message to
  the handler for its type and direction, and is assembled from the
  configured application types in a fixed order;
- the **table-id registry** (`Registry`, `IdPairs`, `Config`): the two-way
  map between the logical table ids the controller sees and
  (dataplane id, physical table id) pairs, built once from the
  configuration and rejecting any id used twice;
- the **message envelope** (`Messages`): a TVMessage carrying OpenFlow
  content, a P4 command line or a parse error, addressed by dataplane id;
- the **MultiSwitch stage** (`MultiSwitch`, `Rounds`, `Merges`, `FlowMods`,
  `FlowStats`, `Matches`, `Network`): several devices chained by links are
  presented as one switch; requests go to every device, replies are
  gathered round by round and merged, flow-mods and statistics are
  translated between logical and physical tables, and a jump to a table on
  another device becomes an output on the link towards it;
- the **P4Control stage** (`P4Control`): answers what a P4 device cannot,
  turns flow-mods into `tables add/delete/edit` command lines and
  flow-statistics requests into one `list-rules` call per table, and
  collects the replies;
- the **P4 dictionary** (`P4Dicts`): the name maps between OpenFlow and a
  P4 program, read from `// @TV` annotations in the program.

OpenFlow objects (`OpenFlow`) keep only the fields the stages touch;
Java's fixed-width integer conversions are written out in `JavaInts`, and
text helpers in `Text`. Mutable Java objects (TVMessage, the stages,
P4Dict) are classes whose methods are proved against pure functions; the
lemmas state what those functions guarantee.

The model follows the code: the registry rejects any repeated logical id
and any repeated (dataplane id, physical table id) pair, and an OUTPUT to
a neighbouring device in a reported rule becomes a GOTO to the logical id
of that device's table 0. Where the code has an evident defect (listed
under "## Findings"), one member models the code as written and exhibits
the defect, and the stage members run the corrected version:

- MultiSwitch.MultiSwitchApplication.FlowModToDataPlane and
  FlowMods.FlowModToDataPlane insert the gathered APPLY_ACTIONS with
  FlowMods.InsertCorrected (where the removed instructions stood), not at
  the stale index the code uses (FlowMods.RewriteInstructionsAsWritten);
- MultiSwitch.MultiSwitchApplication.GroupFeaturesReply merges with
  Merges.GroupFeaturesMerged, not Merges.GroupFeaturesAsWritten;
- MultiSwitch.MultiSwitchApplication.MeterFeaturesReply merges with
  Merges.MeterFeaturesMerged, not Merges.MeterFeaturesAsWritten;
- MultiSwitch.MultiSwitchApplication.FlowStatsReply recognises the hidden
  pipeline rule with FlowStats.IsHiddenRule, not
  FlowStats.IsHiddenRuleAsWritten;
- P4Control.P4ControlApplication.SwitchStatsToControlPlane waits for as
  many replies as the flow-statistics request issued `list-rules` calls
  (P4Control.ExpectedAfterRequest), not for the device's table count.

## Model

| member | source | states |
|---|---|---|
| IdPairs.FromInt | src/main/java/de/uniwue/info3/tablevisor/config/IdPair.java:10-14 | the pair built from two ints holds them, and its TableId object carries the same number |
| IdPairs.FromTableId | src/main/java/de/uniwue/info3/tablevisor/config/IdPair.java:16-20 | the pair built from a TableId holds that object and its number |
| IdPairs.ConstructorsAgree | src/main/java/de/uniwue/info3/tablevisor/config/IdPair.java:10-20 | both constructors build the same pair from the same numbers, and equals holds between them |
| IdPairs.EqualsIsIdentity | src/main/java/de/uniwue/info3/tablevisor/config/IdPair.java:22-31 | on well-formed pairs, equals (same dataplane id and table id) is value identity |
| IdPairs.EqualsIsEquivalence | src/main/java/de/uniwue/info3/tablevisor/config/IdPair.java:22-31 | equals is reflexive, symmetric and transitive |
| IdPairs.HashCode | src/main/java/de/uniwue/info3/tablevisor/config/IdPair.java:33-38 | the hash is a 32-bit int congruent to 31·dataplaneId + tableId modulo 2^32 |
| IdPairs.EqualPairsHashEqually | src/main/java/de/uniwue/info3/tablevisor/config/IdPair.java:22-38 | pairs that are equal have equal hash codes (the equals/hashCode contract) |
| IdPairs.HashCollision | src/main/java/de/uniwue/info3/tablevisor/config/IdPair.java:33-38 | (0, 31) and (1, 0) are different pairs with the same hash code |
| JavaInts.Wrap32 | src/main/java/de/uniwue/info3/tablevisor/config/Configuration.java:21 | Java int overflow: the result is a 32-bit value congruent to the input, and in-range values are unchanged |
| JavaInts.ToShort | src/main/java/de/uniwue/info3/tablevisor/config/Configuration.java:28 | the (short) cast: a 16-bit value congruent to the input modulo 2^16, in-range values unchanged |
| Text.NatToString | src/main/java/de/uniwue/info3/tablevisor/application/P4ControlApplication.java:554 | decimal text of a number: non-empty and made of digits only |
| Text.HexRoundTrip | src/main/java/de/uniwue/info3/tablevisor/application/P4ControlApplication.java:224-230 | parsing the hexadecimal text of a number gives the number back |
| Text.ToLower | src/main/java/de/uniwue/info3/tablevisor/config/P4Dict.java:104-136 | toLowerCase keeps the length and lowers every character in place |
| Text.ToLowerIdempotent | src/main/java/de/uniwue/info3/tablevisor/config/P4Dict.java:104-136 | lower-casing twice is lower-casing once, so keys stored lower-cased are found by lower-cased queries |
| Text.NatToStringRoundTrip | src/main/java/de/uniwue/info3/tablevisor/application/P4ControlApplication.java:94 | the decimal text of a number reads back as that number and has no leading zero |
| Text.Requote | src/main/java/de/uniwue/info3/tablevisor/application/P4ControlApplication.java:596 | replaceAll("'", "\"") keeps the length, turns every single quote into a double quote and leaves every other character |
| Config.Values | src/main/java/de/uniwue/info3/tablevisor/config/Configuration.java:62-71 | the values of a map in iteration order, one per entry |
| Config.Get | src/main/java/de/uniwue/info3/tablevisor/config/Configuration.java:59 | HashMap.get as the stages use it on the configuration's maps: it finds an entry with the key when it returns a value, and returns null exactly when the key is absent |
| Config.GetFindsEntry | src/main/java/de/uniwue/info3/tablevisor/config/Configuration.java:59 | with unique keys, get returns the value of the entry with that key |
| Config.KeyOfValue | src/main/java/de/uniwue/info3/tablevisor/config/Configuration.java:62-71 | the early-return scan: the key of the FIRST entry holding the value, or null exactly when no entry holds it |
| Config.TableCountIsSumOverAllSwitches | src/main/java/de/uniwue/info3/tablevisor/config/Configuration.java:26-34 | summing table-map sizes over the flattened switch stream equals summing per endpoint |
| Config.TableSumAppend | src/main/java/de/uniwue/info3/tablevisor/config/Configuration.java:26-34 | the table-map size sum is additive over concatenated switch lists |
| Config.AllSwitchesLength | src/main/java/de/uniwue/info3/tablevisor/config/Configuration.java:19-24 | the flattened switch list has as many switches as the endpoints' lists together |
| Config.AllSwitchesMembers | src/main/java/de/uniwue/info3/tablevisor/config/Configuration.java:40-48 | a switch is in the flattened list exactly when some endpoint lists it |
| Config.AllSwitchesStep | src/main/java/de/uniwue/info3/tablevisor/config/Configuration.java:43-45 | one more endpoint appends its switch list and adds its size |
| Config.SwitchMapLastWins | src/main/java/de/uniwue/info3/tablevisor/config/Configuration.java:50-60 | an id is in the switch map exactly when some switch has it, and maps to the LAST switch with that id |
| Config.SwitchMapAppend | src/main/java/de/uniwue/info3/tablevisor/config/Configuration.java:54-56 | putting one more switch overwrites the entry under its dataplane id |
| Config.Configuration.constructor | src/main/java/de/uniwue/info3/tablevisor/config/Configuration.java:9-17 | the fields start as configured, the two counters at -1 and the two caches null |
| Config.Configuration.GetTotalNumberOfSwitches | src/main/java/de/uniwue/info3/tablevisor/config/Configuration.java:19-24 | returns the number of switches over all endpoints (as a Java int) and never changes a memo once set |
| Config.Configuration.GetTotalNumberOfTables | src/main/java/de/uniwue/info3/tablevisor/config/Configuration.java:26-34 | returns the total table-map size over all switches, truncated to short, and keeps a memo once set |
| Config.Configuration.GetAllSwitches | src/main/java/de/uniwue/info3/tablevisor/config/Configuration.java:40-48 | returns every endpoint's switches in order, and caches that list |
| Config.Configuration.GetSwitchConfigById | src/main/java/de/uniwue/info3/tablevisor/config/Configuration.java:50-60 | returns the last configured switch with the id, or null when none has it; builds the cache |
| Config.Configuration.DataplaneIdOfOutputPort | src/main/java/de/uniwue/info3/tablevisor/config/Configuration.java:62-71 | returns the neighbour owning the port as the scan finds it, or the NullPointerException of an unknown switch |
| Config.OutputPortOwnerMeaning | src/main/java/de/uniwue/info3/tablevisor/config/Configuration.java:62-71 | for a known switch the result is a port-map key whose value is the port, and null exactly when no entry has that port |
| Registry.StepKeepsInverse | src/main/java/de/uniwue/info3/tablevisor/core/TableVisor.java:192-201 | an accepted entry is put into both maps, which stay inverse to each other |
| Registry.FoldSucceedsIff | src/main/java/de/uniwue/info3/tablevisor/core/TableVisor.java:183-204 | the loop finishes without IllegalStateException exactly when no logical id and no pair is used twice, among the entries or with what is already bound |
| Registry.FoldResult | src/main/java/de/uniwue/info3/tablevisor/core/TableVisor.java:183-204 | after a successful loop the maps are inverse, their key sets grew by exactly the bound ids and pairs, and existing entries are kept |
| Registry.FoldHoldsBindings | src/main/java/de/uniwue/info3/tablevisor/core/TableVisor.java:196-201 | after a successful loop every entry is found in both directions |
| Registry.FoldAppend | src/main/java/de/uniwue/info3/tablevisor/core/TableVisor.java:187-203 | running the loop over two stretches of entries is running it over the first, then the second from where it stopped, and the first failure sticks |
| Registry.BuildMeaning | src/main/java/de/uniwue/info3/tablevisor/core/TableVisor.java:183-204 | populateIdMaps succeeds iff no id and no pair repeats over the configuration; then the maps are inverse and hold exactly the configured entries |
| Registry.BindingIdsAreConfiguredIds | src/main/java/de/uniwue/info3/tablevisor/core/TableVisor.java:187-191 | the logical ids bound are exactly the keys of all switches' table maps |
| Registry.SwitchesBindingsIds | src/main/java/de/uniwue/info3/tablevisor/core/TableVisor.java:188-191 | the logical ids bound for a list of switches are the keys of their table maps |
| Registry.ForwardDomain | src/main/java/de/uniwue/info3/tablevisor/core/TableVisor.java:183-204 | after a successful build the forward map's domain is the union of all table-map keys |
| Registry.PopulateIdMaps | src/main/java/de/uniwue/info3/tablevisor/core/TableVisor.java:183-204 | the three nested loops compute the build: the two maps, or IllegalStateException at the first repeated id or pair |
| Registry.BindSwitches | src/main/java/de/uniwue/info3/tablevisor/core/TableVisor.java:188-203 | the middle loop binds the switches of one endpoint in order |
| Registry.BindTableMap | src/main/java/de/uniwue/info3/tablevisor/core/TableVisor.java:189-202 | the inner loop checks and puts each entry of one switch's table map, forward before reverse |
| Registry.OurTableIdToSwitchId | src/main/java/de/uniwue/info3/tablevisor/core/TableVisor.java:158-169 | the bound pair for a bound logical id, and the pair (-1, 0) otherwise |
| Registry.SwitchIdToOurTableId | src/main/java/de/uniwue/info3/tablevisor/core/TableVisor.java:171-181 | the logical id bound to a pair, at most one, and exactly the ids whose forward entry is that pair |
| Registry.LookupsFindConfiguredEntries | src/main/java/de/uniwue/info3/tablevisor/core/TableVisor.java:158-204 | in a built registry every configured entry is found in both directions |
| Registry.BindingPairsValid | src/main/java/de/uniwue/info3/tablevisor/core/TableVisor.java:190 | every pair bound is built by the int constructor, so it is well-formed |
| Registry.BindingSource | src/main/java/de/uniwue/info3/tablevisor/core/TableVisor.java:187-191 | every binding comes from some configured switch's table-map entry |
| Registry.BindingOfEntry | src/main/java/de/uniwue/info3/tablevisor/core/TableVisor.java:187-191 | every configured table-map entry yields a binding |
| Registry.EndpointsBindingsFlatten | src/main/java/de/uniwue/info3/tablevisor/config/Configuration.java:40-48 | walking endpoint by endpoint binds the same entries as walking getAllSwitches |
| Registry.LowerEndpointById | src/main/java/de/uniwue/info3/tablevisor/core/TableVisor.java:143-152 | the FIRST endpoint that lists a switch with the id, or null exactly when no endpoint does |
| Registry.EndpointFoundIffSwitchConfigured | src/main/java/de/uniwue/info3/tablevisor/core/TableVisor.java:138-152 | an endpoint type is found for exactly the ids the configuration has a switch for |
| Network.BuiltRegistryIsValid | src/main/java/de/uniwue/info3/tablevisor/core/TableVisor.java:183-204 | a successfully built registry is a valid environment for the applications: inverse maps of well-formed pairs |
| Registry.SwitchesBindingSource | src/main/java/de/uniwue/info3/tablevisor/core/TableVisor.java:187-190 | every binding registered comes from a table-map entry of some configured switch |
| Registry.SwitchesBindingOfEntry | src/main/java/de/uniwue/info3/tablevisor/core/TableVisor.java:187-190 | every table-map entry of every configured switch gives a binding |
| Messages.ExactlyOneProtocol | src/main/java/de/uniwue/info3/tablevisor/message/TVMessage.java:50-60 | exactly one of isOpenFlow, isP4 and isError holds for every message |
| Messages.TypeNameIsNotReserved | src/main/java/de/uniwue/info3/tablevisor/message/TVMessage.java:80-88 | no OpenFlow type name is "OF_PARSE_ERROR" or "UNKNOWN" |
| Messages.TypeStringIdentifiesProtocol | src/main/java/de/uniwue/info3/tablevisor/message/TVMessage.java:80-88 | getTypeAsString is "OF_PARSE_ERROR" exactly for parse errors, "UNKNOWN" exactly for P4 commands, and the OpenFlow type's name otherwise |
| Messages.TVMessage.OF | src/main/java/de/uniwue/info3/tablevisor/message/TVMessage.java:19-22 | an OpenFlow message holding the payload, with no dataplane id yet (-1) |
| Messages.TVMessage.OFWithDpId | src/main/java/de/uniwue/info3/tablevisor/message/TVMessage.java:24-27 | an OpenFlow message holding the payload, addressed to the given dataplane id |
| Messages.TVMessage.ParseError | src/main/java/de/uniwue/info3/tablevisor/message/TVMessage.java:29-33 | an error message holding only the error text, with no payload and no dataplane id |
| Messages.TVMessage.P4Command | src/main/java/de/uniwue/info3/tablevisor/application/P4ControlApplication.java:149 | a P4 command holding its command line, its device and the request it answers |
| Messages.TVMessage.SetThisMsgType | src/main/java/de/uniwue/info3/tablevisor/application/P4ControlApplication.java:57 | only the recorded OpenFlow type changes |
| Messages.TVMessage.SetOFMessage | src/main/java/de/uniwue/info3/tablevisor/message/TVMessage.java:39-44 | replacing the payload fails with IllegalStateException exactly when the message is not OpenFlow, with the message naming the protocol, and then nothing changes |
| Messages.TVMessage.SetDataplaneId | src/main/java/de/uniwue/info3/tablevisor/message/TVMessage.java:66-68 | only the dataplane id changes |
| Messages.TVMessage.Copy | src/main/java/de/uniwue/info3/tablevisor/message/TVMessage.java:70-72 | a fresh message with the same protocol, payload and dataplane id; NullPointerException exactly when there is no payload to rebuild |
| Messages.TVMessage.CopyWithDpId | src/main/java/de/uniwue/info3/tablevisor/message/TVMessage.java:74-78 | a fresh copy addressed to the new dataplane id, the original left as it was; a NullPointerException, and only that, exactly when there is no payload |
| Messages.CopyWithDpIdView | src/main/java/de/uniwue/info3/tablevisor/message/TVMessage.java:74-78 | the copy keeps protocol and payload and carries the new dataplane id |
| Stages.ControlDispatch | src/main/java/de/uniwue/info3/tablevisor/application/BaseApplication.java:27-84 | towards the controller, FLOW_MOD and FLOW_REMOVED share one handler, unlisted types go to the misc handler, and no OpenFlow type reaches the error, P4 or packet-out handlers |
| Stages.ControlDispatchInjective | src/main/java/de/uniwue/info3/tablevisor/application/BaseApplication.java:27-84 | apart from that pair, distinct listed types reach distinct handlers |
| Stages.DataDispatch | src/main/java/de/uniwue/info3/tablevisor/application/BaseApplication.java:86-140 | towards the data plane, unlisted types go to misc and distinct listed types to distinct handlers |
| Stages.UntypedDispatch | src/main/java/de/uniwue/info3/tablevisor/application/BaseApplication.java:27-140 | a message without an OpenFlow type goes to the error handler iff it is a parse error, to the P4 handler iff it is a P4 command, and is dropped iff it is OpenFlow |
| Stages.TypedDispatch | src/main/java/de/uniwue/info3/tablevisor/application/BaseApplication.java:27-140 | a typed message is dispatched by its type alone and never dropped |
| Stages.FilterRouteMeaning | src/main/java/de/uniwue/info3/tablevisor/application/BaseOFApplication.java:16-33 | a filter stage dispatches exactly the messages whose device's endpoint (the first that lists it) is of its own kind, and hands everything else on; an unknown device is passed through |
| Stages.FiltersPartitionDevices | src/main/java/de/uniwue/info3/tablevisor/application/BaseP4Application.java:16-33 | for a known device exactly one of the OpenFlow and P4 filters dispatches; for an unknown one neither does |
| Stages.Stage.SetControl | src/main/java/de/uniwue/info3/tablevisor/application/BaseApplication.java:142-148 | the control link is set, the neighbour's data link points back, and nothing else changes |
| Stages.Stage.SetData | src/main/java/de/uniwue/info3/tablevisor/application/BaseApplication.java:155-161 | the data link is set, the neighbour's control link points back, and nothing else changes |
| Stages.Stage.constructor | src/main/java/de/uniwue/info3/tablevisor/application/BaseApplication.java:20-25 | the new stage is spliced in below c and above c's old data neighbour, with all four links pointing at it |
| Stages.Stage.PassOn | src/main/java/de/uniwue/info3/tablevisor/application/BaseApplication.java:168-326 | a default handler hands the same message to the neighbour in its direction, or fails with NullPointerException when there is none |
| Stages.Stage.AllTo | src/main/java/de/uniwue/info3/tablevisor/application/BaseApplication.java:27-140 | with default handlers, every dispatched message is handed on exactly once and unchanged; an untyped OpenFlow message is dropped |
| Stages.Stage.OneTransparentToDataPlane | src/main/java/de/uniwue/info3/tablevisor/application/OneTransparentSwitchApplication.java:14-21 | the message is addressed to the first connected device (left as it is when none is) and then dispatched |
| Stages.EnabledApps | src/main/java/de/uniwue/info3/tablevisor/core/TableVisor.java:63-84 | an application type is spliced in exactly when the configuration enables it and its construction does not throw, at most once each |
| Stages.AssembleChain | src/main/java/de/uniwue/info3/tablevisor/core/TableVisor.java:63-84 | the built stages form a doubly linked chain from the controller layer to the data layer, with the enabled applications in declaration order between them |
| Stages.AddIfEnabled | src/main/java/de/uniwue/info3/tablevisor/core/TableVisor.java:71-82 | one round of the loop keeps the chain linked, its ends fixed, and extends it by the application type exactly when that type is enabled |
| Stages.TwoLayers | src/main/java/de/uniwue/info3/tablevisor/core/TableVisor.java:63-64 | the controller layer and the data layer start as a two-stage chain |
| Stages.SpliceIn | src/main/java/de/uniwue/info3/tablevisor/core/TableVisor.java:71-82 | a new stage for the application is linked in just above the data layer; the rest of the chain is kept |
| Stages.EnabledAppsStep | src/main/java/de/uniwue/info3/tablevisor/core/TableVisor.java:71-82 | one more application type in declaration order is appended exactly when it is enabled and buildable |
| Stages.KindsSplice | src/main/java/de/uniwue/info3/tablevisor/core/TableVisor.java:71-82 | splicing a stage for application t above the data layer appends t to the chain's applications |
| Rounds.GatherDistinct | src/main/java/de/uniwue/info3/tablevisor/application/MultiSwitchApplication.java:125-137 | when every reply comes from a new device, the round counts each device once, keeps all entries in arrival order and unites all flags |
| Rounds.DuplicateIgnored | src/main/java/de/uniwue/info3/tablevisor/application/MultiSwitchApplication.java:126-128 | a second reply from a device already counted changes nothing (counter.add returns false) |
| Rounds.DevicesSnoc | src/main/java/de/uniwue/info3/tablevisor/application/MultiSwitchApplication.java:126 | one more reply adds its device to the devices that answered |
| Rounds.LastDeviceIsNew | src/main/java/de/uniwue/info3/tablevisor/application/MultiSwitchApplication.java:126 | in a round of distinct devices, the last device is not among the earlier ones |
| Rounds.DistinctSocketsCount | src/main/java/de/uniwue/info3/tablevisor/application/MultiSwitchApplication.java:669-671 | the key set of the socket map has as many elements as there are connections |
| Rounds.SubsetOfSameSize | src/main/java/de/uniwue/info3/tablevisor/application/MultiSwitchApplication.java:669-671 | a subset of a finite set with the same size is the set itself |
| Rounds.AllAnsweredMeansEveryDevice | src/main/java/de/uniwue/info3/tablevisor/application/MultiSwitchApplication.java:669-671 | when only connected devices answer, allAnswered holds exactly when every connected device has answered |
| Rounds.RoundCompletesAtLastReply | src/main/java/de/uniwue/info3/tablevisor/application/MultiSwitchApplication.java:125-137 | a round of replies from distinct devices completes exactly at the reply that makes the answers as many as the connections |
| Matches.Lookup | src/main/java/de/uniwue/info3/tablevisor/application/MultiSwitchApplication.java:417-421 | get/getMasked of a field returns that field's entry, and null exactly when the match has none |
| Matches.SetEntryMeaning | src/main/java/de/uniwue/info3/tablevisor/application/MultiSwitchApplication.java:532-546 | setExact/setMasked keeps fields unique; afterwards the field has the new entry and every other field its old one |
| Matches.SetAbsentEntryAppends | src/main/java/de/uniwue/info3/tablevisor/application/MultiSwitchApplication.java:532-542 | setting a field that is not yet present appends its entry |
| Matches.WithoutInPort | src/main/java/de/uniwue/info3/tablevisor/application/MultiSwitchApplication.java:413-426 | an entry survives exactly when it is in the match and its field is not IN_PORT |
| Matches.WithoutInPortLookup | src/main/java/de/uniwue/info3/tablevisor/application/MultiSwitchApplication.java:413-426 | without IN_PORT, looking up IN_PORT finds nothing and every other field finds its old entry |
| Matches.WithoutInPortIdempotent | src/main/java/de/uniwue/info3/tablevisor/application/MultiSwitchApplication.java:413-426 | removing IN_PORT twice is removing it once |
| Matches.WithoutInPortAppend | src/main/java/de/uniwue/info3/tablevisor/application/MultiSwitchApplication.java:413-426 | removing IN_PORT distributes over concatenated matches |
| Matches.RemoveInPortFromMatch | src/main/java/de/uniwue/info3/tablevisor/application/MultiSwitchApplication.java:413-426 | the loop over the match fields builds the match without IN_PORT, the other entries in order |
| Matches.PinInPort | src/main/java/de/uniwue/info3/tablevisor/application/MultiSwitchApplication.java:529-548 | every field copied, then IN_PORT set exactly to the given port; every other field keeps its entry |
| Merges.MinNonZero | src/main/java/de/uniwue/info3/tablevisor/application/MultiSwitchApplication.java:74-77 | nBuffers of the merged features reply: 0 exactly when every device reports 0, otherwise the smallest nonzero value some device reports |
| Merges.MinFoldSnoc | src/main/java/de/uniwue/info3/tablevisor/application/MultiSwitchApplication.java:208-216 | the limit loop over one more reply takes one more min-step |
| Merges.MinFoldFromUnset | src/main/java/de/uniwue/info3/tablevisor/application/MultiSwitchApplication.java:290-292 | seeded "unset" (-1), the limit loop yields a limit some device reports, no larger than any device's |
| Merges.MinFoldFromZero | src/main/java/de/uniwue/info3/tablevisor/application/MultiSwitchApplication.java:192-216 | seeded 0, the limit loop stays 0 over non-negative limits |
| Merges.OrAll | src/main/java/de/uniwue/info3/tablevisor/application/MultiSwitchApplication.java:288-289 | a bit is set in the OR of the bitmaps exactly when some operand sets it |
| Merges.MeterLimits | src/main/java/de/uniwue/info3/tablevisor/application/MultiSwitchApplication.java:290-292 | one limit read from each reply, in order |
| Merges.MeterRoundStep | src/main/java/de/uniwue/info3/tablevisor/application/MultiSwitchApplication.java:287-293 | one more reply extends each limit loop by one min-step and each bitmap OR by one operand |
| Merges.MergeMeterFeaturesAsWritten | src/main/java/de/uniwue/info3/tablevisor/application/MultiSwitchApplication.java:282-301 | the loop as written computes its specification, in which maxColor and maxMeter are read from maxBands |
| Merges.MergeMeterFeatures | src/main/java/de/uniwue/info3/tablevisor/application/MultiSwitchApplication.java:282-301 | the corrected loop computes the merge in which each limit is read from its own getter |
| Merges.MeterFeaturesMergedLimits | src/main/java/de/uniwue/info3/tablevisor/application/MultiSwitchApplication.java:282-301 | in the corrected merge every limit is one some device reports and no larger than any device's |
| Merges.MeterFeaturesMergedBitmaps | src/main/java/de/uniwue/info3/tablevisor/application/MultiSwitchApplication.java:288-289 | a capability or band-type bit is set in the merge exactly when some device sets it |
| Merges.MeterFeaturesAsWrittenReadsMaxBands | src/main/java/de/uniwue/info3/tablevisor/application/MultiSwitchApplication.java:290-292 | for a single device, as written maxColor and maxMeter equal its maxBands, while the corrected merge reports its own maxColor and maxMeter |
| Merges.SingleMinFold | src/main/java/de/uniwue/info3/tablevisor/application/MultiSwitchApplication.java:290-292 | the limit loop over one reply, seeded "unset", yields that reply's limit |
| Merges.GroupLimits | src/main/java/de/uniwue/info3/tablevisor/application/MultiSwitchApplication.java:208-216 | one group limit read from each reply, in order |
| Merges.GroupFlags | src/main/java/de/uniwue/info3/tablevisor/application/MultiSwitchApplication.java:206 | a flag is in the merged flags exactly when some reply has it |
| Merges.GroupCapabilities | src/main/java/de/uniwue/info3/tablevisor/application/MultiSwitchApplication.java:207 | a capability is in the union exactly when some reply lists it |
| Merges.GroupLimitSnoc | src/main/java/de/uniwue/info3/tablevisor/application/MultiSwitchApplication.java:208-216 | one more reply extends a group limit loop by one min-step |
| Merges.GroupRoundStep | src/main/java/de/uniwue/info3/tablevisor/application/MultiSwitchApplication.java:205-217 | one more reply takes a min-step on all nine limits and extends the flag and capability unions |
| Merges.MergeGroupLoop | src/main/java/de/uniwue/info3/tablevisor/application/MultiSwitchApplication.java:205-217 | the loop computes the flags union and the fold of all nine limits from the seed, adding either the replies' capabilities or nothing |
| Merges.MergeGroupFeaturesAsWritten | src/main/java/de/uniwue/info3/tablevisor/application/MultiSwitchApplication.java:192-231 | the loop as written (seed 0, the capability set added to itself) computes its specification |
| Merges.MergeGroupFeatures | src/main/java/de/uniwue/info3/tablevisor/application/MultiSwitchApplication.java:192-231 | the corrected loop (seed "unset", each reply's capabilities added) computes the corrected merge |
| Merges.GroupFeaturesAsWrittenIsZero | src/main/java/de/uniwue/info3/tablevisor/application/MultiSwitchApplication.java:192-231 | as written, every merged limit is 0 and no capability is reported, whatever the devices report |
| Merges.GroupFeaturesMergedMeaning | src/main/java/de/uniwue/info3/tablevisor/application/MultiSwitchApplication.java:192-231 | in the corrected merge each limit is the smallest reported and the capabilities are the union of all replies' |
| Merges.GroupFeaturesAsWrittenLosesLimits | src/main/java/de/uniwue/info3/tablevisor/application/MultiSwitchApplication.java:192-231 | for one device with groups and capabilities, as written the merge reports none of either, while the corrected merge reports the device's own |
| FlowMods.CollectShape | src/main/java/de/uniwue/info3/tablevisor/application/MultiSwitchApplication.java:476-510 | after the instruction loop no APPLY_ACTIONS is kept, every kept jump names a physical table of the target device, foundIndex is the position of the last APPLY_ACTIONS (or -1 when there is none), and actions are gathered only from APPLY_ACTIONS and cross-device jumps |
| FlowMods.CollectMeaning | src/main/java/de/uniwue/info3/tablevisor/application/MultiSwitchApplication.java:476-510 | the instruction loop succeeds exactly when every lookup for a jump within the device finds a physical table; it then gathers the actions of every APPLY_ACTIONS and an OUTPUT towards the target device for every cross-device jump, in order, keeps every other instruction (same-device jumps renamed to the physical table) in order, and leaves foundIndex at the last APPLY_ACTIONS |
| FlowMods.GatheredAppend | src/main/java/de/uniwue/info3/tablevisor/application/MultiSwitchApplication.java:476-510 | the gathered actions and the kept instructions of two lists joined are those of the first followed by those of the second |
| FlowMods.InstructionContribution | src/main/java/de/uniwue/info3/tablevisor/application/MultiSwitchApplication.java:483-507 | what one instruction adds: a jump to another device adds one OUTPUT on the port towards that device and is dropped; a jump within the device is kept as a jump to its physical table; an APPLY_ACTIONS adds its actions and is dropped; anything else is kept unchanged |
| FlowMods.RewriteMeaning | src/main/java/de/uniwue/info3/tablevisor/application/MultiSwitchApplication.java:469-528 | when every lookup succeeds, the corrected rewrite yields the kept instructions when nothing was gathered, and otherwise one APPLY_ACTIONS of all gathered actions inserted among them where the last APPLY_ACTIONS stood (at the end when there was none) |
| FlowMods.CollectInstructions | src/main/java/de/uniwue/info3/tablevisor/application/MultiSwitchApplication.java:476-510 | the loop computes its specification: kept instructions, gathered actions and foundIndex, or the NullPointerException of a failed lookup |
| FlowMods.CollectFailsWithNullPointer | src/main/java/de/uniwue/info3/tablevisor/application/MultiSwitchApplication.java:483-501 | the instruction loop can only fail with NullPointerException |
| FlowMods.CollectFailureSticks | src/main/java/de/uniwue/info3/tablevisor/application/MultiSwitchApplication.java:480-510 | once the loop has failed on a prefix it fails the same way on the whole list |
| FlowMods.InsertCorrected | src/main/java/de/uniwue/info3/tablevisor/application/MultiSwitchApplication.java:513-526 | the corrected insertion adds exactly one APPLY_ACTIONS of the gathered actions when any were gathered, at a position within the new list, and none otherwise (where it goes: FlowMods.RewriteMeaning) |
| FlowMods.RewriteAggregatesActions | src/main/java/de/uniwue/info3/tablevisor/application/MultiSwitchApplication.java:512-528 | the rewritten instructions hold exactly one APPLY_ACTIONS with every gathered action when any was gathered, none otherwise, and the kept instructions keep their order around it |
| FlowMods.RewriteFailsOnlyOnLookup | src/main/java/de/uniwue/info3/tablevisor/application/MultiSwitchApplication.java:469-528 | the corrected rewrite fails exactly when a lookup in the loop fails, always with NullPointerException |
| FlowMods.MultisetOfInsert | src/main/java/de/uniwue/info3/tablevisor/application/MultiSwitchApplication.java:524 | inserting at an index adds one element and keeps the rest |
| FlowMods.InsertionsAgreeUpToOrder | src/main/java/de/uniwue/info3/tablevisor/application/MultiSwitchApplication.java:513-526 | wherever the insertion as written succeeds, it yields the same instructions as the corrected one, up to order |
| FlowMods.AsWrittenInsertOutOfBounds | src/main/java/de/uniwue/info3/tablevisor/application/MultiSwitchApplication.java:513-526 | for a kept instruction followed by a jump to another device, the insertion as written asks for index 2 of a one-element list, while the corrected one appends the output action |
| FlowMods.AsWrittenMovesActions | src/main/java/de/uniwue/info3/tablevisor/application/MultiSwitchApplication.java:513-526 | where the insertion as written does not throw it can still move the gathered actions: [APPLY(a), APPLY(b), other] becomes [other, APPLY(a+b)] as written and [APPLY(a+b), other] corrected |
| FlowMods.FlowModToDataPlane | src/main/java/de/uniwue/info3/tablevisor/application/MultiSwitchApplication.java:469-557 | the flow-mod goes to the device and physical table behind its logical table, with the instructions rewritten using the corrected insertion (FlowMods.InsertCorrected); for the highest logical table IN_PORT is pinned to the port from the next device up; it fails exactly when a lookup fails |
| FlowStats.InPortFromHigherDeviceMeaning | src/main/java/de/uniwue/info3/tablevisor/application/MultiSwitchApplication.java:428-444 | for a configured device the check succeeds, and answers true exactly when some exact IN_PORT entry's port leads to a device with a larger id |
| FlowStats.UnconfiguredDeviceFailsOnInPort | src/main/java/de/uniwue/info3/tablevisor/application/MultiSwitchApplication.java:428-444 | for an unknown device the check throws exactly when the match has an exact IN_PORT entry |
| FlowStats.MatchContainsInPortFromHigherDevice | src/main/java/de/uniwue/info3/tablevisor/application/MultiSwitchApplication.java:428-444 | the loop over the match fields computes the check, early return included |
| FlowStats.Retargeted | src/main/java/de/uniwue/info3/tablevisor/application/MultiSwitchApplication.java:681-685 | one copy of the entry per logical id, each carrying that id |
| FlowStats.TableStatsAdaptedMeaning | src/main/java/de/uniwue/info3/tablevisor/application/MultiSwitchApplication.java:673-689 | each reported table appears under a logical id bound to it, counters unchanged; a table with a logical id is never dropped, and a table without one is |
| FlowStats.AdaptTableStatsEntries | src/main/java/de/uniwue/info3/tablevisor/application/MultiSwitchApplication.java:673-689 | the loop computes the adapted table statistics |
| FlowStats.ScanActionsLocal | src/main/java/de/uniwue/info3/tablevisor/application/MultiSwitchApplication.java:711-752 | the action loop keeps only outputs to ports that lead to no other device, and what replaces an output is a jump |
| FlowStats.ScanActionStep | src/main/java/de/uniwue/info3/tablevisor/application/MultiSwitchApplication.java:711-752 | one action of the loop: an action other than an output is kept, and so is an output to a port that leads to no device; an output that leads to a configured device with a logical table 0 sets the jump to GOTO_TABLE that logical id; nothing else changes |
| FlowStats.ScanActionsKept | src/main/java/de/uniwue/info3/tablevisor/application/MultiSwitchApplication.java:711-752 | the loop keeps exactly the actions other than outputs to ports that lead to another device, in order |
| FlowStats.ScanActionsJump | src/main/java/de/uniwue/info3/tablevisor/application/MultiSwitchApplication.java:727-748 | the jump the loop ends with is GOTO_TABLE to the logical id of table 0 of the device the last output to another device leads to; without such an output it is unchanged |
| FlowStats.AdaptInstructionsTranslated | src/main/java/de/uniwue/info3/tablevisor/application/MultiSwitchApplication.java:706-780 | the instruction loop produces no empty APPLY_ACTIONS and no output towards another device |
| FlowStats.FlowStatsAdaptedMeaning | src/main/java/de/uniwue/info3/tablevisor/application/MultiSwitchApplication.java:691-791 | every adapted entry comes from a reported entry: same match, priority and cookie, a logical table bound to its physical table, and translated instructions; the result extends what was there (the converse is FlowStats.KeptEntryIsReported) |
| FlowStats.FlowStatsAdaptedCount | src/main/java/de/uniwue/info3/tablevisor/application/MultiSwitchApplication.java:691-791 | the adaptation fails exactly when some entry's adaptation fails; otherwise it adds exactly one entry per entry that is kept and has a logical table |
| FlowStats.KeptEntryIsReported | src/main/java/de/uniwue/info3/tablevisor/application/MultiSwitchApplication.java:781-789 | every entry whose instructions are kept and whose physical table has a logical id appears in the result, under the first (or, for the last table, the last) logical id, with its translated instructions |
| FlowStats.HiddenRuleIsNotReported | src/main/java/de/uniwue/info3/tablevisor/application/MultiSwitchApplication.java:712-723 | on a middle device an entry with the hidden rule's match whose first action is an output is left out of the reply |
| FlowStats.ScanApplyActions | src/main/java/de/uniwue/info3/tablevisor/application/MultiSwitchApplication.java:711-752 | the action loop computes its specification |
| FlowStats.FindLogicalTable | src/main/java/de/uniwue/info3/tablevisor/application/MultiSwitchApplication.java:761-767 | the scan returns the first logical id whose physical table is the one jumped to, or -1 |
| FlowStats.AdaptOneInstruction | src/main/java/de/uniwue/info3/tablevisor/application/MultiSwitchApplication.java:707-779 | one instruction of the loop, followed by the jump an output turned into, as specified |
| FlowStats.AdaptEntryInstructions | src/main/java/de/uniwue/info3/tablevisor/application/MultiSwitchApplication.java:706-780 | the instruction loop for one entry computes its specification |
| FlowStats.AdaptFlowStatsEntries | src/main/java/de/uniwue/info3/tablevisor/application/MultiSwitchApplication.java:691-791 | the entry loop computes the adapted flow statistics, or the exception a lookup throws |
| MultiSwitch.ConcatOfSingletons | src/main/java/de/uniwue/info3/tablevisor/application/MultiSwitchApplication.java:68-71 | a features round keeps exactly one reply per answering device, in arrival order |
| MultiSwitch.UnionTagsMeaning | src/main/java/de/uniwue/info3/tablevisor/application/MultiSwitchApplication.java:69 | a flag or capability is in the round's union exactly when some reply has it |
| MultiSwitch.FeaturesRoundMerges | src/main/java/de/uniwue/info3/tablevisor/application/MultiSwitchApplication.java:63-93 | once each connected device has answered once, the merged reply carries our datapath id, exactly the capabilities some device has, the smallest nonzero buffer count (0 when all are 0) and the configured table total as a short |
| MultiSwitch.MultiSwitchApplication.constructor | src/main/java/de/uniwue/info3/tablevisor/application/MultiSwitchApplication.java:59-61 | every round starts empty and nothing has been handed on |
| MultiSwitch.MultiSwitchApplication.SwitchFeaturesToControlPlane | src/main/java/de/uniwue/info3/tablevisor/application/MultiSwitchApplication.java:63-93 | a features reply is counted once per device; the reply that completes the round sends the merged features on and clears the round; a missing or wrong payload fails and changes nothing |
| MultiSwitch.MultiSwitchApplication.SwitchGetConfigToControlPlane | src/main/java/de/uniwue/info3/tablevisor/application/MultiSwitchApplication.java:95-116 | flags are united once per device; the completing reply sends the union with its own xid and miss-send length and clears the round |
| MultiSwitch.MultiSwitchApplication.RoleToControlPlane | src/main/java/de/uniwue/info3/tablevisor/application/MultiSwitchApplication.java:578-586 | the device is counted; the reply that completes the round is passed on unchanged and the count cleared |
| MultiSwitch.MultiSwitchApplication.BarrierToControlPlane | src/main/java/de/uniwue/info3/tablevisor/application/MultiSwitchApplication.java:588-596 | the device is counted; the reply that completes the round is passed on unchanged and the count cleared |
| MultiSwitch.MultiSwitchApplication.SendToAllSwitches | src/main/java/de/uniwue/info3/tablevisor/application/MultiSwitchApplication.java:598-667 | every request towards the devices goes out once per connection, in the socket map's key order, each copy addressed to that connection's dataplane id; it fails with a null dereference exactly when there is a connection and no payload, and then hands on nothing |
| MultiSwitch.MultiSwitchApplication.TableModToDataPlane | src/main/java/de/uniwue/info3/tablevisor/application/MultiSwitchApplication.java:446-455 | the table-mod goes to the device and physical table behind its logical table, (-1, 0) when it is unbound |
| MultiSwitch.MultiSwitchApplication.FlowModToControlPlane | src/main/java/de/uniwue/info3/tablevisor/application/MultiSwitchApplication.java:457-467 | a flow-removed message carries the logical table bound to its physical table; it fails exactly when none is bound |
| MultiSwitch.MultiSwitchApplication.PacketInToControlPlane | src/main/java/de/uniwue/info3/tablevisor/application/MultiSwitchApplication.java:559-569 | a packet-in carries the logical table bound to its physical table; it fails exactly when none is bound |
| MultiSwitch.MultiSwitchApplication.PacketOutToDataPlane | src/main/java/de/uniwue/info3/tablevisor/application/MultiSwitchApplication.java:571-576 | the message itself is readdressed to the device of logical table 0 and passed on |
| MultiSwitch.MultiSwitchApplication.FlowModToDataPlane | src/main/java/de/uniwue/info3/tablevisor/application/MultiSwitchApplication.java:469-557 | exactly one flow-mod goes to the device behind the logical table: the same xid, command, cookie and mask, timeouts, priority, buffer and flags, the physical table, the match with IN_PORT pinned to the port from the next device up when the table is the highest logical table (unchanged otherwise), and the instructions rewritten with the corrected insertion; it fails exactly when the rewrite's lookups fail, and then hands nothing on |
| MultiSwitch.MultiSwitchApplication.SwitchStatsToControlPlane | src/main/java/de/uniwue/info3/tablevisor/application/MultiSwitchApplication.java:118-411 | a statistics reply updates its type's round and hands on what the round's specification says; a missing or wrong payload fails and changes nothing |
| MultiSwitch.MultiSwitchApplication.PortDescReply | src/main/java/de/uniwue/info3/tablevisor/application/MultiSwitchApplication.java:125-137 | the PORT_DESC round concatenates the devices' port lists and answers once all devices have |
| MultiSwitch.MultiSwitchApplication.PortStatsReply | src/main/java/de/uniwue/info3/tablevisor/application/MultiSwitchApplication.java:139-151 | the PORT round concatenates the devices' port counters and answers once all devices have |
| MultiSwitch.MultiSwitchApplication.GroupStatsReply | src/main/java/de/uniwue/info3/tablevisor/application/MultiSwitchApplication.java:153-168 | the GROUP round concatenates entries and unites flags |
| MultiSwitch.MultiSwitchApplication.GroupDescReply | src/main/java/de/uniwue/info3/tablevisor/application/MultiSwitchApplication.java:170-185 | the GROUP_DESC round concatenates entries and unites flags |
| MultiSwitch.MultiSwitchApplication.GroupFeaturesReply | src/main/java/de/uniwue/info3/tablevisor/application/MultiSwitchApplication.java:187-235 | the GROUP_FEATURES round keeps one reply per device and merges them, with the corrected merge, once all are in |
| MultiSwitch.MultiSwitchApplication.DescReply | src/main/java/de/uniwue/info3/tablevisor/application/MultiSwitchApplication.java:237-245 | DESC is answered at once with the emulated switch's description, after the device's pipeline is set up |
| MultiSwitch.MultiSwitchApplication.TableStatsReply | src/main/java/de/uniwue/info3/tablevisor/application/MultiSwitchApplication.java:247-261 | the TABLE round collects each device's entries under their logical ids |
| MultiSwitch.MultiSwitchApplication.MeterStatsReply | src/main/java/de/uniwue/info3/tablevisor/application/MultiSwitchApplication.java:263-275 | the METER round concatenates the devices' meter counters |
| MultiSwitch.MultiSwitchApplication.MeterFeaturesReply | src/main/java/de/uniwue/info3/tablevisor/application/MultiSwitchApplication.java:277-309 | the METER_FEATURES round keeps one reply per device and merges them, with the corrected merge, once all are in |
| MultiSwitch.MultiSwitchApplication.FlowStatsReply | src/main/java/de/uniwue/info3/tablevisor/application/MultiSwitchApplication.java:354-400 | each first FLOW reply of a device is answered at once with its adapted entries, marked REPLY_MORE until the round completes |
| MultiSwitch.MultiSwitchApplication.InitializePipeline | src/main/java/de/uniwue/info3/tablevisor/application/MultiSwitchApplication.java:793-832 | exactly the flow-mods of the pipeline setup for the device are handed on, and no round changes |
| MultiSwitch.SplitFlowEntries | src/main/java/de/uniwue/info3/tablevisor/application/MultiSwitchApplication.java:359-374 | the split loop computes its specification |
| MultiSwitch.SplitByInPortFails | src/main/java/de/uniwue/info3/tablevisor/application/MultiSwitchApplication.java:359-374 | the split fails exactly when the IN_PORT check fails for some entry |
| MultiSwitch.SplitByInPortIsFilter | src/main/java/de/uniwue/info3/tablevisor/application/MultiSwitchApplication.java:359-374 | a successful split appends the two filters to the lists it started from, and every entry lands in exactly one of them |
| MultiSwitch.LastTableEntriesMeaning | src/main/java/de/uniwue/info3/tablevisor/application/MultiSwitchApplication.java:361-365 | the last-table entries are exactly the entries whose IN_PORT comes from a bigger device, with IN_PORT removed |
| MultiSwitch.FirstTableEntriesMeaning | src/main/java/de/uniwue/info3/tablevisor/application/MultiSwitchApplication.java:367-368 | the first-table entries are exactly the entries whose IN_PORT does not come from a bigger device, unchanged |
| MultiSwitch.AdaptedFromReply | src/main/java/de/uniwue/info3/tablevisor/application/MultiSwitchApplication.java:376-381 | the entries adapted for one device come, one for one at most, from the entries it reported |
| MultiSwitch.AdaptedFromSomeAppend | src/main/java/de/uniwue/info3/tablevisor/application/MultiSwitchApplication.java:376-381 | adapted lists from two sources concatenate to an adapted list from both |
| MultiSwitch.FlowPartsMeaning | src/main/java/de/uniwue/info3/tablevisor/application/MultiSwitchApplication.java:359-374 | on the smallest device the entries split into the two filters, on every other device all go to the first table; either way one part entry per reported entry |
| MultiSwitch.FlowReplyMeaning | src/main/java/de/uniwue/info3/tablevisor/application/MultiSwitchApplication.java:355-382 | a device's FLOW reply adapted without failure adds at most one entry per reported entry, each adapted from an entry of its parts (the converse is MultiSwitch.FlowReplyReportsKeptEntries) |
| MultiSwitch.FlowReplyReportsKeptEntries | src/main/java/de/uniwue/info3/tablevisor/application/MultiSwitchApplication.java:355-382 | a device's FLOW reply adapted without failure adds exactly one entry per kept entry with a logical table, and every such entry of either part appears, under the last logical id for the last-table part and the first for the other |
| MultiSwitch.FlowRoundMarksMore | src/main/java/de/uniwue/info3/tablevisor/application/MultiSwitchApplication.java:354-400 | in a round where each device answers once, the k-th reply is answered at once, carries REPLY_MORE exactly when k is not the last index, and the round restarts after the last |
| MultiSwitch.PipelineRuleIsHidden | src/main/java/de/uniwue/info3/tablevisor/application/MultiSwitchApplication.java:712-832 | exactly the middle devices get the pipeline rule, and the corrected test recognises that rule so it is never reported |
| MultiSwitch.PipelineRuleMissedAsWritten | src/main/java/de/uniwue/info3/tablevisor/application/MultiSwitchApplication.java:712-723 | with device 2 between 1 and 3 and traffic from 3 arriving on port 7, the test as written does not recognise the rule installed on 2, while the corrected test does |
| P4Control.CookieOf | src/main/java/de/uniwue/info3/tablevisor/application/P4ControlApplication.java:206-230 | the cookie read back from a rule name is the low 64 bits of the signed hexadecimal number after the "r", as an unsigned 64-bit value, and 0 when the text is not a number |
| P4Control.CookieOfKeepsLow64Bits | src/main/java/de/uniwue/info3/tablevisor/application/P4ControlApplication.java:224-230 | a rule name's number keeps only its low 64 bits (so "r10000000000000001", which is 2^64 + 1, reads as 1), a "+" sign changes nothing, and a "-" gives the 64-bit two's complement |
| P4Control.MinusOneCookie | src/main/java/de/uniwue/info3/tablevisor/application/P4ControlApplication.java:224-230 | the rule name "r-1" reads as cookie 2^64 - 1, the unsigned reading of the long -1 |
| P4Control.RuleNameRoundTrip | src/main/java/de/uniwue/info3/tablevisor/application/P4ControlApplication.java:206-230 | the rule name a flow-mod writes (line 554) reads back as that flow-mod's cookie, taken as an unsigned 64-bit value |
| P4Control.NatToStringInjective | src/main/java/de/uniwue/info3/tablevisor/application/P4ControlApplication.java:94 | distinct port numbers give distinct decimal texts |
| P4Control.PortDescsNumbered | src/main/java/de/uniwue/info3/tablevisor/application/P4ControlApplication.java:85-105 | a P4 device reports one port per port not used for a link (none when links use them all), numbered 0 upwards at 10 Gbit/s, no two with the same name or hardware address, the address holding the dataplane id in its first byte and the port number in its last; when either does not fit in one byte the MAC address parse throws IllegalArgumentException |
| P4Control.FlowRequestFansOut | src/main/java/de/uniwue/info3/tablevisor/application/P4ControlApplication.java:125-152 | a flow-statistics request for all tables issues one list-rules call per mapped table, in map order, each naming that table; one for a single table; the device's cache is reset; a reply to any call is dispatched as a statistics reply for that call's table |
| P4Control.ListRulesCallMeaning | src/main/java/de/uniwue/info3/tablevisor/application/P4ControlApplication.java:141-150 | one list-rules call names the table's P4 name ("null" when unknown) and a reply to it is dispatched as a statistics reply for that table |
| P4Control.RetargetedReplyMeaning | src/main/java/de/uniwue/info3/tablevisor/application/P4ControlApplication.java:44-59 | a reply to a copy of the request retargeted at table t is retyped as a statistics reply and asks for table t |
| P4Control.StatsReplyStepsSnoc | src/main/java/de/uniwue/info3/tablevisor/application/P4ControlApplication.java:164-253 | handling replies one after another composes: one more reply continues from the cache the earlier ones left |
| P4Control.RepliesAccumulate | src/main/java/de/uniwue/info3/tablevisor/application/P4ControlApplication.java:177-182 | while fewer replies than the threshold (the device's table count as written, the number of calls issued corrected) have arrived, they only join the cache and nothing is handed on |
| P4Control.FullRoundAnswersOnce | src/main/java/de/uniwue/info3/tablevisor/application/P4ControlApplication.java:177-246 | once as many replies as the threshold have arrived the cache entry is removed and at most one flow-statistics reply goes on, with the original request's xid and the entries of all replies in order; it goes on exactly when every reply parses |
| P4Control.SingleTableRequestWaitsForever | src/main/java/de/uniwue/info3/tablevisor/application/P4ControlApplication.java:128-182 | as written, a request for one table of a device with several tables issues one call, and its one reply only waits in the cache: the controller gets no answer |
| P4Control.RequestExpectsItsCalls | src/main/java/de/uniwue/info3/tablevisor/application/P4ControlApplication.java:128-152 | corrected, a flow-statistics request resets the device's cache and leaves as its threshold the number of list-rules calls it issued |
| P4Control.SingleTableRequestAnswered | src/main/java/de/uniwue/info3/tablevisor/application/P4ControlApplication.java:128-246 | corrected, the one reply to a single-table request removes the cache entry and hands on at most one flow-statistics reply, with the request's xid and the reply's entries, exactly when the reply parses |
| P4Control.ActionCommandsCons | src/main/java/de/uniwue/info3/tablevisor/application/P4ControlApplication.java:475-531 | the commands of an action list are those of its first action together with those of the rest |
| P4Control.ActionStepMeaning | src/main/java/de/uniwue/info3/tablevisor/application/P4ControlApplication.java:475-531 | on a configured device one action never fails, discards the flow-mod exactly when it outputs to the controller, and otherwise adds exactly that action's command |
| P4Control.OutputStepMeaning | src/main/java/de/uniwue/info3/tablevisor/application/P4ControlApplication.java:480-492 | an OUTPUT action translates as ActionStepMeaning says |
| P4Control.PopMplsStepMeaning | src/main/java/de/uniwue/info3/tablevisor/application/P4ControlApplication.java:494-500 | a POP_MPLS action translates as ActionStepMeaning says |
| P4Control.SetFieldStepMeaning | src/main/java/de/uniwue/info3/tablevisor/application/P4ControlApplication.java:502-513 | a SET_FIELD action translates as ActionStepMeaning says |
| P4Control.TranslateActionsMeaning | src/main/java/de/uniwue/info3/tablevisor/application/P4ControlApplication.java:475-531 | an action list never fails on a configured device, discards the flow-mod exactly when some action outputs to the controller, and otherwise collects exactly the commands of all actions |
| P4Control.TranslateInstructionsMeaning | src/main/java/de/uniwue/info3/tablevisor/application/P4ControlApplication.java:472-535 | the instructions never fail on a configured device, discard the flow-mod exactly when some APPLY_ACTIONS outputs to the controller, and otherwise collect exactly the commands of all instructions |
| P4Control.MatchEntriesEmpty | src/main/java/de/uniwue/info3/tablevisor/application/P4ControlApplication.java:540-553 | the match list has at most one entry per match field and is empty exactly when no field has a P4 name |
| P4Control.CommandLineMeaning | src/main/java/de/uniwue/info3/tablevisor/application/P4ControlApplication.java:533-590 | a command line exists exactly when the table has a P4 name and the command maps to a CLI verb, and it is laid out as table, rule (reading back as the cookie), the match entries joined by commas, the action with its parameter data, the priority, and --default exactly when no match field has a P4 name |
| P4Control.RuleParam | src/main/java/de/uniwue/info3/tablevisor/application/P4ControlApplication.java:554 | the --rule parameter's name part reads back as the cookie |
| P4Control.FlowModStepMeaning | src/main/java/de/uniwue/info3/tablevisor/application/P4ControlApplication.java:456-593 | on a configured device a flow-mod never fails; it yields one command line exactly when no action outputs to the controller, the table has a P4 name and the command is ADD, DELETE_STRICT or MODIFY_STRICT, carrying the commands of all instructions |
| P4Control.P4ControlApplication.constructor | src/main/java/de/uniwue/info3/tablevisor/application/P4ControlApplication.java:39-41 | the stage starts with no cached replies, no recorded thresholds and nothing handed on |
| P4Control.P4ControlApplication.P4ToControlPlane | src/main/java/de/uniwue/info3/tablevisor/application/P4ControlApplication.java:43-61 | a CLI reply to a statistics request is retyped as a statistics reply and dispatched; a reply to any other request, or without an original request, is dropped; a request of no type fails with a null dereference |
| P4Control.P4ControlApplication.SwitchFeaturesToDataPlane | src/main/java/de/uniwue/info3/tablevisor/application/P4ControlApplication.java:63-76 | the stage answers for the device: our datapath id, one buffer, the device's table count as a short, no capabilities |
| P4Control.P4ControlApplication.SwitchGetConfigToDataPlane | src/main/java/de/uniwue/info3/tablevisor/application/P4ControlApplication.java:433-440 | the stage answers with no flags and a miss-send length of 128 |
| P4Control.P4ControlApplication.SetConfigToDataPlane | src/main/java/de/uniwue/info3/tablevisor/application/P4ControlApplication.java:442-445 | a set-config changes nothing and hands nothing on |
| P4Control.P4ControlApplication.RoleToDataPlane | src/main/java/de/uniwue/info3/tablevisor/application/P4ControlApplication.java:447-454 | the stage answers that the controller is master |
| P4Control.P4ControlApplication.BarrierToDataPlane | src/main/java/de/uniwue/info3/tablevisor/application/P4ControlApplication.java:599-606 | the stage answers with a barrier reply of the same xid, dispatched towards the controller |
| P4Control.P4ControlApplication.SwitchStatsToDataPlane | src/main/java/de/uniwue/info3/tablevisor/application/P4ControlApplication.java:78-162 | the cache and the messages handed on are those of the request step whose properties FlowRequestFansOut and PortDescsNumbered state (a port list whose addresses do not fit fails with IllegalArgumentException); a flow-statistics request records its number of calls as the device's threshold |
| P4Control.P4ControlApplication.IssueListRules | src/main/java/de/uniwue/info3/tablevisor/application/P4ControlApplication.java:141-151 | exactly one list-rules call per table, in order, and the cache untouched |
| P4Control.P4ControlApplication.BuildPortDescs | src/main/java/de/uniwue/info3/tablevisor/application/P4ControlApplication.java:91-100 | the loop builds exactly the port list PortDescsNumbered describes, or stops with its IllegalArgumentException |
| P4Control.P4ControlApplication.SwitchStatsToControlPlane | src/main/java/de/uniwue/info3/tablevisor/application/P4ControlApplication.java:164-253 | the cache and the messages handed on are those of the reply step, with the threshold the last request recorded, whose properties RepliesAccumulate, FullRoundAnswersOnce and SingleTableRequestAnswered state |
| P4Control.P4ControlApplication.CollectFlowEntries | src/main/java/de/uniwue/info3/tablevisor/application/P4ControlApplication.java:184-240 | the loop over cached replies yields the entries of all replies in order, or nothing when one fails to parse |
| P4Control.P4ControlApplication.FlowModToDataPlane | src/main/java/de/uniwue/info3/tablevisor/application/P4ControlApplication.java:456-593 | what is handed on is the flow-mod step whose properties FlowModStepMeaning states |
| P4Control.P4ControlApplication.TranslateFlowInstructions | src/main/java/de/uniwue/info3/tablevisor/application/P4ControlApplication.java:472-535 | the loops over instructions and actions compute the translation TranslateInstructionsMeaning describes |
| P4Control.P4ControlApplication.BuildMatchList | src/main/java/de/uniwue/info3/tablevisor/application/P4ControlApplication.java:540-553 | the loop over match fields computes the match list MatchEntriesEmpty describes |
| P4Dicts.FirstNonAction | src/main/java/de/uniwue/info3/tablevisor/config/P4Dict.java:66-83 | the index where the run of action annotations ends |
| P4Dicts.ParsePassesIffWellFormed | src/main/java/de/uniwue/info3/tablevisor/config/P4Dict.java:29-102 | parsing ends normally exactly when every annotation is followed by its definition and no unknown annotation appears |
| P4Dicts.ActionBlockPassesIffWellFormed | src/main/java/de/uniwue/info3/tablevisor/config/P4Dict.java:64-92 | an action block ends normally exactly when the run of action annotations is followed by an action definition and the rest is well formed |
| P4Dicts.ParseFailureKinds | src/main/java/de/uniwue/info3/tablevisor/config/P4Dict.java:29-102 | a failed parse is a NullPointerException exactly when a table or field annotation, or a run of action annotations, reaches the last line; any other failure is an IllegalArgumentException saying that a table, field or action definition was expected or that the annotation is unrecognised |
| P4Dicts.ActionBlockFailureKinds | src/main/java/de/uniwue/info3/tablevisor/config/P4Dict.java:64-92 | an action block fails with a NullPointerException exactly when its run of annotations, or an annotation after its definition, reaches the last line; otherwise any failure is an IllegalArgumentException with one of the four messages |
| P4Dicts.ParseAppend | src/main/java/de/uniwue/info3/tablevisor/config/P4Dict.java:29-102 | parsing a file in two pieces is parsing it in one, the second piece continuing from the dictionaries the first left |
| P4Dicts.ActionBlockAppend | src/main/java/de/uniwue/info3/tablevisor/config/P4Dict.java:64-92 | an action block that ends normally is followed by parsing the rest from the dictionaries it left |
| P4Dicts.ParseFrame | src/main/java/de/uniwue/info3/tablevisor/config/P4Dict.java:44-92 | lines of other kinds leave a kind of dictionary as it was: each annotation fills only its own maps |
| P4Dicts.AnnotationFrame | src/main/java/de/uniwue/info3/tablevisor/config/P4Dict.java:44-62 | a table or field annotation with its definition leaves the other kinds of maps as they were |
| P4Dicts.WithParamsFrame | src/main/java/de/uniwue/info3/tablevisor/config/P4Dict.java:69-79 | putting parameter pairs changes only the two parameter maps |
| P4Dicts.ActionBlockFrame | src/main/java/de/uniwue/info3/tablevisor/config/P4Dict.java:64-92 | an action block leaves the table and field maps as they were |
| P4Dicts.TableAnnotationDefines | src/main/java/de/uniwue/info3/tablevisor/config/P4Dict.java:44-52 | after a table annotation and its definition and no later table annotation, the name in any casing looks up the id and the id looks up the name as written |
| P4Dicts.FieldAnnotationDefines | src/main/java/de/uniwue/info3/tablevisor/config/P4Dict.java:54-62 | a field annotation fills both directions, each looked up in any casing |
| P4Dicts.ActionAnnotationsDefine | src/main/java/de/uniwue/info3/tablevisor/config/P4Dict.java:64-92 | the lower-cased commands of consecutive action annotations map to the following action and back, looked up in any casing |
| P4Dicts.ActionBlockDefines | src/main/java/de/uniwue/info3/tablevisor/config/P4Dict.java:64-92 | an action block enters the action with all the commands collected, and parsing goes on after its definition |
| P4Dicts.CommandsOfCons | src/main/java/de/uniwue/info3/tablevisor/config/P4Dict.java:66-67 | the commands of a run of action annotations are the first one's command, lower-cased, and those of the rest |
| P4Dicts.ParamPairDefines | src/main/java/de/uniwue/info3/tablevisor/config/P4Dict.java:71-78 | each of=p4 pair fills both parameter maps inversely, looked up in any casing, and a later pair with the same key wins |
| P4Dicts.WithParamsSnoc | src/main/java/de/uniwue/info3/tablevisor/config/P4Dict.java:71-78 | putting pairs one after another composes |
| P4Dicts.OfActionLookupIgnoresCase | src/main/java/de/uniwue/info3/tablevisor/config/P4Dict.java:124-128 | the action lookup by OpenFlow commands does not depend on their casing |
| P4Dicts.UnknownActionFails | src/main/java/de/uniwue/info3/tablevisor/config/P4Dict.java:120-122 | looking up a P4 action no annotation defined throws a NullPointerException |
| P4Dicts.P4Dict.constructor | src/main/java/de/uniwue/info3/tablevisor/config/P4Dict.java:20-27 | a new dictionary has all eight maps empty |
| P4Dicts.P4Dict.PutParams | src/main/java/de/uniwue/info3/tablevisor/config/P4Dict.java:71-78 | the inner loop leaves the dictionary with the pairs put in order |
| P4Dicts.P4Dict.ParseP4File | src/main/java/de/uniwue/info3/tablevisor/config/P4Dict.java:29-102 | the loop over the lines leaves the maps, and ends with the outcome, that Parse describes |
| P4Dicts.P4Dict.ParseActionBlock | src/main/java/de/uniwue/info3/tablevisor/config/P4Dict.java:64-92 | the do-while either stops with the action block's outcome or hands on at a later line with the dictionaries the block describes |

## Left out

- Logging, the console, the Netty endpoints and codecs, the P4 command-line processes and LogApplication: I/O, not part of the translation logic.
- Concurrency: the `synchronized` handlers are modelled as one call at a time.
- Reading the P4 program file: P4Dicts works on the lines already classified by their annotation pattern (table, field, action, other `// @TV`, anything else); the line regular expressions themselves are not modelled.
- The regular-expression parsing of `list-rules` replies (table entries, matches, actions) in P4ControlApplication is kept as abstract parsed rules that either parse or fail.
- Integer.parseInt overflow on annotation ids and CLI priorities: ids are natural numbers.
- The text of the exception MacAddress.of throws for an out-of-range address is the library's; the model uses the constant "Invalid MAC address". The U64 rendering as "0x"+hex beyond the rule name, and the textual rendering of match and set-field values and POP_MPLS ethertypes: values are kept as opaque strings.
- toLowerCase is modelled for ASCII letters only.
- P4Control.CookieOf: hexadecimal digits are the ASCII ones; the non-ASCII digits Character.digit also accepts are read as non-digits.
- Match masks: a match entry's mask is an optional number that no stage interprets beyond exact or masked; the entries the stages build themselves (the pinned IN_PORT of a flow-mod, the pipeline rule's IN_PORT) are exact; field order in a Match and the one-entry-per-field invariant (UniqueFields) are taken as the library's guarantee, stated as a precondition where it is needed.
- The topology helpers of Configuration (smallest, biggest, next bigger and next smaller dataplane id, out and in ports between devices, the largest logical table id) and a switch's number of ports and P4 dictionary are taken as given values of the environment, without contracts of their own.
- The socket maps are the sequence of connected dataplane ids in key order; HashMap and HashSet iteration order is a fixed but arbitrary order.
- Meter capability and band-type bitmaps are sets of bit positions (bitwise OR is union).
- TableId range checks of the OpenFlow library (ids 0-255) are not modelled.
- setConfigToDataPlane on the MultiSwitch side is SendToAllSwitches (MultiSwitchApplication.java:639-641); the error handlers do nothing and are not modelled.
- TVMessage: the members thisMsgType, cmdLine, originalRequest and reply that P4ControlApplication uses are not in TVMessage.java; they are modelled as plain fields, and the OpenFlow constructors set thisMsgType to the message's own type.
- switchIdToOurTableId returns an Integer in TableVisor.java while adaptFlowStats in src/main/java/de/uniwue/info3/tablevisor/application/MultiSwitchApplication.java treats it as an array; the model returns a sequence of length 0 or 1 and takes its first element.
- P4Dicts: the IllegalArgumentException texts of the parser leave out the " in line N" suffix.

## Findings

| source | as written | input that shows it | evidently intended | confidence | as-written member | corrected member |
|---|---|---|---|---|---|---|
| src/main/java/de/uniwue/info3/tablevisor/application/MultiSwitchApplication.java:192-231 | GROUP_FEATURES: every limit starts at 0 and is lowered with Math.min, and `capabilities.addAll(capabilities)` adds the set to itself | one device reporting maxGroupsAll = 5 and a non-empty capability set: the merged reply reports 0 and no capability | each limit is the minimum over the devices, capabilities are united | not executed | Merges.GroupFeaturesAsWrittenLosesLimits | Merges.GroupFeaturesMergedMeaning |
| src/main/java/de/uniwue/info3/tablevisor/application/MultiSwitchApplication.java:290-292 | METER_FEATURES: maxColor and maxMeter are read from getMaxBands | one device with maxBands = 4 and maxColor = 8: the merged maxColor is 4 | maxColor and maxMeter are the minima of the devices' own maxColor and maxMeter | not executed | Merges.MeterFeaturesAsWrittenReadsMaxBands | Merges.MeterFeaturesMergedLimits |
| src/main/java/de/uniwue/info3/tablevisor/application/MultiSwitchApplication.java:513-526 | the gathered APPLY_ACTIONS is inserted at the index the instruction had in the old list, into the new list that lacks the removed instructions | [another instruction, GOTO_TABLE to a table on another device]: insertion at index 2 into a list of length 1 throws IndexOutOfBoundsException; and [APPLY_ACTIONS(a), APPLY_ACTIONS(b), another instruction] becomes [another instruction, APPLY_ACTIONS(a+b)], the actions moved behind it (FlowMods.AsWrittenMovesActions) | the actions are inserted where the removed instructions stood, within the new list's bounds | not executed | FlowMods.AsWrittenInsertOutOfBounds | FlowMods.InsertCorrected, FlowMods.RewriteMeaning |
| src/main/java/de/uniwue/info3/tablevisor/application/P4ControlApplication.java:128-182 | the replies to a flow-statistics request are counted against the device's table count, whatever number of list-rules calls the request issued | a device with two tables and a FLOW request for table 1: one call is issued, its one reply waits in the cache, and the controller is never answered | wait for as many replies as calls were issued | not executed | P4Control.SingleTableRequestWaitsForever | P4Control.SingleTableRequestAnswered |
| src/main/java/de/uniwue/info3/tablevisor/application/MultiSwitchApplication.java:712-723 | the hidden pipeline rule is recognised by comparing its IN_PORT with the next bigger device's dataplane id | devices 1, 2, 3 with the link from 3 arriving at 2 on port 7: the rule installed on 2 is reported to the controller | compare IN_PORT with the in-port of the link from the next bigger device, as initializePipeline installs it | not executed | MultiSwitch.PipelineRuleMissedAsWritten | MultiSwitch.PipelineRuleIsHidden |
