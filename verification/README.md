# Atlaso: verified models

Dafny models of four parts of Atlaso, with proofs about every input, every order of commands and every point at which a
run may stop.

**Source rules** (`atlaso/route_domains.py`). Each source address has an even-priority lookup and an odd-priority
unreachable guard in the kernel's policy rules; exemptions and a terminal guard follow. `PolicyRules` reads the rules
and defines first-match routing, `Scripts` runs phases of commands any of which may fail, `Allocation` plans slots and
`Placement` says which, `Kernel` and `Application` apply a plan, and `RuleSafety` proves what holds at every state met.
`Transition` models the guard, `Turns` runs of all writers in any order, each stopped anywhere, `Seeding` with
`TransitionSeeds`, `Migration` with `MigrationChoice` and `Reconcile` the writers themselves, each proved to make only
such turns. `SourceTables` resolves the inventory, and `Monitor` (with `Netlink`) shows that no change is lost;
`NetlinkFrames` is an encoder to compare the reader with.

**Cleanup** (`scripts/completed_task_cleanup.py`, `scripts/completed_task_files.py`). `Journal` models the gate records,
`CleanupProgram` the steps and their resumption, `CleanupLaw` what must come before each removal, gate and title
request, independent of the steps, `CleanupRun` the run itself, from its first start through any number of kills, in a
world that others may change, `CleanupBatch` several cleanups under one title, `Scopes` and `BatchScopes` what owning
tools may remove, and `TreeRemoval` the removal of a tree while others change it.

**Struck-through text** (`scripts/check_repo.py`). `Delimiters` proves that the jump table and lower bounds find the
pairs of a plain backward scan; `Strikethrough` carries that to the text that is left, and `PairingRules` shows that the
pairs are the only ones that follow the rules of CommonMark.

**Aliases** (`atlaso/diagnostics.py`). `AliasNames` models the markers, the choice of aliases and the replacement,
`Diagnostics` the registration of names and the rendering of a capture.

A command that changes the kernel, a destructive step of a cleanup and the removal of a file are atomic steps that may
fail, and the process may stop between any two. Sets whose iteration order the source leaves open are run in every
order. `dafny verify dfyconfig.toml` checks all files.

Assumptions of the models: a table lookup resolves in its table; identifiers of removed file objects need not be unique,
since the proofs use paths and handles; an object held by a handle cannot be moved, replaced or written by others; locks
serialise the writers of one kernel and the runs of one cleanup.

## Model

| member | source | states |
|---|---|---|
| `PolicyRules.CheckRow` | atlaso/route_domains.py:446-471 | accepts one in-range record exactly when it is a canonical record of the family: a lookup of a known table at an even priority or an unreachable guard at an odd one |
| `PolicyRules.OwnedRules` | atlaso/route_domains.py:434-472 | refuses a dump exactly when it has more than 16384 records, some record in the range is not canonical or a priority occurs twice; otherwise yields exactly the in-range rules |
| `PolicyRules.AcceptedIsShown` | atlaso/route_domains.py:446-471 | a record in the range is accepted exactly if it is how the kernel shows a canonical rule of the family; then its protocol is 2, its priority 5000 to 5999, its prefix that of a host and a lookup's table 100 or 200 |
| `PolicyRules.AdmittedRules` | atlaso/route_domains.py:434-472 | what is read is canonical, of the family asked for, with one rule a priority |
| `PolicyRules.DumpAdmitted` | atlaso/route_domains.py:434-472 | the dump of every consistent rule set is accepted |
| `PolicyRules.ReadBack` | atlaso/route_domains.py:434-472 | round trip: reading a dump yields exactly the rules that were dumped |
| `PolicyRules.OneLookup` | atlaso/route_domains.py:482-489 | in a consistent set a source has at most one lookup and at most one guard |
| `PolicyRules.RoutingIsDirect` | atlaso/route_domains.py:97-113 | first-match routing over the pairs of a source is its lookup, else its guard, else fall-through |
| `Addresses.UsableInNumbers` | atlaso/route_domains.py:116-130 | the usable addresses, in numbers for either family: none of the unspecified, multicast, link-local and loopback ranges |
| `Scripts.ScriptPrefix` | atlaso/route_domains.py:583-622 | after any prefix of any order of phased commands the next command is enabled and the state lies inside one phase |
| `Scripts.NeverAdded` | atlaso/route_domains.py:583-622 | an item that no phase adds is present later only if it was present earlier |
| `Scripts.NeverDeleted` | atlaso/route_domains.py:583-622 | an item that no phase deletes stays once it is present |
| `Scripts.StagedBetween` | atlaso/route_domains.py:583-622 | every state met while phases run lies inside some phase, between the stages before and after it |
| `Scripts.Device.Issue` | atlaso/route_domains.py:530-567 | one `ip` command: it may fail, unless the device is reliable, and a failed command may still have taken effect; nothing else changes |
| `Scripts.Device.Perform` | atlaso/route_domains.py:606-622 | one loop over a set of rules: what was issued is a prefix of some order of the phase, all of it on success |
| `Scripts.RunPhases` | atlaso/route_domains.py:606-622 | the loops one after another: what was issued is a prefix of a script; success, certain on a reliable device, ends in the final state |
| `Allocation.Indexed` | atlaso/route_domains.py:482-489 | in an unambiguous set the two dictionaries say of every rule where it is and whose slot it has |
| `Allocation.IndexRules` | atlaso/route_domains.py:482-489 | builds both dictionaries, or refuses exactly an ambiguous rule set |
| `Allocation.ScanIsFirst` | atlaso/route_domains.py:496-509 | the slot found is the first in wrapped probe order that the pass takes; none is found only if it takes none |
| `Allocation.FindSlot` | atlaso/route_domains.py:496-509 | finds the first slot from the hash, going round, that is free; only if none of the 500 is free, the first whose occupant is obsolete; none only if all have live occupants |
| `Allocation.PlaceSource` | atlaso/route_domains.py:492-510 | one source keeps its slot or takes the one found |
| `Allocation.AddPair` | atlaso/route_domains.py:511-513 | adds the guard of the slot and, if the source has a table, its lookup |
| `Allocation.PlanRules` | atlaso/route_domains.py:475-514 | computes the plan for any iteration order and hash, refusing ambiguity and exhausted capacity; what the plan is: see `Placement` and `PlanRealises` |
| `Placement.PlanIsGreedy` | atlaso/route_domains.py:490-513 | without naming the allocator: every new source sits at `5000 + 2 * ((hash + k) % 500)` for the least k whose place no rule in place and no rule of an earlier source has; if those hold every place, for the least k whose place no continuing and no earlier source has |
| `Placement.ReclaimsOnlyWhenFull` | atlaso/route_domains.py:496-509 | if a planned rule sits in the slot of an existing rule of another source, every even priority from 5000 to 5998 of the family is the slot of an existing or planned rule |
| `Placement.NewSourcesSitNear` | atlaso/route_domains.py:496-509 | a new source sits at `5000 + 2 * ((hash + k) % 500)` for some k below 500, and each nearer place is the slot of an existing or planned rule |
| `Allocation.RealisesMeans` | atlaso/route_domains.py:511-513 | a plan has a lookup of table t for exactly the sources that are given t, and an unreachable rule for exactly the sources |
| `Allocation.PlanRealises` | atlaso/route_domains.py:475-514 | a plan has exactly one guard, and its lookup if it has a table, for every source and nothing else; slots are injective a family; continuing sources keep theirs |
| `Allocation.RealisationUnique` | atlaso/route_domains.py:475-514 | two rule sets that give the same sources the same slots are equal |
| `Allocation.PlanFixedPoint` | atlaso/route_domains.py:475-514 | replanning a plan's own output, in any order and from any hash, returns it unchanged |
| `Allocation.NoChoiceMeansFull` | atlaso/route_domains.py:496-509 | no slot is found only when 500 other live sources of the family hold them all |
| `Allocation.PlanSucceeds` | atlaso/route_domains.py:496-509 | capacity is exhausted exactly when a family has more than 500 sources, whatever consistent rules are in place |
| `Allocation.ReservationHolds` | atlaso/route_domains.py:852-853 | a passed reservation rules out exhaustion for every later subset of the reserved sources, whatever consistent rules are then in place |
| `Kernel.KernelPrefix` | atlaso/route_domains.py:583-622 | after any prefix of the commands only the source pairs of the kernel have changed, as the same prefix of the plan's script says |
| `Kernel.LiftedBetween` | atlaso/route_domains.py:583-622 | while a plan is applied the pairs of the kernel are a state of the plan, and all other rules are untouched |
| `Kernel.PairsDecide` | atlaso/route_domains.py:38-45 | a source with a pair and no matching legacy selector goes where the pair sends it, before exemptions and terminal guard |
| `Application.LiveSlotNeverReclaimed` | atlaso/route_domains.py:597-603 | the refusal to reclaim a live slot cannot occur on a plan |
| `Application.ScriptReachesTarget` | atlaso/route_domains.py:583-622 | from any rules to any plan: every command of every order is enabled (no add of a present rule, no delete of an absent one) and the complete run ends with exactly the plan |
| `Application.MiddleConsistent` | atlaso/route_domains.py:583-622 | wherever the writer stops, priorities and lookups are unique and each source has one slot: it accepts that state when it starts again |
| `Application.ApplyRules` | atlaso/route_domains.py:583-622 | issues a prefix of such a run, all of it on success, ending with exactly the plan; fails only if a command does; refuses without a command exactly when a reclaimed rule belongs to a planned source |
| `RuleSafety.ScriptNeverDeletesDesired` | atlaso/route_domains.py:604-622 | no run deletes a planned rule |
| `RuleSafety.ScriptNeverAddsOther` | atlaso/route_domains.py:604-622 | the only lookups that a run adds are planned ones |
| `RuleSafety.AlwaysCovered` | atlaso/route_domains.py:583-622 | a source with rules before and after has a rule at every state met |
| `RuleSafety.OutcomeOnTheWay` | atlaso/route_domains.py:583-622 | such a source is at every state met where it was, blocked, or where it will be; it never falls through |
| `RuleSafety.NeverBack` | atlaso/route_domains.py:583-622 | once a source has left its old table it does not return to it |
| `RuleSafety.NeverLost` | atlaso/route_domains.py:583-622 | once a source has reached its new outcome it stays there |
| `RuleSafety.LookupsStayGuarded` | atlaso/route_domains.py:608-622 | if every lookup had its guard, no state met has a lookup without one |
| `RuleSafety.OutcomesMoveForward` | atlaso/route_domains.py:583-622 | between any two points of a run: what has left its first outcome does not return to it, and what has reached its last outcome keeps it |
| `RuleSafety.RoutesMoveForward` | atlaso/route_domains.py:583-622 | the same of the kernel itself: a packet of a continuing source without a matching selector is looked up where it went first, unreachable, or where it goes last, and moves only forward between any two commands |
| `Transition.EnableOnTheWay` | atlaso/route_domains.py:1072-1088 | enabling only adds, the terminal guard first; it is enabled from, and converges from, any partial set |
| `Transition.DisableOnTheWay` | atlaso/route_domains.py:1076-1090 | disabling removes only rules of the guard, and the terminal guard last |
| `Transition.SetGuard` | atlaso/route_domains.py:1059-1090 | issues a prefix of those commands; success leaves all rules of the guard, or none, and nothing else changed; unreadable source rules of the family are refused without a command, and otherwise only a failing command prevents success |
| `Transition.NeverMain` | atlaso/route_domains.py:41-45 | behind the terminal guard a usable source with a destination that is not link-local reaches neither the main table nor the end of the owned priorities, whatever else is installed |
| `Transition.GuardDecides` | atlaso/route_domains.py:38-45 | in numbers for either family: with the guard on, and no pair or selector of its own, a packet reaches main exactly if its source is unspecified, link-local or loopback or its destination link-local, and is unreachable otherwise |
| `Turns.TurnKeeps` | atlaso/route_domains.py:583-1112 | one move of any writer (guard on or off, plan, transition seeds, selector removal), stopped anywhere, keeps exemptions under the guard and, unless it disables, the guard itself |
| `Turns.RunsStaySheltered` | atlaso/route_domains.py:583-1112 | through any interleaving of all five writers, each stopped anywhere, exemptions are present only while the guard is |
| `Turns.RunsKeepTerminal` | atlaso/route_domains.py:583-1112 | the guard stays through any such run that does not disable it |
| `Turns.GuardHoldsOverRuns` | atlaso/route_domains.py:583-1112 | at any point of any such run no usable source, also one that has just appeared, reaches main for a destination that is not link-local |
| `Turns.TurnKeepsConsistent` | atlaso/route_domains.py:583-1112 | one move of any writer, stopped anywhere, leaves priorities and lookups unique and one slot a source |
| `Turns.RunKeepsConsistent` | atlaso/route_domains.py:434-1112 | consistency is an invariant of every run of all writers, each stopped anywhere |
| `Turns.CrashConvergence` | atlaso/route_domains.py:434-1112 | after any run of stopped writers the dump is accepted and read back, any sources that fit are planned, and applying that plan ends with exactly its rules |
| `Turns.EnableOne` | atlaso/route_domains.py:1059-1090 | turning one guard on is such a move: pairs stay, and unreadable source rules are refused without a command |
| `Turns.GuardBoth` | atlaso/route_domains.py:1096-1103 | turns on both guards without touching a source rule, and refuses only unreadable rules; what it did is a run of moves |
| `Reconcile.CloseOver` | atlaso/route_domains.py:1104-1111 | the dictionary update for an incomplete inventory computes `FailClosed` |
| `Reconcile.KeptTable` | atlaso/route_domains.py:1104-1111 | under an incomplete inventory a known source keeps its previous table or is blocked |
| `Reconcile.EffectiveRules` | atlaso/route_domains.py:1104-1112 | the rules planned, source by source: a lookup for exactly the tables given, but with an incomplete inventory a known source only where a rule in place already looked it up; a guard for exactly the sources and, with an incomplete inventory, all known ones |
| `Reconcile.IncompleteIsFailClosed` | atlaso/route_domains.py:1093-1112 | at every state met: no guard is removed, no slot is reclaimed, and every known source keeps its table or is blocked |
| `Reconcile.SafeWhenStopped` | atlaso/route_domains.py:1093-1112 | wherever the plan of the effective sources is stopped the rules are safe in that sense |
| `Reconcile.ApplyPlan` | atlaso/route_domains.py:1112-1114 | applies the plan behind the guards; ends quarantined exactly if the inventory is incomplete or a source is blocked, and stopped only if a command fails |
| `Reconcile.RunReconcile` | atlaso/route_domains.py:1093-1114 | whatever command fails the rules left are safe and were reached by planned moves; inconsistent rules and sources that do not fit are refused, nothing else is, and then the source rules stay as they were; the other endings leave exactly the rules of the effective sources behind both guards, which are then all in place; success needs a complete inventory without blocked sources; without a failing command it does not stop |
| `Seeding.ReadTables` | atlaso/route_domains.py:998-1003 | the tables of the rules in place: lookups first, sources with a guard only as blocked |
| `Seeding.Overlay` | atlaso/route_domains.py:1004-1007 | overlays the seeds; a disagreement with a rule in place is a conflict |
| `Seeding.TablesInPlace` | atlaso/route_domains.py:998-1003 | a source has the table that a lookup in place names, and none if it has a guard only |
| `Seeding.AgreesMeans` | atlaso/route_domains.py:1004-1007 | seeds agree exactly if every seeded source with a rule in place has a lookup of the seeded table |
| `Seeding.SeededRulesMean` | atlaso/route_domains.py:998-1008 | the plan looks up every seed in its table and every other source with rules where it was, and guards all of them |
| `Seeding.SeededPlanExtends` | atlaso/route_domains.py:998-1008 | a plan for the seeded tables contains every rule in place |
| `Seeding.LookupsPrecedeGuards` | atlaso/route_domains.py:928-1012 | at every state met rules in place stay, and a guard or terminal rule is added only when every planned lookup of both families is in |
| `Seeding.OnlyAdds` | atlaso/route_domains.py:928-1056 | turning the guard on removes nothing and adds only planned pairs and rules of the guard |
| `Seeding.SeededNeverBlocked` | atlaso/route_domains.py:928-1056 | starting without the terminal guard, no seeded source is unreachable at any state met |
| `Seeding.IssueSeeds` | atlaso/route_domains.py:1009-1012 | issues lookups of both families, then guards; what was issued is on the way |
| `Seeding.StartTransition` | atlaso/route_domains.py:996-1012 | conflict exactly if a seed disagrees with consistent rules in place; refusal exactly if those are inconsistent or the sources do not fit; both leave the kernel untouched; otherwise planned moves lead on the way to a plan of the seeds whatever fails, and without a failing command it ends with every planned pair and both guards |
| `TransitionSeeds.CollectOwners` | atlaso/route_domains.py:956-972 | for admitted bindings and links: refuses exactly, unless absence is allowed, a binding whose link is missing or has another hardware address; otherwise yields each owner whose link is there once |
| `TransitionSeeds.NeverIncomplete` | atlaso/route_domains.py:974-978 | the refusal of an incomplete inventory cannot occur for owners collected this way |
| `TransitionSeeds.CountAppearances` | atlaso/route_domains.py:981-995 | counts every assignment of the address that has not expired, also a tentative one |
| `TransitionSeeds.CheckSources` | atlaso/route_domains.py:979-995 | passes exactly if every source has a table and appears once |
| `TransitionSeeds.AppearancesArePositions` | atlaso/route_domains.py:981-995 | the appearances of an address are the places in the inventory that show it and have not expired |
| `TransitionSeeds.SeedsMean` | atlaso/route_domains.py:956-980 | an address is given a table by the resolution of the previous owners exactly if a link that a binding names has it and its hold, or else the binding, says that table |
| `TransitionSeeds.SeedableMeans` | atlaso/route_domains.py:979-995 | the check of the resolution passes exactly if every address of a bound link is shown once |
| `TransitionSeeds.DeriveSeeds` | atlaso/route_domains.py:938-995 | refuses exactly more than 256, unknown or repeated bindings, an ambiguous inventory, missing owners unless allowed, and an address of a bound link that is shown more than once; otherwise the seeds are exactly the addresses of links that a binding names, by hardware address too if pinned, each in the table of its hold or else of the binding |
| `TransitionSeeds.SeedIsCarried` | atlaso/route_domains.py:938-995 | every seed is carried by exactly one link, once, and that link has the name and, if pinned, the hardware address of a binding |
| `TransitionSeeds.StartPrevious` | atlaso/route_domains.py:1033-1056 | from previous bindings to both guards: without bindings only the guards are set; refusals are exact and leave the kernel untouched; otherwise planned moves lead on the way to a plan of the derived seeds |
| `MigrationChoice.AdmitSelectors` | atlaso/route_domains.py:642-669 | admits at most 400 journaled selectors exactly when each has priority 1000 to 1099 with table 100 or 2000 to 2099 with table 200, a known protocol and a proper network, and no priority occurs twice in a family |
| `MigrationChoice.Survey` | atlaso/route_domains.py:680-709 | refuses exactly an oversized or ambiguous inventory and a live address that cannot be read; otherwise yields the live addresses of all links with the binding of their link; what that decides is written out in `Acceptable` and `Decides` |
| `MigrationChoice.LiveIsCarried` | atlaso/route_domains.py:690-709 | every address surveyed is a live address of a link and has the binding of that link |
| `MigrationChoice.CarriedIsLive` | atlaso/route_domains.py:690-709 | every live address of every link is surveyed |
| `MigrationChoice.ChooseTable` | atlaso/route_domains.py:710-734 | one address: uncovered, given its preferred table, or refused exactly if that is not provable |
| `MigrationChoice.ChooseTables` | atlaso/route_domains.py:684-735 | gives every covered live address the rule in place, else the binding, else the only match; refuses exactly if one is unusable, occurs twice, is bound to a replaced link, has no matching table, disagrees with a rule in place or is unknown to an active watcher |
| `MigrationChoice.PreferredIsDecided` | atlaso/route_domains.py:715-729 | the preferred table is that of the lookup in place, else that of the binding of the link's name, else the only table among the selectors that cover the address |
| `MigrationChoice.ChoiceFollowsRules` | atlaso/route_domains.py:684-735 | survey and choice pass exactly if, in terms of links, bindings, selectors and rules in place, every covered live address is shown once, its link has the bound hardware address, and its decided table is one of those matched and in conflict with no rule in place |
| `MigrationChoice.ChosenIsDecided` | atlaso/route_domains.py:715-735 | the tables chosen are those decided, for exactly the covered live addresses, and every link that shows one has the hardware address bound to its name |
| `MigrationChoice.CoveredIsShown` | atlaso/route_domains.py:690-714 | the addresses chosen for are those of live entries inside a selector's network |
| `Migration.DecideTables` | atlaso/route_domains.py:680-735 | the tables of all covered live addresses, or a refusal exactly when the written-out rules are not met |
| `Migration.PlanMigration` | atlaso/route_domains.py:680-736 | the plan, or a refusal exactly when rules in place are inconsistent, a table is not decided or the sources do not fit |
| `Migration.ExtendingOnlyAdds` | atlaso/route_domains.py:736 | applying a plan that contains the rules in place only adds |
| `Migration.MigrationOnlyAdds` | atlaso/route_domains.py:736-739 | no owned rule is deleted on the way, and the planned rules are all in before the first selector goes |
| `Migration.SelectorDecides` | atlaso/route_domains.py:625-739 | while a selector that covers a packet is left it decides, by one of the tables matched |
| `Migration.MigrationKeepsRoute` | atlaso/route_domains.py:625-739 | at every state met a packet of a live address that a selector covered is looked up in a table that its selectors name; it is never blocked and never falls through |
| `Migration.MigrationKeepsTable` | atlaso/route_domains.py:625-739 | if its selectors name one table, that table is used at every state met |
| `Migration.DeleteSelectors` | atlaso/route_domains.py:737-739 | deletes the selectors one by one; what is left is on the way and was reached by one move; succeeds if all are there and no command fails |
| `Migration.ReplaceSelectors` | atlaso/route_domains.py:736-739 | new rules first, then the selectors; every state left is on the way |
| `Migration.Migrate` | atlaso/route_domains.py:625-739 | refuses exactly what is not admitted, acceptable by the written-out rules, consistent and within capacity, and then leaves the kernel untouched; otherwise every covered live address is on a link with the bound hardware address and has the table of its lookup in place, else of the binding, else of all its selectors, and planned moves lead on the way whatever fails; on success, certain if the selectors are there and no command fails, the selectors are gone and the planned rules in place |
| `SourceTables.ReadLinks` | atlaso/route_domains.py:210-241 | a view for every link name and, for every usable address, the links that carry it; refuses an ambiguous or oversized inventory |
| `SourceTables.OwnTable` | atlaso/route_domains.py:253-261 | the table of one address of one owner: its hold if the hardware address agrees, else the applied table |
| `SourceTables.CollectClaims` | atlaso/route_domains.py:242-261 | collects exactly the claims of owners whose link is present; an owner without its link makes the inventory incomplete |
| `SourceTables.Settle` | atlaso/route_domains.py:262-265 | one claim and one carrier give a table; anything else blocks the source |
| `SourceTables.SourceTablesOf` | atlaso/route_domains.py:203-265 | refuses exactly more than 4096 links or entries and repeated names; otherwise a source has the table t exactly if links of one name have it and all that is given for it, by a hold of its owner or else by the interface with that name and hardware address, is t; and whether some owner's link is missing |
| `SourceTables.ResolutionMeans` | atlaso/route_domains.py:242-265 | the resolution by claims and carriers is exactly that meaning in terms of links, entries, interfaces and holds |
| `SourceTables.IncompleteMeans` | atlaso/route_domains.py:242-252 | incomplete exactly if the link of some interface or hold is missing |
| `SourceTables.ResolutionUnique` | atlaso/route_domains.py:203-265 | the sets of links and intent rows determine the result |
| `SourceTables.OrderIrrelevant` | atlaso/route_domains.py:203-265 | the order of links, addresses and intent rows makes no difference |
| `SourceTables.TableMeansOwned` | atlaso/route_domains.py:242-265 | a table is given only to a source that exactly one link carries, whose name and hardware address are those of an owner that gives the source this table |
| `SourceTables.ResolutionIsValid` | atlaso/route_domains.py:203-265 | what is resolved is fit for planning |
| `SourceTables.HoldLink` | atlaso/route_domains.py:302-326 | the proven holds of every address of one removed link; refused exactly when it has no owner or an address is not in that owner's table |
| `SourceTables.RemovedHolds` | atlaso/route_domains.py:268-327 | yields a hold for exactly the addresses of removed links that are not guard-only, in the table of their owner; refuses exactly more than 256 names, an inventory that is not admitted, a missing link of a row that stays, an address with several tables or links, or a removed link without an owner for all its addresses |
| `SourceTables.RemovalMeans` | atlaso/route_domains.py:268-327 | the same condition in terms of links and intent rows alone |
| `SourceTables.HoldsKeepTables` | atlaso/route_domains.py:268-327 | replacing removed interfaces by their holds changes no table, whatever the rest of the new intent says |
| `Netlink.EventRequiresRescan` | atlaso/route_domains.py:1117-1136 | ends on every datagram, and returns false exactly when it splits completely into messages of declared length at least 16 none of which is an error, overrun, link or address message |
| `Netlink.SplitContinues` | atlaso/route_domains.py:1126-1136 | any split of the datagram starts with the messages read so far and goes on where the next is due |
| `NetlinkFrames.DatagramSkipped` | atlaso/route_domains.py:1117-1136 | against an encoder: a datagram of framed messages is skipped exactly if none is of kind 2, 4, 16, 17, 20 or 21 |
| `NetlinkFrames.BrokenNotSkipped` | atlaso/route_domains.py:1123-1136 | framed messages followed by a header too short or a length that does not fit are not skipped |
| `Monitor.AnnouncementNotSkipped` | atlaso/route_domains.py:1117-1136 | a datagram that is truncated or holds an announcement, also before a malformed tail, is never skipped |
| `Monitor.NextNoticed` | atlaso/route_domains.py:1139-1167 | every step of kernel, queue and monitor keeps each change reconciled, announced in the queue (truncated or not), or due for a rescan |
| `Monitor.RunNoticed` | atlaso/route_domains.py:1139-1167 | so does every run |
| `Monitor.NoLostChange` | atlaso/route_domains.py:1139-1167 | whenever the monitor waits with its queue drained, every change so far precedes the start of its last reconciliation, also after truncated or dropped announcements and restarts |
| `Delimiters.PairsNest` | scripts/check_repo.py:4815-4873 | the pairs of the plain scan never cross and no delimiter is used twice |
| `Delimiters.ScanAgrees` | scripts/check_repo.py:4838-4873 | a jump scan below the header finds the same opener as the plain scan, or nothing exactly when it finds nothing |
| `Delimiters.BoundsGrow` | scripts/check_repo.py:4835-4873 | lower bounds stay valid as pairs are added |
| `Delimiters.TablesMatch` | scripts/check_repo.py:4855-4868 | recording a match keeps the jump table, the open and close flags and the pairing right |
| `Delimiters.ScanBack` | scripts/check_repo.py:4840-4871 | the inner loop ends, and finds the nearest eligible opener above the lower bound or passes only dead delimiters; which opener that is: see `PairingRules` |
| `Delimiters.RecordMatch` | scripts/check_repo.py:4855-4870 | writes the match into the four tables and nothing else |
| `Delimiters.CloseOne` | scripts/check_repo.py:4833-4873 | one closer: the tables and bounds then describe the plain pairing with one closer more |
| `Delimiters.MatchScope` | scripts/check_repo.py:4820-4873 | the jump table and lower bounds find exactly the pairs of the plain backward scan, which are the only pairs that follow the rules of `PairingRules` |
| `PairingRules.PlainFollows` | scripts/check_repo.py:4838-4873 | the pairs follow the rules of section 6.2 of CommonMark 0.31.2 written out: same marker, an opener before a closer, the sum of lengths no multiple of three if one can both open and close unless both are, pairs nested; and a closer with a free fitting opener is paired, with the nearest one |
| `PairingRules.OnlyPlainFollows` | scripts/check_repo.py:4838-4873 | no other pairing follows those rules |
| `PairingRules.ReferenceFollows` | scripts/check_repo.py:4815-4873 | so does the pairing of a whole text, scope by scope |
| `PairingRules.OnlyReferenceFollows` | scripts/check_repo.py:4815-4873 | and no other |
| `Strikethrough.GroupScopes` | scripts/check_repo.py:4816-4818 | groups the delimiters by scope, in order |
| `Strikethrough.MatchAll` | scripts/check_repo.py:4815-4873 | every scope is paired on its own |
| `Strikethrough.MatchedIsPairing` | scripts/check_repo.py:4815-4873 | the table of the whole text is exactly the reference pairing, whose pairs join openers and closers of one scope |
| `Strikethrough.CollectIntervals` | scripts/check_repo.py:4875-4882 | the spans of exactly the tilde pairs, sorted |
| `Strikethrough.Merge` | scripts/check_repo.py:4883-4889 | separate intervals that cover the same positions |
| `Strikethrough.Blank` | scripts/check_repo.py:4891-4904 | keeps every position outside the intervals and every line break inside |
| `Strikethrough.StripDeleted` | scripts/check_repo.py:4815-4904 | the whole pass removes exactly the text that the reference pairing strikes through and keeps every line break |
| `PairingRules.StrippedText` | scripts/check_repo.py:4815-4904 | what is left of a text, for any pairing that follows the rules: exactly the positions outside every pair of tildes, and the line breaks, in order |
| `Journal.RestoreGates` | scripts/completed_task_cleanup.py:213-243 | refuses exactly when a write is pending, there are more than 1000 records or two histories conflict, in that order; otherwise yields the longest history, for any listing order |
| `Journal.ChainGrows` | scripts/completed_task_cleanup.py:593-638 | recording a new gate keeps the records a strict prefix chain |
| `Journal.ChainPrefixes` | scripts/completed_task_cleanup.py:593-638 | older records are prefixes of newer ones |
| `Journal.ChainRestores` | scripts/completed_task_cleanup.py:213-243 | what a chain leaves in the directory is restored as its last record |
| `Journal.JournalStaysRecoverable` | scripts/completed_task_cleanup.py:199-200 | with at most 100 resources the journal stays below the number of records that recovery refuses |
| `CleanupProgram.RunResumes` | scripts/completed_task_cleanup.py:739-921 | killed after any number of actions, a run from the first step does exactly the actions that are left |
| `CleanupProgram.SoundNext` | scripts/completed_task_cleanup.py:453-495 | every action of the first undone step keeps refs, journal and steps aligned |
| `CleanupProgram.SoundPassesChecks` | scripts/completed_task_cleanup.py:453-495 | aligned state passes every live-state check, so an undisturbed run is not refused |
| `CleanupProgram.SoundThroughout` | scripts/completed_task_cleanup.py:739-921 | the alignment holds at every point of an undisturbed run |
| `CleanupProgram.CompleteMeansGone` | scripts/completed_task_cleanup.py:851-921 | a complete run has left no resource, no remote ref, no worktree and no local ref, and the final title if it is to be set |
| `CleanupProgram.CompleteMeansRecorded` | scripts/completed_task_cleanup.py:851-921 | and has recorded the ancestry and release of every resource, the absence of both refs and the worktree, and its end |
| `CleanupProgram.RunSparesOthers` | scripts/completed_task_cleanup.py:851-921 | at every point a run has changed no resource of another handoff, and a member of a batch leaves the title as it was |
| `CleanupProgram.ResumedRunsAgree` | scripts/completed_task_cleanup.py:841-921 | killed any number of times, the last run passes every check and ends in the same world with the same journal as one undisturbed run |
| `CleanupProgram.WriteAhead` | scripts/completed_task_cleanup.py:804-900 | written out for each kind: a resource goes with its prepared gate, all ancestry gates and the release of earlier ones recorded; the remote ref with the release of all recorded and while it is the recorded head; the worktree with the remote ref gone and its absence recorded; the local ref while it is the head, with remote ref and worktree gone |
| `CleanupLaw.RemovalsInOrder` | scripts/completed_task_cleanup.py:774-900 | in a lawful log every destructive command met a journal with its prepared gate and all gates that come before: ancestry of all resources, release of all before a ref or worktree, absence of the remote ref before worktree and local ref |
| `CleanupLaw.LocalStatePasses` | scripts/completed_task_cleanup.py:453-495 | a state that passes the local checks has, written out, refs at the recorded head, nothing back that is recorded as gone, and an allowed title |
| `CleanupProgram.FreshIsSound` | scripts/completed_task_cleanup.py:453-495 | a world with intact refs and an empty journal is aligned: every run has a first state |
| `CleanupProgram.ScriptKeepsEnd` | scripts/completed_task_cleanup.py:841-921 | at every point of a run the remaining script ends where the whole script ends |
| `CleanupRun.Machine.Interfere` | scripts/completed_task_cleanup.py:453-495 | others may change the world at any time; what is recorded and issued stays |
| `CleanupRun.Machine.constructor` | scripts/completed_task_cleanup.py:841-849 | a cleanup with an empty journal, and intact refs in an undisturbed world, satisfies every invariant |
| `CleanupRun.Machine.Eligible` | scripts/completed_task_cleanup.py:376-387 | passes only in a live state that agrees with the journal: no remote ref, local ref or worktree that is recorded as gone, and an allowed title, the final one if the batch has read it back; always passes undisturbed |
| `CleanupRun.Machine.Publish` | scripts/completed_task_cleanup.py:593-638 | the journal grows by the one gate or not at all, wherever the process is killed |
| `CleanupRun.Machine.NoteStep` | scripts/completed_task_cleanup.py:593-638 | records the gate of the step unless recorded, and moves on |
| `CleanupRun.Machine.Prepare` | scripts/completed_task_cleanup.py:804-824 | the prepared gate is durable before the command |
| `CleanupRun.Machine.RemovePiece` | scripts/completed_task_cleanup.py:867-898 | one destructive command, recorded with the world and journal that it met; a ref goes only if it still is the recorded head |
| `CleanupRun.Machine.DestroyStep` | scripts/completed_task_cleanup.py:867-898 | prepares, removes and verifies absence |
| `CleanupRun.Machine.ReleaseResource` | scripts/completed_task_cleanup.py:774-832 | releases one resource unless the journal has it released |
| `CleanupRun.Machine.ReleaseResources` | scripts/completed_task_cleanup.py:774-839 | releases every resource and records that none is left |
| `CleanupRun.Machine.RemoveRefs` | scripts/completed_task_cleanup.py:867-900 | remote ref, worktree, local ref, in that order, each with its gate; every step is accounted for by the law of the log, which does not refer to the program |
| `CleanupRun.Machine.RequestTitle` | scripts/completed_task_cleanup.py:905-906 | asks for the title on every run, also when an earlier run has asked, and only after a check that found every removal recorded |
| `CleanupRun.Machine.FinishTitle` | scripts/completed_task_cleanup.py:901-921 | requests the title, also again on resumption, reads it back and records it, or leaves it to the batch |
| `CleanupRun.Machine.Reconcile` | scripts/completed_task_cleanup.py:851-921 | however the run ends, whatever others do and wherever it is killed, the log of all runs is lawful: each destruction, gate and title request had the checks, observations and gates that the law asks for, and each gate in the journal has its entry; on completion all removals and the end are recorded; undisturbed it is never refused, and when it completes it has ended where one run from the very first state ends |
| `CleanupRun.Machine.Restart` | scripts/completed_task_cleanup.py:841-849 | a new run restores the last published gates from the files in any order, is refused exactly on a pending write, and ends where the first run would have ended |
| `CleanupRun.Machine.RecordBatchGate` | scripts/completed_task_cleanup.py:1079-1088 | records a gate of the batch in a member that has gone through its program, at most once |
| `CleanupRun.Attempt` | scripts/completed_task_cleanup.py:841-849 | one attempt keeps every invariant; undisturbed it completes where the first run would have, or is refused only on a pending write |
| `CleanupRun.RunAttempts` | scripts/completed_task_cleanup.py:841-921 | a cleanup from its beginning, killed any number of times anywhere, ends undisturbed in the same world with the same journal as one run from the first state |
| `CleanupBatch.FinishedHasRequired` | scripts/completed_task_cleanup.py:1067-1070 | a member that has gone through its program has the four required gates, so that check refuses no finished member |
| `CleanupBatch.EarnedKept` | scripts/completed_task_cleanup.py:1053-1088 | a member's own gates never make an unearned done mark |
| `CleanupBatch.SettledKept` | scripts/completed_task_cleanup.py:382-385 | a member's own gates never claim that the batch title was read back |
| `CleanupBatch.NewBatch` | scripts/completed_task_cleanup.py:925-991 | the members of a batch that has not begun satisfy the invariant of the batch |
| `CleanupBatch.BeginBatch` | scripts/completed_task_cleanup.py:1053-1060 | every member restores its gates and learns from the first journal whether the title was read back; refused exactly on a pending write |
| `CleanupBatch.Preflight` | scripts/completed_task_cleanup.py:1007-1051 | checks every member and changes no undisturbed world; passing means that each member's check is as recent as its journal; passes when all are undisturbed |
| `CleanupBatch.RunMember` | scripts/completed_task_cleanup.py:1062-1064 | one member runs, no other is touched, done mark and title mark stay earned, and it is not refused undisturbed |
| `CleanupBatch.RestoreAll` | scripts/completed_task_cleanup.py:1055-1060 | every member restores its gates and no journal changes; refused exactly on a pending write of some member |
| `CleanupBatch.RunMembers` | scripts/completed_task_cleanup.py:1061-1064 | the members run in turn, each after a check of all; the marks stay earned wherever that stops |
| `CleanupBatch.FinishBatch` | scripts/completed_task_cleanup.py:1065-1088 | checks every member again, then sets the title and marks the batch done only after the check of every member's gates, which refuses no finished member |
| `CleanupBatch.SettleTitle` | scripts/completed_task_cleanup.py:1072-1085 | with every member freshly checked: sets or verifies the title and records that it was read back, or that titles are unavailable |
| `CleanupBatch.SetTitle` | scripts/completed_task_cleanup.py:1072-1085 | asks for the aggregate title, or only verifies it if it was read back before; completes only if every undisturbed member shows it |
| `CleanupBatch.RecordGate` | scripts/completed_task_cleanup.py:1079-1088 | records a gate of the batch in the first journal; wherever it is killed the invariant of the batch holds |
| `CleanupBatch.MarkDone` | scripts/completed_task_cleanup.py:1087-1088 | a last check of all members, then the mark |
| `CleanupBatch.RunBatch` | scripts/completed_task_cleanup.py:1053-1088 | over all resumed and killed runs the done mark is in the journal only if every member's journal has its resources released, both refs absent and its worktree removed, and the read-back mark, or a done mark without proof that titles are unavailable, only if every undisturbed member shows the final title; completion means the done mark is there, with the read-back mark if titles can be set; undisturbed and without a pending write the batch is not refused |
| `Scopes.ProtectedPaths` | scripts/completed_task_cleanup.py:581-585 | exactly the checkouts, evidence, handoff, configuration, all ownership manifests and all other resources |
| `Scopes.RemovalScopes` | scripts/completed_task_cleanup.py:571-591 | accepts exactly, written out, at most 100 ordinary scopes (no link on the way and, on Windows, no reserved, short or unnormalised name) beneath the root none of which leads to a checkout, the evidence, handoff or configuration, a manifest or another resource, and some scope for a resource with a path |
| `Scopes.InventoryScopes` | scripts/completed_task_cleanup.py:640-651 | accepts exactly an inventory whose resources have clear scopes and whose scopes are incomparable across resources |
| `Scopes.ProtectedSurvive` | scripts/completed_task_cleanup.py:571-591 | whatever resources have been released, in any order, a path protected from them is still there with everything that leads to it |
| `Scopes.NamedPathsSurvive` | scripts/completed_task_cleanup.py:581-585 | by name: both checkouts, evidence, handoff, configuration, every manifest and the path of every resource not released are still there after any releases |
| `Scopes.OutsideSurvives` | scripts/completed_task_cleanup.py:571-591 | nothing is removed that does not lie beneath the configured root |
| `Scopes.OthersSurvive` | scripts/completed_task_cleanup.py:640-651 | and so is everything in, and leading to, a scope of a resource not released |
| `Scopes.ReleaseRemoves` | scripts/completed_task_cleanup.py:571-591 | nothing in a released scope is left, and nothing new appears |
| `BatchScopes.KeptPaths` | scripts/completed_task_cleanup.py:1024-1029 | exactly the state that the batch keeps and every member's worktree, handoff, evidence and manifests |
| `BatchScopes.CheckScope` | scripts/completed_task_cleanup.py:1034-1039 | accepts a scope exactly if it leads to nothing kept, lies in no peer's worktree and is incomparable with all earlier scopes |
| `BatchScopes.PreflightScopes` | scripts/completed_task_cleanup.py:1024-1041 | accepts exactly batches whose inventories are separated, whose scopes are harmless, and whose scopes are pairwise incomparable across all members |
| `BatchScopes.KeptSurvive` | scripts/completed_task_cleanup.py:1024-1041 | whatever members have released, in any order, all kept state is still there with everything that leads to it |
| `BatchScopes.NamedPathsSurvive` | scripts/completed_task_cleanup.py:1024-1029 | by name: the batch's handoff and evidence, checkout, configuration, and every member's worktree, handoff, evidence and manifests |
| `BatchScopes.UnreleasedSurvive` | scripts/completed_task_cleanup.py:1024-1041 | a resource not released, of any member, keeps everything in its scopes |
| `BatchScopes.PeerWorktreeSurvives` | scripts/completed_task_cleanup.py:1034-1039 | the worktree of a member that has released nothing is untouched |
| `TreeRemoval.SortByDepth` | scripts/completed_task_files.py:330 | every recorded path once, deepest first |
| `TreeRemoval.PrefixPresent` | scripts/completed_task_files.py:334-338 | every ancestor of an entry is there and is a plain directory, so an unexpected entry keeps its ancestors |
| `TreeRemoval.NoRootNoTree` | scripts/completed_task_files.py:339-342 | without the root nothing is left |
| `TreeRemoval.Volume.constructor` | scripts/completed_task_files.py:320-330 | any shaped tree, whatever the snapshot recorded, is a volume to start a removal from |
| `TreeRemoval.Volume.Interfere` | scripts/completed_task_files.py:198-230 | others change anything but held objects; with others only adding, every object outside the snapshot stays |
| `TreeRemoval.Volume.Pin` | scripts/completed_task_files.py:198-230 | opens only an object of the expected kind, never a file with a second link; alone, exactly such objects |
| `TreeRemoval.Volume.Dispose` | scripts/completed_task_files.py:382-390 | removes only a recorded object without children; otherwise nothing changes |
| `TreeRemoval.Volume.Visit` | scripts/completed_task_files.py:294-314 | alone, records exactly the object and everything below it, and fails only if the tree is beyond the limits or holds an ineligible object |
| `TreeRemoval.Volume.TakeSnapshot` | scripts/completed_task_files.py:286-318 | alone, succeeds exactly on a tree of at most 50000 entries and depth 128 without shared files and with links only where they are allowed and stay inside, and records it whole |
| `TreeRemoval.Volume.RemoveEntry` | scripts/completed_task_files.py:330-342 | removes at most the recorded object at the path: a file only unshared and equal to its record, stamp included, a directory with the recorded identity; succeeds only if nothing is there afterwards |
| `TreeRemoval.Volume.RemoveEntries` | scripts/completed_task_files.py:320-342 | children before directories; success leaves nothing |
| `TreeRemoval.Volume.PinAll` | scripts/completed_task_files.py:351-363 | success holds every recorded object, each as recorded, stamps included |
| `TreeRemoval.Volume.DisposeAll` | scripts/completed_task_files.py:365-371 | at every removal all objects still to go are as recorded |
| `TreeRemoval.Volume.RemovePinned` | scripts/completed_task_files.py:344-371 | verifies every object before removing any: if one is removed all had been opened and found as recorded |
| `TreeRemoval.Volume.Remove` | scripts/completed_task_files.py:320-342 | whatever others do only recorded objects without children go, children first, each file unshared and equal to its record, stamp included, each directory with its recorded identity, and success leaves nothing; with others only adding, every unexpected object stays and blocks success; alone it succeeds exactly on an unchanged tree, and then no file was shared |
| `Decimals.PaddedRead` | atlaso/diagnostics.py:286-289 | the four-digit format loses no number |
| `AliasNames.CandidatesDiffer` | atlaso/diagnostics.py:286-289 | aliases of different kinds or numbers differ |
| `AliasNames.NormMeans` | atlaso/diagnostics.py:269 | names are compared without exactly the dots at their end and with A to Z as a to z |
| `AliasNames.ChoiceIsUnique` | atlaso/diagnostics.py:282-290 | the numbers chosen depend on the registered names alone |
| `AliasNames.AliasesAreFresh` | atlaso/diagnostics.py:282-290 | aliases are pairwise distinct and differ from every registered name without case and trailing dots |
| `AliasNames.NextFree` | atlaso/diagnostics.py:285-289 | the search loop ends, at the least later number whose alias is not reserved |
| `AliasNames.Choose` | atlaso/diagnostics.py:282-291 | every name gets that number, and with n names no number exceeds 2n |
| `AliasNames.MarkerMatches` | atlaso/diagnostics.py:292 | the pattern matches a quoted marker whole, whatever follows |
| `AliasNames.MatchMeans` | atlaso/diagnostics.py:292 | the pattern matches n characters exactly if these are a quote, the stem, at least one digit, an at sign and a quote |
| `AliasNames.CleanStart` | atlaso/diagnostics.py:292 | no match starts in text without a complete quoted marker, whatever follows it |
| `AliasNames.RenderingRenames` | atlaso/diagnostics.py:292 | rendering replaces exactly the quoted markers of registered names by their aliases and leaves other markers and all other text, whatever quotes and prefixes of markers it has |
| `AliasNames.RenderingShrinks` | atlaso/diagnostics.py:292 | rendering does not lengthen a file if no alias is longer than its marker |
| `AliasNames.AliasFits` | atlaso/diagnostics.py:286-292 | an alias is no longer than its marker exactly if its number has at most ten digits more than that of the marker for a host, fourteen for a user |
| `AliasNames.AliasFitsMarker` | atlaso/diagnostics.py:286-292 | numbers up to twice 10^10 give aliases no longer than any marker |
| `Diagnostics.RenderingIsUnique` | atlaso/diagnostics.py:276-292 | rendering has one result for given names, so an identity has the same alias in every file |
| `Diagnostics.RenderedFile` | atlaso/diagnostics.py:276-292 | a rendered file has its text and unregistered markers unchanged and, for every name, an alias that no name of the capture and no other alias equals |
| `Diagnostics.Collect` | atlaso/diagnostics.py:985-990 | keeps exactly the sources of at most 262144 characters with which the total stays within 8388608, and both limits hold |
| `Diagnostics.LimitsKept` | atlaso/diagnostics.py:1028-1034 | rendered files are within the limits that the collected ones met |
| `Diagnostics.Projection.Register` | atlaso/diagnostics.py:269-274 | a name has one marker for good; a new name gets the next number |
| `Diagnostics.Projection.Identifier` | atlaso/diagnostics.py:253-274 | accepts exactly 1 to 253 letters, digits, dots, dashes and underscores that start with none of dot and dash; addresses stand for themselves; an anonymized name, a host name without case and trailing dots, is registered, returned as its marker and thereby reserved |
| `Diagnostics.Projection.Render` | atlaso/diagnostics.py:276-292 | the unique rendering; with fewer than 10^10 names the file does not grow |
| `Diagnostics.Projection.RenderAll` | atlaso/diagnostics.py:1028-1034 | every file is rendered for the same names, and with fewer than 10^10 names stays within the source and total limits |

## Left out

- Subprocess, netlink socket, file lock and Win32 calls: atomic steps with success or failure.
- JSON parsing, field checks and address text: addresses are abstract values with a family and class; the hash that starts a probe is an arbitrary function.
- Class predicates of addresses that newer Python versions apply to mapped IPv6 addresses.
- `legacy_removed_vlan_intent`, and the checks for conflicting candidate owners in `preflight_capacity`: field-by-field comparisons of parsed rows, without a loop over kernel state or an order that matters.
- Records of the terminal guard and its exemptions are read as the rules that they are; their field checks are not modelled.
- Evidence blobs, directory syncing and `ensure_durable_directory`: publication of a record is one atomic rename with a visible pending file before it.
- GitHub and controller evidence: an oracle that approves or refuses; in an undisturbed run it approves.
- CleanupRun.Machine.Eligible: ignored files, open directories, push URLs and worktree registrations are part of what the oracle approves.
- CleanupRun.Machine.RemovePieces: an owning tool removes its resource in an unspecified number of pieces, as many as there are when it starts.
- CleanupBatch.RunMembers: the other members are checked before each member and again before the title, not at every transition inside a member.
- TreeRemoval.Volume.Visit: children are visited in any order, where the source sorts them.
- TreeRemoval.Volume.Pin: the data of a symbolic link is a digest together with whether the link stays inside the tree.
- Diagnostics.Projection.Identifier: whether a host name is an address, and its canonical text, is a parameter.
- Diagnostics.RenderedFile: states the result for files whose other text contains no complete quoted marker; a marker whose number has leading zeros is such text and is not covered.
- Flanking rules, code spans, links and HTML in `strip_markdown_deleted_content`: delimiters with their flags and scopes are inputs.
- Diagnostic collectors, archive writing, release and documentation scripts: reads and writes of external services and files, with no state carried from one step to the next.
