# Verified models of the Harvester installer

The Harvester installer is a console program: a wizard collects a configuration,
a validator checks it, and an installation command runs with its output on a
panel. This project models the parts of it that hold state machines, parsers and
arithmetic, and proves what they keep. `dafny verify dfyconfig.toml` checks all of
it.

## The parts

**The wizard** (`Validator`, `WizardSteps`, `InstallPanels`, `WizardInvariants`,
`WizardRuns`, `RemoteConfig`, `WizardHistory`, `ValidatorHistory`, `WipeList`,
`WipeMarks`, `WizardFailures`, `WizardChain`, `FailingRuns`).
`WizardSteps` is a transition system: a state is the focused panel, the shared
configuration, the input data, the disk cache, what the fields remember, the page
flags and the background tasks under way; an event is a key with what the widgets
hold, or the end of a task with its outcome, so a run is any back-and-forth with any
readings and outcomes. `InstallPanels.Wizard` is the same code as the source has it,
a class whose handlers update the fields one by one; each handler is proved to be
its step, and its loop over the events of a session to keep what the runs keep.
`WizardInvariants` proves two invariants, one that every step keeps and one that
says what the pages before the shown one have settled. `WizardRuns` proves from them
what the final validator says of the settled pages. `WizardHistory` says for every
run, from its events alone, when the final configuration passes `commonCheck`, with the
remote configuration of `RemoteConfig` merged or not; `ValidatorHistory` does so for the
whole validator, `WipeList` for the list of disks to wipe, `WipeMarks` and
`WizardFailures` for the wizard's own panics and errors. `WizardChain` proves that no
page is ever skipped, and `FailingRuns` builds the runs that show the conditions are
needed.

**Concurrent output** (`ScanLines`, `PanelOutput`, `Spinner`). The two reader
goroutines, the lock, the UI loop with its unordered updates, and the spinner's
`stop`/`stopped` channels are interleaved atomic steps; safety holds over every
run, and every run is shown to end. The line splitter below them is run over
every way a stream can arrive.

**Disks** (`PartitionSize`, `Disks`, `DiskOptions`). Sizes are 64-bit and wrap.
Go's map order is an arbitrary order, and the results are proved not to depend
on it.

**Network profiles** (`NetworkProfiles`, `SubnetMask`, `IscsiFilter`). The profile
directory is a file map behind a class; histories are arbitrary sequences of
calls. Masks follow section 3.1 of RFC 4632.

**Parameters and text** (`Strings`, `CmdLine`, `IfDetails`, `TextFormat`).

## Where the code does not do what it is meant to

Each of these is a lemma, with the exact condition under which the code is right.

- The VIP page's DHCP request does not hold the focus. If it fails after the user
  has left the page, the VIP page opens over whatever page is shown. After a
  change to join mode this leads past the management address, and the
  configuration is refused only when the installation starts
  (`FailingRuns.JoinWithoutAddress`). A run stays on course if and only if no
  request fails at such a moment (`WizardRuns.OnCourseExactlyWhen`); whatever
  arrives when, a run passes if and only if its pings and mode choices came in the
  right order (`WizardHistory.CommonCheckExactlyWhen`).
- On an installed node the wizard has no password page, so the validator can refuse
  its configuration for missing credentials
  (`FailingRuns.InstalledNodeWithoutCredentials`): exactly when there was no password
  to start with and the last pass of the key page brought no keys.
- After the marks of the wipe field are reset, Enter still stores the disks they
  stood for: a disk that was marked and then chosen is installed on and is on the list
  of disks to wipe (`FailingRuns.ChosenDiskIsWiped`). `WipeList.WipeListAtTheEnd` says
  for every run when the list names a chosen disk.
- Opening the list of the wipe field with more disks than when it was first opened
  since its last reset panics (`FailingRuns.OpeningTheListPanics`; for every run
  `WipeMarks.OpeningPanicsExactlyWhen`).
- A VIP request that succeeds after its page was left ends the main loop, since the
  fields it writes are closed (`FailingRuns.LateSuccessEndsTheWizard`). With disks that
  can be read this and the panic above are the only ways to fail
  (`WizardFailures.FailsExactlyWhen`).
- A VIP request that fails while the disk page is open carries the wizard over its
  checks: the validator then refuses a disk the page would not have let pass
  (`FailingRuns.DiskGoesUnchecked`; for every run `ValidatorHistory.ValidatorExactlyWhen`).
- A remote configuration with a management address makes every run in create mode fail
  (`WizardHistory.CommonCheckAtTheEnd`).
- The size field checks against the exact disk, the layout against whole GiB: a size
  can pass the wizard and fail the layout
  (`PartitionSize.WizardAcceptsWhatLayoutRefuses`).
- A size that overflows 64 bits is accepted as what it wraps to
  (`PartitionSize.OversizedTextIsAcceptedToo`); without the checks the subtraction
  for small disks wraps (`PartitionSize.UncheckedLayoutFits`).
- A disk whose serial number is another disk's name is dropped
  (`Disks.NameCollisionDropsDisk`); which disks are offered is
  `Disks.OfferedExactlyWhen`. A COS partition after a multipath child is not seen
  (`Disks.PartitionAfterMultipathIsMissed`).
- Whether a link with an address that does not parse makes the scan fail depends on
  the order of its addresses if and only if another is a session's
  (`IscsiFilter.AddressOrderMattersExactlyWhen`).
- Which lines the output is cut into depends on how it arrives if and only if a line
  feed comes before a carriage return (`ScanLines.LinesIndependentOfArrival`).
- Kernel parameters whose path extends another parameter's path are lost
  (`CmdLine.AgreesExactlyWhenPrefixFree`), and a scheme version given twice, or with
  parameters below it, panics (`CmdLine.ParseCmdLine`).

Two panics in the source are out of the installer's reach: truncation for a panel of
width 1 to 3 (`TextFormat.NoPanelPanics`), and the data-disk choices for an empty
cache (`WizardRuns.DataDiskFieldHasDisks`).

## Model

| member | source | states |
|---|---|---|
| WizardHistory.CommonCheckExactlyWhen | pkg/console/validator.go:417-447 | for every run that reaches the install panel, late failures included, and every remote configuration merged there or none, `commonCheck` accepts if and only if: the mode chosen last is install; or image address and persistent paths are there, in create mode no ping succeeded since create was chosen and the remote configuration has no address, in join mode a ping did or the starting address survives or the remote one fills it, and on an installed node there was a password to start with, the last event about keys brought some, or the remote configuration has credentials |
| WizardHistory.CommonCheckAtTheEnd | pkg/console/install_panels.go:924-971 | a run on course has an address that fits, so only the image address, the paths, an installed node's credentials and, in create mode, an address in the remote configuration remain |
| RemoteConfig.MergeFills | pkg/config/config.go:429-435 | what merging a remote configuration leaves: the mode and the token stay, address and credentials are there if either has them |
| ValidatorHistory.ValidatorExactlyWhen | pkg/console/validator.go:371-404 | for every run of a new node that reaches the install panel, late failures included and no remote configuration merged, the validator accepts if and only if `commonCheck` does, the disk page was last passed by a key with MBR only on BIOS or by a late reply with choices the disk checks accept, and outside install mode the network applied last has an interface and is DHCP, or static with name servers set |
| ValidatorHistory.RunHistory | pkg/console/install_panels.go:1587-1653 | in every run the network edited, the one stored and the name servers are what the last events about each left, with the address fields cleared for DHCP |
| WizardHistory.ConfigIsItsHistory | pkg/console/install_panels.go:1056-1113 | in every run mode, management address and keys are what the last event about each left: a mode choice, a successful ping or a choice of create, a pass of the key page or a fetch |
| WizardHistory.CredentialsOfInstalledNode | pkg/console/install_panels.go:1200-1242 | in every run of an installed node past the key page the password is the starting one, and there are keys if and only if the last event about them brought some |
| FailingRuns.InstalledNodeWithoutCredentials | pkg/console/validator.go:417-447 | from every installed node that starts without a password there is a run to the install panel that is refused for it |
| WizardRuns.InteractiveRunPasses | pkg/console/install_panels.go:2484-2516 | on a new node every such interactive run passes, when no remote configuration is merged: a password always, no address in create mode, an address in join mode, a valid token outside install mode |
| WizardRuns.ValidatorAtTheEnd | pkg/console/validator.go:371-404 | on a new node, after a run on course with no remote configuration merged, the disk, MBR, network and token checks accept too, if and only if MBR was not preset on a machine that is not BIOS |
| WizardRuns.OnCourseExactlyWhen | pkg/console/install_panels.go:2799-2807 | a run keeps every page's assumptions at every moment if and only if no VIP request fails when the wizard cannot take it |
| FailingRuns.JoinWithoutAddress | pkg/console/install_panels.go:2787-2828 | from every new node without BIOS, with no disk chosen and one of 250 GiB there, some run reaches the install panel in join mode without an address |
| FailingRuns.LateSuccessEndsTheWizard | pkg/console/install_panels.go:2808-2819 | from every such node there is a run that a late success ends |
| FailingRuns.DiskGoesUnchecked | pkg/console/install_panels.go:2799-2807 | from every such node there is a run to the install panel that `commonCheck` accepts with an installation disk the validator refuses as too small |
| WizardInvariants.StepKeepsInv | pkg/console/install_panels.go:882-974 | every step, in any state, keeps: the mode and its flag agree, a password once its page is passed, a valid token once its page is passed, the MBR page on BIOS only |
| WizardInvariants.StepKeepsCourse | pkg/console/install_panels.go:1056-1113 | every step but a harmful failure keeps what the pages before the shown one settle: address, disks, network, name servers, and at most one background task, whose page waits |
| WizardInvariants.DiskKeyOutcome | pkg/console/install_panels.go:473-812 | a key on the disk page changes only disk choices, and leads out of the page only with choices the validator accepts |
| WizardInvariants.SizeChecksAgree | pkg/console/install_panels.go:473-497 | the page's size check and the validator's accept the same choices |
| WizardRuns.DisksLeftSettled | pkg/console/validator.go:143-162 | after any history of disk, data disk, role and MBR edits, leaving the disk page forwards means the size branches accept and, on BIOS, MBR only within its limit |
| WizardRuns.SharedLayoutAtTheEnd | pkg/config/cos.go:802-850 | when the installation disk is shared and no remote configuration is merged, the layout accepts the wizard's size if and only if it leaves room below the last whole GiB, and then everything fits on the disk |
| WipeList.WipeListAtTheEnd | pkg/console/install_panels.go:544-563 | in every run of a new node the list names a chosen disk at the installation, when no remote configuration is merged, if and only if the last of these events left it so: a choice that comes to the wipe field (what the field last stood for, if it is offered, else the list, names one), opening the field's list (never), or a late reply that carries the wizard from before or on the disk page over it (the list as it is) |
| WipeList.MarkedAreNotChosen | pkg/console/install_panels.go:544-552 | disks worked out from the marks never include a chosen one, whatever the marks |
| FailingRuns.ChosenDiskIsWiped | pkg/widgets/dropdown.go:217-220 | from every new node without BIOS, with nothing chosen and two disks of 250 GiB, both with an installation, some run installs on a disk the wipe list names |
| FailingRuns.OpeningTheListPanics | pkg/widgets/select.go:183-198 | on such a node with three disks, two with an installation, there is a run in which opening the list panics |
| WipeMarks.OpeningPanicsExactlyWhen | pkg/widgets/select.go:183-198 | in every run that stands on the wipe field, opening its list panics if and only if it was opened before since its last reset, first with fewer disks than now |
| WizardFailures.FailsExactlyWhen | pkg/console/install_panels.go:2799-2819 | in every run in which scans, size readings and setting the password succeed, the wizard fails if and only if the last event is a VIP success whose fields are closed or opening such a list; nothing follows then |
| WizardRuns.DataDiskFieldHasDisks | pkg/console/install_panels.go:565-615 | in no run is the data disk field shown without more than one disk to offer |
| WizardChain.StepMovesByOne | pkg/console/install_panels.go:924-971 | on course a step stays, goes to the mode's next page, goes back one page or ends the wizard |
| WizardChain.NoPageSkipped | pkg/console/install_panels.go:2484-2516 | a run that gets to a page has been on every page of the mode before it |
| WizardChain.EscapeGoesBack | pkg/console/install_panels.go:1656-1664 | Escape goes exactly one page of the mode back |
| WizardChain.EscapeUndoesNext | pkg/console/install_panels.go:1303-1312 | Escape after a step forwards leads to the page the step left |
| InstallPanels.Wizard.Handle | pkg/console/install_panels.go:882-2516 | for every event the class's handlers, field by field, do the step of the transition system, and keep both invariants |
| InstallPanels.Wizard.Run | pkg/console/install_panels.go:882-2516 | over the events of a session the object ends as the run does, keeps the invariants, and at the install panel its configuration, with any remote configuration merged or none, passes `commonCheck` exactly when the session was such |
| PanelOutput.PanelIsInterleaving | pkg/console/util.go:442-452 | at every point of every schedule the panel merges a prefix of each stream in order, at most one print is outstanding, and one reader holds the lock |
| PanelOutput.AllPrintedWhenDone | pkg/console/util.go:390-409 | after the wait every line of both streams is on the panel |
| PanelOutput.InterleavingContents | pkg/console/util.go:657-677 | so each line is printed exactly once |
| PanelOutput.NoDeadlock | pkg/console/util.go:657-677 | until the wait returns some participant can go on |
| PanelOutput.EveryRunCompletes | pkg/console/util.go:375-409 | every schedule ends after exactly six steps a line and two more, and then no earlier |
| PanelOutput.OutputReachesPanel | pkg/console/util.go:419-452 | from the bytes of both pipes, in any pieces, to the panel: the printed lines with their terminators are the bytes |
| ScanLines.ScanLinesProgress | pkg/console/util.go:412-440 | a token takes at least one byte, holds no CR, and is what it takes less one terminator |
| ScanLines.Reassembles | pkg/console/util.go:419-440 | for every stream and every way it arrives, tokens with their terminators put back are the stream |
| ScanLines.ScanIsWellCut | pkg/console/util.go:419-440 | no token holds a CR, and only the last line may lack a terminator |
| ScanLines.LinesIndependentOfArrival | pkg/console/util.go:423-434 | the lines do not depend on the pieces if and only if no LF comes before a CR |
| Spinner.WritesInOrder | pkg/console/spinner.go:53-74 | writes reach the panel one at a time in order of issue, the n-th tick with symbol n mod 4 |
| Spinner.QuietAfterStop | pkg/console/spinner.go:76-80 | after `Stop` returns its own message was the last write, and no step is left |
| Spinner.StopMakesProgress | pkg/console/spinner.go:76-80 | `Stop` can always go on |
| Spinner.StopReturns | pkg/console/spinner.go:76-114 | `Stop` returns after at most twelve steps of any schedule |
| PartitionSize.AcceptedLayoutFits | pkg/config/cos.go:802-850 | an accepted layout with the checks on fits on the disk |
| PartitionSize.UncheckedLayoutFits | pkg/util/disk.go:27-42 | without them it fits on the whole GiB of the disk if and only if these hold the fixed partitions |
| PartitionSize.WizardAgainstLayout | pkg/config/cos.go:768-774 | what the layout accepts the wizard accepts as the same bytes; the converse if and only if there is room below the last whole GiB |
| PartitionSize.WizardAcceptsWhatLayoutRefuses | pkg/console/install_panels.go:498-511 | the gap, on a disk of 300 GiB and 1 MiB |
| PartitionSize.AcceptedSizeIsWritten | pkg/util/disk.go:44-64 | an accepted size is the written one if and only if that is below 2^64 bytes |
| PartitionSize.OversizedTextIsAcceptedToo | pkg/util/disk.go:44-64 | 2^34 GiB more never changes the outcome |
| PartitionSize.DefaultSizeIsAccepted | pkg/console/install_panels.go:269-281 | the offered default reads back and passes the wizard and the layout, on every accepted disk |
| Disks.FilterUniqueDisks | pkg/console/util.go:1130-1173 | the two loops, for any order of visiting the map |
| Disks.MapsToFirstExactlyWhen | pkg/console/util.go:1137-1165 | every key maps to its first carrier if and only if no disk without identifiers is named like an earlier key |
| Disks.OfferedExactlyKept | pkg/console/util.go:1130-1173 | a disk is offered if and only if it is the first carrier of one of its keys |
| Disks.KeptInSeparateSpaces | pkg/console/util.go:1138-1165 | with separate name, serial and WWN spaces: no identifier, or first with its serial, or first with its WWN |
| Disks.EveryKeyRepresented | pkg/console/util.go:1147-1163 | every serial number and WWN keeps its first disk |
| Disks.OrderDoesNotMatter | pkg/console/util.go:1166-1173 | the result is the same for every map order |
| Disks.NameCollisionDropsDisk | pkg/console/util.go:1142-1145 | a disk lost when the condition fails |
| Disks.OfferedExactlyWhen | pkg/console/util.go:1130-1173 | with distinct names alone: a disk is offered if and only if it has no identifier, or is the first to carry one that is no such disk's name |
| Disks.ReportedExactlyWhenReached | pkg/console/util.go:1175-1185 | a disk is reported as installed if and only if a COS partition is reached with no multipath sibling before it |
| Disks.PartitionAfterMultipathIsMissed | pkg/console/util.go:1175-1185 | a partition after a multipath child is missed |
| DiskOptions.DiskOptionsCache.Refresh | pkg/console/util.go:1055-1084 | the cache holds sorted choices of the unique disks; unchanged on failure |
| DiskOptions.DiskOptionsCache.GetDataDiskOptions | pkg/console/util.go:1090-1115 | the installation disk first, the others in order, the cache untouched |
| DiskOptions.DiskOptionsCache.GetWipeDisksOptions | pkg/console/util.go:1117-1127 | the installed disks without the two chosen ones, the cache untouched |
| DiskOptions.GenerateDiskWidgetOptions | pkg/console/util.go:1187-1199 | one choice for each line with a blank |
| DiskOptions.RefreshIsDeterministic | pkg/console/util.go:1064-1079 | the cache does not depend on map order |
| DiskOptions.WipeChoices | pkg/console/util.go:1117-1127 | the wipe choices are a subsequence of all choices, exactly the installed ones but two |
| DiskOptions.NameRecovered | pkg/console/util.go:1033-1035 | the path is recovered from the printed entry if and only if the name has no blank |
| DiskOptions.SortSorts | pkg/console/util.go:1073-1075 | sorting sorts and keeps every entry |
| NetworkProfiles.ProfileDirectory.WipeNMConnectionProfiles | pkg/config/cos.go:463-476 | every profile goes, nothing else |
| NetworkProfiles.ProfileDirectory.RestoreOriginalNetworkConfig | pkg/config/cos.go:478-495 | the profiles become the snapshot, unless it is empty |
| NetworkProfiles.ProfileDirectory.SaveOriginalNetworkConfig | pkg/config/cos.go:497-521 | the snapshot is taken once |
| NetworkProfiles.ProfileDirectory.UpdateBond | pkg/config/cos.go:597-640 | one bond profile and one for each interface |
| NetworkProfiles.ProfileDirectory.UpdateBridge | pkg/config/cos.go:642-716 | bridge and, for 2 to 4094, VLAN profile |
| NetworkProfiles.ProfileDirectory.UpdateManagementInterfaceConfig | pkg/config/cos.go:525-559 | accepted networks replace the profiles, rejected ones leave the directory alone |
| NetworkProfiles.ProfileDirectory.Apply | pkg/console/network.go:37-116 | restore, save, update, in this order, as one call on the directory |
| NetworkProfiles.SnapshotIsFirst | pkg/config/cos.go:497-521 | after any calls the snapshot is the profile set at the first one, and other files are unchanged |
| NetworkProfiles.RestoredIsOriginal | pkg/config/cos.go:478-495 | before each later rewrite the directory is back at its first contents |
| NetworkProfiles.OutcomeOfHistory | pkg/config/cos.go:525-559 | only the last network matters; if it is rejected, the first contents |
| NetworkProfiles.AddressCarrier | pkg/config/cos.go:642-716 | exactly one profile carries the address, the VLAN profile if and only if the id is 2 to 4094 |
| NetworkProfiles.AddressIsRequestedOnItsCarrier | pkg/console/network.go:180-187 | the address is requested on the interface of that profile |
| NetworkProfiles.StaticPrefix | pkg/config/cos.go:659-669 | a stored mask goes out as its prefix length |
| SubnetMask.ValidFormatIsPrefix | pkg/console/install_panels.go:1456-1470 | the format test accepts exactly n ones followed by 32 - n zeros, and the size is n |
| SubnetMask.ParseMask | pkg/console/install_panels.go:1425-1454 | accepted texts denote a prefix mask, every error says what is wrong and where |
| SubnetMask.PrintedMaskDenotes | pkg/console/install_panels.go:1868-1873 | a printed mask reads back as itself |
| SubnetMask.StoredMaskBecomesPrefixLength | pkg/config/cos.go:659-669 | the CIDR text of a stored mask is its prefix length |
| CmdLine.AgreesExactlyWhenPrefixFree | pkg/util/cmdline.go:21-46 | the nested map reads, for every path, as the flat list of its values in order, if and only if no path in use extends another |
| CmdLine.FoldItems | pkg/util/cmdline.go:21-46 | the loop, item by item |
| CmdLine.GetPutSame | vendor/github.com/rancher/mapper/values/values.go:31-58 | what is put is got |
| CmdLine.GetPutOther | vendor/github.com/rancher/mapper/values/values.go:31-58 | no put disturbs a path that neither extends nor is extended by its own |
| CmdLine.ItemReadsBack | pkg/util/cmdline.go:22-33 | a key path and a text, quoted or not, are read back from their item |
| CmdLine.ToNetworkInterfaces | pkg/util/cmdline.go:68-93 | the interface values are replaced by their parses, one for one, or the first error |
| CmdLine.ParseCmdLine | pkg/util/cmdline.go:14-52 | with prefix-free items: the interfaces are the parses of their values in order, other paths as given, the scheme version a number; the map beside an error; a panic if and only if the scheme version is given twice or has parameters below it |
| IfDetails.DocumentedSpellings | pkg/util/cmdline.go:95-104 | every documented spelling reads back as its interface, for every address, name and blanks |
| IfDetails.ParseIfDetails | pkg/util/cmdline.go:104-158 | the record of the last address and last name, or the first error |
| IfDetails.LastHwAddrWins | pkg/util/cmdline.go:122-151 | of several addresses the last wins |
| IfDetails.LastNameWins | pkg/util/cmdline.go:122-151 | of several names the last wins |
| IfDetails.AcceptedExactlyWhen | pkg/util/cmdline.go:104-158 | details are accepted if and only if not empty and every field has one of four shapes |
| IfDetails.ParseAll | pkg/util/cmdline.go:83-90 | count and order are kept; the first bad value is the error |
| IscsiFilter.FilterIscsiInterfaces | pkg/console/network.go:191-218 | the last NIC for each hardware address no link in use has, or an error if and only if a link cannot be read |
| IscsiFilter.FilterNicsBySession | pkg/console/network.go:220-250 | removes exactly the hardware addresses of the links in use |
| IscsiFilter.ScanFindsSession | pkg/console/network.go:235-247 | a link is in use if and only if an address is a session's and those before it parse; when the scan fails |
| IscsiFilter.KeptExactlyWhen | pkg/console/network.go:191-250 | with distinct hardware addresses exactly the NICs no link in use shares an address with are left |
| IscsiFilter.OrderDoesNotMatter | pkg/console/network.go:191-250 | the devices left, or the error, are the same for any order of NICs, VLAN links, sessions and the addresses of each link, unless a link mixes unparsable addresses with a session's |
| IscsiFilter.AddressOrderMattersExactlyWhen | pkg/console/network.go:235-247 | every order of a link's addresses gives the same outcome if and only if not both: one does not parse, one is a session's |
| TextFormat.WrapText | pkg/widgets/util.go:55-65 | the recursion joins the lines of the specification |
| TextFormat.WrapTurnsBlanksIntoNewlines | pkg/widgets/util.go:55-65 | equal length, only blanks become newlines |
| TextFormat.WrapIsGreedy | pkg/widgets/util.go:55-65 | every line but the last is short enough and broken at the last blank that fits; the last fits or cannot be broken |
| TextFormat.FormatContent | pkg/widgets/util.go:70-106 | wrapping and truncation as specified, panics included |
| TextFormat.PanicsExactlyWhen | pkg/widgets/util.go:70-106 | formatting panics if and only if the wrapped lines must be cut and no row is allowed or the width is 1 to 3 |
| TextFormat.WrappedLines | pkg/widgets/util.go:72-85 | the wrapped content has exactly the wrapped lines of each line, in order |
| TextFormat.PanelShows | pkg/widgets/panel.go:140-150 | a panel with an inside shows all lines of its wrapped content if they fit, else the first of them down to its last row, which ends in the suffix within the width |
| TextFormat.NoPanelPanics | pkg/console/util.go:750-792 | no placed panel panics, for any terminal size and text |
| TextFormat.FooterNeverPanics | pkg/console/install_panels.go:226-231 | nor does the footer, which has one row and an empty text |
| TextFormat.TruncationFits | pkg/widgets/util.go:86-104 | identity when it fits; else exactly the rows, all but the last unchanged, the last within the width |
| TextFormat.WrappingIsIdempotent | pkg/widgets/util.go:72-85 | wrapping twice is wrapping once |

## Left out

- Rendering, view geometry, key binding tables and the dashboard: user interface.
- Which widget has the focus when two open pages overlap after a late VIP failure: the
  model shows the page opened last.
- The instant between submitting the network page and the spinner's first write, when a
  key can still reach the network page.
- A Select that returns no option because its cursor is below the list; Ctrl-C.
- Commands, HTTP, DHCP, netlink, NTP and webhooks: their outcomes are parts of events. A
  disk is taken to have the same size each time it is read.
- Fetching the remote configuration; automatic installs; the upgrade pages.
- The fields inside the network, cluster network and VIP pages (addresses, MTU, CIDRs,
  VIP values) and the host name: an edit of the network is one event with any result,
  the others an accepted or refused entry.
- CheckNetworks: stops after the interface, method and name server branches; the address
  branches belong to fields the wizard model does not hold.
- ValidatorHistory.ValidatorExactlyWhen: says nothing of a merged remote configuration,
  nor of an installed node, whose disks no page sets.
- WizardRuns.ValidatorAtTheEnd: leaves out, as the theorem above does, the branches of
  `Validate` for scheme version, host name, VIP, system settings and kubelet arguments,
  which no modelled page writes, whether the device exists, and the address branches of
  `checkNetworks`.
- ValidToken: spells the pattern's character class as the printing ASCII range it lists.
- ProfileDirectory: file errors of saving, wiping and restoring, and the `nmcli` calls.
- FormatContent: works on bytes, as the source does; display width is not modelled.
- The scanner's limit of 64 KiB for a line, and the log file beside the panel.
- The view missing in `printToPanel`: the callback's error would end the UI loop.
- ParseCmdLine: starts from the items its pattern finds; the sharing of one nested map
  by two names is not modelled.
- IfDetails: white space is the ASCII kind; a hardware address is text with five colons,
  for which only the six-byte colon form of `net.ParseMAC` is possible.
- SubnetMask: `net.ParseIP` in its dotted form only.
- Rendering of profiles by `text/template`: a profile is the fields its template prints.
- `calculateCPUReservedInMilliCPU`: floating-point rounding is its whole point. For the
  30 percent default size any value within rounding of the product is allowed.
- Constants, range checks of a single branch, role labels and path lists: easy members.
