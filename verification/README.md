# ip-watch, modelled and proved in Dafny

ip-watch renders an allow or deny policy from lists of CIDRs, installs it into live configuration files
or a kernel firewall, and promises exact rollback, idempotence and exact removal. This project models
those parts and proves the promises, for all inputs, all answers of checkers and services, and all runs.

`dafny verify dfyconfig.toml` checks everything.

## The parts

| part | modules |
|---|---|
| text: lines, trimming, fields; what words and lines are; what the line recognisers accept | Text, Lexing, Recognition |
| managed blocks in a file, and several targets sharing one file | ManagedBlocks, FileItems, SharedFile, HAProxy, Apache, Caddy |
| the nginx scanner and its insertion | NginxScan, NginxCoverage, NginxInject, NginxStructure, NginxGuarantees |
| the safe-apply transaction, its removal, and runs of both | ConfigApply, ConfigRemove, Transactions, EnginePlans, ManagedFiles |
| fetching and merging lists, the policy, the rendered files and what the servers read in them | Policy, Fetcher, Targets, Renders, Verdicts |
| fingerprint, state store and the decision to skip | Fingerprint, State, Applier, SkipRuns, Placements, SkipGuarantee |
| the policy compiled to nftables and to iptables, on a host | Nftables, NftReader, NftHost, Iptables, IptablesText, IptablesHalf, IptablesRuns, IptablesHistory, IptablesCuts |
| from the providers' lists to what is enforced | Enforcement |
| the two-level lock, as steps of any number of threads | Locking |
| Docker's multiplexed stream | Demux |

How the state is modelled:

- The transport is a class with files, and a ghost trace of writes, deletions, validations and reloads.
  Each answer is arbitrary. A failed write or deletion changes nothing. `live` is what the last good
  reload saw.
- A call of the transaction is a relation between two worlds (`ApplyStep`, `RemoveStep`); the imperative
  methods are proved against it, and everything about runs is proved about the relation.
- The kernel of the iptables engine has named sets, chains and INPUT rules; a script is a list of
  commands, spelled and read back in IptablesText, and a run may stop after any of them. `ipset` refuses an entry of another family, one that is
  there already, and the whole address space.
- The kernel of the nftables engine holds each table as the text that defined it; a load is atomic.
- The digest is any function; where its collisions matter, the theorem says among which texts there is none.

Preconditions that the theorems share, and why the code needs them: keys, references and rendered lines
have no newline and are no marks; config file, managed file and backup are different paths; the steps of a
rollback succeed, since the code ignores their errors. What the CIDR parser accepts is spelled with hexadecimal
digits, dots, colons and a slash (`Applier.Plain`).

## Where the code does less than its documentation says

Each of these is proved, with the exact condition. The documentation meant is the repository's README.md.

- Line 90 promises to roll back every touched file. A managed file that exists but cannot be read is
  taken for absent and deleted by the rollback (`Transactions.RollbackExactly`).
- Line 485 promises idempotent re-applies. With `real_ip` and no selector, a second apply loses the import,
  unless the Caddyfile opens with a global options block and no line above it reads as a site header
  (`Caddy.NoSelectorLosesImport`, `Caddy.RealIPStableExactly`, `Caddy.GlobalFirstExactly`); a comment above the
  block that ends in a brace is read as one (`Caddy.CommentAboveGlobal`).
  An nginx block whose opening brace has no newline behind it is not undone by removal, and injecting again
  adds again (`NginxGuarantees.StripUndoesInjectExactly`); one that closes on its opening line gets the include
  outside of it (`NginxGuarantees.StructureKeptExactly`).
- Lines 110 and 115-116 promise that re-running the iptables script converges to the desired state. In deny mode
  a family that has lost its ranges keeps its older rule (`IptablesRuns.PolicyEnforcedExactly`); in allow mode the
  promise holds (`IptablesHistory.Converges`). Removal after an interrupted run leaves the swap set behind
  (`IptablesHistory.RemoveCompletes`). An operator's range that spells a block of the list in another way stops
  the script (`IptablesHistory.ExtendedAddableExactly`, `IptablesHistory.SpelledTwice`).
- The nftables rules file stands for the loaded table (internal/engine/firewall.go:53-59 relies on it). It does
  not if persisting or deleting it failed (`NftHost.ApplyMirrorsExactly`, `NftHost.RemoveMirrorsExactly`,
  `NftHost.StaleFileDeceives`), or if another id maps to the same table (`NftHost.SharedRemovalExactly`,
  `NftHost.SharedApplyExactly`, `NftHost.SeparateExactly`, `NftHost.TablesSharedExactly`; "a-b" and "a_b" in
  `NftHost.SharedTableDeceives`).
- Apache's appended include is removed up to trailing newlines only (`Apache.AppendRemovalExactly`).

What happens in the middle of an iptables script is no such gap: lines 116-117 say that a failure there can
leave rules partially changed. How far is proved: the verdict on every packet at every cut, among them the
states where the old rules meet the new set and where the chain is empty (`IptablesCuts.VerdictAtCut`), and
exactly which packets no cut treats otherwise than before or after (`IptablesCuts.EveryCutOldOrNewExactly`).

## Model

| member | source | states |
|---|---|---|
| ManagedBlocks.StripManaged | internal/engine/blockedit.go:10-27 | the line loop keeps exactly the lines outside the key's blocks |
| ManagedBlocks.StripKeepsUnmanaged | internal/engine/blockedit.go:10-27 | a line survives exactly if it is no mark and no begin mark above it is still open; an unmatched begin mark strips to the end |
| ManagedBlocks.StripClean | internal/engine/blockedit.go:10-27 | a stripped file carries no mark of the key; stripping twice is stripping once |
| ManagedBlocks.StripMarkerFree | internal/engine/blockedit.go:10-27 | a file without marks of the key is returned byte for byte |
| ManagedBlocks.MarksDiffer | internal/engine/blockedit.go:6-7 | different keys share no mark text |
| ManagedBlocks.InjectAfterHeader | internal/engine/blockedit.go:29-58 | the block goes below the first line the matcher accepts in the stripped file; an error if there is none |
| ManagedBlocks.FirstHeaderMeaning | internal/engine/blockedit.go:33-39 | the line chosen is a header and no line above it is one |
| ManagedBlocks.InjectThenStrip | internal/engine/blockedit.go:29-58 | what the insertion adds is what stripping removes; inserting twice is inserting once; a mark-free file comes back byte for byte |
| SharedFile.SharedFileTheorem | internal/engine/blockedit.go:10-58 | from a mark-free file, any run of installs and removals leaves the original lines in order plus exactly one intact block for each installed key, none inside another, each standing below its header |
| SharedFile.StandingMeaning | internal/engine/blockedit.go:33-58 | where an installed block stands: below the first original line that its latest install takes for the header, with only blocks in between |
| SharedFile.StripInstalledRestores | internal/engine/blockedit.go:10-58 | after any run, stripping the installed keys in any order gives the original byte for byte |
| HAProxy.PayloadPlain | internal/engine/haproxy.go:67-85 | no rendered payload line can be taken for a mark of any target |
| HAProxy.InstallOpOk | internal/engine/haproxy.go:101-125 | what HAProxy targets do to a shared file is what the shared-file theorems speak of |
| HAProxy.TargetsShareTheFile | internal/engine/haproxy.go:52-125 | any run of applies and removals by any set of HAProxy targets keeps the original lines and one block for each installed target below its header; stripping the installed targets in any order restores the file |
| Recognition.FrontendExactly | internal/engine/haproxy.go:111-125 | a frontend line stands at the very left, with the word `frontend` first and the selector, if there is one, second |
| NginxScan.MatchBrace | internal/nginx/inject.go:162-180 | the loop with its jumps over comments and quotes returns what a one-character-at-a-time automaton defines |
| NginxScan.MatchBraceMeaning | internal/nginx/inject.go:162-180 | the result is the least position where, in code, the depth returns to zero; -1 exactly if there is none |
| NginxScan.SkipQuoted | internal/nginx/inject.go:208-220 | from the quote to the returned index the automaton passes through the string and back to code |
| NginxScan.IndexServerKeyword | internal/nginx/inject.go:125-144 | the loop computes the next keyword; NginxCoverage.KeywordMeaning says which one that is |
| NginxCoverage.KeywordMeaning | internal/nginx/inject.go:125-144 | it is the first `server` outside comments that stands as a word of its own, and -1 only if there is none |
| NginxScan.IndexBraceAfter | internal/nginx/inject.go:147-159 | the loop computes the next brace; NginxCoverage.BraceMeaning says which one that is |
| NginxCoverage.StopMeaning | internal/nginx/inject.go:147-159 | the search stops at the first semicolon or brace outside comments |
| NginxCoverage.BraceMeaning | internal/nginx/inject.go:147-159 | a brace is found exactly if it is outside comments and no semicolon or brace outside comments comes before it |
| NginxScan.ParseServerNames | internal/nginx/inject.go:182-197 | the names after `server_name` on each line, comments and semicolon cut off |
| Recognition.NamesExactly | internal/nginx/inject.go:182-197 | the names of a line, up to its comment: none without the keyword at its beginning; else the words behind it, one semicolon at the end left out |
| NginxScan.LineIndent | internal/nginx/inject.go:222-232 | the blanks that begin the line of a position |
| NginxScan.FindServerBlocks | internal/nginx/inject.go:94-122 | the search loop terminates and finds the specified list of blocks |
| NginxScan.BlocksAreSound | internal/nginx/inject.go:94-122 | found blocks are in order, disjoint, within bounds, each from a brace to its matching close |
| NginxCoverage.FoundExactly | internal/nginx/inject.go:94-122 | no block is missed and none made up: one is found at a position exactly if the keyword stands there, not within a found block, not in a comment as seen from the end of the last block before, with a brace before any semicolon, and no block since then is left open |
| NginxCoverage.FoundOpens | internal/nginx/inject.go:94-110 | each found block opens with the first brace behind its keyword |
| NginxInject.BlockForServerName | internal/nginx/inject.go:45-54 | the first block that lists the name |
| NginxInject.TargetMeaning | internal/nginx/inject.go:20-54 | the chosen block lists the name and none before it does; the first block if there is no name |
| NginxInject.InjectInclude | internal/nginx/inject.go:13-43 | the three lines go behind the opening line of the chosen block of the stripped file; errors if there is no block |
| NginxGuarantees.StripUndoesInjectExactly | internal/nginx/inject.go:13-74 | stripping undoes the injection exactly if a newline follows the chosen brace, and injecting twice is injecting once exactly then; a mark-free file then comes back byte for byte |
| NginxGuarantees.StructureKeptExactly | internal/nginx/inject.go:13-43 | the server blocks of the result are those of the source, element by element with names and indents, the target's brace in place and its close and everything later moved by the inserted length, exactly if the insertion lies before the target's close |
| NginxStructure.InsertedIsNeutral | internal/nginx/inject.go:30-42 | the inserted lines leave the scanner's state as they found it, in code and inside a quoted string |
| Apache.AppendIdempotent | internal/engine/apache.go:103-107 | appending twice is appending once, on every file |
| Apache.AppendRemovalExactly | internal/engine/apache.go:103-107 | removal gives the file back up to trailing newlines, and byte for byte exactly if it ended in two |
| Recognition.KindExactly | internal/engine/apache.go:113-131 | a line opens or closes a virtual host by its first letters in any case, and names the selector if it begins with ServerName or ServerAlias and has it among its later words |
| Apache.FindHost | internal/engine/apache.go:113-131 | the `open` loop finds the host of the first line that names the selector inside a virtual host, if any |
| Apache.InjectVhost | internal/engine/apache.go:110-141 | the include goes below the line that opens that host, indented one step more; an error otherwise |
| Apache.VhostThenStrip | internal/engine/apache.go:110-141 | stripping undoes it; inserting twice is inserting once; a mark-free file comes back byte for byte |
| Recognition.SiteExactly | internal/engine/caddy.go:107-125 | a site header is not indented, ends in a brace and has the selector, if there is one, among the labels in front of it |
| Recognition.ServersExactly | internal/engine/caddy.go:146-163 | server options are found exactly where a line begins, white space left out, with `servers` and a brace or with the word `trusted_proxies` |
| Caddy.CheckGlobalBlock | internal/engine/caddy.go:170-179 | whether the first line that is neither blank nor a comment is a bare brace |
| Caddy.EnsureTrustedProxies | internal/engine/caddy.go:146-161 | prepends a managed global block, or merges into an existing one, or refuses if servers are already configured |
| Caddy.InjectSite | internal/engine/caddy.go:71-85 | the import block first, then the trusted_proxies block |
| Caddy.ReapplyIsApply | internal/engine/caddy.go:71-85 | editing a file that carries intact blocks of both keys is editing the bare file |
| Caddy.TwoKeyCycle | internal/engine/caddy.go:71-85 | with a selector, or a file that opens with a global options block and has no line above it that reads as a site header, the two-key edit is stable, also with new ranges, and stripping both keys in the order of removal restores the original byte for byte |
| Caddy.NoSelectorLosesImport | internal/engine/caddy.go:107-125 | without a selector the managed global block's own brace is taken for the site on re-apply and the import is lost |
| Caddy.RealIPStableExactly | internal/engine/caddy.go:71-161 | a real_ip edit is stable under re-apply exactly if there is a selector, or the file opens with a global options block and no line above it reads as a site header |
| Caddy.GlobalFirstExactly | internal/engine/caddy.go:107-179 | whether the file still opens with a global options block after the import is placed can be seen on the file itself: it does so before, and no line above that block's brace reads as a site header |
| Caddy.CommentAboveGlobal | internal/engine/caddy.go:107-125 | a global options block alone is not enough: a comment above it that ends in a brace is taken for the site |
| ConfigApply.ApplyConfig | internal/engine/configapply.go:31-111 | one call, any answers: no-op exit, staged writes, the directory first, the backup right before the config write, validation right before the reload, rollback and second reload; success exactly if no forward step but the backup failed; the relation ApplyStep between the worlds |
| ConfigApply.HindersExactly | internal/engine/configapply.go:59-111 | the failures that an answer of failure needs: of the directory, a forward write other than the backup, the check or the reload |
| ConfigApply.Stage | internal/engine/configapply.go:59-111 | the stages from writing the managed file to the reload |
| ConfigApply.RestoreAll | internal/engine/configapply.go:83-88 | config file, then managed file, are put back as they were read |
| ConfigApply.RestoredExactly | internal/engine/configapply.go:66-88 | putting back gives the files of the start, the backup apart, exactly unless the managed file was there but could not be read |
| ConfigRemove.RemoveConfig | internal/engine/configapply.go:114-152 | one call, any answers: the relation RemoveStep; it succeeds exactly if no step but the backup and the deletion failed, and then ends with an accepting check, a good reload and the attempt to delete the managed file |
| ConfigRemove.StripAll | internal/engine/configapply.go:123-126 | the target's key first, then each extra key |
| ConfigRemove.DryRunConfig | internal/engine/configapply.go:154-177 | writes nothing, asks the checker once, reports a change exactly if the files differ from the plan |
| Transactions.RollbackExactly | internal/engine/configapply.go:31-111 | a failed apply leaves every path but the backup as it was, exactly unless it rolled back over a managed file that cannot be read |
| Transactions.RemovalRollback | internal/engine/configapply.go:114-152 | a failed removal leaves every path but the backup as it was |
| Transactions.RemovalIsComplete | internal/engine/configapply.go:114-152 | a removal that answers ok leaves no managed file, unless its deletion was tried and failed |
| Transactions.RemovalFinishes | internal/engine/configapply.go:114-152 | if no step fails, a removal of a readable config file answers ok and the managed file is gone; if it had something to do, it ended with check, reload and deletion |
| Transactions.AppliedFiles | internal/engine/configapply.go:59-111 | a successful apply leaves exactly the planned files and touches nothing else |
| Transactions.ApplyTwice | internal/engine/configapply.go:36-57 | after a successful apply the same plan answers ok and unchanged with no event at all |
| Transactions.DryRunForetells | internal/engine/configapply.go:36-177 | a dry run reports a change exactly if an apply would not take its no-op exit |
| Transactions.ApplyThenRemove | internal/engine/configapply.go:31-152 | the files after a round trip, path by path |
| Transactions.RoundTripExactly | internal/engine/configapply.go:31-152 | apply then remove restores everything but backups exactly if cleaning undoes the edit |
| Transactions.LiveOverRun | internal/engine/configapply.go:90-148 | over any run of calls, what the service runs is what it ran at the start, or files a checker accepted, or files with config and managed file as some call found them |
| Transactions.FailuresLeaveNoTrace | internal/engine/configapply.go:31-152 | a run of failed calls leaves every path that is no backup as it was |
| EnginePlans.EngineSettles | internal/engine/haproxy.go:52-109 | the edit of every config engine settles on a file that it fits; no condition for Apache and HAProxy |
| EnginePlans.EngineCleans | internal/engine/apache.go:51-107 | removal undoes the edit of a mark-free file byte for byte; Apache's append exactly if the file ended in two newlines |
| EnginePlans.EngineRoundTrip | internal/engine/configapply.go:31-152 | install and remove of any config engine's target restores every file but the backups, with the same single exception |
| ManagedFiles.PathsDiffer | internal/engine/nginx.go:50-60 | targets with different ids never share a managed file, whatever their engines and config files |
| ManagedFiles.EditRefers | internal/engine/haproxy.go:52-85 | after an edit of a file that fits, some line of the config file refers to the very file that the plan writes, in the engine's own words |
| ManagedFiles.TrustIsSaid | internal/engine/caddy.go:146-161 | after a real_ip edit some line of the Caddyfile names the ranges to trust |
| Applier.Applier.ApplyLocked | internal/applier/applier.go:161-226 | validate, look up engine and transport, fetch, merge, compare fingerprints, run the engine, record on success; declined exactly if one of the first steps fails; what is applied are exactly the entries that the providers offer and, in allow mode, each of the operator's own ranges, so that no packet from one of these is dropped; as a step of a run |
| Applier.WantedExactly | internal/applier/applier.go:180-196 | entry by entry, what the lists hold: what a provider of the target offers and, in allow mode, the operator's ranges of the family; nothing else |
| Applier.ExactlyAdmits | internal/applier/applier.go:189-192 | over such lists no allow-mode filter drops a packet from one of the operator's own ranges |
| Applier.Applier.Remove | internal/applier/applier.go:238-264 | runs the engine's removal and forgets the entry on success; without engine or transport it fails and changes nothing; as a step of a run |
| Applier.WantedIsListable | internal/applier/applier.go:180-196 | what a valid target gets from the data source can be read back from what is hashed |
| Applier.WantedIsWritable | internal/applier/applier.go:180-196 | and the nginx include written from it can be read by nginx |
| Enforcement.WantedIsEnforced | internal/applier/applier.go:161-226 | end to end: what each config engine reads in the files written for a valid target lets an address through, in allow mode, exactly if a range offered by one of its providers or of the operator contains it, and in deny mode exactly if none of its providers' does |
| Enforcement.AppliedIsEnforced | internal/engine/configapply.go:31-111 | and after an apply that answers ok, the target's config file refers to the managed file, that file lets exactly those addresses through, no other file but the backup has changed, and what was written is live |
| Enforcement.WantedIsFiltered | internal/applier/applier.go:161-226 | the nftables text written for a valid target, read back, drops exactly new TCP to its ports (80 and 443 if it names none) from sources outside the ranges of their family that its providers or the operator list, in deny mode from inside those of its providers |
| Enforcement.WantedIsScripted | internal/applier/applier.go:161-226 | after any history of the target, the iptables script's text, read back, runs through in allow mode and leaves a kernel that drops exactly the same packets |
| Enforcement.OperatorAdmitted | internal/applier/applier.go:189-192 | in allow mode neither the nftables text nor, after any history, the iptables script, both read back, drops a packet from one of the operator's own ranges |
| State.Store.Record | internal/state/state.go:59-64 | the entry, with hash, fingerprint and time, counts in memory even if it cannot be saved |
| State.Store.Forget | internal/state/state.go:67-75 | the entry is gone; nothing is saved if there was none |
| Fingerprint.DesiredFingerprint | internal/applier/applier.go:267-287 | the digest of the covered fields, one line each, the ports last |
| Fingerprint.DecodesPreImage | internal/applier/applier.go:267-287 | a decoder inverts the encoding for fields without newlines, with no transport read as local |
| Fingerprint.DecodesContent | internal/fetcher/fetcher.go:168-178 | a decoder recovers provider and both lists from what is hashed |
| Fingerprint.FingerprintDetermines | internal/applier/applier.go:267-287 | without a collision, equal fingerprints mean equal lists and equal mode, engine, transport (none is local), config file, selector, real_ip, container, socket, ports and admin-port switch of the two targets, and conversely |
| Fingerprint.FingerprintCovers | internal/applier/applier.go:267-287 | then one id renders the same config plan, nftables ruleset and iptables script |
| SkipRuns.StepKeepsInv | internal/applier/applier.go:198-226 | every call keeps: each entry stands for a request whose files are as it wants them |
| SkipRuns.SkipsAreNoOps | internal/applier/applier.go:198-208 | over any run of applies, removes and restarts of many targets, a skipped apply would have been a no-op of the engine, for any engines whose edits settle on the files they fit |
| SkipRuns.StartSuffices | internal/applier/applier.go:198-226 | for targets that keep their place, good config files at the start make every call of a run meet one that it fits |
| SkipGuarantee.EngineSkipsAreNoOps | internal/applier/applier.go:161-264 | the same for the config engines and the fingerprint as it is computed; that an edit settles is not assumed: what is asked, of nginx and of Caddy with real_ip only, is that an apply that is not skipped meets a file that it fits |
| SkipGuarantee.PlacedSkipsAreNoOps | internal/applier/applier.go:161-264 | for targets that keep engine, selector and files, the only condition on config files is on those at the start, and there is none for Apache and HAProxy |
| Placements.GoodEdit | internal/nginx/inject.go:13-43 | a config file that takes a target's edits at the start takes them after any edit |
| Placements.GoodClean | internal/engine/configapply.go:114-126 | and after any removal |
| Fetcher.FetchList | internal/fetcher/fetcher.go:120-166 | the sorted entries, repetitions kept; a missing list is empty; no answer, another status or a cut body is an error, and so is a malformed line unless it may be skipped |
| Fetcher.NothingDropped | internal/fetcher/fetcher.go:140-165 | where malformed lines are not allowed, every line of the answer that is neither blank nor a comment is in the list |
| Fetcher.Fetch | internal/fetcher/fetcher.go:105-118 | both lists good and one of them non-empty |
| Fetcher.FetchMerged | internal/fetcher/fetcher.go:50-73 | fails exactly if there is no provider or one cannot be fetched; the ascending union otherwise, a single provider's lists as they are |
| Fetcher.WithExtra | internal/fetcher/fetcher.go:76-98 | the lists with the valid extra entries of each family, ascending, rehashed |
| Fetcher.SortedKeys | internal/fetcher/fetcher.go:100-102 | the keys of the set, strictly ascending |
| Fetcher.AscendingUnique | internal/fetcher/fetcher.go:100-102 | a set has one ascending listing, so equal sets hash equally |
| Fetcher.AdminNeverDropped | internal/applier/applier.go:189-192 | in allow mode no packet from one of the operator's own ranges is dropped |
| Fetcher.ExtraOnlyAdmits | internal/fetcher/fetcher.go:76-98 | merging extra ranges in takes no permission away |
| Targets.Validate | internal/config/validate.go:52-89 | the checks in their order accept exactly the valid targets |
| Targets.ManagementPortsUntouched | internal/config/validate.go:68-82 | a valid allow-mode target polices a management port only if it says so |
| Targets.ItoaAtoi | internal/engine/scriptfw.go:49-55 | decimal printing can be read back |
| Renders.RenderInclude | internal/nginx/nginx.go:84-119 | the include file, line by line |
| Renders.IncludeReads | internal/nginx/nginx.go:84-119 | a reader of nginx's directives gets back from the whole text exactly the access and real_ip directives that were meant |
| Renders.IncludePermits | internal/nginx/nginx.go:90-103 | read from its first character to its last and applied as nginx does, first match deciding, the text permits exactly the covered addresses in allow mode and exactly the others in deny mode |
| Verdicts.HAProxyDenies | internal/engine/haproxy.go:64-135 | the lines put into the frontend, looking in the managed file, deny exactly the uncovered addresses in allow mode and exactly the covered ones in deny mode |
| Verdicts.TrustsExactly | internal/engine/caddy.go:146-148 | that line, split into words, names every range and no other |
| Verdicts.CaddyAborts | internal/engine/caddy.go:126-143 | the snippet, read back, aborts exactly the requests from those addresses |
| Verdicts.ApacheGrants | internal/engine/apache.go:151-179 | the file, read back, grants exactly the others |
| Enforcement.EngineEnforces | internal/engine/configapply.go:15-28 | so all four config engines let through the same addresses, read from the file that the plan writes |
| Nftables.RenderNftables | internal/engine/firewall.go:132-170 | the ruleset text is written line by line from the table; NftReader.RulesetReads says what it means |
| NftReader.RulesetReads | internal/engine/firewall.go:132-170 | a reader of nft rulesets gets back from the text the table it was written from: its name, that the script replaces it, the sets with their family and elements, the hook, and each rule's ports, family and side of the set |
| NftReader.TextDropsPolicy | internal/engine/firewall.go:132-170 | so what is read in the text drops a packet exactly if the policy asks for it |
| Nftables.TableDropsPolicy | internal/engine/firewall.go:150-168 | the table drops a packet exactly if the policy asks for it |
| NftHost.Host.Apply | internal/engine/firewall.go:36-89 | stage, check, load, persist, clean up, and the answer, step by step for every answer of the host; the new files and tables are what these steps do |
| NftHost.Host.RemoveTable | internal/engine/firewall.go:91-114 | stage the teardown, load it, clean up, delete the rules file, whose failure is ignored; step by step for every answer of the host |
| NftHost.ApplyProgress | internal/engine/firewall.go:61-89 | nothing is loaded that was not just checked and accepted; the answer is a failure exactly if a step other than a clean-up failed; a change has loaded and persisted the ruleset |
| NftHost.ApplyCompletes | internal/engine/firewall.go:61-89 | an apply with something to do, no step of which fails, answers ok and changed, has loaded and persisted the ruleset, and leaves no staged file |
| NftHost.DryRunAsks | internal/engine/firewall.go:45-51 | a dry run answers what the checker said of this ruleset and loads nothing |
| NftHost.RemovalCompletes | internal/engine/firewall.go:91-114 | a removal fails exactly if staging or loading the teardown failed; if no step fails, the table, its rules file and the staged file are gone |
| NftHost.ApplyRelates | internal/engine/firewall.go:36-89 | what the steps do to files and tables, as the relation that the following rows speak of |
| NftHost.RemoveRelates | internal/engine/firewall.go:91-114 | the same for a removal |
| NftHost.ApplyMirrorsExactly | internal/engine/firewall.go:53-86 | an apply keeps the rules file truthful exactly unless it loaded a ruleset it could not persist |
| NftHost.RemoveMirrorsExactly | internal/engine/firewall.go:91-114 | a removal keeps it truthful exactly unless the table went and the file stayed |
| NftHost.FileMirrorsKernel | internal/engine/firewall.go:36-114 | over any run for separate targets whose files follow the loads, every rules file is there exactly if its table is loaded, and is the loaded ruleset |
| NftHost.NoOpIsSound | internal/engine/firewall.go:53-59 | where the file is truthful, "up to date" means the ruleset is loaded |
| NftHost.StaleFileDeceives | internal/engine/firewall.go:106-113 | a rules file that survived a removal makes the next unforced apply answer "up to date" with no table |
| NftHost.SharedRemovalExactly | internal/engine/firewall.go:91-114 | for any two ids that share a table, removing one keeps the other's present file truthful exactly if the table was not torn down |
| NftHost.SharedApplyExactly | internal/engine/firewall.go:36-89 | applying one keeps it truthful exactly unless a ruleset was loaded that it does not record |
| NftHost.SeparateExactly | internal/engine/firewall.go:91-114 | removals of one target keep the other's file truthful exactly if their ids map to different tables |
| NftHost.TablesSharedExactly | internal/engine/caddy.go:185-187 | two valid ids have one table name exactly if they are equal but for hyphens against underscores |
| NftHost.SharedTableDeceives | internal/engine/firewall.go:96-113 | the ids "a-b" and "a_b" share a table: removing one leaves the other's file claiming a table that is gone |
| NftHost.StagingIsNoRules | internal/engine/firewall.go:45-63 | no staged file is any target's rules file |
| Iptables.Emit | internal/engine/iptables.go:77-107 | the commands of one family |
| Iptables.RenderIPTables | internal/engine/iptables.go:62-113 | the commands of both families |
| IptablesText.WriteScript | internal/engine/iptables.go:62-113 | the script's text, line by line: each command in the words of the shell |
| IptablesText.ScriptReads | internal/engine/iptables.go:62-113 | a reader of `ipset` and `iptables` lines gets back exactly those commands, and that the script ends at the first that fails |
| IptablesText.RemovalReads | internal/engine/iptables.go:47-57 | and those of a removal, each of which may fail without ending it |
| Iptables.NamesApart | internal/engine/iptables.go:62-98 | targets whose sanitized ids differ share neither chain nor set |
| IptablesHalf.StepFollows | internal/engine/iptables.go:81-106 | a command does to the kernel what it does to its family and changes nothing else; a kernel in order stays in order |
| IptablesRuns.ExecFollows | internal/engine/iptables.go:62-113 | so does every script |
| IptablesRuns.ScriptCompletes | internal/engine/iptables.go:62-113 | from any kernel in order the script runs through exactly if the lists hold blocks of their family, none twice, none the whole space; and what it leaves |
| IptablesRuns.OneRuleOneJump | internal/engine/iptables.go:81-106 | one rule in the chain and one jump to it |
| IptablesRuns.PolicyEnforcedExactly | internal/engine/iptables.go:77-111 | a completed run enforces the policy on a packet exactly unless, in deny mode, its family has no ranges and an older rule drops it |
| IptablesRuns.CompilersAgree | internal/engine/iptables.go:62-113 | from a clean kernel the script drops exactly what the nftables table drops |
| IptablesHistory.HistoryInOrder | internal/engine/iptables.go:41-113 | any history of complete and interrupted runs and removals leaves the kernel in order and everything foreign unchanged |
| IptablesHistory.Converges | internal/engine/iptables.go:62-113 | after any history an allow-mode run with loadable lists completes, with one rule, one jump and the policy's verdicts |
| IptablesHistory.LiveSetOldOrNew | internal/engine/iptables.go:91-101 | at every cut point the live set holds its complete old or its complete new contents |
| IptablesCuts.VerdictAtCut | internal/engine/iptables.go:77-111 | the verdict on every packet at every cut point of a script: the old one up to the swap, the old rules over the new set up to the flush, none while the chain is empty, then the new one, at once if the jump was there and otherwise with it |
| IptablesCuts.EveryCutOldOrNewExactly | internal/engine/iptables.go:77-111 | every cut gives a packet the old or the new verdict exactly if: in deny mode its family has no ranges; or it is not dropped both before and after, and, where it is dropped neither before nor after, the old rules over the new set let it pass or the family has no ranges |
| IptablesHistory.RemoveCompletes | internal/engine/iptables.go:41-60 | removal always completes; a swap set is left exactly if an interrupted run had left one |
| IptablesHistory.RemovalRestores | internal/engine/iptables.go:41-113 | after any number of complete runs on a clean kernel, removal restores it exactly |
| IptablesHistory.ExtendedAddableExactly | internal/fetcher/fetcher.go:76-98 | the merged list can be added exactly if the fetched one can and every extra range of the family is not the whole space and is spelled as any other entry that denotes its block |
| IptablesHistory.SpelledTwice | internal/engine/iptables.go:91-99 | an extra range that spells a listed block in another way stops the script |
| IptablesHistory.AdminsAdmitted | internal/applier/applier.go:189-192 | neither firewall ever drops a packet from one of the operator's own ranges in allow mode, when these can be merged |
| Locking.StepKeepsInv | internal/applier/applier.go:64-130 | every step keeps: owners of gates and files are exactly the threads past them |
| Locking.ProcessExclusion | internal/applier/applier.go:61-130 | within a process at most one thread is past the gate |
| Locking.GoesOnWithout | internal/applier/applier.go:71-130 | when the file lock cannot be had, exactly a plain guard, a lock_unsafe config change or apply, and a dry run go on to work; the others give the gate back |
| Locking.HostExclusion | internal/applier/applier.go:71-130 | host-wide, among config changes without lock_unsafe and applies that are neither dry runs nor lock_unsafe, at most one is at work for a state directory |
| Locking.FailsClosed | internal/applier/applier.go:95-130 | such a config change or apply never works without owning the file lock |
| Locking.OutsideOwnsNothing | internal/applier/applier.go:71-130 | a thread that is outside, also after a refusal, owns neither gate nor file |
| Locking.NoDeadlock | internal/applier/applier.go:64-130 | while some thread is not outside, some thread can move |
| Locking.FileWaitEnds | internal/applier/applier.go:95-130 | a thread that waits for the lock file waits for another one that is at work and can finish; otherwise it can take the file |
| Locking.RunsEnd | internal/applier/applier.go:64-130 | without new requests every run ends after at most four steps for each thread |
| Locking.EndsFree | internal/applier/applier.go:64-130 | where a run ends, everybody is outside and everything is free |
| Demux.Demux | internal/docker/client.go:215-235 | the loop over header and payload computes the specified split, for a stream that ends or breaks anywhere |
| Demux.SplitFrames | internal/docker/client.go:215-235 | whole frames give their payloads by stream; less than a header is dropped, silently unless the stream broke there; a cut payload is handed out and reported |
| Demux.EveryStream | internal/docker/client.go:215-235 | every input is whole frames followed by the beginning of one, so the previous row covers all inputs |

## Left out

- UFW: its cleanup depends on the printed output of another program.
- HTTP, Docker API calls, tar files, the web interface, history, scheduling, notifications, the command line: plumbing.
- Engine detection and path joining: what detection finds, and the directory of a file, are parameters; a target whose config file cannot be determined is not modelled.
- Running programs and real file systems: a checker, a service or a file operation answers anything; a failed write leaves the file as it was, and crashes between two writes of the transaction are not modelled.
- Outside edits between calls, and several appliers at once with one state store: each applier keeps its own entries in memory.
- A save of the state store that fails: allowed for one call (`State.Store.Record`), excluded from the runs of SkipRuns, where a restart reads the disk.
- SHA-256, JSON and CIDR parsing: any digest, a map on disk, any parser; a parser of host bits gives the block without them.
- Applier.Applier.ApplyLocked: does not write the history entries, and its engine part is a config engine's; the firewall engines' hosts are modelled by themselves in NftHost and IptablesRuns.
- Messages of errors are shortened, and the checker's output in an outcome is dropped: no decision depends on them.
- Characters are code points and lower-casing is ASCII: the code works on bytes and lower-cases Unicode, which agrees on the ASCII words it looks for.
- Staging and running the file of an iptables script: its text is modelled, and a run may stop after any command.
- Limits of the kernel tools on names, on the number of ports in a rule and on the size of a set.
- Rules of other chains and other INPUT rules: kept as they are; whether they decide about a packet before the target's chain is reached is not modelled.
- The selector's regular expression for existing `servers` options in a Caddyfile is written out by hand as a predicate.
- nginx's own copy of the strip loop (internal/nginx/inject.go:57-74) has the same body as the engines' and is modelled once.
- Two targets in one config file under the skip logic: re-applying one moves its block to the top, so SkipRuns gives each target its own files; SharedFile covers shared files without it.
- IptablesRuns.CompilersAgree: does not claim agreement on kernels with older state of the target; IptablesRuns.PolicyEnforcedExactly says what then differs.
