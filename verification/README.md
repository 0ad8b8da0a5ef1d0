# Verification of edaptor's LDAP logic

edaptor edits LDAP directories from a terminal. Almost all of what it decides is pure logic: which operations an edit
becomes, which number a new account gets, who owns a templated field, which profile a config block changes. This project
models that logic in Dafny and proves properties of it for all inputs, all runs and all interleavings.

`dafny verify dfyconfig.toml` checks everything.

| files | what they model |
|---|---|
| `Text.dfy` | strings, ASCII case folding, white space, tables with case-insensitive names |
| `ChangeSets.dfy`, `EntryServer.dfy`, `SavePath.dfy` | the diff of an edit, a server that applies MODIFY and MODRDN as sections 4.6 and 4.9 of RFC 4511 say, and what saving does to the entry |
| `Worker.dfy`, `SharedCreate.dfy`, `Concurrency.dfy` | the worker over a modelled directory: assertion and Post-Read controls (RFC 4528, RFC 4527), transactions (RFC 5805), replay and clean-up; the create with other clients writing between its requests; any number of clients reading, editing and saving in any order |
| `Dn.dfy`, `Private.dfy`, `Ranges.dfy` | DN text, private groups, number ranges and their two allocators |
| `LiveTemplates.dfy`, `Templates.dfy` | the latches of live templates; the template parsers and printers |
| `Schema.dfy` | class lookup, inheritance, the structural class |
| `Profiles.dfy`, `Overlay.dfy`, `Suppress.dfy`, `Matching.dfy`, `Merge.dfy`, `Assume.dfy`, `Assembly.dfy` | the profile pipeline: parts and their recorded sources, overlay, suppression, matching, validation, assumptions, and what comes out of it all |
| `TreeLabel.dfy` | fitting a label into a width |
| `Ldif.dfy` | LDIF previews and an RFC 2849 reader |
| `Names.dfy` | slugs and profile names |
| `Accounts.dfy` | account flags and the choice widget |

Code that works step by step is a method with loops, proved against a specification function or an outright property;
what the code is for is then proved about the specification. The server, its answers, other clients, character widths
and the placing of password fields are parameters: the theorems hold for all of them.

Where the code does less than one might expect, the model keeps the code and states the exact condition:

* `diff` sends nothing for the RDN attribute of a rename, so other edits of it are lost (`SavePath.SaveRealisesEdit`);
  an edit that drops the naming value altogether is refused by the server.
* `rdn_component` splits at every comma and undoes no escape. An entry nobody changed is planned for a rename exactly
  when the value so read is not listed (`ChangeSets.UnchangedIsRenamed`), and an entry with one naming
  value that needs escaping cannot be saved under its name at all (`SavePath.SingleNameKept`).
* `dn_within` compares text: it is right exactly when the comma before the base is not an escaped one
  (`DnText.WithinIsComponentSuffix`), as in `cn=a\,dc=x` below `dc=x` (`DnText.WithinMisreadsEscapes`).
* The replay after a rolled-back create reports every leftover but a new entry whose own add was carried out with the
  answer lost (`Worker.UnreportedExactly`, `Worker.CreateUnreported`, `Worker.LostReplyHidesLeftover`). When the answer
  to the commit itself gets lost, all entries are there although the request reports an error (`Worker.AtomicCreate`).
  The clean-up deletes without assertion and takes whatever version stands under a created name
  (`SharedCreate.CleanUpTakesAnyVersion`).
* `allocate` and `next_in_range` disagree exactly when the used numbers overshoot the window and its last number is free
  (`Ranges.AllocatorsAgree`), as with 51000, 52000, ..., 61000 in use (`Ranges.AllocatorsDisagree`);
  `next_in_range` wraps to 0 at the top of 64 bits.
* The next number is higher exactly when the space counts the one handed out (`Ranges.UncountedNumberRepeats`); an
  account's group number does not count where spaces are separate (`Ranges.AccountRepeats`).
* Templates that refer to each other in circles settle too, from a fresh form (`LiveTemplates.TemplatesAlwaysSettle`).
* A field typed into before its template wrote it never returns to the template (`LiveTemplates.TypedFirstNeverRearms`).
* A tree label overflows behind a segment without width (`TreeLabel.LabelFits`, `TreeLabel.WidthlessOverflows`).
* The fallback of `assign_names` makes names unique under an exact condition (`Names.FallbackDecides`). It fails for
  `inetOrgPerson` and `account` users in `ou=people,dc=ex` beside users in `ou=people,ou=ex,ou=account,dc=ex`
  (`Names.PeopleCollide`).
* `superclasses` may miss names when two superclasses share one (`Schema.SharedNameIsMissed`), and
  `structural_class` may find none on a SUP cycle (`Schema.CycleHidesBoth`) or when a superclass has the name of the
  class for an alias (`Schema.AliasHidesClass`); where no two classes of the entry share a name `Schema.StructuralClassExists`
  says when it finds one.
* Of two config spellings of one attribute, such as `CN` and `cn`, the later in name order replaces the earlier
  (`Overlay.MergeAttrs`); the config wins in every spelling exactly when its block gives no attribute twice
  (`Overlay.AllWinIff`).

## Model

| member | source | states |
|---|---|---|
| `ChangeSets.Diff` | src/form/changeset.rs:142-287 | the loop of `diff` computes the specified change set: attributes in first-seen order, rename by the first value, one contribution per attribute |
| `ChangeSets.DetectRename` | src/form/changeset.rs:151-177 | a rename is planned exactly when the naming value is gone and the attribute still has a value; it takes the first one and deletes the old |
| `ChangeSets.CollectMods` | src/form/changeset.rs:179-280 | the operations are the contributions of all attributes but the renamed one |
| `ChangeSets.AllNamesCovers` | src/form/changeset.rs:181-196 | the loop visits every attribute of either entry once, whatever its case |
| `ChangeSets.OneChangePerAttribute` | src/form/changeset.rs:198-280 | on the two value lists alone: nothing is sent for equal sets; a list that was empty is added whole, one that becomes empty is deleted whole; one differing value for another is one Replace; any other edit has no Replace, one Delete of exactly the values gone, in their order, and one Add of exactly the new ones; an X-ORDERED attribute gets the whole new list or nothing; the RDN attribute nothing on a rename |
| `ChangeSets.InFirstSeenOrder` | src/form/changeset.rs:181-196 | the operations come in first-seen order of the attributes, those of the edit first, each spelled as first seen |
| `ChangeSets.PlannedRename` | src/form/changeset.rs:142-177 | the whole rename: refused if and only if the first RDN is multi-valued; planned if and only if the value read is not listed and some value is; then to the first listed value, dropping the old one |
| `ChangeSets.EmptyIffNothingDiffers` | src/form/changeset.rs:142-287 | the change set is empty if and only if no attribute differs and the value read from the DN is among the listed ones (or none is listed) |
| `ChangeSets.UnchangedIsRenamed` | src/form/changeset.rs:151-287 | an entry nobody changed is planned for a rename, to its first listed value and with nothing else, if and only if the value read from its DN is not listed |
| `ChangeSets.RdnComponentOf` | src/form/changeset.rs:104-116 | what `rdn_component` reads from an unescaped DN, and when it counts as multi-valued |
| `ChangeSets.EscapedCommaRenames` | src/form/changeset.rs:104-108 | an instance: every DN `a=p\,q`, split at the escaped comma, unless `p\` happens to be listed |
| `SavePath.ModsRealiseEdit` | src/form/changeset.rs:142-287 | a MODIFY server accepts every operation of a diff and ends with exactly the edited value sets; only the RDN attribute of a rename is left alone |
| `SavePath.ModifyRealisesEdit` | src/form/changeset.rs:198-287 | without a rename the server refuses exactly when the naming value was edited away, and otherwise the entry is the edited one |
| `SavePath.NewRdnReadsBack` | src/form/changeset.rs:167-174 | the new RDN sent names the wanted value if and only if the value needs no escaping (RFC 4514) |
| `SavePath.RenameRealisesEdit` | src/form/validate.rs:139-149 | a rename followed by the other operations, whatever the server reads from the DN and from the RDN sent: all other attributes are as edited, the RDN attribute is the old set minus the old naming value plus the new one |
| `SavePath.SaveWithoutRename` | src/form/validate.rs:139-149 | without a rename, for any reading of the DN by the server: applied in full, unless the edit differs and lacks the value the server names the entry by; then refused with 67 |
| `SavePath.SaveRealisesEdit` | src/form/validate.rs:139-149 | what executing the plan of any diff does, for every entry and edit, also when client and server read the DN differently: refused with 67, refused with 34, applied in full, or applied exactly up to the RDN attribute and named by what the server read, with the condition for each |
| `SavePath.ClientReadsRight` | src/form/changeset.rs:104-108 | for any DN text of a value, escaped commas, hex and all: `rdn_component` reads what the server reads if and only if the text is the value itself and has no white space at its ends |
| `SavePath.NameKept` | src/form/changeset.rs:142-287 | when the RDN attribute was left alone, the entry is saved as edited and under its name if and only if the value read from the DN is listed, or the server reads the name from the first listed value |
| `SavePath.SingleNameKept` | src/form/changeset.rs:142-287 | with one naming value, left alone: saved as edited under its name if and only if the value needs no escaping, however its DN is written; otherwise every save is refused or renames the entry |
| `SavePath.ExecuteNamesAsRead` | src/form/validate.rs:139-149 | after a rename the entry is named by what the server read from the RDN sent |
| `EntryServer.ReadRdnValueExact` | src/form/changeset.rs:167-174 | a string is read back unchanged from an RDN if and only if it holds nothing RFC 4514 escapes |
| `Worker.FindPostReadCsn` | src/ldap/worker.rs:618-630 | finds the first `entryCSN` value among the response controls |
| `Worker.PostReadCsnOfControls` | src/ldap/worker.rs:618-630 | controls of other kinds before it do not hide the Post-Read answer |
| `Worker.RunModify` | src/ldap/worker.rs:632-668 | `run_modify` over the modelled server: same server state and response as its specification |
| `Worker.RunDelete` | src/ldap/worker.rs:917-942 | `run_delete` over the modelled server |
| `Worker.AssertedModify` | src/ldap/worker.rs:632-668 | for every server answer, what happens and what is said: an evaluating server reports a conflict if and only if another version stands there than the one asserted, `WriteOk` if and only if the right version is there and takes the operations, and then exactly that entry is modified and the CSN reported is that of the version just written, if it is sent; a denial with 122 is a conflict, any other an error with its code; a lost request or answer is a transport error |
| `Worker.AssertedDelete` | src/ldap/worker.rs:917-942 | the same for an asserted DELETE |
| `Worker.ReplayAdds` | src/ldap/worker.rs:713-739 | the replay loop adds entries until the first failure |
| `Worker.RemoveCreated` | src/ldap/worker.rs:738-743 | the clean-up loop deletes newest first and collects what it could not delete |
| `Worker.DiagnoseRolledBackAdd` | src/ldap/worker.rs:713-744 | `diagnose_rolled_back_add` over the modelled server |
| `Worker.RunAddAtomic` | src/ldap/worker.rs:807-899 | `run_add_atomic` over the modelled server: start, queue, commit, and replay only after an empty commit diagnostic |
| `Worker.AddAllGrew` | src/ldap/worker.rs:807-899 | a committed transaction adds all entries if and only if all are new and distinct, and changes nothing else |
| `Worker.QueueAllKeepsDir` | src/ldap/worker.rs:807-858 | queueing writes nothing and goes through exactly when every request is carried out and confirmed |
| `Worker.ReplayStops` | src/ldap/worker.rs:713-739 | for every server behaviour the culprit is the first entry the replay could not confirm; exactly those before it were created and confirmed, and it itself is there exactly when it was new and its answer got lost |
| `Worker.CleanUpReports` | src/ldap/worker.rs:738-743 | for every server behaviour: entry by entry, what the clean-up reports and what is really gone, by the answer to its delete; nothing else is touched |
| `Worker.DiagnosisReports` | src/ldap/worker.rs:713-744 | for every server behaviour: nothing old is touched, each created entry is reported unless its delete was confirmed, an entry stays unreported exactly when it is the culprit, was new, and the answer to its add got lost; the culprit comes with exactly the reply its add got |
| `Worker.UnreportedExactly` | src/ldap/worker.rs:713-744 | on the answers alone: an entry is left in the directory without being named as a leftover if and only if every add before it was confirmed, it was new as all before it, and the answer to its own add got lost |
| `Worker.AtomicCreate` | src/ldap/worker.rs:807-899 | for every server behaviour: `WriteOk` if and only if all requests were confirmed and all names are new, and then all entries are there; a lost answer to the commit leaves all of them in place under a transport error; any other failure leaves the directory as it was, unless the commit was refused without a diagnostic, and then what stays and what is reported is exactly what the replay leaves |
| `Worker.CreateRefused` | src/ldap/worker.rs:807-858 | which error a request that fails before the commit gives: the code of the start, the code and the entry of a refused add, or a transport error; the transaction is then given up |
| `Worker.CommitReported` | src/ldap/worker.rs:859-899 | what is reported once the commit was sent: the last entry on success, the rejection with its code, or a transport error |
| `Worker.CreateUnreported` | src/ldap/worker.rs:807-899 | when a create fails and its commit was answered, an entry stays without being reported if and only if the commit was refused without a diagnostic, the replayed adds before it were confirmed, it was new as all before it, and the answer to its own add got lost |
| `Worker.LostReplyHidesLeftover` | src/ldap/worker.rs:722-739 | an input: the answer to a replayed add is lost, the entry stays and is not among the leftovers |
| `SharedCreate.CreateAmongOthers` | src/ldap/worker.rs:807-899 | whoever writes between any two requests of the create, and however the server answers: success means the directory is what the others made of it plus exactly the entries; in every outcome all that the others made is there under every name the request does not mention |
| `SharedCreate.NobodyElse` | src/ldap/worker.rs:807-899 | when nobody else writes, this create is `run_add_atomic` |
| `SharedCreate.CleanUpAmongOthers` | src/ldap/worker.rs:738-743 | whoever writes between the deletes of the clean-up, it takes nothing away but entries under the created names |
| `SharedCreate.CleanUpTakesAnyVersion` | src/ldap/worker.rs:738-743 | those it takes in whatever version stands there by then, another client's included |
| `Concurrency.AnyStartHolds` | src/ldap/worker.rs:589-668 | a run may start from any directory with nobody editing |
| `Concurrency.SaveOutcome` | src/ldap/worker.rs:632-668 | one save in any reachable state is sound: sent if and only if there is something to change without a rename; a conflict if and only if somebody else has written the entry since; `WriteOk` if and only if nobody has and the edit keeps the naming value, and then the version read became exactly the edited values, with the CSN of that state if it is sent; any other outcome changed nothing, unless the success got lost on the way back |
| `Concurrency.StepKeepsInv` | src/ldap/worker.rs:589-668 | every step of any client keeps every baseline honest: a CSN held by a client still stands for the values it read |
| `Concurrency.RunKeepsInv` | src/ldap/worker.rs:589-668 | the same over whole runs |
| `Concurrency.NoLostUpdate` | src/ldap/worker.rs:632-668 | in every interleaving of any number of clients every save is sound in this sense |
| `Concurrency.RemovedAsRead` | src/ldap/worker.rs:917-942 | an asserted DELETE removes the version its client read, or nothing; it reports a conflict if and only if somebody else has written the entry since |
| `Concurrency.GoneStaysGone` | src/ldap/worker.rs:632-668 | a CSN that has been superseded never comes back |
| `Concurrency.SameCsnMeansUntouched` | src/ldap/worker.rs:632-668 | if an entry has the same CSN at two moments it was the same version at every moment between |
| `Concurrency.NothingBetweenReadAndSave` | src/ldap/worker.rs:632-668 | between a read and an accepted save nobody changed the entry, not even back and forth |
| `Concurrency.BlindSaveOverwrites` | src/ldap/worker.rs:640-643 | without the assertion a Replace succeeds over whatever another client wrote |
| `Private.NewIndex` | src/detect/private.rs:39-58 | the two maps hold, for each key, exactly the entries with that key, in list order |
| `Private.IsPrivateAgrees` | src/detect/private.rs:69-76 | the index says private if and only if some listed user makes the group private |
| `Private.FirstPrivateSpec` | src/detect/private.rs:12-30 | the brute-force search: none, or a listed group that satisfies the predicate |
| `Private.PrivateGroupOfAgrees` | src/detect/private.rs:60-67 | the index finds the same group as a search of the whole list: the first one in list order |
| `Ranges.SplitBlocks` | src/detect/range.rs:80-89 | the loop that edits the last block in place builds the specified blocks |
| `Ranges.CollectSpace` | src/detect/range.rs:92-107 | the loop that fills the number space collects what each entry contributes |
| `Ranges.SpaceExact` | src/detect/range.rs:92-107 | the space holds exactly the numbers in use, on the entries themselves: in a shared space every account's `uidNumber` and every `gidNumber`, in a user space every `uidNumber`, else the attribute's numbers of whoever is no account |
| `Ranges.OwnNumbers` | src/detect/range.rs:110-120 | the profile's own numbers are exactly those of the entries in its container and class, less private groups when asked |
| `Ranges.CollectOwn` | src/detect/range.rs:110-120 | the profile's own numbers, private groups excluded when asked |
| `Ranges.DetectRange` | src/detect/range.rs:92-182 | `detect_range` reports the specified window and counts |
| `Ranges.ReportExact` | src/detect/range.rs:92-182 | the whole report on the entries: without a number in use the fixed start; otherwise one maximal run, the lowest of those that hold most of the profile's own numbers, the window from its thousand to the thousand before the next number in use, the counts, and the entries outside |
| `Ranges.BlocksPartition` | src/detect/range.rs:80-89 | the blocks are maximal runs with gaps of at most 1000, more than 1000 apart, covering exactly the space |
| `Ranges.ChooseIsBest` | src/detect/range.rs:135-152 | the block chosen holds the most of the deciding numbers, no other is better |
| `Ranges.MakeWindowBounds` | src/detect/range.rs:165-171 | floor-to-1000 arithmetic: the window contains the start of its block and never starves one that has a higher neighbour |
| `Ranges.WindowExact` | src/detect/range.rs:92-182 | the window meets the space only inside the chosen block, has min <= max <= 2^32 - 1, and is exhausted only for the topmost block |
| `Ranges.NextInRangeExact` | src/config/defaults.rs:181-195 | `next_in_range` is free, above all used ones in the window, and the least such; it refuses exactly when the last is used, and wraps to 0 at the top of 64 bits |
| `Ranges.AllocatorsAgree` | src/config/defaults.rs:181-195 | whenever `allocate` hands out n so does `next_in_range`; they disagree exactly when the space overshoots a window whose last number is free |
| `Ranges.AllocatorsDisagree` | src/config/defaults.rs:181-195 | an input: the numbers 51000, 52000 and so on to 61000 are used; `allocate` refuses, `next_in_range` hands out 60001 |
| `Ranges.NextAllocationIsHigher` | src/detect/range.rs:186-192 | a number handed out is a valid 32-bit number that is not in use by the entries (in a shared space: no account's `uidNumber` and nobody's `gidNumber`), and the next one is higher, also when blocks merge |
| `Ranges.AllocationRun` | src/detect/range.rs:186-192 | over every run of allocations the numbers strictly increase and each was not in use by the entries when handed out |
| `Ranges.NewEntryCarries` | src/detect/range.rs:92-120 | which entries created with the number keep the run going: in the profile's container and class, with a class by which its number counts, and no other number that is new |
| `Ranges.UncountedNumberRepeats` | src/detect/range.rs:92-182 | for a new entry of the profile that brings no other new number: the next number is higher if and only if the space counts the number it got; otherwise a number no higher is offered, the very same to a profile that has entries |
| `Ranges.CountsUnlessAccount` | src/detect/range.rs:92-107 | whether a new entry's number counts, for all three kinds of space: if and only if it is the group number or an account's user number in a shared one, the user number or that of no account in a separate one |
| `Ranges.AccountRepeats` | src/detect/range.rs:92-182 | an input: the group number of an entry that also is an account is offered twice |
| `DnText.DnComponents` | src/detect/mod.rs:98-120 | the scan with `start` and `escaped` computes the components |
| `DnText.ComponentsJoin` | src/detect/mod.rs:98-120 | splitting loses nothing and cuts at exactly the unescaped commas: joined by commas the components are the DN, none holds a free comma, none but the last ends in an open escape |
| `DnText.ParentExact` | src/detect/mod.rs:123-128 | the parent is what follows the first free comma, less the white space before it; there is none without such a comma or with nothing behind it |
| `DnText.WithinIsComponentSuffix` | src/detect/mod.rs:151-154 | for every DN and base that is not empty: the base's components end the DN's if and only if `dn_within` holds and the comma it found is not an escaped one |
| `DnText.WithinEmptyBase` | src/detect/mod.rs:151-154 | below an empty base it finds only the empty DN and DNs that end in a comma |
| `DnText.WithinMisreadsEscapes` | src/detect/mod.rs:151-154 | a family of inputs: with an escaped comma it accepts a DN of one component below a base it does not have |
| `Samples.FirstExact` | src/detect/model.rs:76-82 | an attribute is read by its first value that is not blank, trimmed |
| `Text.TrimExact` | src/detect/model.rs:76-82 | trimming takes white space off both ends, all of it and nothing else |
| `Text.EqCiExact` | src/detect/model.rs:65-89 | names are equal if and only if they differ in nothing but the case of ASCII letters |
| `LiveTemplates.Resolve` | src/config/defaults.rs:212-229 | the loop renders the segments in order, and answers None if and only if some field has no value, a blank one or the placeholder; the text falls into one part per segment, the literal or the trimmed first value |
| `LiveTemplates.ResolvesInOrder` | src/config/defaults.rs:212-229 | the same of the specification that all theorems about passes use |
| `LiveTemplates.LatchTable.RecomputeLive` | src/config/defaults.rs:334-363 | one pass updates every latch and returns the writes as specified |
| `LiveTemplates.WritesWhatDiffers` | src/config/defaults.rs:334-363 | a pass writes a field if and only if its template owns it and renders to something else than it shows; it writes that text |
| `LiveTemplates.RoundField` | src/config/defaults.rs:334-363 | a pass and its effect on the form, field by field: who owns it, what it becomes |
| `LiveTemplates.HeldStep` | src/config/defaults.rs:340-346 | a field held by the operator is not written, and stays held until a pass sees it empty with something written before |
| `LiveTemplates.ReleaseRearms` | src/config/defaults.rs:340-346 | and then the template owns it again |
| `LiveTemplates.OperatorValueKept` | src/config/defaults.rs:334-363 | over every run of edits and passes, a field seen holding an operator value is never written before such a release |
| `LiveTemplates.TypedFirstNeverRearms` | src/config/defaults.rs:340-346 | a field typed into before its template ever wrote it is never written again, even after it was emptied |
| `LiveTemplates.AcyclicTemplatesSettle` | src/config/defaults.rs:334-363 | without circular references passes settle after as many rounds as the longest chain; then each template-owned field shows its rendered template or is empty |
| `LiveTemplates.TemplatesAlwaysSettle` | src/config/defaults.rs:334-363 | from a fresh form, after any edits and passes, the templates settle after at most as many rounds as there are templates, circular or not |
| `LiveTemplates.CircleCanGrow` | src/config/defaults.rs:334-363 | freshness matters: a template that reads its own written value grows without end |
| `Templates.ScanTemplate` | src/config/defaults.rs:113-144 | the character loop of `parse_default_value` computes the specified segments or error |
| `Templates.ParseLabelTemplate` | src/config/label.rs:17-51 | the character loop of `parse_label_template` computes the specified segments |
| `Templates.ScanPrints` | src/config/defaults.rs:149-164 | an accepted template prints back to the text it was read from |
| `Templates.LabelPrints` | src/config/label.rs:17-51 | every label template prints back to exactly its text, unclosed and nested braces included |
| `Templates.ParsersAgree` | src/config/defaults.rs:76-145 | the strict parser accepts exactly the texts in which the lenient one leaves no empty field and no open brace, and then both agree |
| `Templates.LabelParsesBack` | src/config/label.rs:17-51 | a segment list survives printing and parsing if and only if it has no empty or adjacent literals and no brace that something later closes |
| `Templates.PrintedValueParsesBack` | src/config/defaults.rs:149-164 | parsing the printed form of any parsed value gives the value again; literals and templates print as they were written |
| `Templates.FieldReference` | src/config/defaults.rs:76-145 | a reference to one field parses to that field |
| `Templates.LiveTemplatesStartFresh` | src/config/defaults.rs:297-312 | `live_templates` gives a fresh latch to exactly the templated attributes |
| `Schema.IndexNames` | src/schema/model.rs:135-146 | each lower-cased name or alias is mapped to the last definition that bears it |
| `Schema.FromParsed` | src/schema/model.rs:98-155 | the index built from parsed definitions is valid |
| `Schema.ResolveExact` | src/schema/model.rs:157-161 | a class is found under any of its names in any case, the last class that has it; none if and only if none has |
| `Schema.CanonicalExact` | src/schema/model.rs:179-187 | an attribute goes by the first name of the last definition that bears its name, or by the reference itself |
| `Schema.BringsExactly` | src/schema/model.rs:203-231 | the classes of an entry are those it names and the superclasses of whatever it has |
| `Schema.CollectClass` | src/schema/model.rs:203-231 | depth-first search terminates on every schema; what it adds is wanted, and expanded |
| `Schema.EffectiveAttributes` | src/schema/model.rs:189-201 | MUST is the canonical required names of all classes reachable over SUP; MAY the allowed ones minus anything that is MUST in any case |
| `Schema.SpellingDoesNotMatter` | src/schema/model.rs:189-231 | neither the order, case or alias of the entry's classes nor that of any SUP reference changes the result |
| `Schema.Superclasses` | src/schema/model.rs:303-321 | the worklist result holds only names in the transitive SUP closure and, when no two superclasses of the class share a name, all of them |
| `Schema.SharedNameIsMissed` | src/schema/model.rs:303-321 | an input where one is missed: a class whose two superclasses share a name |
| `Schema.NamesMeanClasses` | src/schema/model.rs:303-321 | a name is among the superclass names if and only if some superclass bears it |
| `Schema.StructuralClass` | src/schema/model.rs:328-343 | the first given structural class that no given one outranks by name; when no two classes of the entry share a name, the first that is no superclass of another given one, or none if each is |
| `Schema.PrimaryExact` | src/schema/model.rs:328-343 | the class found is reported by the first name the schema lists for it |
| `Schema.StructuralClassExists` | src/schema/model.rs:328-343 | when no two classes of the entry share a name, a structural class is found if and only if some given one is no superclass of another given one; without SUP cycles, if and only if one is given |
| `Schema.CycleHidesBoth` | src/schema/model.rs:328-343 | an input where none is found: two structural classes, each the other's superclass |
| `Schema.AliasHidesClass` | src/schema/model.rs:328-343 | an input without a cycle where none is found: the one structural class `o` inherits from a class with the alias `o` |
| `Profiles.DetectedFieldsExact` | src/detect/merge.rs:167-209 | a detected profile's record names exactly its parts, all of them generated |
| `Profiles.ConfigFieldsExact` | src/detect/merge.rs:211-233 | a config block on its own: every part, in every spelling, is the block's and recorded as the config's |
| `Profiles.ConfigExact` | src/detect/merge.rs:211-233 | its record names exactly its parts |
| `Profiles.ConfiguredWhole` | src/detect/merge.rs:211-233 | field by field: a part the block sets is the block's, one it leaves out is empty, ranges aside |
| `Overlay.MergeAttrs` | src/detect/merge.rs:254-272 | config attributes, in name order, replace detected ones of the same name in any case, the others stay, and the record stays exact; of several config spellings the last stays, and all stay if and only if there is one |
| `Overlay.OverlayPlain` | src/detect/merge.rs:299-338 | each single part follows its verdict: the config's if set, untouched otherwise |
| `Overlay.OverlayDefaults` | src/detect/merge.rs:339-363 | the same for defaults, replaced ranges marked as such |
| `Overlay.OverlayWidgets` | src/detect/merge.rs:364-368 | the same for widgets |
| `Overlay.MergeFields` | src/detect/merge.rs:288-411 | `merge_one` up to `suppress`: the verdict on every part, then ranges take the profile's base and the structural class of the block's own classes |
| `Overlay.MergedHolds` | src/detect/merge.rs:288-411 | the merged record is exact, everything the config sets, in its last spelling, stands as set, and no detected range passes for config |
| `Overlay.TakenOverWhole` | src/detect/merge.rs:167-209 | field by field, for a detected profile: every part is the detected one, widgets up to the renamed candidate, each recorded with its evidence or reason |
| `Overlay.MergedExactly` | src/detect/merge.rs:288-411 | every part and record of a merged profile: the block's where it sets one, the detected one with its evidence where it does not, ranges moved to the profile's base and class |
| `Overlay.AllWinIff` | src/detect/merge.rs:254-411 | over attributes detected in one spelling, every spelling of the config stands if and only if the block gives no attribute twice |
| `Suppress.SuppressCompanionAttr` | src/detect/merge.rs:473-506 | removes one attribute of a generated companion, never its RDN attribute nor one its classes require, whenever the path names one, and refuses exactly otherwise |
| `Suppress.FindPart` | src/detect/merge.rs:425-442 | finds the part a path stands for, the only one when attributes have one spelling |
| `Suppress.SuppressPath` | src/detect/merge.rs:418-468 | removes exactly one generated part with its record, or changes nothing because no generated part, nor a free attribute of a generated companion, is named; config parts are kept |
| `Suppress.ApplySuppress` | src/detect/merge.rs:275-286 | each path is taken or waits; none is lost |
| `Suppress.MergeOne` | src/detect/merge.rs:288-411 | `merge_one`: exact, config wins, named by the block; the merged profile part by part, less only what the suppress paths taken name |
| `Suppress.ConfigOnly` | src/detect/merge.rs:613-619 | a block without a detected profile stands alone if and only if it names its classes, and is then the block part by part |
| `Matching.MatchNames` | src/detect/merge.rs:541-558 | pass 1: each block takes the detected profile of its name unless an earlier block did; `taken` and `owner` are inverse |
| `Matching.MatchScopes` | src/detect/merge.rs:559-595 | pass 2: the rest take the first free candidate by container and structural class; a block goes without only if all its candidates are spoken for |
| `Matching.MatchProfiles` | src/detect/merge.rs:533-597 | both passes, mutually inverse partial injections |
| `Matching.SlotsInFileOrder` | src/detect/merge.rs:602-626 | the blocks that get a profile come in file order, each once, and exactly the enabled ones that are matched or name their classes |
| `Matching.NamesComeFirst` | src/detect/merge.rs:541-595 | a detected profile some block names goes to the first such block, whatever pass 2 does |
| `Matching.SortedInOrder` | src/detect/merge.rs:627-638 | the profiles left over are ordered by object class count, then name |
| `Matching.EachDetectedOnce` | src/detect/merge.rs:603-647 | each detected profile ends up exactly once: merged or listed on its own, unless a disabled block owns it |
| `Merge.Renames` | src/detect/merge.rs:596-600 | the rename table holds exactly the detected names that blocks took over |
| `Merge.Merged.AddBlock` | src/detect/merge.rs:602-626 | one block adds the profile its slot stands for, or is counted as disabled |
| `Merge.DisabledAre` | src/detect/merge.rs:602-607 | the disabled names are exactly those of the blocks that are switched off |
| `Merge.MergeCore` | src/detect/merge.rs:533-647 | enabled blocks in file order, then the free detected profiles in order; profiles and provenance aligned and exact, and each made part by part: a free detected profile is the detected one in every part and record, a merged one the block over it, less what suppress paths took |
| `Merge.Merged.FlushOne` | src/detect/merge.rs:522-530 | every waiting path is taken, in addition to those taken before, or ends as a warning about it and this profile |
| `Merge.Merged.FlushPending` | src/detect/merge.rs:522-530 | the retry keeps every profile's guarantees and leaves nothing waiting: each path is taken, or becomes a warning about it and its profile, in order |
| `Merge.ValidateOne` | src/detect/merge.rs:656-717 | accepts exactly the profiles whose failing parts are generated (or, detection incomplete, widgets) and removes exactly the failing parts; every other part and record stays |
| `Merge.Merged.Validate` | src/detect/merge.rs:654-720 | succeeds if and only if every profile is acceptable; removes no config part when detection was complete, and otherwise only dangling widgets |
| `Assume.AssumeUser` | src/detect/assume.rs:126-184 | the private group is assumed as a whole exactly under its condition, and a user always comes out with a number default; an assumed range has the profile's base and structural class, and shares the groups' number space if and only if the group number follows the user number |
| `Assume.AssumeGroup` | src/detect/assume.rs:189-214 | a group comes out with a number default, in the shared space once users are in it; an assumed range has the profile's base and structural class and is in that space if and only if users are; where they are not, a range already there is left alone |
| `Assume.GroupBase` | src/detect/assume.rs:112-124 | the base of the best sampled group profile, ties by name, else the groups container |
| `Assume.FillsSteady` | src/detect/assume.rs:105-215 | filling in only what is missing changes and removes no config part |
| `Assume.StandsFills` | src/detect/assume.rs:105-215 | nor any other guarantee of a merged profile |
| `Assume.AssumeUsers` | src/detect/assume.rs:125-184 | the first round over all profiles |
| `Assume.AssumeGroups` | src/detect/assume.rs:185-214 | the second round over all profiles |
| `Assume.RoundsAreRuleD` | src/detect/assume.rs:105-215 | after both rounds: only additions, all of them recorded as assumed; every user and group has a number; a missing user number becomes a range that is unified if and only if the group number follows it, a group number still missing after the first round one that is unified if and only if the number space of some user profile is shared, and then every group range is |
| `Assume.Apply` | src/detect/assume.rs:105-215 | `apply` has that effect |
| `Assume.AssumedCompanionFine` | src/config/mod.rs:492-523 | the companion rule D assumes passes the companion checks for every container that is not blank |
| `Assume.MergeWithAssumptions` | src/detect/assume.rs:20-31 | merge, rule D, and the retry of suppress paths keep all guarantees; every profile is what the merge made of it, plus what rule D adds where something is missing, less what the paths took |
| `Assembly.Assemble` | src/detect/load.rs:107-170 | the whole pipeline: aligned and exact in every outcome; everything a block sets is in its profile as set, but for widgets that pick from a missing profile while detection is incomplete; on success no reference dangles; every profile is accounted for, in every outcome |
| `Assembly.OutcomeAccounted` | src/detect/load.rs:107-170 | what comes out for each slot, part by part: a detected profile no block took over shows its classes, base, label, search attributes, template, defaults, companion and widgets as detected, less broken references, plus a number or private group rule D assumes; a merged one shows every part the block leaves unset as detected, unless a suppress path names it |
| `TreeLabel.SplitIntoSegments` | src/config/tree_label.rs:89-113 | the segments are the runs between spaces and every character keeps its origin |
| `TreeLabel.StretchesExact` | src/config/tree_label.rs:89-113 | the runs: none of nothing, text without spaces as one, and a space parts what stands on either side |
| `TreeLabel.MarksExact` | src/config/tree_label.rs:89-113 | the characters of a segment: those of its pieces in order, each with the origin of its piece |
| `TreeLabel.TakeCols` | src/config/tree_label.rs:163-175 | takes the longest prefix that fits |
| `TreeLabel.TruncateWithEllipsis` | src/config/tree_label.rs:179-187 | keeps what fits beside the ellipsis, at least one character |
| `TreeLabel.FitSegment` | src/config/tree_label.rs:195-256 | the loops compute the specified answer: literals whole, a prefix of the field characters, one ellipsis |
| `TreeLabel.TrimmedWidth` | src/config/tree_label.rs:195-256 | the width of a trimmed segment: literals, kept field characters, one column |
| `TreeLabel.TextsExact` | src/config/tree_label.rs:195-218 | a segment's text, its field characters and the width of its literals, read off its characters |
| `TreeLabel.TrimmedExact` | src/config/tree_label.rs:219-256 | a trimmed segment is cut at one place, after its first k field characters: all before it, the ellipsis, then the literals; the ellipsis stands where the next field character did, or right behind the one forced in |
| `TreeLabel.AnswerFits` | src/config/tree_label.rs:195-256 | within the budget, except the protected segment, which needs its literals, one character and the ellipsis |
| `TreeLabel.AnswerIsLongest` | src/config/tree_label.rs:195-256 | one more field character would not have fitted; a dropped segment could not have shown any |
| `TreeLabel.FitLabel` | src/config/tree_label.rs:261-295 | terminates; drops segments only from the right, keeps all but the last unmodified |
| `TreeLabel.LabelFits` | src/config/tree_label.rs:261-295 | the label is too wide if and only if only the first segment is left, or the last segment left has no width and those before it fill the space |
| `TreeLabel.JoinExact` | src/config/tree_label.rs:158-160 | segments are joined in order by one space |
| `TreeLabel.LabelExact` | src/config/tree_label.rs:195-295 | the text of every label that is too wide: the segments before the last stand whole, and the last is cut after as many field characters as fit, at least one in the first; only a first segment without fields loses literals |
| `TreeLabel.DropsExact` | src/config/tree_label.rs:261-295 | a segment is dropped if and only if it is not the first, has some width, and not one of its field characters would fit |
| `TreeLabel.WidthlessOverflows` | src/config/tree_label.rs:261-295 | an input: `a`, a space and a character of no width take two columns where one is available |
| `TreeLabel.SolidLabelFits` | src/config/tree_label.rs:261-295 | so with segments of some width it fits, or is the first segment at its least width |
| `TreeLabel.FullWhenItFits` | src/config/tree_label.rs:261-295 | a label that fits is shown whole |
| `TreeLabel.SolidHasWidth` | src/config/tree_label.rs:89-113 | segments from splitting have width when every character takes at least one column |
| `Ldif.Encode` | src/ldap/ldif.rs:146-168 | the chunk loop computes the base64 text |
| `Ldif.B64Reads` | src/ldap/ldif.rs:146-168 | decoding it (RFC 4648, section 4) gives the bytes back, for every byte sequence |
| `Ldif.Alphabet` | src/ldap/ldif.rs:146-168 | the alphabet of RFC 4648, Table 1 |
| `Ldif.Vectors` | src/ldap/ldif.rs:146-168 | the test vectors of RFC 4648, section 10 |
| `Ldif.RenderModOp` | src/ldap/ldif.rs:85-106 | appends the header and value lines of one operation |
| `Ldif.RenderChangeset` | src/ldap/ldif.rs:25-57 | the rename record first, then the modifications, a blank line between |
| `Ldif.RenderChangesets` | src/ldap/ldif.rs:61-67 | an RFC 2849 reader recovers from the text exactly the records of the non-empty change sets |
| `Ldif.LineReads` | src/ldap/ldif.rs:110-142 | every value reads back from its line, plain or base64 |
| `Ldif.LineExact` | src/ldap/ldif.rs:110-142 | a value is written as it is if and only if it is an RFC 2849 SAFE-STRING, else in base64 behind a second colon |
| `Ldif.OpLinesExact` | src/ldap/ldif.rs:85-106 | an operation is a line that says what is done to which attribute, a line for each value, and a dash |
| `Ldif.RecordLinesExact` | src/ldap/ldif.rs:25-57 | the lines of a record: DN, change type, and the rename or the operations |
| `Ldif.RecordsExact` | src/ldap/ldif.rs:25-57 | a change set is a rename record if it has one, then a record of its operations if it has any |
| `Ldif.ModsRead` | src/ldap/ldif.rs:25-106 | a list of operations of any length reads back |
| `Ldif.PreviewReads` | src/ldap/ldif.rs:25-67 | a preview of any number of records reads back |
| `Names.MakeSlug` | src/detect/names.rs:8-23 | the loop with the pending dash joins the runs of letters and digits |
| `Names.SlugOfWord` | src/detect/names.rs:8-23 | letters and digits are kept, in lower case |
| `Names.SlugParts` | src/detect/names.rs:8-23 | any other character parts the slugs on its two sides by one dash, or by none if a side is empty |
| `Names.SlugIdempotent` | src/detect/names.rs:8-23 | a slug has only letters, digits and single inner dashes, and is its own slug |
| `Names.FormIsSlug` | src/detect/names.rs:8-23 | conversely every string of that form is its own slug |
| `Names.BaseNameForm` | src/detect/names.rs:27-41 | base names have that form |
| `Names.BaseNamePrecedence` | src/detect/names.rs:27-41 | accounts are `user`, then POSIX groups `posixgroup`, then other groups `group`, and anything else goes by its structural class |
| `Names.RdnSlugsForm` | src/detect/names.rs:44-57 | so have the path components, none of them empty |
| `Names.Deepen` | src/detect/names.rs:82-94 | one round lengthens exactly the clashing names with path left; it changes nothing when nothing is left to do |
| `Names.AssignNames` | src/detect/names.rs:62-105 | each round deepens exactly the names that clash in it, and the rounds end with only exhausted names clashing; short names that differ stay, full-path names that differ give names that differ, and what still clashes gets its structural class |
| `Names.EqualNamesAreExhausted` | src/detect/names.rs:82-95 | at the end of the rounds equal names belong to profiles that have used their whole path |
| `Names.FullNamesSuffice` | src/detect/names.rs:62-105 | when the full-path names differ, all names differ and none needs its class |
| `Names.FallbackDecides` | src/detect/names.rs:95-101 | the fallback makes all names unique if and only if the class slugs of clashing names differ and no name with its class appended equals a final name that began differently |
| `Names.ClashingPair` | src/detect/names.rs:95-101 | two names that still clash end equal exactly when their class slugs are equal |
| `Names.FallbackCollides` | src/detect/names.rs:62-105 | a family of inputs in which the class slugs differ and two names end up equal all the same |
| `Names.PeopleCollide` | src/detect/names.rs:62-105 | one of them: `inetOrgPerson` and `account` users in `ou=people,dc=ex`, more users in `ou=people,ou=ex,ou=account,dc=ex` |
| `Names.PathOf` | src/detect/names.rs:44-57 | the path of every container DN without escapes: the slugs of its values, leaf first, `x` for an empty one |
| `Names.NameForm` | src/detect/names.rs:73-80 | names on a base that is not empty have slug form |
| `Names.NameGrows` | src/detect/names.rs:73-80 | a name grows by one path component at a time, leaf first, until the path is used up |
| `Names.RoundsHistory` | src/detect/names.rs:62-94 | the final depths come from a history of rounds, each deepening exactly the clashing names with path left, the last leaving none |
| `Accounts.SerializeBracketed` | src/samba/account.rs:34-44 | writes the one canonical text of a set of flags |
| `Accounts.CanonicalUnique` | src/samba/account.rs:34-44 | serialising is canonical: one text for each set |
| `Accounts.KnownExact` | src/samba/account.rs:34-44 | the known letters come in Samba's order, each exactly when it is among the flags |
| `Accounts.FlagsParseBack` | src/samba/account.rs:25-44 | a set survives serialising and parsing if and only if it holds no white space |
| `Accounts.SerializedIsFixed` | src/samba/account.rs:25-44 | thirteen characters for up to eleven letters, and idempotent |
| `Accounts.CommitValue` | src/config/widget.rs:329-349 | the loops compute the tokens no option stands for plus the checked options |
| `Accounts.EditKeepsLetters` | src/config/widget.rs:317-349 | for single-letter options the result denotes exactly that set, and reopening the editor shows exactly what was checked |
| `Accounts.PlainEdit` | src/config/widget.rs:288-349 | a plain value: the least of the options picked, or what is none of the options |

## Left out

- Sockets, TLS, binding, search, paging, threads and channels of the worker: only the outcome of a write matters.
- The user interface, key handling and drawing; the workflows that call the modelled functions, forced overwrites and rebasing included.
- Parsing of schema definitions and TOML: the model starts from parsed classes, attributes and config blocks.
- Binary and operational attributes: the modelled entry holds string values only.
- The order of values on the wire: the client sends value sets, so an X-ORDERED list keeps its order only in its own prefixes.
- Unicode case folding: names and values compare by ASCII case. Display widths come from an arbitrary table and add up character by character.
- MODRDN carries no assertion, so renames are not part of the concurrency theorems.
- Message wording, result code texts and the notes validation writes beside the parts it drops.
- How detection finds profiles (`src/detect/infer.rs` and the patterns): the merge starts from detected profiles; the placing of password fields in `show` is a parameter.
- `field_kind`, `is_single_value` and the other bounded look-ups along SUP; extension stripping.
- RID arithmetic, NT hashes and password sources.
- LDIF of whole new entries (`render_add`): the preview is that of change sets.
- Choosing a tree label rule and rendering its fields: fitting starts from rendered pieces.
- Ranges.AllocationRun: is about runs in which each new entry carries its number and counts as the profile's own; `Ranges.NewEntryCarries` says when that is so.
- SharedCreate.CreateAmongOthers: after a replay among other writers it says nothing about the names of the request itself; without others `Worker.AtomicCreate` and `Worker.CreateUnreported` say exactly what stays there.
- Schema.Superclasses: completeness is stated for classes whose superclasses share no name; which names are missed otherwise depends on the order of the references.
- Overlay.MergeAttrs: detection that spells one attribute twice leaves open which of its own spellings is replaced.
- Suppress.SuppressPath: which of several spellings of one attribute a path removes is left open.
