# kb's landing protocol, modelled and proved

kb is a store of artifacts, each under the type its IRI sits nearest to, each conforming to a version of that type and
linking to others. A client's set of changes is drafted against the store as it stands, judged as a whole, and landed in
one transaction that compares only revisions and the targets of links. When something moved in between, the set is
drafted and landed again under the write lock.

The integrity of the store is split over the two layers: some rules are checked only above the port, some only inside the
transaction, and some hold only because a change hands the transaction the right guards. This project models both layers
and proves what they keep together, over every run of interleaved clients.

How it is laid out, from the bottom up:

- `Iris`, `Text`, `Names`, `Order`: IRIs, their places on disk and the order names are given in.
- `PortValues`, `CarriedLinks`: what crosses the port, what tells one link from another, and how links are read from
  content.
- `Landing`, `SqliteStore`, `Integrity`: the transaction as a function of the store, as the adapter's tables changed in
  place, and what every landing keeps whatever it is handed.
- `Composition`, `Links`, `Draft`, `DraftObject`, `SourceOrder`, `Drafting`: types and versions, the draft as an overlay
  and as the object the operations change, and a set drafted, judged and handed over.
- `Acting`, `Removing`: exactly when an operation acts on a draft and what it leaves, and exactly when a set of removals is
  drafted.
- `Invariants`, `Applying`, `Agreement`, `Keeping`: a set landed where it was drafted: never refused by the port, read by
  the draft as the store then stands, and keeping every artifact, link and version in its place.
- `Serial`, `LateLanding`: a set landed later than it was drafted: when it comes to the same as drafted afresh, and exactly
  when it keeps what every store should.
- `Runs`, `Carrying`, `Fitting`, `Journal`, `Write`, `Answering`: over whole runs: what every store keeps, that everything
  held fits its type, that runs are serial, entry ids, the write path, and what it answers.
- `OneOperation`, `ActedOver`, `Reborn`, `Straddling`: three claims one would like to make that are false of the code, each
  with a run that shows it or the store and the set that do.
- `Walking`, `Skipping`: graph searches with exact answers.
- `Content`, `ItemNames`, `Spelling`, `Places`, `Arranging`, `Canonical`, `Encoding`: content trees: names kept for life and
  what they are made of, parts listed and looked up, canonical order, and the encoding the database keeps.
- `Tickets`: the lock that lets writers in in the order they came.

Four results are worth a maintainer's attention. First, "a set that lands late is one that would have been drafted there"
is false as it stands: a set that changes one artifact twice has only the links of its last change handed to the port, so
it can land where a fresh draft would refuse it for a link it no longer carries. `Serial.LateSetsAreSerial` gives the
exact condition; a set that changes each artifact once is always serial. Second, revisions begin again at 1 when an
artifact is removed and its IRI held again, and the port asks of the type a waiting link sits under only that its IRI is
held, so a set may land over another life of what it read. `LateLanding.KeptWhereBorne` says exactly when such a landing
keeps everything, `Runs.RunsKeepExactly` the same of whole runs, and `Reborn.AnIriHeldAgainIsNotTold` is a run, from a
store just started, in which one does not. Third, an operation that says the revision it read compares it in one read of
its artifact and acts on another: what lands between the two is landed over, though the port compares revisions
(`Straddling.ARevisionNotReadIsLandedOver`); `Straddling.DraftedApartAsAtOnce` says exactly when the two reads may be
taken for one. Fourth, an item added alone is refused when its title leaves nothing to make a name from, but one that
arrives inside a created or replaced artifact is given the empty name, or a number after a hyphen, and a revision may not
hand that name back: `ItemNames.NamedMayBeGivenAgain` says exactly when what kb named it also takes back.

Check the project with `dafny verify dfyconfig.toml` (Dafny 4.11).

## Model

| member | source | states |
|---|---|---|
| `Iris.AboveAreTheProperPrefixes` | src/kb/names.py:34-38 | the IRIs an IRI sits under are exactly the runs of its segments that leave one or more out, nearest first, at the same host |
| `Iris.AboveIsAChain` | src/kb/names.py:34-38 | what sits above an IRI above another is the rest of what sits above that other, so going up is well founded |
| `Iris.AboveAreDistinct` | src/kb/names.py:34-38 | no IRI sits under itself and none is met twice going up |
| `Iris.BetweenIsARunOfAbove` | src/kb/standing.py:64-67 | the IRIs between an IRI and one above it are the run of what it sits under up to that one |
| `Names.FiledUndoesPlace` | src/kb/names.py:81-105 | the place of an artifact or of a type's version reads back as what it was the place of, when and only when a version's own IRI is within 512 characters |
| `Names.PlaceUndoesFiled` | src/kb/names.py:81-105 | a place the layout reads as an artifact is that artifact's place, when and only when no step of it holds a slash |
| `Names.PlacesAreTheirOwn` | src/kb/names.py:81-87 | no two artifacts and no two versions share a place, however long their IRIs are |
| `Names.VersionRead` | src/kb/names.py:62-72 | a version's IRI reads as its type's IRI and its number unless it is too long, and is never itself an IRI of the grammar |
| `Names.IriIsNoVersion` | src/kb/names.py:62-67 | no IRI of the grammar reads as a version's |
| `Names.BeforeIsAStrictTotalOrder` | src/kb/names.py:75-78 | the order names are given in is irreflexive, transitive, asymmetric and total on IRIs |
| `Names.AboveReadEitherWay` | src/kb/names.py:28-38 | going up an IRI's text segment by segment is going up the IRI read as host and segments |
| `Order.PrecedesIsAStrictTotalOrder` | src/kb/names.py:75-78 | the same order on IRIs read as host and segments |
| `Order.OrderOfTheTexts` | src/kb/names.py:75-78 | the order on IRIs read is the order on their texts' places |
| `PortValues.TellApart` | src/kb/port_values.py:51-62 | the loop that counts gives each link its key and how many before it share it, none for a link of no holder |
| `PortValues.ToldByCounting` | src/kb/port_values.py:51-62 | what a list tells is, for each key, the numbers from 0 up to how many links have it |
| `PortValues.ToldWhereverItStands` | src/kb/port_values.py:51-62 | links moved about in their list are told the same |
| `PortValues.TellingCommutesWithKeeping` | src/kb/port_values.py:65-67 | telling links apart and then keeping some by a test of their key is keeping them first and then telling: so the waiting links a draft tells and the ones the database tells agree |
| `CarriedLinks.Read` | src/kb/links.py:90-131 | the nested loops read, of a node and of all inside it, one link for each address in it (`CarriedLinks.ReadOncePerAddress`) and nothing else, in the order of fields and then items |
| `CarriedLinks.ReadOncePerAddress` | src/kb/links.py:90-131 | for every node that a path of declared collections and of places along their lists comes to, looked up step by step at any depth, and for each value in each field declared there, exactly one link is read: of that field and value, at its place, held by what holds the node; and none is read beside these |
| `CarriedLinks.ReadItems` | src/kb/links.py:98-108 | each item's links, and those of the items inside it, are read with its own place and under the name that holds them, as `CarriedLinks.ReadOncePerAddress` has them |
| `CarriedLinks.LinksIgnorePlace` | src/kb/links.py:55-60 | what links are told by does not depend on where the node holding them stands |
| `CarriedLinks.ItemIgnoresPlace` | src/kb/links.py:112-117 | nor, for an item with a name, on where the item stands in its list |
| `CarriedLinks.MovedIsToldTheSame` | src/kb/links.py:90-117 | the values of link fields and the named items of collections put in any order, at every depth, give the same links as often |
| `CarriedLinks.MovedIsTheSameToThePort` | src/kb/port_values.py:51-67 | so the port tells the same links apart after the move as before it |
| `Landing.WritingLeaves` | src/kb/sqlite_store.py:189-220 | a set written in order leaves each artifact as the last change to it does, every other as it was, and the versions kept of what it does not change |
| `Landing.LeftByOneMore` | src/kb/sqlite_store.py:168-171 | what one change more leaves of each artifact, and of the life it is in |
| `Landing.WritingKeepsAndAdds` | src/kb/sqlite_store.py:201-211 | a set that removes nothing leaves every version kept before as it was, and beside them exactly those its changes make, none of them kept before |
| `SqliteStore.Database.constructor` | src/kb/sqlite_store.py:131-134 | a database of no artifacts, no versions, no history, unlocked |
| `SqliteStore.Database.Take` | src/kb/sqlite_store.py:137-147 | taking the write lock notes the tables to go back to; inside a block that holds it, takes nothing |
| `SqliteStore.Database.Give` | src/kb/sqlite_store.py:148-155 | giving it up commits or takes back everything since it was taken, by the block that took it alone |
| `SqliteStore.Database.Land` | src/kb/sqlite_store.py:160-173 | a set lands exactly as `Landing.Land` has it, or the tables stand as they were and the refusal is the one `Landing.Land` gives; the lock stays as it was, and so does what an outer block would go back to |
| `SqliteStore.Database.Saved` | src/kb/sqlite_store.py:176-187 | under its savepoint a refused set is taken back alone |
| `SqliteStore.Database.Checked` | src/kb/sqlite_store.py:161-172 | ids first, then what the set was read through, then the changes, then the set as a whole |
| `SqliteStore.Database.Stepped` | src/kb/sqlite_store.py:167-171 | each change compared and written in order, stopping at the first refused, each artifact's revision and parts noted as the set found them |
| `SqliteStore.Database.Written` | src/kb/sqlite_store.py:189-211 | one change written over the tables is `Landing.Write`; a version number kept already refuses it |
| `SqliteStore.Database.Deleted` | src/kb/sqlite_store.py:192-193 | everything the tables hold of an artifact goes, and nothing else |
| `SqliteStore.Database.Inserted` | src/kb/sqlite_store.py:204-208 | one row with its parts and links stands, and nothing else changes |
| `SqliteStore.Database.Waiting` | src/kb/sqlite_reads.py:147-151 | the rows of one artifact whose target has no row, or lacks the part, as `Landing.WaitingKeys` orders them |
| `SqliteStore.Database.WaitedFor` | src/kb/sqlite_checks.py:33-36 | `Landing.HeldWaiting` of each artifact changed, of the tables before the set is written |
| `SqliteStore.Database.Integral` | src/kb/sqlite_checks.py:38-59 | the set is refused as not landing exactly when a link it hands does not land, else as linked exactly when something outside it links into what it takes out |
| `SqliteStore.Database.Judged` | src/kb/sqlite_checks.py:42-47 | the links of one change are all asked, each as it is told among them |
| `SqliteStore.Database.LinkedIntoGone` | src/kb/sqlite_checks.py:50-59 | the links found from outside are none exactly when none lands in what the set removes or drops |
| `Integrity.ImplicitLinksAlwaysLand` | src/kb/sqlite_checks.py:61-80 | over any sequence of sets, whatever they change, every implicit link's target is held |
| `Integrity.LinksKeepLanding` | src/kb/sqlite_checks.py:50-59 | over any sequence of sets that leave its own artifact alone, a link that lands keeps landing, on its part too |
| `Integrity.LandingKeepsLinks` | src/kb/sqlite_checks.py:50-59 | one landing leaves a link of an artifact it does not change where it landed |
| `Integrity.NoNewLinkWaitsForAPart` | src/kb/sqlite_checks.py:61-73 | no landing but an import's leaves more links of one key on a part its held target lacks than waited under that key before, wherever list items were moved, added or dropped |
| `Composition.ReadThroughIsWhatReferencesReach` | src/kb/composition.py:188-204 | the types a version is read through are exactly its kind's own and those that chains of references, each to a kept version followed at the number named, lead to |
| `Composition.NearestTypeStands` | src/kb/composition.py:142-145 | the nearest type is a held type above the IRI with no held type between |
| `Composition.NearestWasStands` | src/kb/composition.py:148-154 | the upward search finds exactly the IRIs below another with nothing typed strictly between |
| `Composition.NearestWithOneMore` | src/kb/composition.py:142-154 | a type defined becomes the nearest of exactly the IRIs that sat under it with no nearer one |
| `Composition.NearestWithFewer` | src/kb/composition.py:142-145 | types removed leave the nearest of every IRI that belonged to none of them |
| `Links.HandedReadBack` | src/kb/links.py:37-52 | landed and read back, an artifact's links are those it carries, in order, the implicit one aside |
| `Links.HandedAreStoredAsCarried` | src/kb/sqlite_store.py:213-220 | whatever a draft hands with them, an artifact's links are stored as its content carries them: the implicit one, then each with its field, place, target, part and holder |
| `Links.ToldBehindTheImplicit` | src/kb/links.py:48-52 | the implicit link at the front changes what no link into a part is told by |
| `Draft.PutView` | src/kb/draft.py:25-31 | putting an artifact changes what is held at its IRI alone, and keeps a type's version beside those kept |
| `Draft.TakenView` | src/kb/draft.py:33-37 | taking one out takes what is held there and every version kept under it, the store's and the draft's own |
| `Draft.ViewReads` | src/kb/draft.py:52-91 | what the draft answers of artifacts and versions is one corpus |
| `Draft.LinksInHolds` | src/kb/draft.py:108-115 | the links into an IRI are those of the artifacts the draft holds, each read as the draft has it |
| `Draft.AsRead` | src/kb/draft.py:100-106 | what is handed as read is every type given that the draft left alone and the store holds, at the revision it stands at there |
| `SourceOrder.LinksInAreThoseFoundSorted` | src/kb/draft.py:108-115 | the store's links but for those of what the draft changed, and those of what it put, sorted stably by the names holding them, are the links of what it holds, artifact by artifact, whatever order it put them in |
| `SourceOrder.SortedBySourceOneWay` | src/kb/draft.py:160-162 | a stable sort by the name holding a link has one result |
| `DraftObject.LiveDraft.constructor` | src/kb/draft.py:15-23 | a draft of nothing over a store |
| `DraftObject.LiveDraft.Put` | src/kb/draft.py:25-31 | the object changed in place is the overlay put on |
| `DraftObject.LiveDraft.Remove` | src/kb/draft.py:33-37 | the object changed in place is the overlay taken from |
| `DraftObject.LiveDraft.Artifact` | src/kb/draft.py:61-69 | what stands at an IRI, a type of the store's kept as first read |
| `DraftObject.LiveDraft.TypeVersion` | src/kb/draft.py:71-91 | a version as the draft leaves it, and exactly what the read adds to the types kept as first read |
| `DraftObject.LiveDraft.Kept` | src/kb/composition.py:46-54 | a kept version, its type read as it stands first, so the revision handed for it is the one the type stands at |
| `DraftObject.LiveDraft.Numbered` | src/kb/draft.py:93-98 | the next number of a type, counted as made |
| `DraftObject.LiveDraft.AsRead` | src/kb/draft.py:100-106 | each type once, and exactly those read; all the draft leaves alone when all were read |
| `DraftObject.LiveDraft.Waited` | src/kb/draft.py:125-130 | the links that waited before the draft, read once |
| `DraftObject.LiveDraft.Nearest` | src/kb/composition.py:142-145 | going up an IRI one held type at a time finds the nearest |
| `DraftObject.LiveDraft.StandsAsRead` | src/kb/edits.py:154-161 | the test agrees with `Drafting.ReadAs` on the overlay |
| `DraftObject.LiveDraft.Create` | src/kb/edits.py:60-79 | a create changes the draft as `Drafting.Created` has it, and a refused one changes nothing |
| `DraftObject.LiveDraft.Revise` | src/kb/edits.py:91-133 | a replacement or an item added changes it as `Drafting.Revised` has it, and a refused one changes nothing |
| `DraftObject.LiveDraft.Next` | src/kb/edits.py:164-184 | one put of the next revision, a type numbered first |
| `DraftObject.LiveDraft.Delete` | src/kb/edits.py:143-151 | a removal changes it as `Drafting.Deleted` has it, and a refused one changes nothing |
| `DraftObject.LiveDraft.ActAll` | src/kb/drafting.py:94-103 | a set's operations acted in order come to what `Drafting.Applied` has, none when one is refused |
| `DraftObject.PlaceTakenIs` | src/kb/standing.py:14-31 | whether a type's place is taken, asked of the artifacts and links there are, is whether anything under its IRI belongs to another type |
| `Applying.AppliedIsReady` | src/kb/edits.py:38-79 | after any run of creates, replacements and defines the draft keeps every artifact under its type, versions numbered from 1 without a gap, and every link the store holds landing or waiting where it may |
| `Applying.PutKeepsReady` | src/kb/naming.py:12-45 | one artifact more, put where the operations may put it, keeps all that |
| `Applying.DefiningKeepsOne` | src/kb/standing.py:14-31 | a type defined where nothing belongs to another takes no held artifact from its type |
| `Applying.DefiningKeepsLink` | src/kb/standing.py:14-31 | nor any waiting link from the type it waits under |
| `Applying.PutKeepsNumbers` | src/kb/naming.py:82-87 | the number a type's next version is given is the next free one |
| `Applying.AppliedClears` | src/kb/edits.py:143-151 | a set of removals leaves exactly what it does not name, and each removal found its artifact at the store's own revision |
| `Agreement.WritingPuts` | src/kb/drafting.py:68-81 | each change of a drafted set finds its artifact at the revision the one before it left it at, none makes a version twice, and written in order they leave what the draft holds |
| `Agreement.WritingRemovals` | src/kb/drafting.py:68-81 | so do the changes of a set of removals |
| `Agreement.DraftedUnmoved` | src/kb/draft.py:100-106 | everything the changes are handed as read through stands as it was read, where nothing landed in between |
| `Agreement.AcceptedLinkLands` | src/kb/validation.py:139-170 | a link the draft accepts, as landing or as waiting still, is one the port lands |
| `Agreement.NothingSevered` | src/kb/drafting.py:135-147 | a set the draft accepts leaves no link from outside in what it takes out |
| `Agreement.AcceptedSetsLand` | src/kb/validation.py:105-114 | a set of creates, replacements or items added that the draft accepts is refused by none of the port's checks when nothing lands in between |
| `Agreement.DraftedUnderTheLockNeverConflicts` | src/kb/write.py:68-75 | a set drafted on the store it lands on never conflicts and never makes a version twice |
| `Agreement.LandedView` | src/kb/drafting.py:37-50 | the artifacts and versions held after landing are those the draft held |
| `Agreement.DraftReadsAsLanded` | src/kb/draft.py:52-115 | for a set that lands as drafted the draft holds the same artifacts, keeps the same versions and gives the same links into every target, in the same order, as the store then does |
| `Agreement.DraftListsAsLanded` | src/kb/draft.py:39-50 | and lists the same artifacts of every kind, the same versions of every type and the same links waiting on IRIs not held |
| `Keeping.LandedAsDraftedKeepsInv` | src/kb/standing.py:80-93 | a set of one sort landed where it was drafted keeps every artifact under its type, every link landing or waiting where it may, every version named kept |
| `Keeping.AppliedIsPaced` | src/kb/draft.py:93-98 | in every draft of creates or replacements a type stands at the version numbered as its revision |
| `Keeping.RemovalsReadNone` | src/kb/standing.py:80-93 | accepted removals take out no type that a version left kept refers to, and none a link left waits under |
| `Keeping.VersionsKeptAndMade` | src/kb/draft.py:71-91 | each version a draft of creates and replacements keeps is one the store kept, unchanged, or one an operation made |
| `Keeping.ReferringAfterPuts` | src/kb/handing.py:85-91 | every version a version made refers to is kept where the set leaves the store |
| `Acting.CreatesExactlyWhen` | src/kb/edits.py:60-79 | a create acts exactly when it names a version kept of a held type and brings content of it, with no fault found in it and no name of an item's own, at an IRI that holds nothing and whose nearest type is that type, or, for a type, whose place is free; and it leaves what it brings, at revision 1, of that version |
| `Acting.RevisesExactlyWhen` | src/kb/edits.py:91-133 | a replacement or an item added acts exactly when what it changes is held, at the revision it says if it says one, and goes to a kept version of the same type no lower than it conforms to; and it leaves what the edit makes of what was held, one revision on, of that version |
| `Acting.PlaceIsTakenExactlyWhen` | src/kb/standing.py:14-31 | a type's place is taken exactly when there is a type above it and, defined there, it would become the nearest type of an artifact held or of an IRI a link waits on, or is itself waited on as something that is no type |
| `Fitting.DraftedExactly` | src/kb/drafting.py:94-133 | a set is drafted exactly when each operation acts and, as the set leaves the store, none leaves content that does not fit the version it conforms to, a link into a part its field does not allow, a link that neither lands nor waits, a type that is not one or is built on itself, or a removal at fault, and no part is dropped that is linked into from outside |
| `Fitting.KeptWholeExactlyWhen` | src/kb/drafting.py:135-147 | a set of creates or revisions drops no part linked into from outside exactly when the store holds no link, of an artifact the set leaves alone, into a part of what it changes that the set leaves out |
| `Fitting.LandedAsDraftedKeepsFit` | src/kb/drafting.py:161-172 | a set landed where it was drafted leaves every artifact held with content that fits the version it conforms to, its links into parts in fields that allow them, and every version kept that of a type not built on itself, when they were so before |
| `Fitting.EveryRunHoldsWhatFits` | src/kb/validation.py:83-152 | in every store of every run in which no IRI a set read is held again before it lands, all that is held and kept fits so, from the store as it is started |
| `Fitting.EveryRunLetsNoneFall` | src/kb/composition.py:133-139 | over every such run, for as long as an artifact lives on, the number of the version it conforms to never falls |
| `Removing.RemovalsAreDraftedExactlyWhen` | src/kb/standing.py:80-93 | a set of removals is drafted exactly when each takes out something the store holds, whole, at the revision it says if it says one and only once; nothing left links into what goes; no version left of a type reads a type that goes; and no link left waits on an IRI whose nearest type goes |
| `Drafting.DraftedIsPlanned` | src/kb/drafting.py:94-103 | a set drafted without a fault, which `Fitting.DraftedExactly` spells out, is drafted the same when the links of changes acted over later in the set are not judged |
| `Serial.LateComparisons` | src/kb/sqlite_checks.py:16-28 | what a late landing compared: the artifacts it changes and the types it read stand in both stores alike, and the IRIs it needs empty are empty |
| `Serial.LateApplies` | src/kb/edits.py:38-79 | drafted afresh where it lands, the set's operations come to the same acts |
| `Serial.LateUnder` | src/kb/standing.py:34-61 | a link landing late on an IRI not held is still under the type it was drafted under: the guards at revision 0 make it so |
| `Serial.LateLinkAccepted` | src/kb/sqlite_checks.py:61-80 | a link the port lands late is one a draft of the store it lands on accepts |
| `Serial.LatePlans` | src/kb/drafting.py:37-50 | drafted afresh where it lands, a set stands with the same acts and its changes are kept the same |
| `Serial.LateIsAfresh` | src/kb/write.py:60-75 | a set that lands late leaves exactly the store that drafting and landing it afresh there leaves |
| `Serial.LateSetsAreSerial` | src/kb/write.py:60-75 | drafted afresh where it lands a set is accepted when, and only when, each link of a change it acts over later that it does not carry on still lands there; so always when it carries on every such link, as a set that changes each artifact once does; and accepted, both leave the same store |
| `Serial.CarriedOnIsAccepted` | src/kb/handing.py:67-71 | a link of a change acted over that is into what the set itself changes, or that the last change to the artifact carries as often in a field allowing the same, is accepted wherever the set lands |
| `ActedOver.ALateSetThatIsNotSerial` | src/kb/handing.py:67-71 | a run from a store just started, nothing held again in it, whose last landing is of a set of two replacements of one artifact that a draft of the store it lands on refuses: the port is handed no link of the first |
| `LateLanding.KeptWhereBorne` | src/kb/write.py:60-75 | a set drafted on one store and landed on another, whatever happened between, leaves every artifact under its type, every link where it may be and every version named kept exactly when: each artifact it changes is of the kind it was drafted as; each kind, and each type a version it makes refers to, is a type there; each link it hands that lands on nothing held was drafted to wait under what is a type there, or may wait under the nearest type above that; and what it removes is read by no version left and leaves no link waiting where it may not |
| `LateLanding.BorneIsKept` | src/kb/sqlite_checks.py:61-80 | those conditions suffice for a set of creates or replacements: what the port compares and asks then settles the rest |
| `LateLanding.KeptIsBorne` | src/kb/sqlite_checks.py:61-80 | each of them is needed: a type landed over what is none, or the other way, leaves its versions misnumbered or unheld |
| `LateLanding.LateNearest` | src/kb/standing.py:41-61 | the revision-0 guards: once its set has landed, a link's target sits under the IRI it was drafted under when that is a type, and else under what that IRI sits under |
| `LateLanding.LateCreateIsPlaced` | src/kb/standing.py:45-61 | the same guards keep what a create makes under the type it was drafted under, as long as that is a type |
| `LateLanding.ComparedIsKept` | src/kb/handing.py:53-91 | of a type compared at the revision it was read at, and a type where the set lands, every version the draft kept is kept there, whatever happened to its IRI between |
| `LateLanding.RemovalsAreKeptWhereBorne` | src/kb/standing.py:80-93 | the same, exactly, for a set of removals |
| `Reborn.AnIriHeldAgainIsNotTold` | src/kb/sqlite_checks.py:75-80 | a run from a store just started whose last landing is not borne: three types are defined, a set is drafted whose link waits under one, that type is removed and its IRI held again by an artifact, and the set lands; every store before keeps everything and the one it leaves does not |
| `Runs.StepsAreSerial` | src/kb/write.py:60-75 | every step that lands a set none of whose reads was held again leaves the store that drafting and landing it there leaves |
| `Runs.StepsKeepWhereBorne` | src/kb/write.py:60-75 | a step of any client keeps what every store keeps, a late landing exactly when the store bears what it hands; and then leaves a later store |
| `Runs.StepsKeep` | src/kb/write.py:60-75 | every step whose late landing is borne keeps what every world keeps |
| `Runs.LateEvolves` | src/kb/edits.py:164-184 | what a late landing that is borne changes rises in revision and keeps its kind and its versions, whatever happened since its draft |
| `Runs.RunsKeepExactly` | src/kb/write.py:60-75 | every store of a run keeps everything exactly when each late landing of the run is on a store that bears what it hands |
| `Runs.UnbrokenRunsAreBorne` | src/kb/sqlite_checks.py:16-28 | a run in which no IRI a set read is held again before it lands is such a run |
| `Runs.EveryRunKeepsPlaces` | src/kb/standing.py:14-61 | in every store of every run whose late landings are borne each artifact that is no type is of the nearest held type above it, each link to a held IRI lands on an allowed kind, each other waits under the nearest held type and is allowed to, and every implicit link lands on a type |
| `Runs.EveryRunKeepsVersions` | src/kb/composition.py:207-217 | in every store of every such run the versions kept of a held type are exactly 1 up to the one it stands at, numbered as its revision and kept as it stands, none is kept elsewhere, every artifact conforms to a kept version and every version a kept one refers to is kept; that what is held fits is `Fitting.EveryRunHoldsWhatFits` |
| `Runs.EveryRunKeepsWhatWasMade` | src/kb/sqlite_types.py:17-25 | over every such run a version stays as it was made while its type lives on, and an artifact at one revision of one life is one content |
| `Runs.EveryRunIsSerial` | src/kb/write.py:60-75 | every run in which no IRI a set read is held again before it lands leaves the store that its sets leave landed one after another, in the order they landed |
| `Invariants.StartedKeeps` | src/kb/write.py:40-57 | a store just started, the type of types landed alone, keeps it all |
| `Carrying.EveryRunStoresWhatIsCarried` | src/kb/links.py:37-52 | in every store of every run in which no IRI a set read is held again before it lands, an artifact's links are stored as its content carries them, read through its own version of its type as that was made |
| `Carrying.RemovalsLandWhenNoneIsLeftOfTheirKind` | src/kb/standing.py:80-93 | a set of removals the draft accepts lands exactly when it leaves no artifact of a type it takes out, and is else refused as linked |
| `Journal.Minted` | src/kb/journal.py:33-42 | counting up once per moment gives every entry of a set the number its place in the set calls for: above all the history has at that moment, and one more per earlier entry of it |
| `Journal.IdPartsUndoEntryId` | src/kb/journal.py:62-74 | an id reads back as its moment and its number |
| `Journal.LastSeqIsLast` | src/kb/journal.py:77-82 | no entry of the history at a moment has a higher number than the highest found |
| `Journal.MintedIdsAreFree` | src/kb/journal.py:33-42 | minted ids are distinct from one another and from every id the history holds, and the landing takes them |
| `Journal.LandingKeepsIdsDistinct` | src/kb/sqlite_checks.py:82-87 | whatever ids a landing is handed, no two entries share one after it |
| `Write.LandingNeverConflicts` | src/kb/write.py:60-75 | landing takes at most two drafts and, whatever lands between, never answers with a conflict or a version made twice; after the second draft the port refuses only a set of removals, as linked |
| `Answering.LandedAnswers` | src/kb/write.py:87-89 | a set that lands answers for each operation in turn the IRI it names and a revision: for the first on an artifact one more than it stood at where the set landed, for a later one one more than the one before it; the last is what the store then holds it at, and there is none there exactly when the last removed it |
| `Answering.CheckedRises` | src/kb/write.py:78-89 | a set checked only is answered with the same, counted from the store it was checked against |
| `Answering.CheckedEndsWhereLandingLeaves` | src/kb/write.py:78-89 | and, with nothing landing in between, with the revision the store holds each artifact at once it has landed |
| `Answering.DraftedTwiceIsNeverFaulty` | src/kb/write.py:60-75 | a set of creates, replacements or items added that is drafted without a fault at first and under the lock is never answered with one, and lands when its first try conflicts or may not be made |
| `Write.LandingIsAsDraftedThere` | src/kb/write.py:60-75 | what a landing answers of each artifact, which `Answering.LandedAnswers` says by itself, and the store it leaves, are those of drafting the set where it landed: under the lock, or at the first try when no IRI it read was held again |
| `Write.LateMakesNoVersionTwice` | src/kb/sqlite_checks.py:16-22 | a set written on one store, written on another, conflicts or makes no version of a number kept already, whatever was removed and held again between |
| `Write.CheckedAnswersAsLanding` | src/kb/write.py:78-89 | with nothing landing in between a set checked only is refused exactly when landing it is, and else answered as it lands, its name aside; what that is `Answering.LandedAnswers` says |
| `Write.CheckedRemovalsAnswerAsLanding` | src/kb/write.py:78-89 | a set of removals is so answered exactly when it leaves no artifact of a type it takes out |
| `Write.EveryRunKeepsIdsDistinct` | src/kb/sqlite_checks.py:82-87 | in every store of every run no two entries share an id |
| `Write.StampedRunsStayStamped` | src/kb/journal.py:33-42 | in every run whose entries were stamped as entries are, every id is of its moment and a number |
| `Write.UnderTheLockASetLands` | src/kb/write.py:74-75 | in every store of every such run a set drafted without a fault while the lock is held lands there: nobody is sent round again |
| `Straddling.DraftedApartAsAtOnce` | src/kb/edits.py:92-100 | a set drafted while others land between an operation's two reads of its artifact, one for the revision it says it was read at and one for what it acts on, is what it is drafted as at once exactly where everything it says it read stands as it says; where something does not, it is refused at once |
| `Straddling.DraftedApartAsUnsaid` | src/kb/edits.py:154-161 | and it is what the same set is drafted as saying nothing of what it read, so all that runs keep it keeps |
| `Straddling.ARevisionNotReadIsLandedOver` | src/kb/edits.py:92-100 | a replacement that says it read revision 1 lands over revision 2, which landed between its two reads; drafted at once it is refused |
| `Walking.Walk` | src/kb/query.py:31-59 | a walk reaches exactly the IRIs within the depth asked in the narrowed graph, never its start, each once, each by a route of links that are there and of least length |
| `Walking.WalkedFollowsLinks` | src/kb/query.py:31-71 | what a walk reaches is said by the links alone: every hop of every route is a link that is there, of the field asked for, onto something held of the kind asked for, and onto an IRI whose segments open with its type's, at one host, and then the path asked for; and every such link out of the start, or out of anything held reached short of the depth, leads to something reached in one step more or sooner |
| `Walking.TakesWhatIsWanted` | src/kb/names.py:41-52 | the narrowing lets through exactly the links so asked for |
| `Walking.Level` | src/kb/query.py:42-58 | one level takes what is reached within a depth to what is reached within one more, and stands at exactly the held IRIs reached there |
| `Walking.Step` | src/kb/query.py:45-57 | each link out of one place that the walk wants (`Walking.TakesWhatIsWanted`) is taken once, and nothing not held is walked on from |
| `Walking.ALevelMisses` | src/kb/query.py:42-58 | whatever a route one longer reaches is reached within the depth or by a step from where the walk stands |
| `Skipping.Chain` | src/kb/skipping.py:73-85 | a shortest chain of leading files from a start to another file that is broken, or none exactly when there is none |
| `Skipping.Search` | src/kb/skipping.py:76-84 | one file searched keeps the files met and waiting, or gives a chain none is shorter than |
| `Skipping.ShortPathsAreMet` | src/kb/skipping.py:73-85 | every path no longer than the nearest file still to be searched ends at a file met no further than it |
| `Skipping.HeldBackWhenChained` | src/kb/skipping.py:102-108 | asked along every path with cycles cut short, a sound file is held back exactly when the search over the files read through finds a chain |
| `ItemNames.Numbered` | src/kb/item_names.py:27-33 | a name, or the first of its numbers that is free: found whatever is taken |
| `Spelling.SlugIsItsPieces` | src/kb/item_names.py:22-24 | the name a title gives is its stretches of letters and digits, each as long as it may be, made small, a hyphen between each and the next |
| `Spelling.GivesOne` | src/kb/item_names.py:22-24 | a title is cut into its stretches one way, so it gives one name |
| `Spelling.GivenWhatItIsCalledBy` | src/kb/item_names.py:36-55 | an item that carries no name is given what its title gives when that is written as text, or else its place counted from 1, or the first of that name's numbers that is free beside every name carried and every one given before |
| `ItemNames.SlugIsPlain` | src/kb/item_names.py:22-24 | the name a title gives is plain or empty, and empty exactly when the title has no letter and no digit |
| `ItemNames.GivenNameIsPlain` | src/kb/item_names.py:49-53 | the name an item is given is plain exactly when what it is made from is not empty |
| `ItemNames.NamedMayBeGivenAgain` | src/kb/naming.py:48-68 | what was made without a fault may, once named, be handed back as it stands exactly when every item named by its title had a letter or a digit in it, at every depth |
| `ItemNames.NameItems` | src/kb/item_names.py:36-55 | a node's items named, at every depth, as `Named` has it |
| `ItemNames.NameEntry` | src/kb/item_names.py:46-55 | the items of one collection named in turn, the names carried taken first wherever they stand |
| `ItemNames.NamesAreApartAndKept` | src/kb/naming.py:48-68 | made or handed back without a fault, a node is named so that every item of every collection at every depth has a name, no two of a list share one, every name carried is kept and nothing but names is added |
| `ItemNames.NamingTellsApart` | src/kb/item_names.py:36-55 | with the names carried apart, naming leaves all names apart, at every depth |
| `ItemNames.NamingOnlyNames` | src/kb/item_names.py:36-55 | naming changes nothing but the items it names, each by its name alone |
| `ItemNames.Given` | src/kb/item_names.py:98-111 | no fault is found exactly when every name carried is plain and once in its list, at every depth |
| `ItemNames.Unfit` | src/kb/item_names.py:114-122 | a name is unfit exactly when it is not a plain name or is seen already, and a fit one is seen from then on |
| `ItemNames.HandedBack` | src/kb/item_names.py:68-86 | no fault is found exactly when every name carried is plain, once in its list and the name of an item of that collection as it was held, at every depth |
| `ItemNames.ByName` | src/kb/item_names.py:80 | items by the name they carry, a later one over an earlier |
| `ItemNames.HandedBackWhenRearranged` | src/kb/item_names.py:68-86 | when the names held are plain and apart, a revision is handed back without a fault exactly when it drops, reorders and rewrites held items beside new ones with no names |
| `Places.Listed` | src/kb/places.py:45-56 | the loops list every part, each before those inside it |
| `Places.HoldsPart` | src/kb/places.py:39-42 | a place walked two steps at a time names a part exactly when each pair names an item and no step is a section's |
| `Places.ListingAndLookingUpAgree` | src/kb/places.py:39-89 | every place the lookup accepts is listed; and where no name holds a slash and no two items of a list share one, a place is listed exactly when the lookup accepts it |
| `Places.NamedIsListed` | src/kb/places.py:45-56 | every place the lookup accepts is listed, whatever the content |
| `Canonical.OrderedStandsAsDeclared` | src/kb/settled.py:57-108 | put in order, an artifact holds the names it held, once each: `id`, `type`, `revision` and `title` before all, in that order, then the fields as the type has them, what is declared nowhere as it was held, `sections`, and the collections as the type has them; an item its `id` before all, its fields as declared and the rest as held; a section, at every depth, its `title`, `body` and `sections` before the rest as held |
| `Arranging.Order` | src/kb/settled.py:72-83 | the entries put together step by step are `Ordered`, which stand as `Canonical.OrderedStandsAsDeclared` has it |
| `Arranging.OrderingHoldsTheSame` | src/kb/settled.py:72-108 | ordering loses no entry and adds none, at the top, in every section at every depth and in every item |
| `Arranging.OrderingKeepsOthers` | src/kb/settled.py:57-69 | what is declared nowhere at a level keeps the order it was held in, at the top, in items and in sections |
| `Arranging.OrderedOnce` | src/kb/settled.py:72-108 | what is in order once stays so |
| `Arranging.ArrangingKeepsKeys` | src/kb/settled.py:86-88 | a level arranged holds exactly the names it held, each once |
| `Encoding.DecodedUndoesEncoded` | src/kb/sqlite_reads.py:27-50 | decoding what was encoded gives back every content tree, mapping order included, whatever its keys and however deep the escape key is nested |
| `Encoding.EncodedIsJson` | src/kb/sqlite_reads.py:37-44 | what is encoded has text for every key, so it can be written as JSON |
| `Tickets.InOrder.Draw` | src/kb/server.py:68-72 | the first part of coming in draws the next ticket |
| `Tickets.InOrder.Enter` | src/kb/server.py:73 | the last part lets in the one whose ticket is served |
| `Tickets.InOrder.Leave` | src/kb/server.py:75-78 | leaving serves the next ticket |
| `Tickets.OneAtATimeInOrder` | src/kb/server.py:59-83 | in every interleaving at most one is inside, those that entered entered in the order they drew, none skipped, and whenever nobody is inside and someone waits the one whose ticket is served can enter |

## Left out

- Planned: what a draft leaves unjudged of a set that changes one artifact more than once (the links of the changes it acts over later) is what the port is handed none of; `Runs.EveryRunIsSerial`, `Agreement` and `Keeping` are stated for drafts judged so, which every draft without a fault is (`Drafting.DraftedIsPlanned`).
- Runs.EveryRunIsSerial: in runs where no IRI a set read is removed and held again between its draft and its landing (`Runs.NoneRebornIn`), for which alone a late landing is shown to leave what one drafted there leaves; `Runs.StepsAreSerial`, `Carrying.EveryRunStoresWhatIsCarried` and the first try of `Write.LandingIsAsDraftedThere` are too. Each set landed alone is `Planned` rather than drafted without a fault, because a late landing need not be accepted afresh (`ActedOver.ALateSetThatIsNotSerial`); `Serial.LateSetsAreSerial` says exactly when it is.
- Runs.EveryRunKeepsPlaces: in runs whose late landings are each on a store that bears what they hand (`Runs.BorneIn`), which `Runs.RunsKeepExactly` shows to be exactly the runs that keep everything; so are `Runs.EveryRunKeepsVersions`, `Runs.EveryRunKeepsWhatWasMade` and `Write.UnderTheLockASetLands`.
- Serial.LateSetsAreSerial: whether a link of a change acted over that is not carried on still lands is asked of the store the set lands on; no condition on the set alone is necessary, since a link into what no later landing may take away lands wherever the set does.
- Write.UnderTheLockASetLands: for sets of creates, replacements and items added; a set of removals may still be refused as linked, exactly when `Carrying.RemovalsLandWhenNoneIsLeftOfTheirKind` says.
- Imports: no run holds one; the mark an import's links carry is kept in the port's checks (`Landing.Lands`), and of an import only the files it would skip are modelled (`Skipping`). Repairs of the order a set gives one type's versions in (src/kb/drafting.py:53-65) go with them.
- Drafts read one store: of a draft made while others land, its reads each meeting another store, the two reads of the artifact an operation acts on are modelled (`Straddling`); that its types, the links it judges and the IRIs it finds empty are read at other moments still is not.
- Faults: a refusal is a tag; which faults are listed, in which order and in what words is not modelled. A set refused for one operation is refused whole, so what later operations of it would have done to the draft is not modelled either.
- Content checked against a type: JSON Schema is a predicate of the content and the version (`fits`), and the shape of a type's keywords a flag (`sound`); a schema is given flattened through what it is built on, one field name declared once for an artifact and its items.
- A link value that could name nothing stands in no artifact of the protocol (`Links`); `CarriedLinks.Keys` passes it over as the code does.
- ItemNames.SlugIsPlain: lower-casing is of ASCII letters alone, where the program's is Unicode's.
- Stored.kinds and Row.born: columns the model keeps and the database does not, read by no check of the port: what a link's field allows, and the landing a life began at.
- Skipping: the type of types is none of the files offered; which skipped files are reported, and the types no version of which would land (src/kb/skipping.py:24-62), are put together from `Chain` and are left out.
- CarriedLinks.ReadOncePerAddress: of types that declare no field and no collection twice, as the keys of a mapping are; CarriedLinks.Read is stated for the rest by the order it reads in alone.
- CarriedLinks.Read: reads a whole node; the links of one place inside an artifact (src/kb/links.py:83-87) are given to a walk as where it starts.
- Text: search rows, canonical text and its fingerprints, titles and stubs; JSON's own text is taken to read back as the values written.
- Encoding.DecodedUndoesEncoded: keys are told apart as values of one kind, where Python holds 1, 1.0 and true to be one key.
- DraftObject.LiveDraft: what `ids`, `versions` and `links_in` list they list in the order of names; the object gives the first two as sets (`Draft.Ids`, `Draft.VersionsOf`) and the third as a value (`SourceOrder`).
- ItemNames, Places, Arranging, CarriedLinks: content is a value, so an item named in place is an item of a new node; two holders of one mutable item are not modelled.
- Places.HoldsPart: asked of a place of one step or more; of none the code reads a step that is not there.
- Places found in sections, and the reading and replacing of a node at a place (src/kb/places.py:18-36).
- InOrder's waiting: a thread woken asks again, and is let in once its ticket is served; that it is woken, timeouts, and `arrived`, which tells how many have come, are not modelled.
- SQLite itself, WAL, backups, busy timeouts and file locks: a transaction is the tables noted and put back, the write lock a flag.
- The rest of the program: gRPC, the command line, exports and imports of directories, reports, history queries, search.
