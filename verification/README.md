# A verified model of Answerable's small step-by-step programs

This project models the parts of the repository whose guarantees are stated in comments and documentation but depend on every
input, every interleaving or every crash: the TLS certificate reader, the hero mosaic's allocator, the Toolbox's grants cache
and catalogue, the keyed writes and enablement plans against Answerable ID, the register and bootstrap Jobs, keyset
pagination, the staff previews, the waitlist's worksheet, and shell lines. Each is a Dafny module over the program's own
state, with the branches, constants and refusals of the code, and theorems about that model for all inputs and all runs.
`dafny verify dfyconfig.toml` checks the whole project.

Where the code works by changing things step by step the model does too: loops are methods with invariants, objects are
classes whose methods are proved equal to a specification function, and the theorems are about that function.

## Modules

- `Bytes`, `CertificateReader`, `CertificateRefusals`, `ClientHello`, `ChainFetch`: `infra/ops/src/database-ca.ts`. Messages
  as sections 6.2.1, 7.4.1.2 and 7.4.2 of RFC 5246 lay them out, and the server name of section 3 of RFC 6066. An encoder of a
  server's flight is the reader's inverse under every fragmentation and chunking.
- `MosaicLayout`, `MosaicTiling`, `MosaicDraws`, `MosaicStrike`, `MosaicStrikeDraws`, `MosaicBand`, `Mosaic`, `Mulberry`:
  `apps/web/lib/mosaic-layout.ts`. The layout as a function of any stream of draws in [0, 1); what holds of it for every
  stream; the loops over the half-cell grid, proved to compute it; and the seeded generator, whose draws are such a stream.
- `Grants`, `GrantsAnswers`, `GrantsReader`: `mcps/toolbox/src/grants.ts` as interleaved steps (a read begins, ID answers or
  fails, an invalidation, time passes), what every read is answered, and the reader's nested maps, proved to take those steps.
- `KeyedWrites`: one commit of keyed writes against an Answerable ID that keeps receipts, with requests and answers lost, late
  or refused, other staff making rows, and the client crashing anywhere. `Enablement`: the plans of both enable operations.
  `EnablementPlans`: what those plans are asked for and what a whole run adds, read off ID's rows.
- `Catalogue`: manifests, overrides and who may use what, over any run, with enable calls reading the catalogue when they plan
  and writing it later.
- `Differences`, `Registrar`, `Register`, `RegisterActs`, `JobLeaves`, `OpsRegister`, `RegisterJob`: what a deployment
  registers against an ID that keeps receipts and retires identifiers, over runs cut off after any write or ended by a throw.
  `KeyedUpdates`: one row's changes under `<key>-r<revision>`, with requests and answers lost or late and others changing it.
- `SecretUrl`, `Bootstrap`, `BootstrapJob`, `BootstrapOutcomes`: roles and Secrets brought into agreement across crashes, for
  every list of MCPs the chart may declare.
- `Records`, `Staff`, `Columns`, `Sheets`, `SheetsTogether`, `Shell`: the smaller programs. `Options` is the absent value they
  share.

## What was found

Where the code does not keep what a comment or the obvious reading promises, the model keeps the code, gives an input, and
proves exactly when the promise holds.

- A chain already read is lost if a later whole record in the same delivery is not a handshake record: `AlertAfterChain`,
  `ChainKeptIff`. The length of a certificate list is skipped, and a certificate running past its end is cut rather than
  refused: `EncodingUndoesReadingIff`, `CutEntryRead`.
- The strike pass skips columns left of the photo's third column to leave the boundary band as tuned
  (`apps/web/lib/mosaic-layout.ts:346`), but where the boundary is pushed to column 6 the band reaches past that: every such
  walk has a run that strikes the band, and no other has: `BandSparedIff`, `SomeBandIsStruck`. Of the page's own seed the
  top row is so pushed: `PageTopRow`; the model says nothing of whether it is struck. A struck comma claims no space, so its tail may leave the grid:
  `StruckTailInsideIff`; whatever was placed, some strike draws after it turn one off the right edge: `TailCanLeave`.
- An invalidation is lost on a member whose read is in flight: `InvalidationEffectiveIff`, `Overtaken`.
- An enablement plan names a row twice exactly when a host client with something to make is named twice: `PlannedOnceIff`. Its
  callers each name one client (`mcps/admin/src/standalone.ts:38`, `scripts/mcp/local-access.ts:38`), and the Toolbox's own
  enable removes repeats first, so this bounds who may call it rather than showing a fault.
- The catalogue is read when an enable call plans and written after its calls to ID (`mcps/toolbox/src/admin-enable.ts:86-101`),
  so one still under way when an ingest holds a new capability back writes the overrides from before and lets it loose:
  `LateEnableReleases`. The hold lasts until it is released if and only if no such call is under way:
  `HeldOffUntilReleasedIff`, `NewUnusableIff`, `OverridesKeptIff`.
- The registrar is to create what ID lacks (`infra/ops/src/registrar.ts:33-35`), but ID keeps the receipt of a creation for
  good (`apps/web/content/docs/id/manage.mdx:259`): a row staff removed since is not made again, and the Job counts it found.
  `RemovedStays`, `JobRemovedFound`. A run ends with everything it declares there if and only if no declared row is absent while
  ID has a receipt for its key or has retired its identifier: `RunSettlesIff`.
- An MCP served alone and named `admin` or `toolbox` shares its host client with the register Job's own, so the Job never
  settles; and otherwise it settles exactly when nothing stands against a declared row: `JobSettlesIff`. `bun mcp new` refuses
  both names (`scripts/mcp/rules.ts:13-15`) and the chart's list is generated, so the names take a list edited by hand.
- A run cut off just after it stored ops-register's secret, before its link or before its capability, leaves a client ID gives
  no token, and every later run stops at its first call, until an operator empties the stored secret: `OpsRegisterAbleIff`,
  `OpsRegisterWindow`. The source names the window as outside its promise. Where its capability was removed, emptying the
  secret does not help, since the receipt stands: `OpsRegisterRemoved`.
- A change of a registered row may be refused as a key used with other input exactly when a run begins while an earlier run's
  request, of another declaration, is still on its way: `ReusedIff`, `RivalIsReused`. Runs of one declaration never are:
  `NeverReused`.
- The preview of `staff.grant` does not read the entitlement's window, so the role it names is the one ID then gives exactly
  when the entitlement is in force or confers no more than is held: `GrantPreviewIff`, `GrantPreviewMisses`.
- The sheet finds an address again exactly when the caller normalised it, as the form does: `FoundAgainIff`. Two upserts of one
  address at once give it two rows exactly when both read before either added its row: `DoubledIff`, `LookRacesIff`.

## Model

| member | source | states |
|---|---|---|
| CertificateReader.CertificatesIn | infra/ops/src/database-ca.ts:48-78 | the loops over records, messages and certificates compute the reader's verdict of any bytes: incomplete, a chain, or which refusal |
| CertificateReader.HandshakeOf | infra/ops/src/database-ca.ts:49-59 | the record loop carries the fragments of the whole handshake records, and stops at the first alert or other record |
| CertificateReader.CertificatesOf | infra/ops/src/database-ca.ts:68-73 | the certificate loop reads every entry of the list, the last cut at the list's end |
| CertificateReader.ReadPrefix | infra/ops/src/database-ca.ts:43-78 | for every chain, every split of the hellos and the Certificate message into records, and every cut of the flight: the chain once the whole records carry the whole message, undefined until then, never an error |
| CertificateReader.ReadUndoesFlight | infra/ops/src/database-ca.ts:43-78 | the reader undoes the encoder of a whole flight, in order, whatever handshake bytes follow |
| CertificateReader.RecordsOfPrefix | infra/ops/src/database-ca.ts:50-59 | a prefix of a flight carries exactly the content of its whole records |
| CertificateReader.MessagesOfPrefix | infra/ops/src/database-ca.ts:60-66 | a message cut anywhere is waited for, and ServerHello messages before it change nothing |
| CertificateReader.VerdictKept | infra/ops/src/database-ca.ts:48-78 | of any bytes, a verdict once given is kept by whatever follows, unless that holds a whole record that is no handshake record, which becomes the verdict |
| CertificateReader.ChainKeptIff | infra/ops/src/database-ca.ts:56-57 | a chain once read stays the answer exactly while every later whole record is a handshake record |
| CertificateReader.AlertAfterChain | infra/ops/src/database-ca.ts:56 | a flight read as a chain, followed by an alert in the same delivery, is refused |
| CertificateReader.EncodingUndoesReadingIff | infra/ops/src/database-ca.ts:69-73 | for every certificate list, encoding what was read gives the list back if and only if its entries fill it exactly |
| CertificateReader.CutEntryRead | infra/ops/src/database-ca.ts:69-73 | a list whose entry runs past its end is read, the certificate cut, and encodes to another list |
| CertificateRefusals.RecordRefused | infra/ops/src/database-ca.ts:56-57 | after any whole handshake records, a whole alert is refused as that alert, with its bytes, and a record of any other type as that type, whatever follows |
| CertificateRefusals.MessageRefused | infra/ops/src/database-ca.ts:60-67 | after any hellos, however they are cut into records, a whole message that is neither a hello nor the certificates is refused by its type, whatever follows |
| CertificateRefusals.EmptyRefusedIff | infra/ops/src/database-ca.ts:68-75 | a whole Certificate message is refused as presenting none if and only if it has no room for an entry's length |
| ClientHello.RecordRead | infra/ops/src/database-ca.ts:15-21 | a reader of RFC 5246's ClientHello reads back any hello the length-prefixed encoder wrote, while the record's length fits sixteen bits |
| ClientHello.ExtensionsRead | infra/ops/src/database-ca.ts:21 | reading undoes writing for every list of extensions |
| ClientHello.HelloReadIff | infra/ops/src/database-ca.ts:29-41 | for every host and random, a server reads the fetch's hello back exactly if and only if the host is an address or has at most 65425 bytes |
| ClientHello.NameRead | infra/ops/src/database-ca.ts:32 | the server name read from the hello is the host, and there is none for an address |
| ClientHello.OffersRead | infra/ops/src/database-ca.ts:30-41 | what a server reads of the fetch's hello: the eight suites in order, three curves, uncompressed points and eight signature algorithms, behind the server's name when the host is no address |
| ChainFetch.Fetch.OnData | infra/ops/src/database-ca.ts:101-118 | a chunk takes the fetch's `answered`, `flight`, outcome and writes to the next state of the event machine |
| ChainFetch.Fetch.On | infra/ops/src/database-ca.ts:99-120 | connection, error, hang-up and the timer do, too |
| ChainFetch.ChunkedRun | infra/ops/src/database-ca.ts:101-118 | after any chunks that spell S and a prefix of a flight, the outcome depends on the prefix alone, not on where the chunks are cut |
| ChainFetch.SteadyMonotone | infra/ops/src/database-ca.ts:111-114 | along such a flight an answer is never taken back |
| ChainFetch.FetchFindsChain | infra/ops/src/database-ca.ts:87-122 | for every chain, fragmentation and chunking the fetch ends with the server's chain, having asked for TLS once and sent one hello |
| ChainFetch.SettledOnce | infra/ops/src/database-ca.ts:93-98 | once settled, no later event changes the outcome |
| ChainFetch.EndsAs | infra/ops/src/database-ca.ts:97-121 | of any events, the first that decides gives the outcome: the timer, an error, a hang-up, N exactly for refused TLS, any other first byte or none for not PostgreSQL, and past an S the reader's verdict; no hello is sent and no flight kept but after an S |
| ChainFetch.WaitsWhileUndecided | infra/ops/src/database-ca.ts:100-115 | until then the fetch waits, having sent an SSLRequest for each connection and one hello after the S, and keeps exactly the bytes after it |
| ChainFetch.RequestsTls | infra/ops/src/database-ca.ts:13 | the request is PostgreSQL's SSLRequest: its own length, then 80877103 |
| MosaicLayout.OrderSorts | apps/web/lib/mosaic-layout.ts:190-192 | the rotations are tried in the order of their draws, ties as in the table |
| MosaicLayout.OrderPermutes | apps/web/lib/mosaic-layout.ts:190-192 | and each of them once |
| MosaicLayout.StartsBound | apps/web/lib/mosaic-layout.ts:215-223 | for every stream, each row's boundary lies between columns 3 and 6, so that its band ends at the photo's first column or past it |
| MosaicTiling.SeparateIff | apps/web/lib/mosaic-layout.ts:160-175 | comparing rectangles is the same as sharing no half-cell |
| MosaicTiling.PlacedSound | apps/web/lib/mosaic-layout.ts:154-314 | for every stream, before the strike pass every claim lies inside the grid, no two overlap, image marks claim only half-cells over the photo, and a solid mark left of the boundary fades from 0.85 to 0.45 by tenths with its distance |
| MosaicTiling.OneMarkPerCell | apps/web/lib/mosaic-layout.ts:154-314 | no two marks stand on one cell |
| MosaicTiling.SemicolonMargin | apps/web/lib/mosaic-layout.ts:268-287 | no other mark's claim touches a semicolon's half-cells or their neighbours, corners included |
| MosaicTiling.SemicolonsFew | apps/web/lib/mosaic-layout.ts:270-287 | at most three semicolons are added, over at most forty tries |
| MosaicTiling.MassIsSolid | apps/web/lib/mosaic-layout.ts:225-239 | every cell right of the band is an image square of the mass |
| MosaicTiling.CoastlineContinuous | apps/web/lib/mosaic-layout.ts:213-223 | the walk moves at most one column from row to row, and the outer two rows are pushed by one |
| MosaicDraws.WalkByDraws | apps/web/lib/mosaic-layout.ts:215-221 | the first draw picks column 3, 4 or 5 by thirds; a row's draw steps left in its first quarter and right in its last; the walk stays in 3 to 5 |
| MosaicDraws.CellsDecided | apps/web/lib/mosaic-layout.ts:225-314 | for every stream each cell of the grid holds what a draw of its own makes of it among the marks placed before: a photo square in the mass; in the band a square under 0.65 where free, else under 0.83 a comma in the least-drawn rotation that fits, else nothing; left of it a mark under 0.4 times 0.75 for each column further, six commas in ten, faded by distance; its delay is the draw's rounded share of 240 ms, and nothing else stands there |
| MosaicDraws.PlacedInOrder | apps/web/lib/mosaic-layout.ts:225-314 | marks are placed mass first, then band, semicolons and scatter, each but the semicolons row by row and left to right |
| MosaicDraws.SemicolonsDrawn | apps/web/lib/mosaic-layout.ts:270-286 | each semicolon stands in the row and the column its try's two draws name, two or three columns left of the boundary, and fades by that distance |
| MosaicDraws.SemicolonsDraw | apps/web/lib/mosaic-layout.ts:270-287 | the tries spend two draws each and stop at three placed or at the fortieth |
| MosaicStrike.StruckKeeps | apps/web/lib/mosaic-layout.ts:335-366 | for every stream, the pass turns exactly the struck marks, each an image square past the photo's second column and away from the focus commas, leaves the others as they were, and keeps any two struck cells more than a clear cell apart |
| MosaicStrike.StruckGlyphsSeparate | apps/web/lib/mosaic-layout.ts:41-44 | for every stream, no two struck commas of its run share a half-cell, whichever way they point |
| MosaicStrike.StruckTailInsideIff | apps/web/lib/mosaic-layout.ts:316-319 | for every stream, a struck comma of its run stays on the grid if and only if its tail does not point off the top, bottom or right edge it stands on |
| MosaicStrike.ArrangedIsRearranged | apps/web/lib/mosaic-layout.ts:383-387 | the drawing order holds every placed mark once, and the two focus commas |
| MosaicStrike.SameCells | apps/web/lib/mosaic-layout.ts:344-366 | each mark still stands on the cell it was placed on |
| MosaicStrike.DrawnInLayers | apps/web/lib/mosaic-layout.ts:383-387 | along the drawing order, a layer read off the mark itself never decreases: unstruck, then struck, then the focus commas; within the first two the marks stand in the order they were placed |
| MosaicStrikeDraws.StrikesDecided | apps/web/lib/mosaic-layout.ts:344-366 | for every stream a placed mark is struck exactly when it is a photo square from column 7 on, clear of both faces, nothing on or beside its cell was struck before, and a draw is under 0.05, or under 0.25, 0.15 or 0.1 next to the top, bottom or right edge; the next draw turns it by quarters |
| MosaicStrikeDraws.NearFocusIff | apps/web/lib/mosaic-layout.ts:322-333 | the cells kept clear for the hand-placed commas are columns 9 to 12 of rows 8 to 11 and columns 12 to 15 of rows 10 to 13 |
| MosaicStrikeDraws.CommaCovers | apps/web/lib/mosaic-layout.ts:140-152 | a comma covers its own cell and the two half-cells its tail points to: below, left, above or right |
| MosaicStrikeDraws.FacesLast | apps/web/lib/mosaic-layout.ts:368-387 | last drawn are the two hand-placed commas, upright cutouts, at columns 10 and 13 |
| MosaicBand.PlacedSame | apps/web/lib/mosaic-layout.ts:154-314 | streams that agree on every draw the placing made place the same marks |
| MosaicBand.BandIsSolid | apps/web/lib/mosaic-layout.ts:241-266 | with zeros after the walk, every cell of the band over the photo holds an image square |
| MosaicBand.BandSpared | apps/web/lib/mosaic-layout.ts:346 | where a row's boundary is at most column 5, no stream's run strikes a mark of its band |
| MosaicBand.BandCanBeStruck | apps/web/lib/mosaic-layout.ts:346 | where it is pushed to column 6, some stream with the same walk runs to strike the band's second square |
| MosaicBand.BandSparedIff | apps/web/lib/mosaic-layout.ts:346 | so a row's band is spared by the run of every stream with its walk if and only if its boundary is at most column 5 |
| MosaicBand.SomeBandIsStruck | apps/web/lib/mosaic-layout.ts:213-223 | and such a walk, and a run that strikes the top row's band, there is |
| MosaicBand.TailCanLeave | apps/web/lib/mosaic-layout.ts:362-366 | whatever is placed, some strike draws after it leave a struck comma's tail off the grid |
| Mosaic.LookIsCompare | apps/web/lib/mosaic-layout.ts:166-171 | looking at a rectangle's half-cells decides whether it is separate from every claim |
| Mosaic.Layout.Free | apps/web/lib/mosaic-layout.ts:166-171 | the loops over `occ` answer whether the rectangle is inside and separate from every mark's claim |
| Mosaic.Layout.Claim | apps/web/lib/mosaic-layout.ts:172-175 | exactly the rectangle's half-cells become occupied |
| Mosaic.Layout.Put | apps/web/lib/mosaic-layout.ts:172-177 | a claimed mark is pushed with the draws its fields make |
| Mosaic.Layout.PlaceComma | apps/web/lib/mosaic-layout.ts:189-211 | the first fitting rotation in drawn order is placed, or none |
| Mosaic.Layout.WalkBoundary | apps/web/lib/mosaic-layout.ts:213-223 | the walk is the specification's, and in bounds |
| Mosaic.Layout.PlaceMass | apps/web/lib/mosaic-layout.ts:225-239 | the mass, claimed without asking, lands on free cells |
| Mosaic.Layout.PlaceBand | apps/web/lib/mosaic-layout.ts:241-266 | the ragged band as specified |
| Mosaic.Layout.PlaceSemicolons | apps/web/lib/mosaic-layout.ts:268-287 | the semicolons as specified |
| Mosaic.Layout.PlaceScatter | apps/web/lib/mosaic-layout.ts:289-314 | the scatter as specified |
| Mosaic.Layout.Strike | apps/web/lib/mosaic-layout.ts:335-387 | the pass over the marks in place, and the drawing order, as specified |
| Mosaic.Layout.Compute | apps/web/lib/mosaic-layout.ts:154-388 | the whole layout equals its specification for any stream and is drawn in layers; before the strike pass `occ` shows exactly the union of the claims |
| Mulberry.Mulberry32.Next | apps/web/lib/mosaic-layout.ts:130-138 | its successive draws are those of a stream of the seed, each in [0, 1), as the other results ask |
| Mulberry.PageDraws | apps/web/lib/mosaic-layout.ts:130-138 | the generator's first two draws of the page's seed, as numbers |
| Mulberry.PageTopRow | apps/web/lib/mosaic-layout.ts:213-223 | of the page's own seed the top row has its boundary at column 6, where a band may be struck |
| Grants.GrantsOfView | mcps/toolbox/src/grants.ts:8-52 | an answer holds exactly the grant strings ID's view gives the Toolbox as a whole or the caller's own client |
| Grants.RunOk | mcps/toolbox/src/grants.ts:46-98 | the cache's invariant holds in every interleaving of reads, fetches, failures, invalidations and time |
| Grants.EveryAnswerFresh | mcps/toolbox/src/grants.ts:74-86 | in every interleaving, an answer comes from an ID response received less than 60 seconds before it was decided, for the same organisation, member and authorisation version, filtered to the caller's client |
| Grants.SingleFlight | mcps/toolbox/src/grants.ts:79-84 | at most one call to ID is in flight per organisation, member and version |
| Grants.RunSince | mcps/toolbox/src/grants.ts:62-96 | after an invalidation with no read of the member in flight, over every later run, each answer is of a later fetch, or of the kept entry only when that fetch failed and the entry had not expired |
| Grants.InvalidationEffectiveIff | mcps/toolbox/src/grants.ts:87-96 | in any reachable state the invalidation takes effect for the member in every later run if and only if no read of theirs is in flight |
| Grants.Overtaken | mcps/toolbox/src/grants.ts:80-85 | the run in which a fetch already under way answers from before |
| GrantsAnswers.FetchGives | mcps/toolbox/src/grants.ts:62-86 | whatever happens between, a caller whose read began a fetch and whoever joined it are given ID's view when ID answers; when the call fails, exactly what the entry the read found gives each one's client while it has not expired, and an error if and only if there was none or it had |
| GrantsAnswers.EntryIsAnswer | mcps/toolbox/src/grants.ts:65 | such an entry is what ID answered for that organisation, member and version, 60 seconds before it expires |
| GrantsAnswers.AnsweredAtOnceIff | mcps/toolbox/src/grants.ts:65-78 | while nothing names the member or answers for it again, a read is answered at once, asking nothing of ID, if and only if less than 60 seconds have passed since ID's answer |
| GrantsAnswers.EachReadAnsweredOnce | mcps/toolbox/src/grants.ts:74-86 | over any events no read is lost and none answered twice: those answered and those awaiting a fetch are as many as the reads |
| GrantsAnswers.GrantForms | mcps/toolbox/src/grants.ts:5-8 | a grant string is a provider other than `toolbox`, a provider and a domain, or these and an operation, each a lower-case letter and then letters and digits, at most 12 of a provider and 16 of the others |
| GrantsAnswers.GrantIsFormed | mcps/toolbox/src/grants.ts:5-8 | and every grant string is of one of those forms |
| GrantsReader.Reader.Read | mcps/toolbox/src/grants.ts:74-86 | a read answers from the entry, joins the pending fetch or begins one, as the step says |
| GrantsReader.Reader.OnAnswered | mcps/toolbox/src/grants.ts:62-66 | ID's answer is remembered and handed to the callers |
| GrantsReader.Reader.OnFailed | mcps/toolbox/src/grants.ts:67-71 | a failure answers from the kept entry while it is unexpired, else throws |
| GrantsReader.Reader.RememberEntry | mcps/toolbox/src/grants.ts:54-61 | the sweep over the nested maps drops every other entry exactly when it has expired, changes none it keeps, and with the set equals the specification on the flat cache |
| GrantsReader.Reader.Invalidate | mcps/toolbox/src/grants.ts:87-96 | the loops mark stale exactly the named organisations' and users' entries, and `changed` runs exactly when one is named |
| KeyedWrites.AtMostOnce | mcps/admin/src/calls.ts:63-92 | whatever is lost, late or refused, and however often the commit restarts, a key's write has made a row at most once |
| KeyedWrites.ReturnedExactlyOnce | mcps/admin/src/calls.ts:70-79 | a write that returns has been applied exactly once, or its link stood already, and the row it names is its target's |
| KeyedWrites.ThrowsWhy | mcps/admin/src/calls.ts:10-18 | in every run no key of the commit is refused as reused, and a write throws for one of two reasons: ID refused it outright (stale on 412, rejected otherwise), or its second sending failed or the key was still at work, and then it says unavailable |
| KeyedWrites.SentOnceMore | mcps/admin/src/calls.ts:63-92 | in one commit, over any events, each step is sent once, and once more under the same key exactly after no answer or a 5xx; a second silence, or a key still at work, ends it as unavailable and only those do, so that no write goes out more than twice |
| KeyedWrites.ProcessKeepsId | apps/id/src/services/operations.ts:75-110 | one transaction keeps each key applied at most once and with its receipt, no two targets sharing a row, and every receipt naming its target's row |
| KeyedWrites.RunOk | mcps/admin/src/standalone.ts:62-72 | the protocol's invariant over every run |
| KeyedWrites.CommitListsEachOnce | mcps/admin/src/standalone.ts:62-72 | a commit that succeeds, after any number that failed, leaves a row for every planned target and lists each step once: created those applied under this intent, existing the others |
| KeyedWrites.Finishes | mcps/admin/src/standalone.ts:60-72 | from any state failures left, the commit started again finishes once the network works |
| KeyedWrites.CommitResumes | mcps/admin/src/standalone.ts:53-72 | after any run of events there are further ones in which the commit, started again, finishes |
| Enablement.PlanResumes | mcps/admin/src/enablement.ts:51-71 | running any prefix of a plan and planning again gives exactly the rest: no row is planned twice |
| Enablement.EmptyPlanIff | mcps/admin/src/enablement.ts:38-71 | the plan is empty if and only if every target is held |
| Enablement.WholeRunHolds | mcps/admin/src/enablement.ts:51-71 | a whole run leaves every target held, and nothing to plan |
| Enablement.StoppedIff | mcps/admin/src/enablement.ts:23-30 | a plan stops if and only if some target's row does not fit |
| Enablement.StandaloneResumes | mcps/admin/src/enablement.ts:40-71 | so for distinct host clients an enablement resumes |
| Enablement.PlannedOnceIff | mcps/admin/src/enablement.ts:51-71 | a plan that is not stopped names no row twice if and only if no client with a target still to make is named twice |
| Enablement.RepeatedClientPlannedTwice | mcps/admin/src/enablement.ts:52-53 | such a list of clients, in an organisation that holds nothing |
| EnablementPlans.StandsAs | mcps/admin/src/enablement.ts:23-30 | a target is held if the first row of it is active with at least its scopes, absent if there is none, and stops the plan otherwise |
| EnablementPlans.PlanIsAsked | mcps/admin/src/enablement.ts:51-71 | a plan makes exactly what is asked for and not there: each client's link, the login and resource capabilities for both grant kinds, everyone's login, and everyone's MCP scopes only when `everyone` is asked; it stops exactly when the row of something asked for does not fit |
| EnablementPlans.WholeRunAdds | mcps/admin/src/enablement.ts:51-71 | a whole run adds to ID's links, capabilities and entitlements exactly those, and the organisation-wide entitlement of the resource only if it was asked for and absent |
| EnablementPlans.WholeRunSignsIn | mcps/admin/src/enablement.ts:51-71 | where no client is named twice, after it every one is linked, approved for login and resource with both grant kinds, and everyone entitled to sign in through it, to the MCP's scopes too if that was asked |
| EnablementPlans.PlanInOrder | mcps/admin/src/enablement.ts:51-71 | the plan keeps the order of the clients, and within one: link, login capabilities, resource capabilities, entitlements |
| EnablementPlans.EnableIs | mcps/toolbox/src/admin-enable.ts:52-90 | the Toolbox enable asks for its resource's scopes first, for each client's rows for login and `toolbox`, entitlements included, and last for each named provider's catalogue row, and for nothing else |
| Enablement.EnablementSteps | mcps/admin/src/enablement.ts:51-71 | the nested loops push exactly the plan, or stop |
| Enablement.ClientSteps | mcps/admin/src/enablement.ts:53-68 | one client's link, capabilities and entitlements, in order |
| Enablement.EnableDistinct | mcps/toolbox/src/admin-enable.ts:46-98 | the Toolbox enable's targets never clash, since it removes repeats |
| Enablement.EnableRepeats | mcps/toolbox/src/admin-enable.ts:93-104 | a call stopped after any of its writes and repeated ends where the first would have, makes exactly the rest, and reports the same steps in the same order |
| Enablement.UndisturbedWrites | mcps/toolbox/src/admin-enable.ts:86-101 | where nobody writes between, a plan's catalogue rows, written with the overrides it read, are those the plan's own state calls for |
| Enablement.OverridesKeptIff | mcps/toolbox/src/admin-enable.ts:86-101 | an enable disables no provider, and leaves a provider's overrides as they then are if and only if it writes no row of it or they are still what its plan read |
| Catalogue.RunKeepsContracts | mcps/toolbox/src/catalogue.ts:39-56 | over any run a stored identity and version keeps its kind, risk, input and output |
| Catalogue.RefusedIff | mcps/toolbox/src/catalogue.ts:26-45 | an ingest of any manifests is refused if and only if one of them would change the contract of a version stored before or brought by a manifest before it |
| Catalogue.IngestKeepsAllowed | mcps/toolbox/src/projection.ts:5-14 | no ingest changes whether an organisation's caller may use a capability already stored, nor its policy class |
| Catalogue.AllowedIff | mcps/toolbox/src/projection.ts:4-10 | read off the text of `<provider>/<domain>` and what follows it, a caller may use a capability if and only if its provider is enabled, it is not ruled out, and one of their grants is the provider, the domain or the identity |
| Catalogue.PolicyClassIs | mcps/toolbox/src/projection.ts:12-14 | a mutation's class is the organisation's own for the identity, else agent, controlled or human exactly as its risk is low, normal or high |
| Catalogue.IngestStores | mcps/toolbox/src/catalogue.ts:39-56 | an accepted ingest stores each version under its contract, with the title and description of the last manifest that names it |
| Catalogue.IngestLeaves | mcps/toolbox/src/catalogue.ts:49-56 | and leaves every version no manifest names as it was |
| Catalogue.EntriesGain | mcps/toolbox/src/catalogue.ts:46-59 | an organisation's entry gains exactly the identities its provider did not have and has now, where it is enabled, and nothing else of it changes |
| Catalogue.NewIsHeldBackIff | mcps/toolbox/src/catalogue.ts:46-59 | after an ingest of any manifests that is not refused (`RefusedIff`), a capability any of them brought is off for an organisation if and only if its provider was enabled there, or it was ruled out before |
| Catalogue.HeldOffUntilReleasedIff | mcps/toolbox/src/admin-enable.ts:86-101 | what is off stays off over every run of ingests, writes and enables that does not release it, if and only if no enable call of its organisation and provider under way read overrides without it |
| Catalogue.NewUnusableIff | mcps/toolbox/src/catalogue.ts:19-24 | so a capability any manifest of an ingest not refused brings to an enabled provider is unusable by anyone, over every run without a write that leaves it out of `disabled`, if and only if no such call is under way |
| Catalogue.LateEnableReleases | mcps/toolbox/src/admin-enable.ts:86-101 | two enables of one provider, the second finishing after an ingest: what it brought may be used, though nothing released it |
| Catalogue.Database.IngestAll | mcps/toolbox/src/catalogue.ts:25-62 | the loop over manifests in one transaction: all of them, or, refused, every row as it was |
| Catalogue.Database.IngestOne | mcps/toolbox/src/catalogue.ts:28-59 | one manifest: refused, or rows upserted and new identities held back |
| Differences.SortedSameIff | infra/ops/src/registrar.ts:8-29 | two lists have one sorted, unique form if and only if they have the same members |
| Differences.PatchIsExact | infra/ops/src/registrar.ts:27-31 | an update sends exactly the fields that differ, lists as sets, with the wanted values; sending it leaves nothing to send |
| Differences.ComputePatch | infra/ops/src/registrar.ts:30 | the filter over the fields computes that patch |
| KeyedUpdates.AppliedOnce | infra/ops/src/registrar.ts:62-78 | whatever is lost, late or cut off, and whichever declarations are run, no `<key>-r<revision>` is applied twice |
| KeyedUpdates.ReturnedApplied | infra/ops/src/registrar.ts:71-77 | a run told its change was made, now or before, has had it applied once, to the body it read |
| KeyedUpdates.NeverReused | infra/ops/src/admin-api.ts:71-72 | over cut and repeated runs of one declaration, no key is refused as used with other input |
| KeyedUpdates.ReusedIff | infra/ops/src/admin-api.ts:71-72 | in any reachable state, a run's change may be refused so if and only if, when it begins, another change of the same revision is still on its way |
| KeyedUpdates.RivalIsReused | infra/ops/src/admin-api.ts:71-72 | from every start, a cut-off run's request on its way, another declaration's run, and the second key is refused |
| KeyedUpdates.ToldIff | infra/ops/src/registrar.ts:62-78 | a run ends done exactly when it found nothing to change or its change was made, now or before, and throws exactly on no answer, a stale ETag or a used key |
| Registrar.RunSettlesIff | infra/ops/src/registrar.ts:33-60 | a run ends without a throw and with every declaration there as declared if and only if no declared row is absent while ID has a receipt for its key or retired its identifier, and what is sent unread meets only its own receipt or row |
| Registrar.RunFinds | infra/ops/src/registrar.ts:46-60 | run again, a run that did not throw counts each of its declarations found, there or replayed |
| Registrar.CutRunsConverge | infra/ops/src/registrar.ts:79-128 | however many runs were cut off, or ended by a throw, a whole run ends as one uninterrupted run: in the same rows and receipts, thrown or not |
| Registrar.FurtherRunFinds | infra/ops/src/registrar.ts:39-128 | after a run that finished, a further run counts every declaration found, whether its row is there or not, and touches no row |
| Registrar.RemovedStays | apps/id/src/services/operations.ts:86-105 | a declared row removed since ID gave the receipt for its key is made again by no run, cut off or whole |
| Registrar.RemovedIsFound | infra/ops/src/registrar.ts:46-60 | a finished run's capability once removed, the next run counts every declaration found, and the capability is not there |
| Registrar.SharedScopesUnion | infra/ops/src/registrar.ts:84-93 | a shared resource ends with what it held and everything declared of it, in any order, where ID has or makes it, and else stays out |
| Registrar.OwnScopesLast | infra/ops/src/registrar.ts:89-92 | an MCP's own resource ends with its last manifest's scopes where ID has or makes it, and else stays out |
| Registrar.CapabilityScopesUnion | infra/ops/src/registrar.ts:111-121 | a capability's scopes end as the union of what was held and everything declared, where ID has or makes it, and else it stays out |
| Registrar.ClientListsUnion | infra/ops/src/registrar.ts:94-105 | so do a client's redirect URIs and scopes |
| Register.AllInSync | infra/ops/src/register.ts:92-103 | after every write, a secret the store holds is ID's current one, or that of a client ID retired |
| Register.SecretsStored | infra/ops/src/register.ts:96-103 | unless the run throws, a finished machine client has its secret stored |
| Register.RegisterConverges | infra/ops/src/register.ts:92-154 | cut off after any writes, or by throws, any number of times, then run whole: ID as one uninterrupted run leaves it, and, unless it throws, every machine secret stored, and current while ID has the client |
| Register.FurtherRun | infra/ops/src/register.ts:158-159 | after a run that did not throw, a further run makes and changes nothing, ID, secrets and store included |
| RegisterActs.JobSound | infra/ops/src/register.ts:113-154 | the Job's own list of declarations is coherent, one key to a row, and ordered, for every configuration and list of MCPs without a reserved name |
| RegisterActs.JobConverges | infra/ops/src/register.ts:92-154 | so the Job itself converges, and, unless it throws, its two services' secrets are stored and a further run counts zero made and zero changed |
| RegisterActs.ReservedNeverHeld | infra/ops/src/registrar.ts:152-157 | with an MCP called admin or toolbox no rows hold all that is declared |
| RegisterActs.JobSettlesIff | infra/ops/src/register.ts:122-154 | a whole run of the Job ends without a throw and with all it declares there if and only if no MCP it serves alone has such a name and ID would make every declared row it lacks |
| RegisterActs.JobRemovedFound | infra/ops/src/registrar.ts:46-60 | a capability the Job made and staff removed: the next run makes nothing, changes nothing, throws nothing, and leaves it out |
| JobLeaves.HoldsIffStands | infra/ops/src/registrar.ts:79-127 | a row is as declared if and only if it is there with its name and lifetime, at least the declared lists, and exactly an own resource's or an entitlement's scopes |
| JobLeaves.LeavesIff | infra/ops/src/registrar.ts:79-127 | a whole run leaves every declared row so, without a throw, if and only if nothing stood against any |
| JobLeaves.JobLeavesAll | infra/ops/src/register.ts:122-154 | a Job nothing stands against leaves the Toolbox, the admin MCP with its roles, both machine clients with what they may call, and each standalone MCP with its resource's exact scopes and its linked client, name by name and scope by scope |
| JobLeaves.JobClientsSignAs | infra/ops/src/register.ts:92-95 | a client the Job made has a secret and client credentials if it is toolbox-hub or admin-mcp, else signs a person in without one |
| JobLeaves.TallyTells | infra/ops/src/registrar.ts:39-78 | over any run the tally's made are the rows that appeared and the secrets rotated, its changed the declarations that changed a row there, its found those that changed nothing |
| OpsRegister.OpsRegisterAbleIff | infra/ops/src/register.ts:81-120 | from any state without its secret, over any runs each cut off anywhere, ops-register ends with its secret stored and a token to be had if and only if ID has or makes its client, and the run that stored the secret found its link and capability or got as far as making them with no receipt standing for the capability |
| OpsRegister.OpsRegisterWindow | infra/ops/src/register.ts:73-83 | cut off in the two acts after the secret, every later run changes nothing; the stored secret once emptied, a whole run leaves it able if and only if no receipt stands for its capability |
| OpsRegister.OpsRegisterRemoved | infra/ops/src/register.ts:73-108 | minted whole, its capability removed and its secret emptied: no run leaves it able again |
| RegisterJob.Job.Write | apps/id/src/services/operations.ts:61-112 | a creation as ID takes it and the registrar counts it: replayed, refused, a conflict, or made with its receipt |
| RegisterJob.Job.EnsureResource | infra/ops/src/registrar.ts:85-93 | a resource created, replayed, changed or found, and counted, or a throw |
| RegisterJob.Job.EnsureClient | infra/ops/src/registrar.ts:95-105 | a client created with the secret ID answers, replayed without one, changed or found, or a throw |
| RegisterJob.Job.EnsureLink | infra/ops/src/registrar.ts:123-126 | a link made when the client's row lacks it, or a throw where there is no client |
| RegisterJob.Job.EnsureCapability | infra/ops/src/registrar.ts:111-121 | a capability made, replayed, widened or found, or a throw |
| RegisterJob.Job.EnsureRole | infra/ops/src/register.ts:142-147 | a role's group sent unread, looked up by its slug, and its entitlement, or a throw where the group is gone |
| RegisterJob.Job.Machine | infra/ops/src/register.ts:92-108 | the client, its secret stored or rotated, then each audience in a loop, up to the first throw: exactly the acts of the specification |
| SecretUrl.DecodeUndoesEncode | infra/ops/src/bootstrap.ts:105 | percent-decoding undoes `encodeURIComponent` for every ASCII text |
| SecretUrl.EncodedAsItselfIff | infra/ops/src/bootstrap.ts:105 | a text is encoded as itself if and only if it is of letters, digits and the nine marks `encodeURIComponent` leaves alone |
| SecretUrl.LoginRead | infra/ops/src/bootstrap.ts:146-156 | the user and password of a stored URL are read back as written |
| SecretUrl.PasswordReadBack | infra/ops/src/bootstrap.ts:146-156 | `passwordIn` gives the password of the URL bootstrap stored, whatever it is, and refuses the URL for any other login |
| SecretUrl.LiteralReads | infra/ops/src/bootstrap.ts:49 | PostgreSQL reads the literal of any text as that text, up to where the literal was meant to end |
| Bootstrap.RunAgrees | infra/ops/src/bootstrap.ts:90-108 | a completed run, from whatever was there, leaves a login's role with the password of its Secret's URL, and no refused attribute |
| Bootstrap.SecretKept | infra/ops/src/bootstrap.ts:93-107 | a stored Secret is never written again by any run, stopped or not |
| Bootstrap.PasswordKept | infra/ops/src/bootstrap.ts:93-107 | a further completed run keeps the password |
| Bootstrap.RunOwns | infra/ops/src/bootstrap.ts:109-123 | a completed run leaves a database its owner's, closed to the public, open to its runtime logins and whoever was let in by name before, none of them with TEMPORARY |
| Bootstrap.CompletedRunAgrees | infra/ops/src/bootstrap.ts:87-125 | for every list of databases whose logins are apart, after any stopped runs, a completed run leaves every login in agreement and no stored Secret changed |
| Bootstrap.CompletedRunOwns | infra/ops/src/bootstrap.ts:109-125 | and every database owned and closed |
| Bootstrap.FurtherRunWritesNone | infra/ops/src/bootstrap.ts:85-107 | a further run, completed or not, writes no Secret |
| BootstrapJob.DatabasesApart | infra/ops/src/bootstrap.ts:8-41 | for every list of MCPs the chart may declare, no two logins share a name or a Secret's key |
| BootstrapJob.DatabaseNamesApart | infra/ops/src/bootstrap.ts:25-41 | and no two databases a name |
| Bootstrap.StoppedConnects | infra/ops/src/bootstrap.ts:109-123 | runs that stopped anywhere let none but a database's runtime logins in, and shut none out |
| BootstrapJob.ReleaseInLine | infra/ops/src/bootstrap.ts:77-125 | so for every such list, after any number of stopped runs, a completed run leaves the release in line, a database connectable only by its own logins if and only if nobody else had been let in by name, and a run after it writes no Secret |
| BootstrapOutcomes.RecoversIff | infra/ops/src/bootstrap.ts:87-108 | after any stopped runs the next completes if and only if, before the first of them, no login had an attribute only a superuser could clear and every stored Secret was its login's URL: a stopped run leaves nothing the next is refused for |
| BootstrapOutcomes.CompletedRunRestrains | infra/ops/src/bootstrap.ts:50-54 | a completed run leaves a runtime login without CREATEDB, CREATEROLE or INHERIT, an owner's attributes as they were, and in every Secret that was empty the URL of that login, with the role's own password, the server, the login's database and full verification |
| BootstrapOutcomes.ReleaseRuns | infra/ops/src/bootstrap.ts:77-125 | so for every list of MCPs the chart may declare |
| BootstrapJob.Job.SetLogin | infra/ops/src/bootstrap.ts:92-107 | one login's password read back or drawn, its role set or refused, its Secret written when it had none |
| BootstrapJob.Job.SetDatabase | infra/ops/src/bootstrap.ts:109-122 | a database made or given to its owner, then its privileges |
| BootstrapJob.Job.Bootstrap | infra/ops/src/bootstrap.ts:87-125 | the nested loops, stopping at the first refusal, are the specified run |
| Records.PageItems | mcps/e2e/src/records.ts:30-33 | a page is the first rows past the cursor, with a next cursor exactly when one more was fetched |
| Records.FollowAscends | mcps/e2e/src/records.ts:25-34 | however the table changes between pages, the ids come strictly ascending, none twice |
| Records.FollowReads | mcps/e2e/src/records.ts:14-34 | each item is a row of the caller's organisation as it stood in a table read, field by field |
| Records.CompleteHasThroughout | mcps/e2e/src/records.ts:25-34 | a traversal that completes has every row that was there at each read |
| Records.RefusedIff | mcps/e2e/src/records.ts:27-29 | a traversal is refused if and only if the list asks for the cursor's row and it is gone |
| Records.FixedTable | mcps/e2e/src/records.ts:25-34 | on a table nobody changes, the pages joined are the caller's rows in order, whatever the limit |
| Records.ListAll | infra/ops/src/admin-api.ts:108-118 | the loop that follows a list to its end, ID's (`apps/id/src/db/queries/lists.ts:35-53`) or the records', returns the whole traversal, or throws when any read fails |
| Staff.HeldThrough | apps/id/src/db/queries/access.ts:72-169 | a scope is held in the access view exactly through an entitlement ID counts towards the member |
| Staff.RoleIs | mcps/admin/src/roles.ts:7-12 | a member's role is owner, admin or team exactly as the highest of `answerable-owner`, `answerable-admin` and `answerable-team` some counted entitlement carries, else none |
| Staff.PrepareRevoke | mcps/admin/src/staff.ts:75-119 | the preview's refusals, groups, remaining role and warnings, in their order: the role is the one computed after the removals, still-holds and no-other-owner appear exactly when true of that state, and a refusal names the first entitlement that confers the role |
| Staff.RemainingHeld | mcps/admin/src/staff.ts:94 | what the preview counts as remaining is, scope by scope, what ID gives after the removals |
| Staff.OwnersAfter | mcps/admin/src/staff.ts:99-102 | some owner is left after the removals exactly when the member stays one or another is one now |
| Staff.LeavingAre | mcps/admin/src/staff.ts:80-81 | the groups left are exactly those through which the member holds the role |
| Staff.CutRevokeKeepsRole | mcps/admin/src/staff.ts:103-128 | a revoke cut off before its last removal has left the member the role |
| Staff.Id.CommitRevoke | mcps/admin/src/staff.ts:121-128 | one removal for each group in turn; an unanswered one ends it, applied or not |
| Staff.PrepareGrant | mcps/admin/src/staff.ts:28-58 | the group chosen confers the least beyond the role, then has the least id, among every active candidate |
| Staff.GrantPreviewIff | mcps/admin/src/staff.ts:50-65 | the role the preview names is the one ID then gives if and only if the entitlement is in its window or confers no more than is held |
| Staff.GrantPreviewMisses | mcps/admin/src/staff.ts:50-65 | a directory whose one owner entitlement has ended: the preview says owner, and ID then gives no role |
| Columns.LettersRead | apps/web/lib/sheets.ts:262-268 | reading a column's letters gives the column |
| Columns.CapitalsWritten | apps/web/lib/test-helpers.ts:86-90 | every word of capitals is the letters of exactly the column it reads as |
| Columns.ColumnLetter | apps/web/lib/sheets.ts:262-268 | the loop writes those letters for every index |
| Columns.AddressRead | apps/web/lib/test-helpers.ts:86-93 | for every column and row the A1 reader undoes the address written |
| Sheets.SignupsKeep | apps/web/lib/sheets.ts:126-199 | over any signups, whatever calls fail: at most one row for each address, columns in place, no row, `first_seen_at` or reader's cell lost or changed |
| Sheets.CellsKept | apps/web/lib/sheets.ts:150-166 | one upsert changes no cell but the update's columns of the address's first row |
| Sheets.HeadersKeepPlace | apps/web/lib/sheets.ts:209-230 | existing columns keep their place, and what is added are the missing written ones |
| Sheets.SignupHeld | apps/web/lib/sheets.ts:139-199 | after an upsert that succeeds the address's row holds the signup, first seen now exactly when it is new |
| Sheets.SignupCells | apps/web/lib/sheets.ts:139-190 | column by column, what a signup that succeeds leaves in its row: last_seen_at, country_code and country_name its own, business_name and business_headcount its own if it asks and else as they were, first_seen_at and email its own only in a new row |
| Sheets.ThrowsIff | apps/web/lib/sheets.ts:126-230 | an upsert throws exactly when a call it makes fails or the header it found names no email column; then no row is touched, but that the one it added stays if only its checkbox failed; else a row is added exactly when the address had none |
| Sheets.FoundAgainIff | apps/web/lib/sheets.ts:143-149 | an address just inserted is updated by the next upsert if and only if it was normalised, else given a second row |
| Sheets.Worksheet.SetCell | apps/web/lib/test-helpers.ts:86-101 | the cell at an address is set, or there is none |
| Sheets.Worksheet.SaveUpdatedCells | apps/web/lib/test-helpers.ts:103-114 | the pending cells are written to their rows |
| Sheets.Worksheet.EnsureHeader | apps/web/lib/sheets.ts:209-230 | the header made, widened or refused |
| Sheets.Worksheet.Update | apps/web/lib/sheets.ts:150-166 | the cells addressed by letter and number, set and saved, are exactly the row's updated columns |
| Sheets.Worksheet.Upsert | apps/web/lib/sheets.ts:126-199 | the whole upsert over the worksheet is the specification's, for every failing call |
| SheetsTogether.DoubledIff | apps/web/lib/sheets.ts:143-178 | with any upserts under way, an address with at most one row may get another if and only if one that found none is to add it beside a row, or two that found none are both to add one |
| SheetsTogether.LookRacesIff | apps/web/lib/sheets.ts:143-149 | one more upsert makes such a race if and only if one that found none is under way |
| Shell.CommandLineRead | infra/pipeline/src/run.ts:65-67 | splitting the line as a POSIX shell does gives back the command, for every list of strings |
| Shell.WrittenAsIs | infra/pipeline/src/run.ts:65-67 | an argument is written as itself if and only if it has characters, all letters, digits or of `_@%+=:,./-`, a shell word likewise without `%` or as a placeholder, and otherwise in quotes |
| Shell.LinesJoin | infra/pipeline/src/run.ts:65-67 | the line of one command after another is both lines with a blank between |
| Shell.ShellWordReadIff | scripts/mcp/io.ts:86 | a shell word reads back as its value if and only if the value is no placeholder |
| Shell.FinishingIs | scripts/mcp/io.ts:125-127 | a step's fix is the next step's, after its own command unless that comes again |
| Shell.FinishingOrders | scripts/mcp/io.ts:125-127 | so it names every later command once, in the order of their last places |

## Left out

- Sockets, HTTP, Kubernetes, PostgreSQL and Google's API are their effect on state: a chunk, an answer, a lost request, a row. Answerable ID's and the Toolbox's tables and transactions (with their rollback), PostgreSQL's catalog and the Secret store are assumed to do each modelled operation atomically.
- X.509 parsing, the choice of the root and the ConfigMap of `infra/ops/src/database-ca.ts`; the wording of errors and logs everywhere, which the model keeps as a kind of refusal.
- GrantsReader: a cache entry is a value of the nested maps, so that the promise a caller holds and the entry the cache holds are not one shared object; answers are sets, and their sorting is not modelled.
- Mosaic.Layout.Compute: marks are values of a sequence rather than shared objects, the numeric knobs of `MOSAIC` are constants, and draws are reals, so floating-point rounding of fades and rates is not modelled.
- Mosaic: the `cellsTall` and delay of focus commas, the dithering and the renderer.
- Registrar.RunSettlesIff: a write is one step, its answer not lost; ID's checks that a link, capability or entitlement names a live resource and scopes it allows, and whether a row is active, are not modelled; revisions and other callers' changes are `KeyedUpdates`', of one row under one key, where `If-Match` and the revision in the key stand for each other.
- RegisterJob.Job.EnsureLink: a link's key carries its client's revision, which making or removing a link moves on (`apps/id/drizzle/0001_invariants.sql:147-162`), so it is taken as unused while ID has the client.
- OpsRegister.OpsRegisterAbleIff: that ID gives a client without link or capability no token is assumed of `apps/id/src/auth/machine-capability.ts`; windows and token lifetimes are not modelled.
- RegisterActs.JobConverges: staff sign-in (`connectStaff`) and the printed instructions; a rotation whose answer is lost leaves ID's secret ahead of the store only until the run that rotates again, as a cut between the two acts.
- KeyedWrites.CommitListsEachOnce: when ID refuses a request outright is left open, `If-Match` among the reasons; a step's body is what its target stands for; rows other staff delete.
- Enablement.EnableRepeats: a refusal by ID half-way is a stop; the Toolbox resource's `If-Match` is not modelled.
- Catalogue.Database.IngestAll: PostgreSQL's rollback is the model's own assignment of the rows as they were.
- Catalogue.HeldOffUntilReleasedIff: an enable call of several providers is that many plans read together.
- Catalogue: host-client settings and search; JSON comparison of schemas is equality of opaque values.
- SecretUrl.PasswordReadBack: the URL is read as the WHATWG parser does for the URLs bootstrap writes (scheme, authority, first of `/?#`, last `@`), with ASCII passwords as it generates; other spellings an operator may store are not modelled.
- Bootstrap.CompletedRunOwns: a CONNECT an operator granted by name stays, as in the code; the grant to `current_user`, statement timeouts and the provisioning of MCP schemas (`infra/ops/src/bootstrap.ts:126-134`) are not modelled.
- Records.ListAll: rows of ID's lists have the records' columns, as opaque values; a `limit` above ID's 200 and the lists' filters are not modelled.
- Records: ids are numbers in their byte order, and `recordOf`'s date format is an opaque string.
- Staff: the freshness check, targets' ETags and summaries; a window that opens or closes between preview and commit.
- Sheets: the trim and lower case are of ASCII text with the no-break space; the clock and time zone of a timestamp; the checkbox rule itself.
- SheetsTogether.DoubledIff: the header is there, and no row is removed or moved between an upsert's read and its write.
- Shell: what a shell makes of the first word (an assignment, a reserved word); `drain`, `runSteps` and their output.
- `findBySlug`, `clientToken`, `allowedScopes`' order and `refusal`: single-branch reads that would add only easy members.
