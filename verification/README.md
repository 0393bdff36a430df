# Verified models of Zimbr's stateful cores

Zimbr is a desktop messaging client with a relay. These Dafny modules model the parts of it whose
correctness depends on state that several functions share: the desktop notification client, the
crash-safe moves of credentials and issuers, drag and drop, the media cache's pruning, text
geometry, the HTTP/2 client and test server, and the cross-thread wakeup. `dafny verify
dfyconfig.toml` checks all of them.

Code that changes state step by step is a class, or a method with loops, with the same branches and
constants. Where the properties are about whole runs, each method is proved to take one step of a
transition system or to compute a specification function, and the theorems are about those.

| files | component |
|---|---|
| `NotificationProtocol`, `NotificationInvariants`, `NotificationTable`, `NotificationTheorems`, `NotificationContents`, `NotificationImage` | the notification client: its steps with the daemon as environment, the 64-slot table in place, what holds of every run, what the user gets to see, and the avatar hint |
| `CredentialFiles`, `CredentialMigration`, `IssuerMigration`, `Bootstrap` | file-system moves that may die between any two steps and be run again |
| `UriList`, `DropTarget`, `WaylandOffers` | the `text/uri-list` parser, the pending batch, and the list of Wayland offers with its one transfer |
| `CachePruning` | the scan, sort and eviction of the media cache |
| `TextLines`, `TextWords` | line measurement, hit testing, tiles; word selection and caret movement |
| `Http2Frames`, `Http2Client`, `Http2Server` | frame reassembly, the client's responses and credit, the test server's output |
| `Wakeup` | the coalescing wake flag over all interleavings |

## Where the code does not do what one would expect

Each of these is proved of the model, with the exact condition under which the expected property
does hold.

- A second run of `prepare_ca` can fail after a first that succeeded: once the settings are gone, an
  old default directory that a custom issuer had been preferred to is selected again and conflicts
  (`IssuerMigration.RetrySucceedsUnlessBlocked`, `IssuerMigration.SecondRunCanFail`).
- `migrate_credentials` never removes the paths from an administrator's configuration that holds
  nothing else, because what is left of it is empty and taken for absent
  (`CredentialMigration.SuccessLeavesNoPaths`, `CredentialMigration.PathsCanStay`).
- A completed wake can wait out a timeout, if it was coalesced into one that stalls between its
  exchange and its push (`Wakeup.SleepsOnlyBehindAStalledPush`, `Wakeup.CompletedWakeCanWaitOutATimeout`).
- In `_receive` a frame that fails takes the events of the frames before it in the same chunk with
  it, so what a response gets depends on how the bytes arrived, exactly if those events bring an open
  response new payload or headers, or an end or error it would not have anyway
  (`Http2Frames.FailureDropsItsChunk`, `Http2Frames.PayloadCanBeDropped`). Which of two errors a
  failed response reports depends on the chunks in any case.
- A response left unread when its connection ended is credited to, and unregisters, the response
  that has its stream number on the next connection (`Http2Client.TakeKeepsUnlessShadowed`,
  `Http2Client.StaleReadUnregistersTheNewResponse`); closing it unregisters that one too
  (`Http2Client.AbandonKeepsUnlessRegistered`). `Http2Client.BooksStayInOrder` says this of whole runs.
  While the next connection has yet to open that stream, reading such a response raises after the
  bytes have left its buffer, so that they are lost (`Http2Client.Connection.Read`,
  `Http2Client.StaleReadLosesBytes`).
- When no socket can be made, `connect` raises before its cleanup begins, and the responses of the last
  connection stay registered; every later failure ends and unregisters them
  (`Http2Client.Connection.Connect`).
- A flow-control window may be negative (section 6.9.2 of RFC 9113); the test server then fails the
  command, and the client the request, where it should wait (`Http2Server.Session.SendPayload`,
  `Http2Server.SwallowFailure`, `Http2Client.Connection.Upload`, `Http2Client.UploadMeetsSettings`).
- After a command has failed on a stream that stays open, the test server goes on sending what is
  submitted on it: `handle` submits the end after a handler that swallowed the exception, as the one in
  tests/client_media_transport.py does, and the peer sees a response with a part missing
  (`Http2Server.Session.Run`, `Http2Server.TurnKeepsTheBeginning`, `Http2Server.SwallowFailure`).
- When the notification daemon's owner leaves, the slots are cleared without closing anything. If the
  same owner comes back, what it still shows is neither held nor asked to close
  (`NotificationTheorems.HeldExactlySinceAppearing`, `NotificationTheorems.ReturningOwnerIsForgotten`).

## Model

| member | source | states |
|---|---|---|
| NotificationInvariants.NextKeepsInv | src/client/notifications.c:41-256 | every step of the client or the daemon keeps the invariant: distinct chats and ids, at most 64, calls counted, handles accounted for |
| NotificationInvariants.ShowKeepsInv | src/client/notifications.c:231-247 | showing a notice, with eviction and sending, keeps the invariant |
| NotificationInvariants.NotifyReplyKeepsInv | src/client/notifications.c:63-80 | a late, failed or duplicate-free reply to Notify keeps the invariant |
| NotificationInvariants.CapabilitiesKeepsInv | src/client/notifications.c:106-126 | the capabilities reply keeps the invariant and leaves nothing pending |
| NotificationInvariants.SignalKeepsInv | src/client/notifications.c:127-157 | a signal of the daemon keeps the invariant |
| NotificationTheorems.NothingIsForgotten | src/client/notifications.c:57-80 | before free, an id that the current owner gave out since it appeared, not reported closed, is held by exactly one slot, or was asked to close and is held by none |
| NotificationTheorems.HeldExactlySinceAppearing | src/client/notifications.c:158-180 | an unreported, unclosed id of the current owner, from any time, is held, by exactly one slot, if and only if the owner gave it out since it last appeared |
| NotificationTheorems.ReturningOwnerIsForgotten | src/client/notifications.c:171-180 | a run in which an owner leaves and returns and its notification is neither held nor asked to close |
| NotificationTheorems.EarlierOwnersAreIgnored | src/client/notifications.c:63-80 | replies and signals of an earlier owner change no slot and send nothing |
| NotificationTheorems.EarlierTenuresAreIgnored | src/client/notifications.c:127-157 | a signal of a returned owner about an id from before it left changes no slot either |
| NotificationTheorems.AnnouncedAtMostOnce | src/client/notifications.c:81-105 | over any run with daemon restarts a notice is announced at most once |
| NotificationTheorems.ReadyMeansSent | src/client/notifications.c:106-126 | while the daemon is ready no notice is pending |
| NotificationTheorems.AnswerSendsWhatWaited | src/client/notifications.c:106-126 | the current owner's capabilities reply sends every queued notice in that step, shaped by those capabilities |
| NotificationTheorems.ReferencesAreCallsPlusOwner | src/client/notifications.c:41-56 | the count is the outstanding calls plus one until free; it is zero exactly when freed with no call left, and then nothing may happen |
| NotificationTheorems.FreedObjectDrains | src/client/notifications.c:63-126 | after free each callback drops its call and one reference, notes an id given out, and touches nothing else but slots: a failed call of the current generation may clear its own, the last callback clears all |
| NotificationTheorems.TableIsRecencyList | src/client/notifications.c:194-247 | every step of the table is a step of a plain list of distinct chats of which the newest 64 are kept |
| NotificationTheorems.ShowIsTouch | src/client/notifications.c:231-247 | show removes the chat, appends it and drops the oldest only beyond 64 |
| NotificationTheorems.DismissIsOmitting | src/client/notifications.c:194-203 | dismiss removes that chat alone |
| NotificationContents.ShownAsGiven | src/client/notifications.c:231-247 | the newest notice has the chat, title and text it was shown with, and no other changes; to a ready daemon exactly one message goes out, with these texts in their places and what the daemon's capabilities ask for, else none |
| NotificationContents.WaitingGoesOutAsShown | src/client/notifications.c:81-126 | over any run, a notice shown before the daemon was ready and still there when its capabilities come goes out in that step with the texts it was shown with, and the image if the daemon shows images |
| NotificationContents.ReplyMeans | src/client/notifications.c:63-80 | a reply gives its notice the id, a failed call removes it, and nothing else changes |
| NotificationContents.LateReplyCloses | src/client/notifications.c:73 | a reply for a notice that is gone asks the daemon to close what it names |
| NotificationContents.SignalMeans | src/client/notifications.c:140-155 | a token is kept with its notice; the default action alone hands over that notice's chat with its token, or an empty one; closing removes the notice |
| NotificationContents.FreeCloses | src/client/notifications.c:248-256 | free asks to close exactly the held ids |
| NotificationTable.Notifications.Show | src/client/notifications.c:231-247 | the search for a slot, the eviction and the send on the array take the protocol's show step |
| NotificationTable.Notifications.Dismiss | src/client/notifications.c:194-203 | the loop over the array takes the dismiss step |
| NotificationTable.Notifications.FindSlot | src/client/notifications.c:235-239 | the slot found is free, or holds the oldest notice when none is |
| NotificationTable.Notifications.SendNotice | src/client/notifications.c:81-105 | sends the slot's notice if it is pending and the daemon ready, once |
| NotificationTable.Notifications.Notified | src/client/notifications.c:63-80 | the reply callback takes the reply step, late and failed replies included |
| NotificationTable.Notifications.Capabilities | src/client/notifications.c:106-126 | the callback takes the capabilities step and releases its call |
| NotificationTable.Notifications.SignalReceived | src/client/notifications.c:127-157 | the search by id and what the signal does take the signal step |
| NotificationTable.Notifications.Appeared | src/client/notifications.c:158-170 | a new owner starts a generation and is asked for its capabilities |
| NotificationTable.Notifications.Vanished | src/client/notifications.c:171-180 | the loss of the owner clears every slot |
| NotificationTable.Notifications.Free | src/client/notifications.c:248-256 | free asks to close what is held and drops the owner's reference |
| NotificationTable.Notifications.Release | src/client/notifications.c:41-48 | the last reference clears the table |
| NotificationTable.FullWhenNoVacancy | src/client/notifications.c:235-239 | the table has no free slot exactly when the list is full |
| NotificationImage.ImageHint | src/client/notifications.c:207-230 | no hint for an image that contradicts itself, else one of at most 128 pixels a side; each pixel is the image's at the scaled position, rounded down |
| NotificationImage.SidesAreBounded | src/client/notifications.c:212-214 | no side is empty, enlarged or over 128, and the longer one of a larger image becomes 128 |
| NotificationImage.SidesKeepProportion | src/client/notifications.c:212-214 | a larger image's sides are scaled by 128 to the longer one, rounded down, and one pixel at least |
| NotificationImage.SourceIsInside | src/client/notifications.c:217-222 | every pixel read is inside the image, and a small image is copied as it is |
| NotificationImage.SourceKeepsProportion | src/client/notifications.c:217-222 | a pixel shows the position in proportion to its own, rounded down |
| NotificationImage.SourceKeepsOrder | src/client/notifications.c:217-222 | rows and columns keep their order and none is shown twice |
| IssuerMigration.Host.PrepareCa | tools/tls_admin.py:204-243 | succeeds exactly under the stated condition; on a conflict the disk is unchanged; every state on the way is one a crash may leave |
| IssuerMigration.CustomIssuerIsChecked | tools/tls_admin.py:192-238 | with an issuer elsewhere in the settings a run succeeds exactly if its files are there, key and certificate belong together, the certificate is the installed one, and an issuer in the fixed directory is as good and the same; without its directory, if the fixed one is good |
| IssuerMigration.DefaultIssuerIsChecked | tools/tls_admin.py:192-238 | without settings it succeeds exactly if the old default is good and the fixed directory is not there, or there is no old default and nothing installed or a good fixed directory |
| IssuerMigration.SuccessPublishesTheSelectedIssuer | tools/tls_admin.py:204-243 | after any crashes and retries, whatever certificates were installed at each, a run that succeeds leaves the issuer first selected in the fixed directory, byte for byte |
| IssuerMigration.CustomIssuersNeverChange | tools/tls_admin.py:225-237 | a custom issuer's own files outlive every run unchanged |
| IssuerMigration.AdvancesKeepsSafe | tools/tls_admin.py:216-243 | at every crash point the selected issuer is where the next run finds it |
| IssuerMigration.RetrySucceedsUnlessBlocked | tools/tls_admin.py:216-220 | a run that would have succeeded at the start succeeds after any number of crashed or finished runs, for whatever certificates, if and only if the old default directory is not in its way |
| IssuerMigration.SecondRunCanFail | tools/tls_admin.py:216-220 | with a custom issuer beside an old default the first run succeeds and the second fails |
| CredentialMigration.Store.Migrate | tools/tls_admin.py:273-296 | succeeds exactly when the candidate is readable, free of conflicts and accepted; every state on the way is one a crash may leave |
| CredentialMigration.MigratesExactly | tools/tls_admin.py:246-287 | the condition in full: every named file readable, none at a fixed place different, and the checks accept the contents with what the configurations hold beside the credential fields, which for the administrator is the relay's URL or nothing |
| CredentialMigration.EachFileHasItsPlace | tools/tls_admin.py:246-296 | after any crashes a success has in each of the seven fixed files what its field named, and the relay's configuration without the four fields and otherwise as it was |
| CredentialMigration.AdvancesKeepsEffective | tools/tls_admin.py:246-296 | at every crash point the credentials that read_credentials resolves are the original ones |
| CredentialMigration.RetriesKeepCredentials | tools/tls_admin.py:273-296 | over any crashes and retries they stay so, no existing file's bytes change, and a run that could succeed still can |
| CredentialMigration.AdvancesKeepsSucceeds | tools/tls_admin.py:284-296 | no crash makes a later run fail |
| CredentialMigration.SuccessLeavesNoPaths | tools/tls_admin.py:282-296 | success leaves the same credentials, and legacy fields if and only if the administrator's configuration held nothing else |
| CredentialMigration.PathsCanStay | tools/tls_admin.py:282-295 | such a configuration, beside any relay configuration without credential fields that is accepted, is migrated and still due for migration |
| Bootstrap.DataDirectory.Bootstrap | packaging/macos/bootstrap.py:37-77 | publishes, and then succeeds if the relay's check does, exactly under the stated condition on the disk and the calls it makes; then all is the generation's and `.setup` is gone; every state on the way is one a crash may leave |
| Bootstrap.PublishesExactly | packaging/macos/bootstrap.py:37-71 | the condition in full: a configured relay agrees with what was asked; else the generation has the asked endpoint and each of the seven files is missing or the same |
| Bootstrap.FilesNeverChange | packaging/macos/bootstrap.py:68-73 | over any crashes and retries every credential file that was there keeps its bytes |
| Bootstrap.OneGenerationIsPublished | packaging/macos/bootstrap.py:47-76 | once `.setup` is in place every crash and retry publishes its bytes alone, and relay.json exists only when all else is published |
| Bootstrap.RetriesStillSucceed | packaging/macos/bootstrap.py:37-76 | a retry with the same endpoint publishes after any crash if and only if the calls it makes succeed |
| UriList.LineMeans | src/client/drop.c:55-76 | a line decodes to a path if and only if it is one of three forms of local file URI around an encoding of that good path |
| UriList.HexIsPlace | src/client/drop.c:38-43 | a digit's value is its place among 0-9 and a-f, of either case, and no other byte has one |
| UriList.OnlyGoodPaths | src/client/drop.c:55-76 | what is accepted is an absolute path of at most 4095 bytes without control characters, from a line with one of the three beginnings and without a query or fragment |
| UriList.ParseMeans | src/client/drop.c:44-83 | a payload parses to some paths if and only if it fits, has no NUL, and they are those of its lines, all of them |
| UriList.ParseOfEncoding | src/client/drop.c:44-83 | every choice of percent-encoding for up to 16 accepted paths parses back to them, and fits the buffer |
| UriList.ParseOfWritten | src/client/drop.c:38-83 | up to 16 paths, written with an encoder of its own, digits of either case and any of the three beginnings, fit and parse back to themselves |
| UriList.CommentsSayNothing | src/client/drop.c:54 | a comment line anywhere in a list changes nothing |
| UriList.LinesOfText | src/client/drop.c:48-54 | splitting into lines undoes joining with CR LF |
| UriList.EncodingIsPlain | src/client/drop.c:63-74 | an encoding is at most three times as long and has no control character |
| DropTarget.Drop.Offer | src/client/drop.c:15-18 | a payload becomes the whole batch or none, and then an error is pending |
| DropTarget.Drop.ParseLines | src/client/drop.c:44-78 | the nested loops that write the block compute the parse |
| DropTarget.Drop.DecodeRow | src/client/drop.c:62-75 | decoding in place writes exactly the decoded path and touches no other row |
| DropTarget.Drop.SetPaths | src/client/drop.c:19-33 | paths are taken all or none, exactly if there are 1 to 16 and each is good |
| DropTarget.Drop.Take | src/client/drop.c:9-14 | hands over the batch and keeps nothing |
| DropTarget.RoundTrip | src/client/drop.c:9-33 | paths and their encoded list reach the composer as the same batch |
| WaylandOffers.Device.Run | src/client/desktop/wayland.c:42-204 | after any plausible events and shutdown nothing is owned: each proxy that the events announced destroyed once, each pipe end and buffer given back once |
| WaylandOffers.Device.DropArrives | src/client/desktop/wayland.c:63-158 | an offer announced, entered and dropped on an idle device, whose payload comes in parts before the deadline, gives the composer the paths of the whole payload, or an error |
| WaylandOffers.AnnouncedByEvents | src/client/desktop/wayland.c:63-74 | the proxies that count as announced are those of the announcing events, and no other |
| WaylandOffers.Device.FreeDevice | src/client/desktop/wayland.c:195-204 | shutdown empties the list and ends the transfer |
| WaylandOffers.Device.Destroy | src/client/desktop/wayland.c:42-50 | unlinks that node alone, forgets it as drag, and destroys its proxy |
| WaylandOffers.Device.Offered | src/client/desktop/wayland.c:63-74 | an offer is listed first, or at 32 or without memory destroyed and rejected |
| WaylandOffers.Device.Enter | src/client/desktop/wayland.c:75-92 | the last drag goes, the new one is hovered exactly if it holds a URI list over the own surface |
| WaylandOffers.Device.Dropped | src/client/desktop/wayland.c:134-158 | a hovered drag becomes the one transfer or is rejected, and every pipe end but the kept one is closed |
| WaylandOffers.Device.FinishTransfer | src/client/desktop/wayland.c:101-113 | the payload is offered or rejected, and pipe, buffer and offer are released once |
| WaylandOffers.Device.Poll | src/client/desktop/wayland.c:114-129 | what the pipe answers until the deadline decides the batch as the outcome function says |
| WaylandOffers.PayloadIsDelivered | src/client/desktop/wayland.c:117-128 | however a payload is cut into reads it is delivered whole exactly if it fits and has no NUL |
| WaylandOffers.PayloadIsKept | src/client/desktop/wayland.c:114-129 | a payload that goes on is kept whole so far, or refused as soon as it is too long or holds a NUL |
| WaylandOffers.Device.Selection | src/client/desktop/wayland.c:159-163 | a clipboard offer is destroyed and nothing else changes |
| CachePruning.Cache.Prune | src/client/media.c:63-121 | whatever fails only counted files go, and temporaries only at startup; a success reports exactly what is left, within both limits; without faults it succeeds if and only if the temporaries fit the budget |
| CachePruning.SurvivorsAreNewer | src/client/media.c:109-116 | every file evicted by age is no newer than every one that stays |
| CachePruning.EvictsOnlyOverTheLimits | src/client/media.c:109-116 | with at most 8192 keyed files all stay if and only if they fit the limits |
| CachePruning.Cache.Scan | src/client/media.c:66-107 | the growing array holds exactly the keyed files seen and `bytes` their size with the temporaries', unless an error is flagged |
| CachePruning.Cache.Evict | src/client/media.c:109-116 | unlinks the shortest prefix that meets the limits, and its running totals are exact |
| CachePruning.WeightIsSum | src/client/media.c:103-105 | the running total over distinct entries is the files' total in any order |
| CachePruning.CountFits | src/client/media.c:86-105 | the overflow guards never fire on a directory whose total fits |
| CachePruning.Sort | src/client/media.c:110 | any sort serves that permutes the entries into the order of the comparison |
| CachePruning.CacheName | src/client/media.c:22-30 | accepts 64 hexadecimal digits, or `tmp-` and 32 of them, and nothing else |
| TextLines.Text.MeasureLines | src/client/bridge.c:579-621 | fails exactly without font or memory or when the stack passes a C int, and else stores the stacked lines, all in range |
| TextLines.MeasuredInkIsInside | src/client/bridge.c:602-614 | shifted ink and the baseline are inside the logical box, and no int overflows |
| TextLines.MeasuredBoxIsLeast | src/client/bridge.c:602-614 | no smaller box around the baseline holds the font's extents and the ink |
| TextLines.MeasuredLinesAreStacked | src/client/bridge.c:611-616 | boxes are ordered and disjoint, exactly the spacing apart |
| TextLines.Text.HitLine | src/client/bridge.c:802-818 | the binary search finds the line that a scan from the top finds, for every y |
| TextLines.HitIsNearest | src/client/bridge.c:802-818 | no line is nearer to the point than the one hit, for an even spacing |
| TextLines.InsideIsHit | src/client/bridge.c:802-818 | a point inside a line hits that line |
| TextLines.Text.Fit | src/client/bridge.c:671-682 | there is a texture exactly if the text was measured and its sides, rounded, are at least 1 and a C int; it is at most 4096 wide and reaches below the last line |
| TextLines.Text.Pixels | src/client/bridge.c:717-775 | there are rows exactly if the tile may be asked for, the surface is within the pixel limit and Cairo succeeds; they lie inside the surface and are those of the whole document; every line drawn is whole on the surface |
| TextLines.RasterIsLeast | src/client/bridge.c:725-735 | the surface has the least rows that hold the tile and every reserved line |
| TextLines.TileIsSlice | src/client/bridge.c:725-769 | on a surface that holds each drawn line whole, a tile's rows are the document's |
| TextLines.SkippedLinesMissTheTile | src/client/bridge.c:746-751 | a skipped line, with its margin, touches no row of the tile |
| TextLines.DrawnLinesAreReserved | src/client/bridge.c:726-733 | the rows reserved by the first pass hold every line that the second draws, with its margin |
| TextLines.DrawnIsNear | src/client/bridge.c:746-751 | a line is drawn exactly if its ink or box comes within two pixels of the tile |
| TextLines.ReservedRowsAreExact | src/client/bridge.c:728-730 | the rows reserved for a line reach two beyond its ink and box, rounded outwards, and no further |
| TextLines.SelectedLinesHoldTheSelection | src/client/bridge.c:753-758 | exactly the lines whose span holds a selected byte are filled |
| TextWords.WordHit | src/client/bridge.c:844-889 | the range is the word at the hit, in bytes, and not empty |
| TextWords.WordGoesOn | src/client/bridge.c:826-842 | the range goes on past a cluster boundary exactly if both sides are letters, digits, marks, underscores or joiners between two of these, or both are blanks that break no line |
| TextWords.ContractionIsOneWord | src/client/bridge.c:834-839 | in "don't" every hit selects the whole word |
| TextWords.WordsPartition | src/client/bridge.c:844-889 | two hits give equal or disjoint ranges |
| TextWords.WordIsUnique | src/client/bridge.c:867-886 | one cluster without a class, or the maximal run of one class: there is one such range |
| TextWords.ExtendLeft | src/client/bridge.c:869-879 | stops at the first cluster of another class, without skipping one |
| TextWords.Boundary | src/client/bridge.c:890-905 | the nearest caret position strictly to that side, the text's end after the last, and for a position past the last one to the left too |
| TextWords.RightThenLeft | src/client/bridge.c:890-905 | one step right and one left come back |
| TextWords.LeftThenRight | src/client/bridge.c:890-905 | one step left and one right come back |
| TextWords.Hit | src/client/bridge.c:819-825 | trailing code points are passed, but not the end |
| Http2Frames.FramesAreWhole | tools/http2.py:142-165 | frames and leftover are the received bytes, every frame is whole, and the leftover is shorter than one |
| Http2Frames.CollectInTwo | tools/http2.py:142-165 | where a chunk ends changes neither frames, effects, leftover nor failure |
| Http2Frames.ChunkingDoesNotMatter | tools/http2.py:130-186 | every chunking of bytes without a failing frame, with nothing called in between, leaves the same frames, leftover and responses, up to which error a failed one names |
| Http2Frames.BatchIsInOrder | tools/http2.py:153-185 | acting on GOAWAY at once and on events afterwards is like taking them in order |
| Http2Frames.OneFrame | tools/http2.py:142-168 | a whole frame, its length in three bytes, goes to h2 and its events to their responses; a GOAWAY without a code refuses exactly the responses above its last stream, any other GOAWAY fails |
| Http2Frames.DispatchIs | tools/http2.py:168-185 | after events a response has the last headers' status and length, has ended if it had or was ended or reset, and has the error of the last reset with a code |
| Http2Frames.DispatchAddsPayload | tools/http2.py:174-176 | and its buffer and count have grown by its payload, in order |
| Http2Frames.RefusalsAre | tools/http2.py:158-163 | refusals end and fail the responses above the last stream and leave every other field and response as it was |
| Http2Frames.FailureDropsItsChunk | tools/http2.py:143-168 | before a failing frame, cutting the chunk leaves the same responses, up to which error, if and only if the earlier events bring no open response new payload, headers, end or error |
| Http2Frames.PayloadCanBeDropped | tools/http2.py:143-168 | a concrete byte that arrives only if the frames come apart |
| Http2Client.Connection.Receive | tools/http2.py:130-186 | one recv does what the frame functions say and takes back nothing that arrived; at the end of the stream every registered response ends, with an error exactly if it lacks bytes of its content-length or had one |
| Http2Client.Connection.Parse | tools/http2.py:142-168 | the loop over the buffer collects exactly the frames' effects |
| Http2Client.Connection.Take | tools/http2.py:38-46 | cuts the buffer and credits the stream; the connection stays consistent exactly if no live response of a later connection has that stream |
| Http2Client.Connection.Read | tools/http2.py:48-62 | returns the next payload bytes in order, the wanted number of them, or fewer only at a clean end; what arrived meanwhile is the payload of the whole frames in the bytes received; without a response error it raises only if a recv call raised, a frame failed, or h2 has yet to open the stream, and then it does; a short read that waited into the end of the stream has all of the content-length |
| Http2Client.Connection.Readline | tools/http2.py:64-81 | returns the next payload bytes up to the first newline, the limit or a clean end; what arrived meanwhile is the payload of the whole frames in the bytes received; it raises for the same causes only; one cut short by the end of the stream has all of the content-length |
| Http2Client.Connection.ReadMix | tools/http2.py:48-81 | any sequence of reads returns the payload in order until one raises for one of these causes, and what arrived over all of it is the payload of the whole frames received |
| Http2Client.FeedsAgree | tools/http2.py:38-186 | from the same start, the same bytes bring a stream the same payload, and more bytes more of it, however they are cut and whatever is read in between |
| Http2Client.TwoMixes | tools/http2.py:38-186 | two connections sent the same bytes in different chunks, and two mixes of read and readline: unless a recv call raises, a frame fails or a response has an error, none of them raises, and what is returned and buffered is the same, or one the beginning of the other as far as it has received |
| Http2Client.Connection.Abandon | tools/http2.py:83-92 | close drops the buffer and unregisters the stream, whoever has it |
| Http2Client.Connection.Connect | tools/http2.py:107-123 | nothing on an open connection; a new one starts with an empty h2 and buffer; without a socket no response changes, and each later failure ends and unregisters all |
| Http2Client.Connection.Request | tools/http2.py:188-203 | a draining connection waits for its responses and is replaced; there is a response if and only if the connection is open then, and it is registered on that; a failed connection leaves what connect left |
| Http2Client.Connection.Upload | tools/http2.py:206-218 | what is sent continues the body in nonempty pieces within the frame limit and the window of their time; it ends for a failed receive if and only if a recv call raised or a frame failed, and else for a negative window if and only if the stream is unfinished, bytes are left and the window is negative; each other way of stopping has its stated reason |
| Http2Client.UploadMeetsSettings | tools/http2.py:207-214 | an open stream with 60000 bytes sent, whose window a SETTINGS frame made negative: the upload fails |
| Http2Client.Connection.Disconnect | tools/http2.py:228-235 | close ends and unregisters every response |
| Http2Client.BooksStayInOrder | tools/http2.py:38-235 | over any run of reads, receives, requests and closes, on one connection after another, each response's payload and credit stay in order if and only if no move is made on a response whose stream has passed to a later one |
| Http2Client.DeliverKeeps | tools/http2.py:168-185 | an event keeps payload and credit balanced on every response |
| Http2Client.TakeKeepsUnlessShadowed | tools/http2.py:38-46 | reading keeps payload received equal to bytes acknowledged and buffered if and only if the response is not shadowed by a later one |
| Http2Client.AbandonKeepsUnlessRegistered | tools/http2.py:83-92 | closing keeps the connection consistent if and only if it unregisters no unfinished other response |
| Http2Client.StaleReadUnregistersTheNewResponse | tools/http2.py:44-45 | after a reconnection, reading an old response leaves the new one of its stream unfinished and without events |
| Http2Client.StaleReadLosesBytes | tools/http2.py:38-43 | after a reconnection, reading an old response whose stream is not open yet raises and leaves its buffer empty |
| Http2Client.HangupKeeps | tools/http2.py:133-141 | the end of the stream ends every response and keeps the books |
| Http2Server.Session.Submit | tests/http2_server.py:53-59 | a command is accepted exactly while session and stream are open, behind all others, whatever became of earlier ones |
| Http2Server.Session.SendPayload | tests/http2_server.py:106-115 | sends the least of payload, window and budget, in order; h2 raises if and only if there is payload and a window is negative |
| Http2Server.Session.Process | tests/http2_server.py:97-124 | a turn is the turn function of the state; its command had no result |
| Http2Server.TurnMeans | tests/http2_server.py:97-124 | a turn puts its command back exactly if it does not raise and payload is left, and completes it once otherwise; it fails if h2 has a reason to raise, and else only if the socket does; only the stream's own windows, wire and books change |
| Http2Server.TurnGives | tests/http2_server.py:97-115 | a turn gives its own stream the least of the payload, the smaller window and 256 KiB, in order, or the head or the end, or nothing if it raises, and takes that from both windows |
| Http2Server.TurnLeaves | tests/http2_server.py:99-124 | what is left of a payload waits behind the others; else the command has its result, an exception exactly for a stated cause or a down socket |
| Http2Server.Session.OutputPass | tests/http2_server.py:92-125 | a pass ends; commands with a reason to raise fail, all others are completed or wait with their budget or a window used up, and fail only if the socket is down; windows wide enough leave only what is beyond the budget |
| Http2Server.Session.Close | tests/http2_server.py:151-157 | the end fails exactly the queued commands; every accepted command has its result and earlier results stand; the state is the one the closing function gives |
| Http2Server.ClosingMeans | tests/http2_server.py:151-157 | closing a sound state empties the queue, fails its commands and streams, and changes nothing else |
| Http2Server.Session.Passes | tests/http2_server.py:127-150 | the passes of a run, each after what was submitted and changed before it, give the state that the pass function gives; a stream fails only for a stated cause at the start of a pass, and what waits does so for the budget or a window |
| Http2Server.Session.Run | tests/http2_server.py:127-157 | over any run the state at the end is determined by the start and by what was submitted and changed between passes, through the functions of a pass and of closing; a stream fails only for a stated cause at the start of a pass or because a command of it was queued when the passes had ended, and one without a failure was sent its whole script in order; what was sent is the beginning of what was submitted if and only if nothing was sent after a command failed with a part missing; every command is completed once |
| Http2Server.PutBackKeeps | tests/http2_server.py:116-120 | putting a payload back behind the others keeps each stream's order |
| Http2Server.OutputFollowsTheScript | tests/http2_server.py:92-125 | in every sound state what a stream was sent is the beginning of what was submitted if and only if nothing was given after a failure with a part missing, and all of it when nothing is queued and nothing is missing |
| Http2Server.CompleteKeeps | tests/http2_server.py:99-124 | completing a command, with or without an exception, keeps the queue, the results and every stream's order accounted for |
| Http2Server.TurnKeepsTheBeginning | tests/http2_server.py:99-124 | a completing turn keeps what was sent the beginning of what was submitted if and only if it gives nothing or no part is missing |
| Http2Server.PuttingBackKeepsTheBeginning | tests/http2_server.py:107-120 | the same of a turn that puts a payload back |
| Http2Server.SwallowFailure | tests/http2_server.py:79-85 | an open stream whose window a SETTINGS frame made negative: the byte written fails, the handler goes on, and head and end are sent without it |
| Http2Server.SwallowFailureAndReset | tests/http2_server.py:79-101 | submitting after a failure alone does not break the order: if a reset comes before the turn, nothing is sent |
| Http2Server.OpenWindowsDrain | tests/http2_server.py:107-120 | with windows that hold what a pass takes, a command is left with exactly what is beyond the budget |
| Wakeup.NoWakeIsLost | src/client/desktop.c:31-41 | in every interleaving the first wait to end after a wake answers yes and reports it |
| Wakeup.AnswersOnlyToWakes | src/client/desktop.c:37-41 | a wait answers yes only to a wake |
| Wakeup.NoSleepAfterLook | src/client/desktop.c:39 | a wait that starts over an unreported wake does not sleep |
| Wakeup.SleepsOnlyBehindAStalledPush | src/client/desktop.c:31-41 | a sleeper can run out its timeout over an unreported wake if and only if the wake that raised the flag has yet to push |
| Wakeup.CompletedWakeCanWaitOutATimeout | src/client/desktop.c:31-41 | a run in which a completed wake waits out a timeout |
| Wakeup.TimeoutStillReports | src/client/desktop.c:37-41 | even then the wait answers yes |

## Left out

- Integer widths: serials, generations, reference counts and ids are unbounded; `CachePruning` keeps the overflow guards against SIZE_MAX and `TextLines` the C int bounds.
- Http2Server.Session.Submit: a stream's handler submits only when its last command has its result, so the 15-second timeout of `submit` is not modelled; nor is the lock, though a submission may come at any point of a pass.
- NotificationTable.Notifications.Show: UTF-8 validation is a flag, and markup escaping is a flag of the message.
- NotificationTable.Notifications.Appeared: the bus pointer is folded into the owner, the cancellable and the subscription are not modelled, and `zc_notifications_poll` only runs callbacks.
- NotificationTable.Notifications.SignalReceived: the action callback is recorded; what it calls back into the object are further events.
- IssuerMigration.Host.PrepareCa: ownership, permission, symlink and fsync checks, and what `cryptography` computes, are left to predicates on the bytes; a staging name is fresh.
- CredentialMigration.Store.Migrate: the relay's check-config and the administrator's check are predicates; configurations are not aliased with credential files; one atomic write is one step.
- Bootstrap.DataDirectory.Bootstrap: `setup` brings a complete generation; whether it, prepare_ca, migrate_credentials and the relay's check succeed are parameters (the two moves are the modules above), and the service start is not modelled.
- UriList.ParseMeans: bytes are not checked for UTF-8, as in the source.
- WaylandOffers.Device.Run: the seat and manager registry, requests sent to the compositor, and `motion` are not modelled; a new proxy is announced once and named once, by enter or selection.
- CachePruning.Cache.Prune: the directory does not change under the scan but for files that vanish before their stat; creating, installing and removing single files is not modelled.
- TextLines.Text.Fit: the scaled height and width are exact reals, where the program uses C doubles.
- TextLines.Text.Pixels: line edges are exact reals, where the program uses C doubles; Pango and Cairo are a function that paints one line onto one row, subject to the stated assumptions; glyph and PNG or JPEG decoding are not modelled.
- TextLines.HitIsNearest: half an odd spacing would be off by half a unit; the program's spacing is 3072.
- TextLines.Text.MeasureLines: a baseline is not negative, and a line without ink reports none below its baseline.
- TextWords.WordHit: text is code points with their UTF-8 lengths; the index that Pango finds is any of them or the end.
- Http2Frames.ChunkingDoesNotMatter: h2 is a function of the frames it was given; its reaction does not depend on the credit returned meanwhile.
- Http2Client.Connection.Read: header fields but for the status and content-length, text encoding, and errors of `sendall` are not modelled; a raised read has consumed what it took.
- Http2Client.Connection.Abandon: what a closed or unregistered response would have credited is not counted for the connection's own window.
- Http2Server.OutputFollowsTheScript: what h2 is given is tagged with the command it is of, so that equal bytes of two commands are told apart.
- Http2Server.Session.Run: submissions come between passes there; request bodies and handler threads are whatever submits commands; a command is a value that is replaced in the queue.
- Wakeup: pushes are assumed to succeed and the event to be registered.
- `src/relay/tls.c`, `packaging/macos/signing.py` and the certificate checks of `tools/tls_admin.py`: decided by OpenSSL and `cryptography`.
- libcurl setup in `src/client/bridge.c`, process and descriptor handling in `src/platform.c` and `src/relay/media.c`, and packaging scripts: calls with little logic of their own.
- The relay journal, sync and upload protocols: their Zig sources are not part of this model.
