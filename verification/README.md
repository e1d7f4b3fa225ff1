# Verification of the Pebble Remote Harness

A Dafny model of the parts of the harness that have to be right: the hub that carries permission prompts from a coding
agent to a phone and a watch and one answer back, the plugin and the clients at its ends, the request signing between
them, and the QR encoder that pairs a phone.

`dafny verify dfyconfig.toml` checks everything.

## What is modelled

**QR encoder** (`Gf256`, `ReedSolomon`, `QrData`, `QrPlacement`, `QrFigures`, `QrSymbol`). The field tables are proved
to hold the powers of x, the remainder loop to compute polynomial division, and the code to have its designed distance.
The data path and the zigzag placement are proved to round-trip: a finished symbol reads back as the input, for every
input that fits, every version and every mask. The reader (`QrFigures`) is given the matrix alone and takes nothing from
the encoder but the path and the block list, which are proved to be the published ones: it has the drawn patterns, the
published format and version words and mask drawings, refuses a symbol that does not show them, and refuses a block that
is not a codeword. Arrays and matrices are filled in place, as in the source. A product with a zero factor is 0, which
is what the source's `undefined` comes to under XOR.

**Hub** (`HubSpec`, `HubImpl` and the modules about runs). `HubSpec` states each locked section as a function on values.
`HubImpl` is the hub as it runs, with session and window objects updated in place, and proves each method against its
function. What holds over every run is proved about the functions: `HubRing` (the ring refines an unbounded log),
`HubPrompts`, `HubAnswers` and `HubIndex` (open prompts, at most one answer, the reverse index and the badge),
`HubDecisions` (exactly-once delivery to many windows), `HubConversation` (delta sync), `LongPoll` (no lost wakeup),
`Registry` (which sessions are evicted), `HubEffects` (what each operation leaves for a client, field by field). A run
is any sequence of operations; what the eviction loop removed is part of the operation that created a session, so the
results hold for every order in which a map may be walked, and every method of `HubImpl` that creates a session promises
that what it removed keeps the rules `Registry` states (`Registry.Kept`). Clocks and nonces are parameters. A wakeup
channel is a number and its one-slot buffer is membership in a set of tokens.

**Plugin and end to end** (`Plugin`, `PluginImpl`, `Protocol`, `Delivery`, `Companion`). The uplink queue, the guard
against unknown and repeated decisions, and the whole system of one hub and any number of plugins, in which an event may
be posted never, once or again, a decision may arrive at any time and any number of times, and replies come from
anywhere. `Protocol` proves that at most one answer is carried out, `Delivery` that an accepted one is.

**Signing, key derivation, watch** (`Signing`, `Hkdf`, `Watch`, `WatchFeed`). The date check in 64-bit arithmetic, the
nonce cache and the exact window in which a request is single-use; the hand-written HKDF loop; the watch's queue shifted
in place, its choice parser against the phone's printer, and what the hub's prompts and gone messages leave on that
queue over a run. The phone passes an envelope on at most once: while one hub lives, a cursor it refuses is not mended
by a reset (`HubRing.ResetNeverRecovers`).

Strings are sequences of bytes.

## What turned out false

Each of these has a lemma with a witness or a statement for all states, and the exact condition beside it.

- Resetting the cursor to 0 resynchronises only while the ring has not wrapped; afterwards every reset is refused
  (`HubRing.ResetAcceptedIff`, `HubRing.ResetNeverRecovers`). The comment at `api/internal/hub/hub.go:28` has the
  companion reset to the newest cursor; the companion resets to 0.
- A session badge does not imply an open prompt (`HubIndex.BadgeOutlivesPrompt`); it does exactly while the envelope is
  retained (`HubIndex.BadgeMeansOpen`).
- A request reported again while open leaves a prompt that Kilo's answer no longer retracts
  (`HubIndex.RepeatedRequestSticks`); the maps stay inverse exactly without such reports (`HubIndex.StepInverse`).
- A conversation cursor does not survive a session that is deleted and recreated (`HubConversation.StaleCursorMisses`,
  `HubConversation.PollAgreesIff`).
- A poller is stranded when its topic is dropped while it sleeps, whichever operation drops it (`LongPoll.DropStrands`),
  and when a session is deleted and recreated before its poller runs (`LongPoll.RecreatedStrands`). These are the only
  ways (`LongPoll.EnvListening` for a step, `LongPoll.ListensIff` for a run).
- The cap on sessions does not hold. The eviction pass uses the empty identifier for "none so far", and an event that
  names no session creates one with that identifier. If it has no prompt and all else that may go is newer, a walk that
  meets it last finds nothing (`Registry.HiddenStops`); and if it is the only one without a prompt, no walk ever finds
  anything. From a new hub the registry then grows without end (`Registry.Outgrown`). The cap holds over all walks
  exactly when the registry has room, or the empty identifier cannot go, or enough sessions go before it
  (`Registry.BoundIff`); one pass is right exactly as `Registry.PassFindsIff` says.
- A request dated exactly ten seconds ahead can be accepted twice (`Signing.ReplayableIff`), and a date exactly 2^63
  seconds old passes the leeway check (`Signing.CheckDate`).
- A choice list whose last entry is empty does not survive the trip to the watch (`Watch.ParseJoin`). No permission
  prompt has one (`Watch.PermissionChoicesArrive`).
- The comment at `api/internal/hub/hub.go:228` says that registering again replaces a window; the code always adds one,
  and the model follows the code.

## Model

| member | source | states |
|---|---|---|
| `Gf256.BuildTables` | extension/src/qr.ts:24-37 | The table construction fills EXP with the powers of x modulo the field polynomial and LOG with their inverse; entry 0 of LOG stays undefined |
| `Gf256.ExpRecurrence` | extension/src/qr.ts:26-28 | The four-term recurrence the tables are built by holds of every power of x, from the field polynomial alone |
| `Gf256.OrderIs255` | extension/src/qr.ts:28-32 | x has order exactly 255: a power is 1 if and only if its exponent is a multiple of 255 |
| `Gf256.ExpOnto` | extension/src/qr.ts:28-37 | Every non-zero byte is a power of x below 255, so the logarithm is total on them |
| `Gf256.MulAssociates` | extension/src/qr.ts:152-160 | The table product, 0 when a factor is 0, is associative |
| `Gf256.MulDistributes` | extension/src/qr.ts:152-160 | The table product distributes over XOR |
| `Gf256.MulNoZeroDivisors` | extension/src/qr.ts:30-37 | A product is 0 only when a factor is |
| `Gf256.MulExpExp` | extension/src/qr.ts:30-37 | Products of powers add exponents modulo 255 |
| `ReedSolomon.PolyMul` | extension/src/qr.ts:152-160 | The double loop computes the polynomial product |
| `ReedSolomon.EvalTimes` | extension/src/qr.ts:152-160 | Evaluating a product is the product of the evaluations, at every point |
| `ReedSolomon.StripLeadingZeros` | extension/src/qr.ts:137-141 | Removes exactly the leading zeros |
| `ReedSolomon.PolyMod` | extension/src/qr.ts:163-177 | Terminates, since stripping strictly shortens the remainder, and computes the remainder of long division |
| `ReedSolomon.DivisionIdentity` | extension/src/qr.ts:163-177 | Dividend = quotient times divisor + remainder, with the remainder shorter than the divisor |
| `ReedSolomon.RsGeneratorPoly` | extension/src/qr.ts:143-149 | Builds the generator polynomial for every count |
| `ReedSolomon.GeneratorMonic` | extension/src/qr.ts:143-149 | The generator for k is monic of degree k |
| `ReedSolomon.GeneratorRoots` | extension/src/qr.ts:143-149 | Its roots are exactly x^0 .. x^(k-1): a point is a root if and only if it is one of them |
| `ReedSolomon.RsEcCodewords` | extension/src/qr.ts:179-188 | Returns exactly k bytes, the remainder padded on the left, for every data block |
| `ReedSolomon.CodewordIsMultiple` | extension/src/qr.ts:179-188 | Data followed by its correction bytes is a multiple of the generator |
| `ReedSolomon.CodewordVanishes` | extension/src/qr.ts:179-188 | Data followed by its correction bytes evaluates to 0 at x^0 .. x^(k-1) |
| `ReedSolomon.CodeDistance` | extension/src/qr.ts:179-188 | Two different codewords of up to 255 bytes differ in more than k places (the minimum distance of section 7.5 of ISO/IEC 18004:2015) |
| `ReedSolomon.CorrectionIsUnique` | extension/src/qr.ts:179-188 | k bytes complete a block to a codeword if and only if they are the ones computed |
| `QrData.BlocksOfVersion` | extension/src/qr.ts:195-207 | The triple loop builds the block list of a version |
| `QrData.TableFacts` | extension/src/qr.ts:42-83 | Every row of the level M table has correction bytes, at most 255 bytes a block, and no more data than its count field can name |
| `QrData.ChooseVersion` | extension/src/qr.ts:211-229 | Returns the least version whose own count width fits, none exactly when no version fits, in at most two outer passes |
| `QrData.CreateBytes` | extension/src/qr.ts:231-256 | Cuts into blocks, appends corrections and interleaves by columns |
| `QrData.InterleavedLength` | extension/src/qr.ts:231-256 | The output is as long as all block totals together |
| `QrData.InterleaveRoundTrip` | extension/src/qr.ts:248-255 | De-interleaving gives back the rows, whatever follows in the stream |
| `QrData.BlocksAreCodewords` | extension/src/qr.ts:231-256 | Every block of a symbol is a Reed-Solomon codeword |
| `QrData.BuildStream` | extension/src/qr.ts:258-283 | The bit stream is mode, count, payload, terminator and pads, and fills the capacity exactly |
| `QrData.Terminate` | extension/src/qr.ts:271-273 | Pushes exactly four zero bits although the loop bound shrinks as it pushes (section 7.4.9 of ISO/IEC 18004:2015) |
| `QrData.Pad` | extension/src/qr.ts:274 | Alternating EC and 11 up to exactly the limit (section 7.4.10 of ISO/IEC 18004:2015) |
| `QrData.BinaryDigits` | extension/src/qr.ts:276-281 | The bits of a codeword are its binary digits |
| `QrData.EncodeData` | extension/src/qr.ts:258-283 | The loops compute the encoding, of the length of all blocks, which decodes to the input |
| `QrData.StreamRoundTrip` | extension/src/qr.ts:258-274 | Reading the published mode, count width, bytes and padding back gives the input, for every input that fits |
| `QrData.DataFarApart` | extension/src/qr.ts:231-283 | Different data of one version differ in some block in more places than it has correction bytes |
| `QrData.EncodedDecodes` | extension/src/qr.ts:231-283 | De-interleaving both halves, checking every block, and reading mode, count, bytes and padding gives exactly the input |
| `QrPlacement.PathCovers` | extension/src/qr.ts:377-412 | The zigzag reaches every cell outside the timing column |
| `QrPlacement.PathInjective` | extension/src/qr.ts:377-412 | It never visits a cell twice and never touches column 6 |
| `QrPlacement.PathWalks` | extension/src/qr.ts:377-412 | The path is the walk that a reader makes, told in cells: up and down the column pairs, right cell first, from the bottom right corner |
| `QrPlacement.MaskIsTile` | extension/src/qr.ts:363-375 | The eight mask formulas draw the published patterns, cell by cell |
| `QrPlacement.FreeCellsCount` | extension/src/qr.ts:377-412 | The number of bits placed is the number of free cells |
| `QrPlacement.MapData` | extension/src/qr.ts:377-412 | The loops terminate and fill the matrix in place: free cells with masked bits in path order, all others untouched |
| `QrPlacement.MappedShows` | extension/src/qr.ts:377-412 | After it no cell outside column 6 is free, every cell that was filled is as before, and every placed cell shows its bit |
| `QrPlacement.ReadBack` | extension/src/qr.ts:363-412 | Reading the cells in path order and undoing the published mask gives the codeword bits, then zeros |
| `QrSymbol.SetupFinder` | extension/src/qr.ts:289-302 | Draws the finder with its separator, clipped at the edges, and nothing else |
| `QrSymbol.SetupAlignment` | extension/src/qr.ts:304-317 | Draws exactly the alignment squares whose centre was free |
| `QrSymbol.SetupTiming` | extension/src/qr.ts:319-329 | Fills row and column 6 where still free |
| `QrSymbol.SetupTypeInfo` | extension/src/qr.ts:331-350 | Both copies of the format bits and the fixed dark module |
| `QrSymbol.SetupTypeNumber` | extension/src/qr.ts:352-361 | Both copies of the version bits |
| `QrSymbol.BuildMatrix` | extension/src/qr.ts:502-522 | The patterns in order, then the data |
| `QrSymbol.PatternsAgree` | extension/src/qr.ts:502-522 | Which cells are patterns depends on the version alone; only format, version and fixed-dark cells depend on mask or test |
| `QrSymbol.TwoBuilds` | extension/src/qr.ts:331-361 | The test build and the final build fill the same cells and agree outside format, version and fixed-dark cells |
| `QrSymbol.RoomForBytes` | extension/src/qr.ts:502-522 | In all forty versions the free cells hold every byte of the symbol |
| `QrSymbol.SymbolRoundTrip` | extension/src/qr.ts:502-551 | A finished symbol reads back as the input, for every input that fits, every version and every mask, by a reader that is given the matrix alone and knows only the published figures, words and masks |
| `QrFigures.OneMaskShown` | extension/src/qr.ts:119-125 | No matrix shows the format information of two masks |
| `QrFigures.BlocksPublished` | extension/src/qr.ts:42-83 | The level M table is the published division of each version into blocks |
| `QrSymbol.FormatPublished` | extension/src/qr.ts:119-125 | The computed format information is the published word of each mask |
| `QrSymbol.VersionPublished` | extension/src/qr.ts:127-133 | The computed version information is the published word of each version |
| `QrSymbol.CentresOf` | extension/src/qr.ts:86-97 | The table of alignment centres is an even spacing, for all forty versions |
| `QrSymbol.FindersShown` | extension/src/qr.ts:289-302 | The corners of every symbol show the drawn finder pattern with its separator |
| `QrSymbol.TimingShown` | extension/src/qr.ts:319-329 | The timing lines alternate, dark on even coordinates |
| `QrSymbol.AlignmentsShown` | extension/src/qr.ts:304-317 | Every centre but the three in the corners shows the drawn alignment pattern |
| `QrSymbol.FormatShownBy` | extension/src/qr.ts:331-350 | Both copies of the format information stand where the figure has them, with the dark module |
| `QrSymbol.VersionShownBy` | extension/src/qr.ts:352-361 | Both copies of the version information stand where the figure has them |
| `QrSymbol.FreeIsData` | extension/src/qr.ts:502-522 | The encoder leaves for data exactly the cells the figures leave |
| `QrSymbol.ChooseMask` | extension/src/qr.ts:535-544 | The first mask whose test build has the least penalty, for any penalty function |
| `QrSymbol.EncodeQr` | extension/src/qr.ts:529-551 | Fails exactly when no version fits; otherwise least version, first least-penalty mask, and a symbol that decodes to the input |
| `Ids.ScanDecimal` | api/internal/hub/hub.go:904-911 | Scanning a printed number gives it back |
| `Ids.DecisionNumberOf` | api/internal/hub/hub.go:904-911 | decCursorOf("dec_N") is N |
| `Ids.EventIdInjective` | api/internal/hub/hub.go:647-652 | Event identifiers of different numbers differ |
| `HubSpec.TruncateChoices` | api/internal/hub/hub.go:1127-1136 | At most six choices of at most 24 bytes |
| `HubRing.PublishExtends` | api/internal/hub/hub.go:647-674 | The ring stays the last min(size, seq) published envelopes, numbered consecutively |
| `HubRing.StepExtends` | api/internal/hub/hub.go:350-395 | Every step of the hub extends the log by exactly what it publishes and keeps the ring its suffix |
| `HubRing.RunRefinesLog` | api/internal/hub/hub.go:647-674 | In every reachable state the ring is the tail of everything ever published |
| `HubRing.RingIsTail` | api/internal/hub/hub.go:647-665 | From a new hub the ring is the tail of everything ever published, after any run |
| `HubRing.PollOnceExact` | api/internal/hub/hub.go:730-760 | Refuses exactly cursors ahead of the sequence or older than the retained suffix; otherwise returns the log after the cursor |
| `HubRing.PollLoopReadsLog` | companion/app/src/main/kotlin/dev/yyewolf/prh/PrhService.kt:199-223 | A poll loop that is never refused sees each envelope once and in order, whatever is lost or interleaved |
| `HubRing.ResetAcceptedIff` | companion/app/src/main/kotlin/dev/yyewolf/prh/PrhService.kt:224-231 | A reset to cursor 0 is accepted if and only if the ring has not wrapped |
| `HubRing.ResetNeverRecovers` | companion/app/src/main/kotlin/dev/yyewolf/prh/PrhService.kt:224-231 | Once it has wrapped, every later reset is refused, in every continuation |
| `HubPrompts.PublishOpen` | api/internal/hub/hub.go:654-665 | Publishing closes exactly the prompt whose envelope falls off the ring |
| `HubPrompts.StepSound` | api/internal/hub/hub.go:350-395 | Every step keeps every open prompt the one envelope in the ring with its identifier |
| `HubPrompts.OpenFitsRing` | api/internal/hub/hub.go:654-665 | No more prompts are open than the ring holds envelopes |
| `HubAnswers.StepOpens` | api/internal/hub/hub.go:378-391 | A step opens at most the prompt it was asked for, under a new identifier, and changes no other |
| `HubAnswers.NeverReturns` | api/internal/hub/hub.go:770-783 | An identifier that has left the open prompts, however it left, never opens or is answered again |
| `HubAnswers.ReplySettles` | api/internal/hub/hub.go:770-806 | After one reply to an open prompt every later one is refused, in every continuation |
| `HubAnswers.AnsweredOnce` | api/internal/hub/hub.go:770-806 | In every run accepted answers are to different prompts, each for the window and request the prompt was reported with |
| `HubIndex.StepInverse` | api/internal/hub/hub.go:350-395 | A step keeps open and byRequest inverse maps if and only if it does not report a request that is still indexed |
| `HubIndex.RunInverse` | api/internal/hub/hub.go:584-606 | Over runs with distinct open requests the two maps are inverse in every state |
| `HubIndex.RepeatedRequestSticks` | api/internal/hub/hub.go:584-606 | In any state, a request reported twice leaves its later prompt open after Kilo answered the request |
| `HubIndex.StepBadged` | api/internal/hub/hub.go:612-642 | Every step keeps each badge naming a published prompt that is open exactly while retained |
| `HubIndex.BadgeMeansOpen` | api/internal/hub/hub.go:654-665 | A session badge names an open prompt if and only if the ring still retains its envelope |
| `HubIndex.BadgeOutlivesPrompt` | api/internal/hub/hub.go:654-665 | A concrete run in which ring eviction leaves the badge behind |
| `HubDecisions.StepLedger` | api/internal/hub/hub.go:811-830 | Every step keeps decision N the N-th ever sent, and each window the newest 256 of its own with the number of its newest |
| `HubDecisions.ForIncreases` | api/internal/hub/hub.go:127-151 | A window's decision numbers strictly increase and never exceed the global counter |
| `HubDecisions.ForDisjoint` | api/internal/hub/hub.go:127-151 | No number is queued for two windows |
| `HubDecisions.WindowsNeverReturn` | api/internal/hub/hub.go:231-243 | A removed window never comes back under its identifier, and a new one gets an unused one |
| `HubDecisions.PollExact` | api/internal/hub/hub.go:884-900 | A plugin that echoes its cursor gets exactly the rest of its decisions, short only of those beyond the newest 256 |
| `HubDecisions.DeliveredInStep` | plugin/src/index.js:397-425 | A delivered poll keeps the plugin exactly in step if and only if at most 256 decisions were waiting |
| `HubDecisions.DeliveredOnce` | plugin/src/index.js:364-429 | Every decision of its own window exactly once and in order, never another window's, whatever is lost or interleaved |
| `HubConversation.AppendConvStep` | api/internal/hub/hub.go:104-121 | Identifiers and numbers stay distinct, numbers at most convSeq, length at most convSize, and whatever changed is numbered anew |
| `HubConversation.StepTalks` | api/internal/hub/hub.go:350-395 | Every step of the hub keeps that for every session, renumbers whatever it changes in one, and never turns an activity clock back |
| `HubConversation.PollAgreesIff` | api/internal/hub/hub.go:1072-1088 | After a poll an upserting reader agrees on every retained entry if and only if each is newer than its cursor or already shown |
| `HubConversation.ReaderAgrees` | companion/app/src/main/kotlin/dev/yyewolf/prh/ConversationActivity.kt:261-311 | Within one lifetime of the session the reader agrees after every poll, through updates, retractions, evictions and lost answers |
| `HubConversation.NewReaderAgrees` | api/internal/hub/hub.go:1072-1088 | From a new hub: a reader that opens a session after any run agrees with it after every later poll of its lifetime |
| `HubConversation.StaleCursorMisses` | api/internal/hub/hub.go:1072-1088 | In any state, deleting and recreating a session makes a reader with an old cursor miss the new message |
| `HubEffects.MessageRecorded` | api/internal/hub/hub.go:408-427 | A message is the one entry of its conversation under its part, with its own text and the newest number: in the place of an earlier update, or last with only the oldest of a full conversation gone |
| `HubEffects.PermissionOpens` | api/internal/hub/hub.go:378-391 | A permission is published last with the wording the companion has to get, open under its identifier and indexed by its request |
| `HubEffects.PermissionTalks` | api/internal/hub/hub.go:514-528 | It badges its session and stands in its conversation |
| `HubEffects.RepliedRecorded` | api/internal/hub/hub.go:584-642 | A settled request is closed and off both indexes, its entry says gone, its badge goes, and the gone envelope is published last under the same identifier |
| `HubEffects.ReplyRecorded` | api/internal/hub/hub.go:770-830 | An accepted answer is the last decision queued for the window that asked, field by field, with the newest 256 kept, and wakes it |
| `HubEffects.ReplyOutcomes` | api/internal/hub/hub.go:770-806 | Accepted exactly when the prompt is open and its window there; closed afterwards in any case |
| `HubEffects.PromptRecorded` | api/internal/hub/hub.go:929-960 | Dictated text is the last decision queued for the window of its session, and wakes it |
| `HubEffects.StatusRecorded` | api/internal/hub/hub.go:475-503 | A status report claims the session, moves its clock forward only, and wakes its pollers |
| `HubEffects.SeenRecorded` | api/internal/hub/hub.go:431-459 | A session that is created or updated is claimed and moves its clock, and nobody is woken |
| `HubEffects.NoticesPublished` | api/internal/hub/hub.go:284-345 | The end of a turn and an error are published last, in their own words |
| `HubEffects.DeleteDrops` | api/internal/hub/hub.go:461-466 | A deleted session is gone, and its pollers are woken |
| `HubEffects.RemoveDrops` | api/internal/hub/hub.go:248-257 | A removed window takes exactly its own sessions with it |
| `HubEffects.RegisterRecorded` | api/internal/hub/hub.go:230-243 | A registered window has its project and nothing queued, and no other window changes |
| `HubEffects.NothingTwice` | api/internal/hub/hub.go:1072-1088 | The cursor of a conversation poll covers all it answered |
| `LongPoll.StepNudges` | api/internal/hub/hub.go:647-674 | Every step wakes every subscriber of whatever it changes and takes no token |
| `LongPoll.EnvListening` | api/internal/hub/hub.go:685-727 | A poller goes on listening through any step of the others if and only if the step neither drops its topic while it sleeps without a token nor brings back a topic it has not noticed missing |
| `LongPoll.NoLostWakeup` | api/internal/hub/hub.go:685-882 | In every interleaving of check, subscribe, re-check and wait in which no step strands it and the others use their own channels, a blocked poller whose call would return has a token |
| `LongPoll.CallWakes` | api/internal/hub/hub.go:685-882 | So from any call on, made with a channel of its own |
| `LongPoll.EndsClean` | api/internal/hub/hub.go:685-727 | A call that ends leaves its channel registered nowhere |
| `LongPoll.ListensIff` | api/internal/hub/hub.go:685-882 | Over any run, the poller listens all the way through if and only if no step strands it |
| `LongPoll.DropStrands` | api/internal/hub/hub.go:562-579 | The first exception, for every operation that drops a topic, by eviction or by removing a window: a poller of it without a token gets none |
| `LongPoll.RecreatedStrands` | api/internal/hub/hub.go:1036-1067 | The second: after delete and recreate the poller waits on the old session and the next message does not wake it |
| `HubImpl.Session.AppendConv` | api/internal/hub/hub.go:104-121 | Replaces in place or appends and drops the oldest, as the specification says |
| `HubImpl.Session.Retract` | api/internal/hub/hub.go:612-642 | Drops the badge and turns the prompt into a gone entry in place |
| `HubImpl.LiveHub.PublishLocked` | api/internal/hub/hub.go:647-674 | The whole new state is the specified publish |
| `HubImpl.LiveHub.PickOldest` | api/internal/hub/hub.go:566-575 | The loop is the fold of its body over whatever order the map is walked in |
| `Registry.PassFindsIff` | api/internal/hub/hub.go:562-579 | A pass finds a least recent session without a prompt if and only if there is one with an identifier and the empty identifier is not strictly older than all of those |
| `Registry.HiddenPass` | api/internal/hub/hub.go:566-575 | Otherwise it finds what it would find in the part of the walk after the empty identifier |
| `Registry.HiddenStops` | api/internal/hub/hub.go:575-577 | so a walk that meets it last finds nothing although a session could go |
| `Registry.RoomySuffices` | api/internal/hub/hub.go:562-579 | From a registry that starts with room, or whose empty identifier has a prompt or is missing, or with enough sessions no newer than it, the loop makes room or drops all without a prompt, least recent first, over any walks |
| `Registry.Overruns` | api/internal/hub/hub.go:562-579 | From any other registry some walks leave it at the cap or over it with sessions that could go |
| `Registry.BoundIff` | api/internal/hub/hub.go:562-579 | The cap holds over every sequence of walks if and only if that condition holds on entry |
| `Registry.Outgrown` | api/internal/hub/hub.go:475-579 | Whatever the cap: events from a new hub, each evicting as the loop may, make the registry of any size, with no prompt pending at all |
| `HubImpl.LiveHub.EvictSessions` | api/internal/hub/hub.go:562-579 | Terminates, removes only sessions without a prompt and no more than makes room; what is left is what a fold of passes over some walks leaves; from a roomy registry it makes room or drops all without a prompt, least recent first |
| `HubImpl.LiveHub.EvictAndCreate` | api/internal/hub/hub.go:532-557 | After a creation in a roomy registry at most max(maxSessions, prompted + 1) sessions; in any other what the eviction rule allows |
| `Registry.CreateBounded` | api/internal/hub/hub.go:546-579 | The size of the registry after a creation: plainly bounded when it was roomy before, and otherwise in terms of what the loop left |
| `Registry.PromptedSurvives` | api/internal/hub/hub.go:559-561 | A session with a pending prompt survives every event but its own deletion, whatever else is evicted |
| `HubImpl.LiveHub.GetOrCreateSession` | api/internal/hub/hub.go:532-557 | Claims a known session or registers a new one; what was evicted and how many are left is as EvictAndCreate says |
| `HubImpl.LiveHub.TrackPrompt` | api/internal/hub/hub.go:514-528 | Badges the session, records the prompt and wakes its pollers |
| `HubImpl.LiveHub.HandleMessage` | api/internal/hub/hub.go:408-427 | Records a part under its identity |
| `HubImpl.LiveHub.HandleStatus` | api/internal/hub/hub.go:475-503 | Claims, touches and wakes the session |
| `HubImpl.LiveHub.HandleDeleted` | api/internal/hub/hub.go:461-466 | Wakes and drops the session |
| `HubImpl.LiveHub.HandleReplied` | api/internal/hub/hub.go:584-606 | Retracts the prompt and publishes its gone envelope under the same identifier |
| `HubImpl.LiveHub.HandlePermission` | api/internal/hub/hub.go:378-391 | Publishes, indexes and tracks the prompt |
| `HubImpl.LiveHub.IngestPluginEvents` | api/internal/hub/hub.go:350-395 | A batch is its events one after the other, and at each what is evicted keeps the rules of eviction |
| `HubImpl.LiveHub.Reply` | api/internal/hub/hub.go:770-806 | The state and outcome of the specified reply |
| `HubImpl.LiveHub.QueueDecision` | api/internal/hub/hub.go:811-830 | Numbers, queues, trims to 256 and wakes |
| `HubImpl.LiveHub.Prompt` | api/internal/hub/hub.go:929-960 | Queues the clipped text for the owning window |
| `HubImpl.LiveHub.PollOnce` | api/internal/hub/hub.go:730-760 | The specified answer |
| `HubImpl.LiveHub.PollDecisionsOnce` | api/internal/hub/hub.go:884-900 | The specified answer |
| `HubImpl.LiveHub.ConversationOnce` | api/internal/hub/hub.go:1072-1088 | The specified answer |
| `HubImpl.LiveHub.RegisterUpstream` | api/internal/hub/hub.go:230-243 | Always a new window under the next identifier |
| `HubImpl.LiveHub.RemoveUpstream` | api/internal/hub/hub.go:248-257 | The window and exactly its sessions go, in any map order |
| `Plugin.EnqueueKeepsPrompts` | plugin/src/index.js:139-172 | Reporting loses a non-conversation event if and only if all 64 queued are such events; then the oldest |
| `Plugin.RequeuePrompts` | plugin/src/index.js:180-194 | A failed batch puts back its oldest non-conversation events in front, exactly as many as fit when eight are queued in all |
| `Plugin.UplinkInOrder` | plugin/src/index.js:134-199 | Over any mix of reports and posts that succeed or fail: at most 64 queued, and acknowledged non-conversation events are a subsequence of those reported |
| `Plugin.AcknowledgedInOrder` | plugin/src/index.js:134-199 | The same from a plugin that has reported nothing |
| `Plugin.NothingLost` | plugin/src/index.js:134-199 | While no post fails and no report meets 64 queued events that are all waited for: those acknowledged, on their way and queued are exactly those reported, in order; a post carries something, and nothing waits without one |
| `Plugin.AllArrive` | plugin/src/index.js:134-199 | The same from a plugin that has reported nothing |
| `Plugin.NewerUpdateReplaces` | plugin/src/index.js:147-156 | A queued update of a part gives way, in its place, to the newer one |
| `Plugin.OthersQueueUp` | plugin/src/index.js:158-171 | Any other event goes last, of a full queue in place of its oldest conversation event or else its oldest event |
| `Plugin.CallsPaid` | plugin/src/index.js:246-312 | Kilo's permission call is made at most as often as the request was asked, whatever decisions arrive |
| `Plugin.NoncesPassOnce` | plugin/src/index.js:206-211 | The nonces kept are those of the last 512 decisions that passed, and none passes again before 512 others |
| `PluginImpl.State.Report` | plugin/src/index.js:139-172 | The queue after a report |
| `PluginImpl.State.Settle` | plugin/src/index.js:174-199 | The queue after a post settles, either way |
| `PluginImpl.State.Apply` | plugin/src/index.js:246-312 | Verdict and state of a decision, in the order of the checks |
| `PluginImpl.State.ApplyPrompt` | plugin/src/index.js:326-358 | Verdict and state of a dictated text |
| `PluginImpl.State.RememberNonce` | plugin/src/index.js:206-211 | Insertion order, oldest dropped past 512 |
| `PluginImpl.State.OnAsked` | plugin/src/index.js:455-470 | Records the request and reports it, only while registered |
| `PluginImpl.State.OnQuestion` | plugin/src/index.js:481-489 | Records the request and reports an event the hub drops, only while registered |
| `PluginImpl.State.OnReplied` | plugin/src/index.js:472-479 | Forgets the request and reports it, only while registered |
| `PluginImpl.State.Take` | plugin/src/index.js:407-425 | A batch of decisions in order, then the cursor, kept when the answer says 0 |
| `Protocol.StepDaemonSafe` | api/internal/hub/hub.go:770-830 | Every step keeps every queued permission decision backed by an accepted answer, and every answered prompt closed |
| `Protocol.DownlinkedCarriesOut` | plugin/src/index.js:246-312 | A call a decision leads to carries out the answer behind it, for one of this plugin's windows |
| `Protocol.AtMostOneAnswer` | plugin/src/index.js:246-312 | End to end with lost and repeated messages: at most one call per asked request, only for permissions this plugin was asked and forwarded, with the action of an accepted reply |
| `Protocol.OneAnswer` | api/internal/hub/hub.go:770-806 | When no request reached the daemon twice, that reply is the only one accepted for it |
| `Delivery.AnswerGetsThrough` | plugin/src/index.js:246-312 | From the start, over any run: an accepted once, always or reject to the open prompt of a pending permission makes the call, with the session that asked, the request and the answer given, on the first delivery in time |
| `Delivery.DictationGetsThrough` | plugin/src/index.js:326-358 | Text dictated for a session the hub knows reaches Kilo as a prompt in that session |
| `Companion.Reply` | companion/app/src/main/kotlin/dev/yyewolf/prh/PrhClient.kt:223-253 | At most five attempts, only I/O errors retried; an answer of the hub that was heard means the prompt is no longer open |
| `Companion.RepliesOnce` | companion/app/src/main/kotlin/dev/yyewolf/prh/PrhClient.kt:223-253 | However many attempts arrive, at most one answer to the prompt is accepted |
| `Companion.Client.ExecSigned` | companion/app/src/main/kotlin/dev/yyewolf/prh/PrhClient.kt:432-447 | Repeats a request only when its date was refused, once, with the clock corrected by that answer |
| `Companion.Client.Authed` | companion/app/src/main/kotlin/dev/yyewolf/prh/PrhClient.kt:395-411 | At most four requests, every one but the last refused: at most one is acted upon |
| `Signing.CheckDate` | api/internal/auth/sign.go:99-112 | The 64-bit arithmetic accepts exactly dates within ten seconds, one exactly 2^63 seconds old, and a wrap at the end of the clock |
| `Signing.JoinedInjective` | api/internal/auth/sign.go:74-92 | No two (key, nonce) pairs share a cache entry, since an accepted nonce holds no NUL |
| `Signing.CanonicalDetermines` | api/internal/auth/sign.go:44-54 | The signed string determines verb, path, date, nonce and body digest |
| `Signing.AcceptedIff` | api/internal/httpapi/server.go:678-722 | Accepted if and only if well formed, within ten seconds, not used, and signed with the keyed hash of what it says |
| `Signing.SignatureBinds` | api/internal/httpapi/server.go:678-722 | For a keyed hash without collisions, accepted requests under one key with one signature agree in verb, path, date, nonce and body |
| `Signing.SingleUse` | api/internal/httpapi/server.go:678-722 | A request accepted with a date at most nine seconds ahead is never accepted again, unless the whole cache was dropped |
| `Signing.ReplayableIff` | api/internal/auth/sign.go:153-198 | A second acceptance is possible if and only if the date was the full ten seconds ahead |
| `Signing.NonceCache.RememberNonce` | api/internal/auth/sign.go:185-200 | Sweep when full, drop everything when still full, then record |
| `Signing.CacheBounded` | api/internal/auth/sign.go:185-200 | At most 8192 entries, and none dropped before the cache is full |
| `Signing.NonceCache.Sweep` | api/internal/auth/sign.go:202-208 | Removes exactly the lapsed entries, in any map order |
| `Signing.NonceCache.VerifySignature` | api/internal/httpapi/server.go:678-722 | The verdict of the checks in order, acceptance exactly as AcceptedIff says; only an accepted request changes the cache |
| `Hkdf.Derive` | companion/app/src/main/kotlin/dev/yyewolf/prh/PrhSigning.kt:150-175 | The first length bytes of T(1) | T(2) | ... for every length up to 255 blocks, last block truncated (section 2.3 of RFC 5869) |
| `Hkdf.FirstBlocks` | companion/app/src/main/kotlin/dev/yyewolf/prh/PrhSigning.kt:150-175 | The first two blocks written out |
| `Watch.ParseChoices` | watchapp/src/c/main.c:411-436 | The in-place parser fills six rows of 25 bytes with the parsed list and writes nowhere else |
| `Watch.ParseJoin` | companion/app/src/main/kotlin/dev/yyewolf/prh/PebbleBridge.kt:80-94 | Parsing what the phone printed gives the list back if and only if its last entry is not empty |
| `Watch.PermissionChoicesArrive` | api/internal/hub/hub.go:286-308 | The choices of every permission prompt, as the hub words and clips them, reach the watch unchanged when the pattern holds no separator or NUL |
| `Watch.Queue.RemoveAt` | watchapp/src/c/main.c:123-137 | The rest shifts down and, unless the entry shown was removed, the same entry is shown after |
| `Watch.Queue.RemoveById` | watchapp/src/c/main.c:139-147 | Removes the first entry with the identifier, if any |
| `Watch.Queue.Enqueue` | watchapp/src/c/main.c:485-519 | The newest in place of the oldest of eight, and it is the one shown |
| `Watch.Queue.Current` | watchapp/src/c/main.c:115-119 | The entry shown; a position that points nowhere goes back to 0 |
| `Watch.RetractUndoesPush` | watchapp/src/c/main.c:453-461 | On any queue, a gone message takes back what its prompt added if and only if the identifier fits its 32 bytes |
| `WatchFeed.IssuedFits` | api/internal/hub/hub.go:650-652 | Every identifier the hub hands out fits: at most 24 bytes |
| `WatchFeed.GoneTakesBack` | watchapp/src/c/main.c:453-519 | Over any run of the hub, with messages lost and prompts dismissed: a prompt that arrives is shown under its whole identifier, and its gone message, whatever came between, takes off that entry and keeps the others in order; at once, it takes back exactly what the prompt added |
| `WatchFeed.SettledStaysOff` | watchapp/src/c/main.c:453-461 | Over any run: once its gone message has arrived, the watch never shows the prompt again |

## Left out

- HubRing.PollOnceExact: the 64-bit sequence is taken to be below its last value, where the source's cursor + 1 wraps.
- QrSymbol.EncodeQr: the penalty of a matrix is a parameter; the four scans and their weights are not modelled.
- QrSymbol.SetupTypeInfo: the BCH remainder is computed by recursion on the bit length instead of a loop; its inputs are 5 and 6 bits.
- Plugin.UplinkInOrder: the catch and finally callbacks of a post are one step; the microtask between them is not modelled.
- Protocol.AtMostOneAnswer: what Kilo answers to a call is not modelled; a call is counted when it is made.
- Companion.Reply: the pauses between attempts are not modelled; that an attempt reaches the daemon at most once is Companion.Client.Authed.
- Companion.Client.Authed: what a log-in exchanges is a parameter, and the clock corrections made during it are not modelled.
- LongPoll.NoLostWakeup: a poller gives up by one step that stands for its timer and for its caller going away.
- Signing.NonceCache.VerifySignature: keyed hash, body digest and key lookup are parameters.
- Signing.SingleUse: requests are judged one after the other; the gap between looking a nonce up and recording it, in which two copies could be judged at once, is not modelled.
- WatchFeed.SettledStaysOff: fewer than 2^64 envelopes are published, so that the numbers do not wrap.
- QR error correction levels L, Q and H: the encoder is only ever called with M.
- SVG rendering, `renderQrSvg`.
- Session titles, directories and status words, message roles, kinds and times, and the sorted session list: they take no part in any decision.
- Question prompts: the hub drops the plugin's "question" events as unrecognised, and the model has them as `Other`.
- A restarted daemon: a new hub starts from sequence 0; clients that outlive it are not modelled.
- The cancelled branch of handlePoll: its answer goes to a client that has left, so it counts as never received.
- The replacement of invalid UTF-8 that a JSON encoder makes of a string cut mid-character.
- Message roles kept by the plugin, part rendering, and the hello handshake beyond the window it yields.
- HTTP, sockets, TLS, JSON, pairing, login, rate limiting, file persistence, logging.
- The Android, VSCode and Pebble user interfaces, notifications and service life cycles.
- The stubs for the fallback event stream and the waker, and the editor extension's daemon election.
