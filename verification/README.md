# ccwrap: models and proofs

ccwrap is a local man-in-the-middle proxy for Claude Code. This project models the
parts of it where correctness is hardest to see by reading: protocols over
interleavings, codecs, and fast forms that must agree with simple ones. Every
statement holds for all inputs, all runs and all interleavings of the model.

Concurrent code (the listener, the body store, the shared file) is a step
relation: `Apply` gives the state after one atomic step of one goroutine or process,
or `None` when the step is not enabled, and a run is any sequence of enabled steps.
Sequential code that changes things in place is a class or a method with loops, proved
equal to a specification function; the properties are then proved about that function.

| module | what it models |
|---|---|
| `Listener` | the screening listener: accept loop, at most eight owner lookups, `Accept`, `Close` |
| `PcbList`, `PcbStream` | Darwin's kernel socket table: the strict record parser and an encoder of sockets |
| `PeerLookup` | the early-stopping row collector, the Linux and Darwin lookups, the owner verdict |
| `BodyStore`, `BodyBudget` | async body spill, atomic publish, terminal shred, oldest-first budget |
| `Ansi`, `Terminal`, `Dashboard`, `DashboardScreen` | width clamping, a small terminal, the row differ and what it leaves on screen |
| `Json`, `ModelAlias`, `ModelRequest`, `ModelResponse`, `ModelArgs` | model aliases: accepted tables, request rewrite, response normalization, `--model` arguments |
| `ModelStreams`, `EventStream` | the JSON-lines and server-sent-events rewriters |
| `Profiles`, `ProfileEdits`, `ProfileEffects`, `ProfileStore` | `profiles.json`: validity, selection, every writer of it and what it does to the file |
| `SharedFile`, `SharedProfiles` | a file under any number of locking processes, and `profiles.json` as that file |
| `AuthResolve` | which credential goes upstream |
| `ClientHello` | peeking a TLS ClientHello and replaying it |
| `Socks5` | the SOCKS5 client handshake |
| `Launcher` | the signal relay and the rollback stack |
| `Prelude`, `Text` | shared types and string operations |

Where the code does less than its documentation or tests suggest, the model keeps the
code's behaviour and a lemma gives the exact condition:

- `ProfileEdits.RemoveWrites`: removing a profile of a valid file can be refused by the
  validator, when the default names the profile only after trimming
  (`RemoveRefusedByUntrimmedDefault` is a file where it happens).
- `SharedProfiles.UnforcedRmTakesDefaultIff`: `profile rm` checks for the default before it
  takes the lock only (`UnforcedRmCanTakeDefault` is a run).
- `SharedProfiles.OutcomeLoads`: writers check a file with the validator, which does not look
  at aliases, and the first-run migration writes a file it creates unchecked; so some writes
  go through and leave a file that nothing loads. `BlankAliasSpoilsFile` is an add with an empty
  target, `SpacedWrapperSpoilsFile` a file that the next write spoils, `FtpSeedSpoilsFile` a
  migration.
- `ModelResponse.TwiceIsOnceIffSettled`: normalizing twice can go on to another name
  (`ChainedAliasesMoveTwice` is an accepted table).
- `ModelAlias.TableRestoresExplicitOnly`: a batch item sent through the default does not come
  back under its own name (`DefaultNotRestored`).
- `ModelStreams.EdgesKeptIffPlain`: a rewritten JSON line loses edge white space other than
  spaces, tabs and carriage returns (`OtherSpacesLost`: a vertical tab, a no-break space).
- `AuthResolve.MissingSecretIff`: a profile that owns auth but finds no secret falls back to
  credentials of trusted settings files, although the environment is shut out
  (`SettingsKeyTakesOver` is a user settings file with an API key).

## Model

| member | source | states |
|---|---|---|
| `Listener.Admission.LogOnce` | internal/localpeer/listener.go:184-195 | a key is logged the first time it comes up and never again |
| `Listener.Admission.Admit` | internal/localpeer/listener.go:156-173 | a peer passes if and only if it is our own uid or root, or could not be identified, was not ownerless, and the policy is not strict; every other answer, and every failure let through, is logged once under its own key, and our own uid and root never are |
| `Listener.StepKeepsInv` | internal/localpeer/listener.go:72-142 | every step of the accept loop, a screener, an Accept or a Close call keeps the slot count, the placement of connections, the policy, the lock discipline and the order of closing |
| `Listener.RunKeepsInv` | internal/localpeer/listener.go:72-142 | so does every interleaving of them |
| `Listener.EveryConnectionPlacedOnce` | internal/localpeer/listener.go:104-142 | in every interleaving each connection taken from the inner listener is in exactly one place, only admitted ones get to an Accept call, and an admitted one is closed only after done |
| `Listener.OnePlace` | internal/localpeer/listener.go:104-142 | the number of places holding a connection is one if it was taken and zero if not |
| `Listener.OnlyOwnConnectionsDelivered` | internal/localpeer/listener.go:135-173 | in every interleaving a connection an Accept call holds was looked up in that run and found to be ours or root's, or, where the policy is not strict, not identifiable and not ownerless |
| `Listener.ScreenedConnectionArrives` | internal/localpeer/listener.go:120-133 | a screened connection that passes is put up and reaches a waiting Accept call; any other is closed |
| `Listener.ErrorReachesAccept` | internal/localpeer/listener.go:104-118 | an error of the inner listener reaches a waiting Accept call, and ends the loop only if it says closed |
| `Listener.LookupsBounded` | internal/localpeer/listener.go:104-133 | slots in use equal the loop's reservation plus the connections in lookup, and never exceed eight |
| `Listener.NoDeliveryAfterClose` | internal/localpeer/listener.go:72-102 | once some Close has returned, no later step of any interleaving makes an Accept call return a connection |
| `Listener.CloseWaitsForAccepts` | internal/localpeer/listener.go:94-102 | Close gets past its lock only when every Accept call has returned |
| `Listener.StepShrinks` | internal/localpeer/listener.go:104-142 | once done is set and the inner listener closed, each step of the loop or a screener, the return of a late connection included, lowers a measure that no other step raises |
| `Listener.WindDownBounded` | internal/localpeer/listener.go:104-142 | so any run from there has boundedly many of those steps |
| `Listener.WindDownNeverStuck` | internal/localpeer/listener.go:104-142 | until loop and screeners have finished one of them can always take a step, and the measure is zero exactly when they have |
| `Listener.AcceptUnblockedByClose` | internal/localpeer/listener.go:72-102 | after done, every Accept in flight and then Close itself can go on |
| `PcbList.ParsePCBList` | internal/localpeer/pcblist.go:57-108 | the parsing loop computes the parse, row by row and error by error, for every buffer and every visitor |
| `PcbList.KindMask` | internal/localpeer/pcblist.go:79-82 | the bit tests on a record kind accept exactly the six kinds |
| `PcbList.WalkGroups` | internal/localpeer/pcblist.go:64-107 | walking over whole groups of records, in any order inside a group, is visiting their sockets |
| `PcbList.Gather` | internal/localpeer/pcblist.go:64-95 | from any offset the loop reads records of new kinds until a socket is complete; otherwise it visits nothing more and ends without an error only at a trailer |
| `PcbList.UnmapIs` | internal/localpeer/localpeer.go:59-64 | unmapping turns ::ffff:a.b.c.d into a.b.c.d and leaves every other address alone |
| `PcbList.KeysEqualIff` | internal/localpeer/localpeer.go:59-64 | two keys are equal if and only if both ports and both unmapped addresses are |
| `PcbList.ParseVisitsStream` | internal/localpeer/pcblist.go:57-108 | on header, groups and trailer the parser visits exactly the groups' sockets, stopping where the visitor says and failing only at an inconsistent socket |
| `PcbStream.ParseExplained` | internal/localpeer/pcblist.go:57-108 | on any bytes at all the rows visited are those of whole groups lying in the buffer, and an uncut parse fails unless a trailer follows them |
| `PcbStream.AcceptsExactlyStreams` | internal/localpeer/pcblist.go:57-108 | the parser accepts a buffer if and only if it is header, consistent groups, trailer |
| `PcbStream.VisitShowsRows` | internal/localpeer/pcblist.go:99-106 | over consistent sockets the visitor sees the rows in order up to the first point where it has seen enough |
| `PcbStream.RecordsDecode` | internal/localpeer/pcblist.go:113-147 | decoding the two records of a socket, whatever the filler bytes, gives back its addresses, ports and owner, or an orphan mark for an orphan whatever its inpcb, protocol and family fields hold; a row with both family bits is IPv4 |
| `PcbStream.RowFields` | internal/localpeer/pcblist.go:113-147 | field by field: the ports, the addresses with mapped ones unmapped, and the owner of a live socket |
| `PcbStream.EncodeIsStream` | internal/localpeer/pcblist.go:57-64 | the encoder's output is a well-formed stream of its groups |
| `PcbStream.ParseInvertsEncode` | internal/localpeer/pcblist.go:57-147 | encoding any sockets, records in any order, and parsing visits exactly those sockets in order, up to where the visitor stops |
| `PeerLookup.RowSet.Add` | internal/localpeer/localpeer.go:94-106 | a live row replaces an orphan one, the live counter stays the number of wanted keys with a live row, and false comes back exactly when all have one |
| `PeerLookup.CompleteByCount` | internal/localpeer/localpeer.go:106 | comparing the live count with the number of keys is asking whether every key has a live row |
| `PeerLookup.CollectAnswers` | internal/localpeer/localpeer.go:78-106 | collecting all rows leaves for each wanted key its first live row, else its first row |
| `PeerLookup.CompleteIsFinal` | internal/localpeer/localpeer.go:92-106 | after the point where a scan stops early, further rows would change nothing |
| `PeerLookup.Scan` | internal/localpeer/lookup_linux.go:15-36 | reading one table with early stop gives the collection over all its rows, and fails only if a broken row comes before everything was found |
| `PeerLookup.LinuxLookup` | internal/localpeer/lookup_linux.go:15-36 | the two-file lookup equals one scan of both tables, with the exact conditions under which it fails |
| `PeerLookup.DarwinLookupIsFullScan` | internal/localpeer/lookup_darwin.go:13-32 | the early-stopping parse gives the collection over all encoded sockets |
| `PeerLookup.PeerUID` | internal/localpeer/localpeer.go:125-150 | at most two lookups; a uid only for a live peer row and only if our own live row, when listed, reads as self; the exact condition of every other verdict |
| `PeerLookup.PeerUIDFromTables` | internal/localpeer/localpeer.go:125-150 | over the tables themselves: the uid is that of the peer's first live row, whose ports and addresses are the connection's own turned around; a live row in the first table decides; and "not found" means no row at all in either |
| `BodyBudget.BodiesDir.Scan` | internal/supervisor/bodystore.go:150-166 | what counts toward the budget is exactly the readable `.json` files |
| `BodyBudget.BodiesDir.RemoveOldest` | internal/supervisor/bodystore.go:168-174 | the loop removes the shortest prefix of the queue that brings the total within budget |
| `BodyBudget.BodiesDir.EnforceBudget` | internal/supervisor/bodystore.go:135-175 | eviction leaves the directory without the shortest oldest-first prefix of body files, and touches nothing else |
| `BodyBudget.SortedSorts` | internal/supervisor/bodystore.go:167 | sorting by modification time keeps the files and orders them |
| `BodyBudget.EvictionFits` | internal/supervisor/bodystore.go:135-175 | with a positive budget and removals succeeding, what is left fits |
| `BodyBudget.EvictedAreOldest` | internal/supervisor/bodystore.go:167-174 | no file evicted is newer than one kept |
| `BodyBudget.EvictionMinimal` | internal/supervisor/bodystore.go:168-174 | with any file fewer evicted the bodies would still be over budget |
| `BodyStore.FileNames` | internal/supervisor/bodystore.go:67-68 | body and temporary names never collide, within an id or across ids |
| `BodyStore.RunKeepsInv` | internal/supervisor/bodystore.go:36-131 | every interleaving of puts, deletes and removeAll keeps the mutex, the completeness of bodies, the emptiness after a shred and the budget |
| `BodyStore.NothingWrittenOnceClosed` | internal/supervisor/bodystore.go:47-58 | from the moment closed is set no file or directory appears or changes, whatever was or will be issued |
| `BodyStore.ShredIsFinal` | internal/supervisor/bodystore.go:123-131 | after a removeAll that went through has returned, the directory is gone for good |
| `BodyStore.BudgetHoldsBetweenPuts` | internal/supervisor/bodystore.go:49-77 | whenever the mutex is free, and no eviction hit an I/O error, the bodies fit the budget |
| `BodyStore.LoadSeesWholePuts` | internal/supervisor/bodystore.go:62-95 | a lock-free load that answers gives the complete payload of some put of that id |
| `BodyStore.LoadIs` | internal/supervisor/bodystore.go:90-95 | which ids are refused, and for the others that a load gives exactly the bytes on disk, or says that there are none |
| `BodyStore.PublishedIsRead` | internal/supervisor/bodystore.go:62-77 | once its rename went through, a put is read back whole |
| `BodyStore.PutIsReadBack` | internal/supervisor/bodystore.go:62-95 | and in every interleaving it stays so until something publishes, removes, evicts or wipes that id |
| `BodyStore.AnswerStays` | internal/supervisor/bodystore.go:36-131 | no other step of anybody changes what a load of an id answers |
| `BodyStore.NothingReadAfterShred` | internal/supervisor/bodystore.go:90-131 | after a completed removeAll every id is missing, for good |
| `BodyStore.Store.PutCritical` | internal/supervisor/bodystore.go:49-77 | what a put leaves on disk for every pattern of failing system calls, and that the protocol's steps of that goroutine alone leave the same |
| `BodyStore.Store.DeleteCritical` | internal/supervisor/bodystore.go:97-108 | a delete removes that body alone, and nothing once closed, as the protocol's step does |
| `BodyStore.Store.RemoveAll` | internal/supervisor/bodystore.go:123-131 | with no goroutine to wait for, the shred closes the store and empties the directory, as its five steps of the protocol do |
| `BodyStore.PutBySteps` | internal/supervisor/bodystore.go:49-77 | whatever a put's critical section can leave, the atomic steps of the protocol lead to |
| `Ansi.ClampANSIWidth` | internal/dashboard/dashboard.go:214-251 | the index loop computes the clamp, for every text and width |
| `Ansi.ClampIsClampItems` | internal/dashboard/dashboard.go:214-251 | on rows with complete escape sequences the clamp cuts between items and adds a reset exactly when the row is styled and does not end in one |
| `Ansi.ClampKeepsFirstRunes` | internal/dashboard/dashboard.go:214-251 | what stays visible is exactly the first min(w, visible) runes, with every escape before the cut |
| `Ansi.WideClamp` | internal/dashboard/dashboard.go:214-251 | a row that fits is kept whole, escapes cut short included, with a reset if it is styled and has none |
| `Ansi.ClampIdempotent` | internal/dashboard/dashboard.go:214-251 | clamping twice is clamping once |
| `Terminal.NumberOfDecimal` | internal/dashboard/dashboard.go:296 | a row number written in decimal reads back as itself |
| `Terminal.FeedAppend` | internal/dashboard/dashboard.go:295-304 | feeding a terminal two texts one after another is feeding their concatenation |
| `Terminal.FeedCsi` | internal/dashboard/dashboard.go:296-303 | a complete control sequence is dispatched as one |
| `Terminal.PrintRow` | internal/dashboard/dashboard.go:297-302 | a fitting row prints its cells from the cursor on and leaves the rest alone |
| `Dashboard.Renderer.constructor` | internal/dashboard/dashboard.go:183-189 | a new renderer remembers no rows and, on a terminal, has entered and cleared the alternate screen |
| `Dashboard.Renderer.Resize` | internal/dashboard/dashboard.go:202-208 | a resize forgets the rows and clears the screen |
| `Dashboard.Renderer.Draw` | internal/dashboard/dashboard.go:253-306 | a draw writes the partial redraw from the first changed row, or nothing when nothing changed, and remembers the clamped rows |
| `Dashboard.PipedDraw` | internal/dashboard/dashboard.go:276-293 | off the terminal a changed frame is written line by line, unclamped |
| `DashboardScreen.DrawShows` | internal/dashboard/dashboard.go:253-306 | on a screen showing the previous frame, the partial redraw leaves exactly the new frame followed by blanks |
| `DashboardScreen.PartialRedrawIsFullRedraw` | internal/dashboard/dashboard.go:253-306 | the partial redraw leaves the same screen as clearing and printing everything |
| `DashboardScreen.StartShowsBlank` | internal/dashboard/dashboard.go:183-189 | starting leaves a blank screen |
| `DashboardScreen.EventShows` | internal/dashboard/dashboard.go:202-208 | every draw and every resize leaves the last clamped frame on an otherwise blank screen |
| `DashboardScreen.SessionShowsLastFrame` | internal/dashboard/dashboard.go:183-306 | so does every sequence of draws and resizes whose frames fit the height |
| `DashboardScreen.RenderInjective` | internal/dashboard/dashboard.go:270-275 | equal row texts are equal rows, so comparing texts is enough |
| `ModelAlias.New` | internal/modelalias/modelalias.go:70-104 | whatever order the map is ranged over, a table is accepted if and only if no name or target is blank, no name is a provider's id, only `*` stands for `*`, and no two explicit aliases share a target; an accepted one holds the trimmed entries |
| `ModelAlias.ProviderSpecificIff` | internal/modelalias/modelalias.go:958-984 | an id is a provider's if and only if, trimmed, it has a slash, an at sign, a colon or the word "anthropic." in it |
| `ModelAlias.TargetIs` | internal/modelalias/modelalias.go:180-244 | the model sent is the alias's target, for a Claude name without one that of `*`, and otherwise the one named; and when a model counts as unmapped |
| `ModelAlias.ReverseMap` | internal/modelalias/modelalias.go:1049-1061 | the loop inverts the explicit aliases, in any order |
| `ModelAlias.LogicalForProvider` | internal/modelalias/modelalias.go:253-264 | the scan finds the one explicit alias of a provider model, in any order |
| `ModelAlias.NotRewrittenIsKeptOrUnmapped` | internal/modelalias/modelalias.go:180-244 | a Claude model not rewritten on a route with aliases is either kept on purpose or flagged unmapped, never both or neither |
| `ModelAlias.TableRestoresExplicitOnly` | internal/modelalias/modelalias.go:475-481 | the alias table alone, all a batch result is read with, restores an item's model if and only if it had an alias of its own or was sent under its own name |
| `ModelAlias.DefaultNotRestored` | internal/modelalias/modelalias.go:475-481 | an accepted table and a model sent through it that the table alone does not bring back |
| `ModelAlias.WellFormedIsUnambiguous` | internal/modelalias/modelalias.go:70-104 | an accepted table can be read backwards: one logical name per target, no blank target |
| `ModelRequest.RewriteObjectModel` | internal/modelalias/modelalias.go:755-779 | which model a request object is sent with, and when it is refused |
| `ModelRequest.SentIs` | internal/modelalias/modelalias.go:755-779 | member by member what a request object goes out as, and the two things it is refused for |
| `ModelRequest.StrictSendsNoStrayProviderId` | internal/modelalias/modelalias.go:755-779 | in strict mode a provider-shaped id goes upstream only as some alias's target |
| `ModelRequest.StripSystemBlocks` | internal/modelalias/modelalias.go:614-661 | the filter loop drops the identity blocks, keeps the rest in order, and removes the member when nothing is left |
| `ModelRequest.KeptAll` | internal/modelalias/modelalias.go:620-649 | an element is kept if and only if it is none of Claude Code's own blocks |
| `ModelRequest.DropsIff` | internal/modelalias/modelalias.go:554-607 | the blocks dropped are Claude Code's three identity texts and its billing header, as texts or text blocks |
| `ModelRequest.StrippedIs` | internal/modelalias/modelalias.go:614-661 | stripping changes `system` alone, keeps what stays in order, and removes it only when nothing stays |
| `ModelRequest.RewriteBody` | internal/modelalias/modelalias.go:663-702 | a body is sent as it came with nothing recorded but the way back, re-encoded, or refused, path by path, text that is no JSON included |
| `ModelRequest.EndpointIs` | internal/modelalias/modelalias.go:1035-1047 | the three paths that carry models, with any number of trailing slashes |
| `ModelRequest.MessageRewrittenIff` | internal/modelalias/modelalias.go:663-702 | when a message is rewritten, sent as it came, refused, or flagged unmapped |
| `ModelRequest.SystemDroppedIff` | internal/modelalias/modelalias.go:683-692 | Claude Code's blocks are dropped exactly where the model sent is no Claude model and nobody asked to keep them |
| `ModelRequest.MessageKeepsTheRest` | internal/modelalias/modelalias.go:683-701 | a rewritten message carries the target under `model` and every other member but `system` as it came |
| `ModelRequest.MessageRoundTrip` | internal/modelalias/modelalias.go:663-702 | wherever the answer to a rewritten message names the model it was sent with, the client reads the model it asked for |
| `ModelRequest.RewriteItem` | internal/modelalias/modelalias.go:718-741 | a rewritten item has the target of its model and every other member, of the item and of its params, as it came; one not rewritten has no target; params that are no object are refused |
| `ModelRequest.RewriteItems` | internal/modelalias/modelalias.go:717-742 | each item is rewritten by itself, and one bad item refuses the batch |
| `ModelRequest.RewriteBatch` | internal/modelalias/modelalias.go:704-753 | a batch goes out whole or not at all, its other members unchanged, recording the names of the first item rewritten |
| `ModelRequest.BatchRewrittenIff` | internal/modelalias/modelalias.go:704-753 | a batch is re-encoded if and only if some item is rewritten, each item in its place |
| `ModelResponse.RewriteObjectModels` | internal/modelalias/modelalias.go:874-897 | the recursive in-place rewriter normalizes the tree and reports a change exactly when a model was renamed |
| `ModelResponse.NormalizeAlong` | internal/modelalias/modelalias.go:874-897 | along every path of `message` and `result` the same objects are reached, each with its model renamed and every other member unchanged |
| `ModelResponse.ReencodedIffKnown` | internal/modelalias/modelalias.go:821-838 | a response is re-encoded if and only if some reachable object names a known model |
| `ModelResponse.ResponseNamesRequestedModel` | internal/modelalias/modelalias.go:874-897 | for every accepted table and rewritten request, every reachable place naming the sent model names the requested one, even if the default and an explicit alias share it; other aliases map back to their own names and anything else stays |
| `ModelResponse.TwiceIsOnceIffSettled` | internal/modelalias/modelalias.go:985-1001 | normalizing a second time changes nothing, on all responses, if and only if no logical name is renamed itself |
| `ModelResponse.ChainedAliasesMoveTwice` | internal/modelalias/modelalias.go:985-1001 | an accepted table and a response that a second normalization changes again |
| `ModelArgs.NormalizeModelID` | internal/modelalias/modelalias.go:272-284 | a value that is an explicit alias's target means that alias's name; any other is kept, or has no name if it is a provider's id and may not pass |
| `ModelArgs.NormalizeClaudeModelArgs` | internal/modelalias/modelalias.go:286-318 | the loop edits exactly the `--model` values, up to `--`, lists each replacement, and reports the unexplained ones once each |
| `ModelArgs.ValueIsNamed` | internal/modelalias/modelalias.go:286-318 | wherever in the options a model is given, inline or as the next argument, it comes out under its alias's name, or as it was |
| `ModelArgs.OthersStay` | internal/modelalias/modelalias.go:286-318 | arguments that give no model, and all from `--` on, stay as they were |
| `ModelArgs.ChangesUndoAliases` | internal/modelalias/modelalias.go:286-318 | each listed replacement names an explicit alias and its target |
| `ModelArgs.Dedupe` | internal/modelalias/modelalias.go:1097-1112 | first occurrences, trimmed, in order |
| `ModelArgs.FirstsHold` | internal/modelalias/modelalias.go:1097-1112 | the result holds exactly the distinct non-blank values |
| `ModelArgs.ProviderSpecificModelArgs` | internal/modelalias/modelalias.go:937-956 | the gate finds the provider-shaped `--model` values |
| `ModelArgs.ValueIsHit` | internal/modelalias/modelalias.go:937-956 | a provider's id given as a model anywhere in the options is found |
| `ModelArgs.GateSeesOnlyUnresolved` | internal/modelalias/modelalias.go:286-318 | after normalizing, what the gate finds is exactly what was reported unresolved |
| `ModelStreams.RewriteParses` | internal/modelalias/modelalias.go:821-838 | a rewritten text parses as the normalized value |
| `ModelStreams.RewriteJSONL` | internal/modelalias/modelalias.go:840-872 | the line count stays; a line that holds a known model anywhere comes out as text of the normalized value, and every other line byte for byte |
| `ModelStreams.JSONLKeepsLines` | internal/modelalias/modelalias.go:840-872 | the same of the lines one by one |
| `ModelStreams.EdgesKeptIffPlain` | internal/modelalias/modelalias.go:854-865 | around a rewritten object the line keeps every byte if and only if its edge white space is spaces, tabs and carriage returns |
| `ModelStreams.OtherSpacesLost` | internal/modelalias/modelalias.go:854-865 | a vertical tab before, or a no-break space after, a rewritten object is lost |
| `EventStream.WrapSSE` | internal/modelalias/modelalias.go:899-920 | the scanner loop emits each line rewritten and terminated; the client reads the same events, each data line with a known model normalized and every other the very line sent |
| `EventStream.ReadsNormalized` | internal/modelalias/modelalias.go:922-935 | reading a rewritten line does what reading the line does, with a data payload normalized |
| `EventStream.WrappedEventsAreNormalized` | internal/modelalias/modelalias.go:899-935 | on terminated streams without carriage returns the client parses the same events, ids and retry time, with each data line normalized |
| `EventStream.ClientReadsNormalized` | internal/modelalias/modelalias.go:899-935 | event by event and data line by data line, without the rewriter's own terms |
| `EventStream.SSELineNormalized` | internal/modelalias/modelalias.go:922-935 | a single line: only a data line with a known model changes, and stays a data line |
| `EventStream.LineEndsDoNotMatter` | internal/modelalias/modelalias.go:903-907 | lines ending in CR LF are seen as the lines ending in LF are |
| `EventStream.EventsReadBack` | internal/modelalias/modelalias.go:899-935 | the events a server writes are the events the client's parser reads |
| `Profiles.Validate` | internal/profiles/validate.go:111-178 | no violation is reported if and only if the file is valid; the default and each profile are blamed exactly when they are at fault |
| `Profiles.ValidateAuth` | internal/profiles/validate.go:266-306 | an auth block passes if and only if its mode is known and exactly one key source is set, and a complaint names the rule that is broken |
| `Profiles.ValidateEgress` | internal/profiles/validate.go:180-243 | an egress passes if and only if its mode is known and its URL is absent, or present with a matching scheme, as the mode requires, and a complaint names the rule that is broken |
| `Profiles.ValidateBaseURL` | internal/profiles/validate.go:337-371 | a base URL passes if and only if it is blank or http(s) with a host |
| `Profiles.Select` | internal/profiles/profiles.go:204-259 | which profile a request selects: by name, by group, by the group's default |
| `Profiles.ExplicitSelection` | internal/profiles/profiles.go:204-259 | an explicit request gives the profile of that name, else the only one of that provider, else of several the default, else the reason there is none |
| `Profiles.ImplicitSelection` | internal/profiles/profiles.go:204-222 | an empty request is one for the default, and "inherit-env" leaves the environment alone |
| `Profiles.DefaultAlwaysSelects` | internal/profiles/profiles.go:213-222 | on a missing or loadable file an empty request never fails, and gives the profile the default names if it names one |
| `Profiles.ExplicitNeverInherits` | internal/profiles/profiles.go:204-259 | an explicit request never degrades to the environment, and selects the profile of that name or one of that provider |
| `Profiles.EncodedLoads` | internal/profiles/profiles.go:79-140 | a file that is written can be read back if and only if it is valid and every alias table coerces, and comes back as it was if and only if its tables are also trimmed and it has a default |
| `Profiles.CoerceAliases` | internal/modelalias/modelalias.go:356-454 | in any order of the map, an alias table is taken if and only if it has no blank name or target and none of the three wrapper names; what is taken is trimmed |
| `Profiles.CoercedCoercesIffSteady` | internal/modelalias/modelalias.go:356-454 | a table that was read can be written and read again if and only if no name trims to a wrapper name |
| `ProfileEdits.EditIdempotent` | internal/profileapi/profileapi.go:241-304 | applying an edit twice is applying it once |
| `ProfileEdits.EditDoes` | internal/profileapi/profileapi.go:241-304 | an edit changes what the request carries and nothing else, and the exact conditions of its refusals |
| `ProfileEdits.CliEditDoes` | cmd/ccwrap/profile_crud.go:688-769 | the same of the flags, with aliases and headers merged |
| `ProfileEdits.CliEditMirrorsStore` | cmd/ccwrap/profile_crud.go:688-769 | the command line's edit makes the same profile as the store's wherever the store accepts, and one that does not validate where the store refuses |
| `ProfileEdits.RemoveWrites` | internal/profileapi/profileapi.go:346-393 | removing an existing profile of a valid file passes validation if and only if the default is another once trimmed, or it is this profile and official is left, nothing is left, or the first name left equals a name left once trimmed |
| `ProfileEdits.RemoveWritesOverTrimmedNames` | internal/profileapi/profileapi.go:346-393 | over trimmed names: if and only if the default is the profile exactly or not even after trimming |
| `ProfileEdits.RemoveRefusedByUntrimmedDefault` | internal/profileapi/profileapi.go:346-372 | a valid file whose profile cannot be removed |
| `ProfileEdits.AddThenRemoveRestores` | internal/profileapi/profileapi.go:161-372 | removing a profile just added puts the file back as it was |
| `Text.LeastUnique` | internal/profileapi/profileapi.go:378-393 | the alphabetically first name is one name |
| `Text.LessEqIff` | internal/profileapi/profileapi.go:378-393 | the order of names is dictionary order |
| `ProfileEdits.SetDefaultWrites` | internal/profileapi/profileapi.go:397-424 | choosing a default always validates, and launching without a name then selects it |
| `ProfileEdits.ModelDefaultWrites` | internal/profileapi/profileapi.go:428-449 | setting the model default never breaks a valid file |
| `ProfileEdits.EnsureWrites` | internal/profiles/seed.go:49-115 | on a missing or loadable file the official profile is put in place, nothing else is lost, the result loads, and a second run changes nothing |
| `ProfileEdits.FreshSeedValidIff` | internal/profiles/seed.go:149-206 | a seed file is valid if and only if its name is free, its URL is http(s) with a host and its key is not blank |
| `ProfileStore.StateDir.Overwrite` | internal/profiles/write.go:12-59 | only a valid file is written, in one step; otherwise the old one stays |
| `ProfileStore.StateDir.WriteFresh` | internal/profiles/seed.go:246-291 | the exclusive create writes only where there was no file, and does not validate |
| `ProfileStore.StateDir.Add` | internal/profileapi/profileapi.go:161-209 | an added profile is written with the file it was added to, or nothing changes; what is then loaded under its name reads as it was given in every field, is selected by its name, and by default if it was made the default |
| `ProfileStore.StateDir.ApplyEdit` | internal/profileapi/profileapi.go:241-304 | which edits are refused; otherwise a field the request does not carry stays, one it carries has the value given, a key from one source leaves none from the other, and a mode without a proxy leaves no proxy URL |
| `ProfileStore.StateDir.Edit` | internal/profileapi/profileapi.go:307-335 | an edited profile is written back, or nothing changes |
| `ProfileStore.StateDir.ChooseFallbackDefault` | internal/profileapi/profileapi.go:378-393 | official if it is left, else the alphabetically first profile, else none |
| `ProfileStore.StateDir.Remove` | internal/profileapi/profileapi.go:346-372 | the profile is gone and the default moved if it was the default, or nothing changes |
| `ProfileStore.StateDir.SetDefault` | internal/profileapi/profileapi.go:397-424 | the default is set, official restored for inherit-env, or nothing changes |
| `ProfileStore.StateDir.SetModelDefault` | internal/profileapi/profileapi.go:428-449 | the `*` alias is set if the resulting table is acceptable, or nothing changes |
| `ProfileStore.StateDir.EnsureOfficial` | internal/profiles/seed.go:49-115 | the launch-time repair writes its result, or nothing when there is nothing to do |
| `ProfileStore.StateDir.CliAdd` | cmd/ccwrap/profile_crud.go:289-341 | the command line's add, starting from an empty file when there is none |
| `ProfileStore.StateDir.ApplyEditOpts` | cmd/ccwrap/profile_crud.go:688-769 | which flags are refused; otherwise aliases and headers no flag names survive, fields no flag names stay, those named have the value given, and a mode without a proxy clears the URL |
| `ProfileStore.StateDir.CliEdit` | cmd/ccwrap/profile_crud.go:389-442 | the command line's edit |
| `ProfileStore.StateDir.CliRemove` | cmd/ccwrap/profile_crud.go:575-601 | the part of `rm` under the lock: the default goes to inherit-env if it was the profile |
| `ProfileStore.StateDir.CliSetDefault` | cmd/ccwrap/profile_crud.go:618-672 | the command line's set-default |
| `ProfileStore.StateDir.Migrate` | cmd/ccwrap/migrate.go:83-183 | a seed for a third-party upstream with a credential is appended to the file loaded under the lock, or becomes the file, or nothing happens |
| `ProfileEffects.AddTakesEffect` | internal/profileapi/profileapi.go:161-209 | when an add goes through, and that the file then holds the profile as given, the others as they were, and official alone where there was no file |
| `ProfileEffects.EditTakesEffect` | internal/profileapi/profileapi.go:307-335 | the same of an edit |
| `ProfileEffects.RemoveTakesEffect` | internal/profileapi/profileapi.go:346-393 | a removal takes the profile alone; the default moves only if it was the profile, to official, the first name left, or nothing |
| `ProfileEffects.SetDefaultTakesEffect` | internal/profileapi/profileapi.go:397-424 | when choosing a default goes through, and what changes |
| `ProfileEffects.SetModelDefaultTakesEffect` | internal/profileapi/profileapi.go:428-449 | one alias more, and nothing else |
| `ProfileEffects.CliAddTakesEffect` | cmd/ccwrap/profile_crud.go:289-341 | the profile the flags describe, key by key source, is stored |
| `ProfileEffects.CliEditTakesEffect` | cmd/ccwrap/profile_crud.go:389-442 | the flags given change the profile, and nothing else |
| `ProfileEffects.CliRemoveTakesEffect` | cmd/ccwrap/profile_crud.go:575-601 | when the command line's removal goes through, and where the default goes |
| `ProfileEffects.CliSetDefaultTakesEffect` | cmd/ccwrap/profile_crud.go:618-672 | the default is the name given, and nothing else changes |
| `ProfileEffects.MigrateTakesEffect` | cmd/ccwrap/migrate.go:140-183 | when a migration goes through, and that its profile carries the upstream and the one credential that counts |
| `ProfileEffects.StoredIsSelected` | internal/profiles/profiles.go:204-259 | a stored profile is selected by its name, and by no name if it is the default |
| `SharedFile.NoLostUpdates` | internal/profiles/lock.go:30-47 | in every interleaving, with processes dying anywhere, the file is the successful edits applied one after another in lock order, each exactly once |
| `SharedFile.LooksSeeVersions` | internal/profiles/write.go:12-59 | whoever reads without the lock sees some committed version |
| `SharedFile.CreateNeverCollides` | internal/profiles/seed.go:246-291 | under the lock what was loaded is still there at the commit, so the exclusive create never finds a file |
| `SharedFile.RunKeepsInv` | internal/profiles/lock.go:30-47 | every interleaving of starts, unlocked looks, lock, load, commit, release and death keeps the lock exclusive, what was loaded fresh, and the file equal to the edits made |
| `SharedFile.VersionsStayGood` | internal/profileapi/profileapi.go:64-89 | what every edit keeps holds of every version of every interleaving |
| `SharedProfiles.UntouchedProfileSurvives` | internal/profileapi/profileapi.go:64-89 | a profile no successful job is about is still there and reads as it did after all of them |
| `SharedProfiles.OutcomeLoads` | internal/profiles/write.go:12-59 | on a loadable or missing file the launch-time repair always leaves a loadable one, and any other writer does if and only if the aliases it is given coerce, no alias left in the file trims to a wrapper name, and, if it is a migration creating the file, its seed has a free name, an http(s) URL and a key that is not blank |
| `SharedProfiles.EveryVersionLoads` | internal/profileapi/profileapi.go:64-89 | from a loadable file without such aliases, and with jobs that bring neither such aliases nor blank ones nor unfit seeds, every version of every interleaving loads, and launching without a name always resolves on it |
| `SharedProfiles.BlankAliasSpoilsFile` | internal/profileapi/profileapi.go:161-209 | an add with a blank alias target goes through and leaves a file that does not load |
| `SharedProfiles.SpacedWrapperSpoilsFile` | internal/modelalias/modelalias.go:356-454 | a file that loads, and a set-default after which it does not |
| `SharedProfiles.FtpSeedSpoilsFile` | cmd/ccwrap/migrate.go:150-183 | a migration that creates a file that does not load |
| `SharedProfiles.UnforcedRmTakesDefaultIff` | cmd/ccwrap/profile_crud.go:523-610 | an unforced rm that holds the lock saw another default when it looked; its write takes the default away if the default has become the profile since, and keeps it otherwise |
| `SharedProfiles.GoesOnIff` | cmd/ccwrap/profile_crud.go:523-575 | what the unlocked look of `rm` and of the migration lets through |
| `SharedProfiles.UnforcedRmCanTakeDefault` | cmd/ccwrap/profile_crud.go:523-610 | a run in which that happens |
| `AuthResolve.ToMap` | internal/preflight/preflight.go:627-637 | the environment as a table: later entries win, entries without `=` do not count |
| `AuthResolve.StripAmbientAuthEnv` | internal/preflight/profile.go:119-135 | the loop filters the ambient auth entries |
| `AuthResolve.StripDropsAmbient` | internal/preflight/profile.go:119-135 | stripping removes every ambient auth key and changes no other |
| `AuthResolve.MergeSource` | internal/settings/settings.go:236-254 | one source's documents are merged in order, and one unreadable env block refuses |
| `AuthResolve.EffectiveProviderEnv` | internal/settings/settings.go:222-276 | the nested loops merge the trusted sources, weakest first; project and local files contribute nothing but may refuse |
| `AuthResolve.MergedLookup` | internal/settings/settings.go:236-254 | a key has the value of the strongest layer that sets it |
| `AuthResolve.StrongestSettingCounts` | internal/settings/settings.go:222-254 | policy settings beat those given by flag, those the user's, and those the global ones; of one source the last document counts; project and local ones never do |
| `AuthResolve.ResolveAuthWithSources` | internal/preflight/preflight.go:415-481 | ccwrap's own keys first, then exactly one of Claude's three, each with its header; none is passthrough and two are a conflict |
| `AuthResolve.ApplyProfileOverlay` | internal/preflight/profile.go:166-220 | the environment untouched without a profile's auth, and otherwise stripped with the profile's credential injected, or the variable that was empty reported |
| `AuthResolve.OverlayHoldsSecret` | internal/preflight/profile.go:204-220 | the injected key reads back as the profile's secret and no other ambient key is left |
| `AuthResolve.ResolveProfileAuth` | internal/preflight/profile.go:277-419 | the auth pipeline of a launch |
| `AuthResolve.OwnedAuthIsTheProfiles` | internal/preflight/profile.go:306-419 | a profile that owns auth, in a known mode and with its secret at hand, decides alone, and the header is exactly its secret |
| `AuthResolve.ProfileKeySent` | internal/preflight/profile.go:182-220 | an inline key is sent in the header its mode stands for |
| `AuthResolve.ProfileVariableSent` | internal/preflight/profile.go:182-220 | a named variable's value is sent in the header its mode stands for |
| `AuthResolve.EnvironmentDecides` | internal/preflight/profile.go:306-419 | without a profile that owns auth and without settings that set a credential the launch environment decides |
| `AuthResolve.AmbientAuthDoesNotInterfere` | internal/preflight/profile.go:182-220 | two launches differing only in ambient auth and in settings files resolve to the same auth |
| `AuthResolve.MissingSecretIff` | internal/preflight/profile.go:199-220 | with no secret the launch has no credential if and only if no trusted settings file sets one, and conflicts if and only if two keys are set |
| `AuthResolve.SettingsKeyTakesOver` | internal/preflight/profile.go:199-220 | a bearer profile with an unset key variable sends the API key of the user settings file |
| `AuthResolve.MissingSecretFailsClosedIff` | internal/preflight/preflight.go:149-164 | on a third-party route without passthrough that is when it fails closed |
| `ClientHello.PeekClientHello` | internal/supervisor/clienthello.go:24-61 | the peek succeeds if and only if there is a shortest run of whole handshake records covering the announced message, returns those bytes, at most 131076 of them, and always ends |
| `ClientHello.ReadRecord` | internal/supervisor/clienthello.go:30-41 | one whole handshake record, or the reason there is none |
| `ClientHello.HelloUnique` | internal/supervisor/clienthello.go:43-57 | there is one such run |
| `ClientHello.HelloHoldsMessage` | internal/supervisor/clienthello.go:43-54 | the run holds the whole message its header announces |
| `ClientHello.FragmentsAreTheHello` | internal/supervisor/clienthello.go:24-61 | however a hello is cut into records and whatever follows, those records are what a peek returns |
| `ClientHello.MessageIsPeeked` | internal/supervisor/clienthello.go:24-61 | a handshake message cut anywhere into records of type 22, header in the first, within 65536 bytes before the last, is exactly what a peek returns |
| `ClientHello.ReplayConn.Read` | internal/supervisor/clienthello.go:65-70 | reads give the peeked bytes and then the connection's, in order, and end exactly when all are delivered |
| `ClientHello.PeekThenReplay` | internal/supervisor/clienthello.go:58-61 | replay is possible if and only if there is a hello; the raw bytes are its records, and the replayed stream is the original one from its first byte |
| `Socks5.GreetingReadsBack` | internal/egress/egress.go:281-289 | the greeting reads back as the methods offered |
| `Socks5.AuthReadsBack` | internal/egress/egress.go:317-325 | the credential message reads back as the credentials |
| `Socks5.ConnectReadsBack` | internal/egress/egress.go:362-404 | the request reads back as the address and port |
| `Socks5.ReplyEndsThere` | internal/egress/egress.go:411-429 | every granting reply is accepted and consumed to its end |
| `Socks5.GrantIsReply` | internal/egress/egress.go:411-429 | what the client accepts and consumes is a granting reply, byte for byte |
| `Socks5.ScriptEndsThere` | internal/egress/egress.go:269-433 | both scripts of a server that goes along are accepted to their end |
| `Socks5.OnlyTwoScripts` | internal/egress/egress.go:269-433 | and no other bytes are |
| `Socks5.ConsumeAddr` | internal/egress/egress.go:437-458 | the bound address is consumed through its port, for each address type |
| `Socks5.Authenticate` | internal/egress/egress.go:281-348 | greeting and credentials: succeeds exactly on an offered method, accepted |
| `Socks5.Connect` | internal/egress/egress.go:362-433 | the request and its reply |
| `Socks5.Dial` | internal/egress/egress.go:269-433 | the handshake succeeds if and only if the server's bytes are such a script and the request can be formed; it has then read exactly through BND.PORT, and what it sent reads as a request for the literal, the first local address, or the name; otherwise the connection is closed |
| `Socks5.SentReadsBack` | internal/egress/egress.go:269-433 | everything sent reads back as the offer, the credentials if asked for, and the very address and port |
| `Launcher.SignalRelay.OnSignal` | cmd/ccwrap/launcher.go:659-675 | what the loop does on a signal |
| `Launcher.SignalRelay.OnGrace` | cmd/ccwrap/launcher.go:676-678 | what the loop does when the grace period ends |
| `Launcher.RelayDoes` | cmd/ccwrap/launcher.go:642-685 | over every timed run each signal is forwarded, the first alone is reported, and the kill comes at the first event that asks for it |
| `Launcher.KillOnceAndNotEarly` | cmd/ccwrap/launcher.go:642-685 | at most one kill, after the first signal and not before the grace period or the repeat gap is over |
| `Launcher.KillComes` | cmd/ccwrap/launcher.go:642-685 | once the grace period is over, or a signal comes the gap after the first, the child has been killed |
| `Launcher.RollbackStack.Call` | cmd/ccwrap/launcher.go:41-46 | a cleanup runs the first time it is called only, even if it panics |
| `Launcher.RollbackStack.Run` | cmd/ccwrap/launcher.go:61-69 | every cleanup not yet run is run once, in reverse push order, whichever panic |
| `Launcher.RemainingIs` | cmd/ccwrap/launcher.go:61-69 | the cleanups run are exactly those left, last pushed first |

## Left out

- Goroutines and processes are steps on values, not Dafny threads; an atomic step is a mutex-protected section, one system call or one channel operation. That the source's critical sections are protected is modelled by the holder field, not by the Go memory model.
- The reader/writer lock's preference for writers: the listener model lets an Accept start while a Close waits, which only adds interleavings.
- The inner listener, real sockets, files, flock, rename, sysctl, `/proc` text and process spawning: one atomic step or a byte sequence each. I/O failures are booleans chosen by the environment; deadlines are not modelled.
- `PeerLookup.LinuxLookup`: takes the rows of a table and whether a row breaks it; parsing `/proc/net/tcp` text is not modelled.
- `BodyStore.Store.RemoveAll`: runs with no goroutine left; the waiting between its two critical sections is a step of the interleaving model (`WaitWorkers`).
- `BodyStore.RunKeepsInv`: ids with a path separator given to put are outside the model, which keys files by name; load's refusal of them is modelled. A partial removeAll may leave files, which the model allows.
- `Ansi.ClampKeepsFirstRunes`: columns are runes, as in the source; double-width glyphs and invalid UTF-8 are not modelled.
- `DashboardScreen.SessionShowsLastFrame`: rows are printable runes and SGR sequences, frames fit the height, and the window has its new size when the renderer is told; a draw between the two, and the piped (non-terminal) output, are not covered by the screen theorem.
- `ModelAlias.New`: when two names become equal by trimming, which one wins depends on Go's map order; the contract says it is one of them. Fingerprint and source label are left out, as are `Resolve` and its file and environment sources.
- `ModelResponse.NormalizeAlong`: JSON is a value; text parsing, number spelling, member order and the case-insensitive matching of struct fields are not modelled. The encoder is any function whose text parses back and holds no control character.
- `ModelRequest.RewriteBody`: HTTP headers, content types, size limits and the noting of a model on routes with nothing to rewrite are left out.
- `EventStream.WrappedEventsAreNormalized`: streams with carriage returns (those that end every line aside, which `LineEndsDoNotMatter` covers), with a byte order mark, without a final line feed, or with lines beyond the scanner's limit are not covered.
- Text comparisons fold case as Go does wherever the other side is ASCII; provider groups with non-ASCII names are compared by the same folding, not by full Unicode simple folding.
- `Profiles.Validate`: reports which profiles are at fault, not the wording or the order of messages. URL parsing is a parameter.
- `Profiles.EncodedLoads`: when two alias names of one profile become equal by trimming, the code keeps whichever comes last in Go's map order; `Load` keeps the first spelling. `Profiles.CoerceAliases` allows any.
- `ProfileStore.StateDir.CliAdd`: flag parsing and the mutual exclusion of the three key flags are left out; the flags are a value. The live-session scan of `rm` only prints warnings and is left out.
- `AuthResolve.ResolveProfileAuth`: only the auth part of the resolver; base URL, egress, headers, child environment, notes and the refusals on settings conflicts are left out.
- `ClientHello.PeekClientHello`: which bytes bufio has buffered ahead is not visible; buffer and connection are one stream.
- `Socks5.Dial`: name resolution, port lookup and address parsing are parameters; connecting and deadlines are left out.
- `Launcher.RelayDoes`: time is the moment an event is handled; when several events are ready any order is a run.
- HTTP CONNECT egress, certificates, header diffs, project lists, the doctor, upgrade and other presentation code would only add easy members.
