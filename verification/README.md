# pygt1000, verified

A Dafny model of the host side of a BOSS GT-1000 effects unit: how requests and replies are
kept apart across threads, how the cached picture of the patch stays consistent while the
unit's echoes race with background scans, how the effect chain is parsed and printed, how
settings are addressed and read back, how frames are built and recognised, and how the
parameter tables behind all this are made from the specification's text.

The modules follow the program's files.

- `DeviceLink` holds the link as a class; `LinkProtocol` is the same link with any number of
  requester threads, every step between two lock operations on its own.
- `RefreshScheduler` is the queue, event and drain loop as a class; `SchedulerProtocol` is
  the same with any number of submitters and one worker, every lock operation and every
  access to the queue or the event a step of its own.
- `PatchStore` says what each operation makes of the patch state, `PatchState` is the class
  that does it in place, `PatchRuns` is about whole runs of these operations.
- `BlockSnapshot` is the slider policy and `SliderReads` the reads behind one slider. `Gt1000`
  holds the facade's scans, re-reads and echo handling on its collaborators.
- `RefreshLoop` is the whole loop under concurrency: one receive callback, one worker, local
  changes from other threads, every read of the fx-name owner a step of its own.
  `RefreshHistory` reads a run's past off its steps, `RefreshCrashes` says when the worker
  dies, `RefreshNames` and `RefreshSliders` what a block is left with, and `RefreshWitness`
  builds runs that show each fault.
- `Chain`, `SysExCodec` and `CanonicalName` each model one source file. `Positional`,
  `BlockIds`, `AddressMap` and `AddressCodec` share `address_map.py`. `OptionTables` is the
  table converter.

A class and the functions its contracts name are two views of one operation: each method's
contract gives the whole new state by a function of the old one, and the lemmas are about
that function. Where the code leaves something open - what the unit answers, which frames
arrive while a thread sleeps, what is submitted while a handler runs - it is a parameter,
and every result holds for all its values.

Some of what was proved is that the code does less than one might expect, and exactly when:

- Printing a tree and parsing it back gives the tree for the well-formed trees and no
  others; a divider without a mixer is the one parsed tree that does not survive
  (`Chain.PrintThenParse`, `Chain.ParseThenPrint`).
- A checksum is the value 128, which is no seven-bit data byte, exactly when the payload sum
  is a multiple of 128 (`SysExCodec.CalculateChecksum`). The comment at
  `pygt1000/constants.py:31` writes such a frame with the checksum 0; the code sends 128.
- The j-th distinct option of a parameter gets the j-th value exactly when no option is
  repeated, and a table loses no parameter exactly when the names they are stored under,
  which a repeat gets by a number, are all different
  (`OptionTables.DistinctOptionsCountUp`, `OptionTables.NothingLostIff`).
- At rest the sliders of every stored fx block are those of the effect the fx-name owner has
  for it, in label, range and value; but the block's own name is the owner's exactly if a
  TYPE echo has landed on the block since its type was recorded, or none did between its
  read and the recording, or the last that did carried the name read
  (`RefreshLoop.QuiescentConsistency`, `RefreshNames.NameIsOwnersIff`).
- An equaliser's stored level control fits its name exactly if that is not PARAMETRIC or a
  scan that read PARAMETRIC stored it last (`RefreshNames.EqLevelFitsIff`).
- The worker dies exactly at a read whose lookup fails under the owner's entry of that moment;
  where the tables hold what was chosen, only a TYPE echo landing on the very block between
  the choice and the read brings that about (`RefreshCrashes.CrashesExactly`,
  `RefreshCrashes.CrashNeedsEcho`).
- An effect whose values are looked up in a table of another name than the map gives, as
  those of MASTERING FX are, lets no first refresh get through (`Gt1000.UnreadableNeverReady`).
- A TYPE echo leaves the owner naming an effect exactly if it is the block's own, not a
  sub-effect's, and its byte has a label (`Gt1000.EchoNamesEffectIff`).
- An echo carries the id a block is stored under except for the two preamps, and for fx
  blocks from the tenth on (`AddressCodec.DecodedIdIsScanId`, `Gt1000.EchoedSwitchLands`).

## Model

| member | source | states |
|---|---|---|
| RefreshLoop.SlidersFollowOwner | pygt1000/gt1000.py:276-298 | in every reachable state, a stored fx block with no re-read owed or in hand and no fx scan under way shows the effect its owner names: label by the policy, range and value from that effect's tables |
| RefreshLoop.QuiescentConsistency | pygt1000/gt1000.py:157-178 | whatever echoes raced with whatever scans and re-reads, once no scan, slider task or echo is pending all stored fx blocks show the effect the owner names, in label, range and value |
| RefreshLoop.StepsAreOperations | pygt1000/patch_state.py:115-221 | each step of the loop changes the patch state by one of its operations, with the arguments named, or not at all |
| RefreshSliders.EffectSlidersAtRest | pygt1000/block_snapshot.py:160-206 | at rest, where the unit answered every read, a stored fx block has each slider that the policy chooses and the tables list for the effect its owner names, with its parameter, that parameter's range and a number or a listed name; and none the policy does not choose |
| RefreshSliders.OrdinarySliders | pygt1000/block_snapshot.py:160-206 | in every reachable state a stored block of any type but fx and eq has exactly the sliders the policy gives its type, each with its parameter's range in the block's table |
| RefreshSliders.EqualiserSlider | pygt1000/block_snapshot.py:160-167 | in every reachable state a stored equaliser has one slider, for LEVEL or LEVEL1, with that parameter's range |
| RefreshCrashes.CrashesExactly | pygt1000/block_snapshot.py:160-206 | in every reachable state the worker's next step kills it exactly when it is a range or value read whose lookup fails under the owner's entry of that moment; choosing and storing sliders meet no missing key |
| RefreshCrashes.CrashNeedsEcho | pygt1000/block_snapshot.py:180-203 | where both chosen sliders can be resolved under the entry they were chosen by, a crash happens only over an fx block on which a TYPE echo has landed since the choice |
| RefreshWitness.EchoCrashesWorker | pygt1000/block_snapshot.py:198-203 | a run for any configuration in which an echo between choice and range read kills the worker, the slider chosen having no range under what was echoed |
| RefreshWitness.GuitarSimToAutoWah | pygt1000/address_map.py:311-324 | the same for AC GUITAR SIM's LEVEL and an echo of AUTO WAH, whose table has no LEVEL |
| RefreshWitness.SubEffectEchoCrashes | pygt1000/block_snapshot.py:200 | the same for an echoed name that has no table suffix, such as a sub-effect's own TYPE |
| RefreshNames.OwnerEntry | pygt1000/patch_state.py:136-157 | in every reachable state the owner's entry is the last name read or echoed for the block |
| RefreshNames.StoredName | pygt1000/patch_state.py:115-119 | a stored block's name, of any type, is the last echoed since its type was recorded, or else the one read by that scan |
| RefreshNames.StoredSwitch | pygt1000/patch_state.py:121-134 | in every reachable state a stored block's switch is the last echoed for it or written to it since its type was recorded, or else the one read by that scan |
| RefreshNames.StampIsLast | pygt1000/patch_state.py:168-221 | in every reachable state a type's time stamp is that of its last recording, or of the last value that landed on a block of it since |
| RefreshNames.NameIsOwnersIff | pygt1000/patch_state.py:168-221 | outside fx scans a stored fx block's name is the owner's entry if and only if a TYPE echo landed since the recording, or none did between read and recording, or the last that did carried the name read |
| RefreshNames.EqLevelFitsIff | pygt1000/gt1000.py:174-178 | with nothing pending, a stored equaliser's level control is the one for its name if and only if the name is not PARAMETRIC or its sliders were stored last by a scan that read PARAMETRIC |
| RefreshWitness.RacedNameStaysStale | pygt1000/patch_state.py:115-119 | for any effect types with fx, any counts and any block of them, a run that ends with nothing pending and that block named as a raced scan read it, the owner naming what was echoed |
| RefreshWitness.RereadLosesEqLevel | pygt1000/block_snapshot.py:160-167 | for any effect types with eq, a run that ends with nothing pending and a PARAMETRIC equaliser controlling LEVEL |
| SliderReads.ResolvedUnder | pygt1000/block_reader.py:51-77 | a slider whose range and value were read under one effect has that effect's range and one of its labels or a raw number |
| SliderReads.EffectSliderRead | pygt1000/block_snapshot.py:180-206 | where section, container, block table and value table list the parameter, under the keys and sections written out, an answered read gives the slider with that entry's range and the listed name or the number; an unanswered one none |
| SliderReads.PlainSliderRead | pygt1000/block_reader.py:36-49 | the same for any other block, with the number or no value |
| SliderReads.NoSuchBlock | pygt1000/address_map.py:311-324 | an effect whose block its container does not list has no slider and raises nothing; a name without a suffix, and an ordinary block that is not listed, raise |
| Gt1000.EchoedSwitchLands | pygt1000/gt1000.py:218-223 | the echo of a switch written to a scanned block sets exactly that stored block's state when the unit echoes the id it is stored under, which it does but for the two preamps and fx blocks from the tenth on; there the block keeps its state |
| Gt1000.EchoNamesEffectIff | pygt1000/address_map.py:363-386 | a TYPE echo that lands on an fx block leaves the owner naming an effect if and only if the decoded value has no table suffix and a label, in tables where an fx block's own TYPE lists effects and a sub-effect's none |
| Gt1000.DecodedValueArrives | pygt1000/gt1000.py:285-291 | a decoded slider value moves every slider of the stored block that controls the parameter to the decoded number |
| Gt1000.DecodedTypeArrives | pygt1000/gt1000.py:291-298 | a decoded TYPE names the stored block and queues one slider task with its type and its number |
| Gt1000.FxBlockRead | pygt1000/block_snapshot.py:110-135 | an fx block read whole: switch, effect, and its two sliders in order with their ranges and values |
| Gt1000.PlainBlockRead | pygt1000/block_snapshot.py:110-135 | the same for the types whose sliders go by the type, those without a TYPE named after type and id |
| Gt1000.BlocksInOrder | pygt1000/block_snapshot.py:137-143 | a scan that gets through has each block as read, in address order |
| Gt1000.NamesAfter | pygt1000/block_snapshot.py:124-125 | after n fx blocks the owner has the TYPE read of each and nothing else is new |
| Gt1000.ProcessedIsEchoThenSubmit | pygt1000/gt1000.py:285-298 | the unsolicited-data handler is the refresh loop's echo step followed by its submission |
| Gt1000.FirstRefreshMakesReadyIff | pygt1000/gt1000.py:157-164 | a first refresh gets through, and makes the state ready, if and only if every block of every type can be read |
| Gt1000.UnreadableNeverReady | pygt1000/block_reader.py:69-70 | while an fx block runs an effect whose value table is not the one named by its suffix and the unit answers, no first refresh gets through or makes the state ready |
| Gt1000.RefreshIsRun | pygt1000/gt1000.py:157-164 | a refresh that gets through is a legal run of whole scans, one per type in order |
| Gt1000.Gt1000.RefreshState | pygt1000/gt1000.py:157-164 | the state after a refresh is the one after scanning the types in order, each with its own time stamp, up to the type before which stop() was noticed or in which a block raised |
| Gt1000.Gt1000.RefreshSliders | pygt1000/gt1000.py:174-178 | a slider task stores the two sliders the policy, the tables and the unit give, or fails on a missing fx name, suffix, parameter or type without changing anything |
| Gt1000.Gt1000.ProcessDataFromUnit | pygt1000/gt1000.py:276-300 | a program change queues one full refresh; a decoded value changes state and queue as specified; an unknown address changes nothing |
| Gt1000.Gt1000.ToggleFxState | pygt1000/gt1000.py:218-223 | a switch goes out as one DT1 frame at the block's address and is recorded under the normalised id; without an address nothing is sent or recorded |
| Gt1000.Gt1000.SnapshotBlock | pygt1000/block_snapshot.py:110-135 | one block as the unit answers for it, with or without its sliders, an fx block's name recorded with the owner even when a slider raises |
| Gt1000.Gt1000.SnapshotAll | pygt1000/block_snapshot.py:137-143 | all blocks of a type in address order up to one that raises, every fx name recorded, the new records shared with nobody |
| LinkProtocol.NoCrossTalk | pygt1000/device_link.py:162-178 | a request returns None after exactly the retry budget of empty polls, or the latest reply at its own address stored between its registration and the poll that answered |
| LinkProtocol.PendingIsInFlight | pygt1000/device_link.py:162-170 | the table's keys are exactly the addresses in flight, one requester each, and no poll meets a missing key |
| LinkProtocol.RoutedOnceInOrder | pygt1000/device_link.py:120-142 | every inbound frame is settled exactly one way, the way its bytes and the device id say, and in order of arrival |
| LinkProtocol.StoredIffAwaited | pygt1000/device_link.py:131-140 | a data reply is stored exactly when a request in flight has its address, otherwise it goes to the unsolicited handler |
| LinkProtocol.DeviceIdFixed | pygt1000/device_link.py:125-151 | a link off the broadcast id is never moved by any frame |
| LinkProtocol.UninterruptedReceive | pygt1000/device_link.py:120-142 | the callback's steps without interruption are the callback of the class |
| DeviceLink.ReceiveAllCorrelates | pygt1000/device_link.py:130-136 | over any frames the table keeps its keys and an entry holds the latest reply at its own address |
| DeviceLink.ReceivesIdentity | pygt1000/device_link.py:120-151 | an identity reply, byte by byte, moves a link on the broadcast id onto the id it names and is reported; off the broadcast id it does nothing |
| DeviceLink.ReceivesData | pygt1000/device_link.py:125-142 | a data reply, byte by byte, goes to the request waiting at its address, or else to the unsolicited handler, or nowhere if it is for another device |
| DeviceLink.DeviceLink.OnReceive | pygt1000/device_link.py:120-142 | one frame negotiates, is dropped, is stored for its waiter, or is forwarded |
| DeviceLink.DeviceLink.NegotiateIdentity | pygt1000/device_link.py:144-151 | an identity reply moves the link onto its device id and is reported, any other frame does nothing |
| DeviceLink.DeviceLink.Wait | pygt1000/device_link.py:172-178 | the latest reply received by the first poll that sees one, or None after all polls |
| DeviceLink.DeviceLink.Exchange | pygt1000/device_link.py:162-170 | the same from registration to pop, leaving every other request's entry in place |
| DeviceLink.DeviceLink.Request | pygt1000/device_link.py:103-109 | the RQ1 bytes for this device, address and length go out, and the latest reply at that address comes back |
| DeviceLink.DeviceLink.SetAndAwait | pygt1000/device_link.py:111-116 | the DT1 bytes for this device, address and value go out, and the latest echo of that address comes back |
| SchedulerProtocol.NoLostWakeup | pygt1000/refresh_scheduler.py:61-83 | with the lock free, a non-empty queue has its event set, so a waiting worker can only go and drain |
| SchedulerProtocol.NoDeadlock | pygt1000/refresh_scheduler.py:61-88 | while a submit call is open, or a task is queued and the worker lives, some thread already running can take a step other than a wait timing out |
| SchedulerProtocol.ExactlyOnceInOrder | pygt1000/refresh_scheduler.py:74-93 | dispatched tasks, then the one in hand, then the queue, is the submission history |
| SchedulerProtocol.DrainTerminates | pygt1000/refresh_scheduler.py:74-88 | a drain pass takes at most four steps per task queued at its start or appended since, and two more, and returns only on an empty queue |
| SchedulerProtocol.StopEndsTheWorker | pygt1000/refresh_scheduler.py:103-124 | after stop() at most one further drain pass completes |
| SchedulerProtocol.PassesAreWakeUps | pygt1000/refresh_scheduler.py:121-124 | each return of the wait has one drain pass, completed or under way, and there is no other |
| SchedulerProtocol.StopWakes | pygt1000/refresh_scheduler.py:103-106 | once stop() has returned the event stays set, so that a waiting worker can only go on, until a drain pass looks at the queue |
| RefreshScheduler.RefreshScheduler.Submit | pygt1000/refresh_scheduler.py:61-65 | appends and wakes |
| RefreshScheduler.RefreshScheduler.Dispatch | pygt1000/refresh_scheduler.py:88-93 | a kind with a handler reaches it, any other is skipped and holds nothing up |
| RefreshScheduler.RefreshScheduler.Drain | pygt1000/refresh_scheduler.py:74-86 | one pass dispatches everything queued or arriving during it, once each, in order, and ends with queue empty and event clear |
| RefreshScheduler.RefreshScheduler.Stop | pygt1000/refresh_scheduler.py:103-106 | sets the flag and wakes the worker |
| PatchRuns.NamesFollowOwner | pygt1000/patch_state.py:121-166 | over whole scans, echoes, local changes and re-reads, each atomic, a stored fx block's name is the owner's entry and ids are distinct within a type |
| PatchRuns.ApplyIsLocal | pygt1000/patch_state.py:168-221 | an echo changes at most one block, the first with its id, and bumps the type's time stamp exactly when it matched |
| PatchRuns.ReadyIffAllScanned | pygt1000/patch_state.py:100-119 | the count test holds exactly when every declared type has been scanned |
| PatchRuns.ReadyForGood | pygt1000/patch_state.py:168-178 | readiness is never lost, and before it echoes change nothing |
| PatchStore.ValueArrives | pygt1000/patch_state.py:168-221 | in a ready state a value lands on the first block with its id: SW sets its state, TYPE its name, any other exactly the sliders that control it, to its number; all else stays, and the time stamp moves on a match |
| PatchStore.ValueLost | pygt1000/patch_state.py:178-221 | before readiness, or without a block of its id, a value changes nothing; without its type the lookup fails |
| PatchStore.ChangeStored | pygt1000/patch_state.py:121-134 | a local change reaches the only block of its type, or all with its id, and nothing else |
| PatchStore.SlidersStored | pygt1000/patch_state.py:159-166 | a re-read gives the first block with the id both sliders in their order |
| PatchStore.ScanStored | pygt1000/patch_state.py:115-157 | a recorded scan replaces its type's blocks and time stamp, a recorded name one entry |
| PatchState.PatchState.Apply | pygt1000/patch_state.py:168-221 | folds a decoded value into the stored records in place, as the specification says, or fails on an unknown type |
| PatchState.PatchState.RecordScan | pygt1000/patch_state.py:115-119 | installs the scanned records and the time stamp and nothing else |
| PatchState.PatchState.SetFx | pygt1000/patch_state.py:121-134 | changes the only entry whatever its id, or all entries with the id |
| PatchState.PatchState.SetSliders | pygt1000/patch_state.py:159-166 | changes the sliders of the first entry with the id |
| PatchState.PatchState.SetFxName | pygt1000/patch_state.py:136-151 | records one fx name |
| PatchState.PatchState.FxName | pygt1000/patch_state.py:153-157 | the recorded name, or a missing key |
| PatchState.PatchState.IsReady | pygt1000/patch_state.py:100-108 | the count test on the stored types |
| PatchState.PatchState.Snapshot | pygt1000/patch_state.py:110-113 | a copy equal to the current state |
| Chain.PrintThenParse | pygt1000/chain.py:38-143 | parsing a printed tree followed by any rest gives the tree and leaves that rest, for the well-formed trees and no others |
| Chain.ParseThenPrint | pygt1000/chain.py:72-143 | the printed length is the token count plus the missing splits plus the missing mixers; tokens come back unchanged exactly when none is missing; re-parsing gives the same tree exactly when no mixer is |
| Chain.ParsedIsShaped | pygt1000/chain.py:38-114 | what the parser builds, at any depth, respects the stop tokens of its level |
| Chain.TokensOfDivider | pygt1000/chain.py:81-86 | the divider DIVIDER, id has the split BRANCHSPLIT, id and the mixer MIXER, id |
| Chain.NumbersAreIds | pygt1000/chain.py:81 | every digit string is such an id |
| Chain.EachIsCut | pygt1000/chain.py:81 | in any other name every DIVIDER is cut out, one after the other |
| Chain.DividerByTokens | pygt1000/chain.py:72-143 | name, effects, own split, effects, own mixer parse to that one divider and print back to those tokens, whatever the id |
| Chain.DividerCutShort | pygt1000/chain.py:93-114 | a divider that meets its mixer without a split has an empty second branch, one that runs out of tokens no mixer |
| Chain.ParseChain | pygt1000/chain.py:38-69 | the loop consumes the shared list down to the first stop token of its level |
| Chain.ParseDivider | pygt1000/chain.py:72-114 | both branches, split and mixer are consumed in order, with the source's outcome for each that is missing |
| Chain.SerializeChain | pygt1000/chain.py:117-143 | the loop appends every block's tokens in order |
| Positional.UnpackPack | pygt1000/address_map.py:69-83 | unpacking w packed nibbles gives the value modulo 16 to the w |
| Positional.PackUnpack | pygt1000/address_map.py:69-83 | packing an unpacked list at its own length gives each byte's low nibble |
| Positional.UnpackAppend | pygt1000/address_map.py:77-83 | a concatenation is worth its parts by place |
| Positional.UnpackNibbles | pygt1000/address_map.py:77-83 | the accumulator loop computes that worth |
| Positional.MinimalBytesUndoes | pygt1000/address_map.py:61-62 | minimal-length conversion undoes from_bytes exactly for byte strings without a leading zero |
| Positional.FromMinimalBytes | pygt1000/address_map.py:288-291 | from_bytes undoes minimal-length conversion always |
| AddressCodec.AddressIsColumnSum | pygt1000/address_map.py:261-309 | without carries and with a non-zero first byte the address is the four-byte column-wise sum, followed by exactly as many value bytes as the setting is wide |
| AddressCodec.ValueBytes | pygt1000/address_map.py:293-309 | a number is one byte, or as many nibbles worth what fits; a listed name is its number, any other raises |
| AddressCodec.UnlistedIsUnknown | pygt1000/address_map.py:267-287 | a section, block or setting that is not listed has no address |
| AddressCodec.ValueRead | pygt1000/address_map.py:336-360 | a single byte, a one-byte list, a nibble list and an empty list are each read as stated |
| AddressCodec.LabelOfRaw | pygt1000/address_map.py:402-409 | a raw number reads as a name listed with it, and as none exactly if none is |
| AddressCodec.ResolveFindsSetting | pygt1000/address_map.py:336-353 | four bytes resolve to a setting exactly when at each level it is the last entry of its table with its byte |
| AddressCodec.DecodeUndoesAddressFor | pygt1000/address_map.py:261-409 | under unique prefixes and bytes, decoding what was built returns section, block, setting and number, modulo the nibbles kept |
| AddressCodec.LabelRoundTrip | pygt1000/address_map.py:402-409 | a listed name whose number is its own is read back as itself |
| AddressCodec.RecognizeBlock | pygt1000/address_map.py:363-372 | the loop over effect types ends with the last match, and the empty id if any matched whole |
| AddressCodec.LastMatchWins | pygt1000/address_map.py:363-372 | of the types that begin a key the last is recognised, none exactly if none begins it, and the id is empty exactly if one is all of it |
| AddressCodec.CutOut | pygt1000/address_map.py:382 | removing a word cuts its first occurrence out and goes on with what follows |
| AddressCodec.RecognizesItsType | pygt1000/address_map.py:368-372 | when no type begins another, a block key is recognised by the one type it starts with |
| AddressCodec.DecodedIdIsScanId | pygt1000/address_map.py:363-386 | the decoded id is the one a scan stores exactly when the block is no preamp A or B and no fx block past the ninth |
| AddressCodec.SubEffectIdentity | pygt1000/address_map.py:375-386 | a sub-effect's key decodes to its digit, its suffix and the effect of that suffix |
| AddressCodec.PreampIdentity | pygt1000/address_map.py:363-386 | preampA and preampB decode to the ids 1 and 2, and a key that is all of its type to the empty id |
| AddressMap.AddressMap.constructor | pygt1000/address_map.py:119-154 | loading fills tables, indices, counts and value tables file by file |
| AddressMap.AddressMap.ImportFile | pygt1000/address_map.py:122-154 | one file goes to the index its name is for, and to the tables |
| AddressMap.AddressMap.ImportContainer | pygt1000/address_map.py:125-139 | a container file fills its own index, the counts and the value tables |
| AddressMap.LoadOrderIrrelevant | pygt1000/address_map.py:119-154 | any order of the files gives the same indices and counts, and the same value tables when the blocks of a type name one table |
| AddressMap.LookupIsScan | pygt1000/address_map.py:125-152 | an index lookup is a last-match scan of the file the index came from |
| AddressMap.LastBlockDecides | pygt1000/address_map.py:132-139 | the value table of a type is that of its last block |
| AddressMap.CountsAreBlocks | pygt1000/address_map.py:119-139 | after loading each declared type has the number of blocks the container files list for it |
| AddressMap.TypeOfBlockKey | pygt1000/address_map.py:132-135 | a numbered block is of the type before its number, a lettered preamp is a preamp |
| BlockIds.NormalizeIdempotent | pygt1000/address_map.py:198-212 | normalising a block id twice is normalising it once |
| BlockIds.ScanIdsDistinct | pygt1000/block_snapshot.py:137-143 | the blocks of one scan have pairwise distinct ids |
| BlockIds.ScanIdIs | pygt1000/address_map.py:198-212 | a scan's ids: none for an only block, A and B for two preamps, otherwise the numbers from one |
| BlockIds.TaskIdIs | pygt1000/gt1000.py:293-296 | a task's id: none for none, the number for a number, and no task otherwise |
| BlockIds.TaskIdOfScanId | pygt1000/gt1000.py:296-300 | a scanned id survives int() and str() on its way through the queue |
| SysExCodec.CalculateChecksum | pygt1000/sysex_codec.py:54-57 | payload sum plus checksum is a multiple of 128, the checksum between 1 and 128, and 128 exactly when the sum is a multiple already |
| SysExCodec.SumOneMore | pygt1000/sysex_codec.py:54-57 | one more byte adds its value to the sum |
| SysExCodec.FrameSum | pygt1000/sysex_codec.py:59-67 | every frame sums to a multiple of 128 between header and end byte |
| SysExCodec.Rq1Bytes | pygt1000/sysex_codec.py:73-77 | the bytes of a request: header with the device id, address, length, checksum or what is given for it, end |
| SysExCodec.Dt1Bytes | pygt1000/sysex_codec.py:69-71 | the bytes of a write likewise |
| SysExCodec.IdentityReplyExactly | pygt1000/sysex_codec.py:98-120 | the frames taken for identity replies are those of 15 bytes with the stated ones in place |
| SysExCodec.Dt1RoundTrip | pygt1000/sysex_codec.py:69-96 | a DT1 frame is read back by the device it names as its address and data, and by no other device |
| SysExCodec.DataReplyExactly | pygt1000/sysex_codec.py:79-96 | a frame is read as a given offset and data if and only if it is the header, that offset, that data and two more bytes, or shorter and the data empty |
| SysExCodec.OtherFramesAreNoDataReply | pygt1000/sysex_codec.py:73-118 | no RQ1 frame and no identity reply is read as a data reply |
| SysExCodec.IdentityRoundTrip | pygt1000/sysex_codec.py:98-136 | the unit's identity reply gives its device id, and each model for exactly one pair of revision bytes |
| OptionTables.ProcessData | scripts/options-to-json.py:75-183 | the loop over rows, then the span pass, computes the specified table |
| OptionTables.FixSpanTails | scripts/options-to-json.py:39-72 | every entry is rewritten as specified, in place, and none is added, dropped or moved |
| OptionTables.TableOfGroups | scripts/options-to-json.py:89-181 | any table, repeated names or not: each named row is filed in order under the name it is stored by, its options numbered across continuation rows, starting at the marker and as wide as the addresses between when one preceded it |
| OptionTables.NothingLostIff | scripts/options-to-json.py:147-181 | over whole tables no parameter is lost if and only if the stored names, which depend on the names alone, are pairwise different, and then the entries stand in order under them |
| OptionTables.EntryInNumbers | scripts/options-to-json.py:89-183 | the entry the finished table holds for a named row: after a marker it starts at the marker and is as many bytes wide as addresses between, otherwise at the row's own without width; range as in the row; different options count up from its low end |
| OptionTables.NewNameIsStored | scripts/options-to-json.py:140-146 | a name that did not come before is stored as it is, but for FX SW and FX1 TYPE, stored as SW and TYPE |
| OptionTables.RepeatsAreNumbered | scripts/options-to-json.py:147-158 | where no name is one that is invented, the first of a name is stored as it is and its k-th repeat with k behind it |
| OptionTables.NumberedAppend | scripts/options-to-json.py:121-125 | numbering continues across continuation rows as over one list |
| OptionTables.NumberedValues | scripts/options-to-json.py:121-125 | exactly the options are listed, each with the number of its last occurrence |
| OptionTables.DistinctOptionsCountUp | scripts/options-to-json.py:121-125 | the j-th distinct option has the value lo + j for every j exactly when no option is repeated |
| OptionTables.ConflictCanOverwrite | scripts/options-to-json.py:150-158 | for any name: three parameters of which the third, renamed, takes the place of the first |
| OptionTables.SpanTailOfGroup | scripts/options-to-json.py:56-72 | the T different names after a span, repeats or not, take the last T values of the range in order when those start above its low end, otherwise nothing changes; a span alone leaves no values |
| OptionTables.NumberedKeys | scripts/options-to-json.py:121-125 | each option is listed once, where it came first |
| OptionTables.NoSpanNoChange | scripts/options-to-json.py:56-62 | entries that do not begin with a span are left alone |
| CanonicalName.Canonical | scripts/pdf-to-tables.py:113-129 | the result is longest common prefix plus longest common suffix when both fit the shortest name, which splits every name into prefix, middle and suffix; otherwise the prefix; a single name passes through |
| CanonicalName.CommonStart | scripts/pdf-to-tables.py:118-121 | the shrinking loop ends with the longest common prefix |
| CanonicalName.CommonEnd | scripts/pdf-to-tables.py:122-125 | the shrinking loop ends with the longest common suffix |
| CanonicalName.LongestAreUnique | scripts/pdf-to-tables.py:118-125 | there is one longest common prefix and one longest common suffix |

## Left out

- `pygt1000/transport.py`, `keepalive.py`, `editor_session.py`, `ChainCodec`, and of `block_reader.py` the reads of SW and TYPE: the wire, short polling sequences and thin wrappers. Frames arrive as they like, sending does not raise, device reads answer anything, and are not empty when they answer.
- Time, sleeping, logging, argument parsing and file access.
- Two requests in flight for one address, a raising `send`, and scans on a second thread beside the worker: the code promises nothing there, so `LinkProtocol` and `RefreshLoop` exclude them. A raising refresh handler ends the worker in `RefreshLoop`; `SchedulerProtocol` is about handlers that return.
- Setting the device id, and registering callbacks, while frames arrive; starting the scheduler a second time; draining on another thread beside the worker.
- PatchState.PatchState.SetFx: covers the attributes `state` and `name`; the program sets only `state`, the source would set any.
- Reading a block's SW and TYPE can answer anything, but not raise: that the map has them for every block it counts is taken for granted.
- The block counts stay as they are while blocks are read, so that normalising a stored id again changes nothing.
- `PatchState` keeps its block records as objects changed in place, but a record's two sliders are values in it, so sharing one slider between two records is not expressed.
- `Chain` blocks are values, so the lists shared by dividers that lack a second branch are not expressed.
- Frames are lists of integers; nothing says that a byte stays below 256 before it is sent.
- Splitting the specification's text into rows and cells, with the hand-written expansions of a few ranges, and the pattern that recognises a span: `OptionTables` starts from classified rows and any predicate for spans.
- `pdf-to-tables.py` beyond `canonical_name`, and the other scripts.
- The concrete spec tables. Tables are arbitrary, under the stated conditions; some real entries do not meet those of `AddressCodec.DecodeUndoesAddressFor`, and `AddressCodec.ResolveFindsSetting` says which do.
- Checking checksums on receipt: the code does not, so nothing is claimed about corrupted frames.
- `types_for`, `value_for` and the remaining table accessors: lookups.
