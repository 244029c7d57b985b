# Verified model of the receiver server's stateful engines

The receiver server keeps its state in a handful of engines that are written by hand: settings that are edited inside
their own JSON text, a table of connections that share receiver channels, queues and rings between tasks, a list of
frequency labels, and the arithmetic that turns a spectrum into a picture. This project models these engines in Dafny
and proves what they keep, over every input and every run. It stands on its own;
`dafny verify dfyconfig.toml` verifies it.

- **Configuration text** (`JsonText`, `JsonUnique`, `JsonLex`, `JsonWalk`, `JsonDepths`, `JsonLoop`, `JsonLookup`,
  `JsonEdit`, `JsonSet`, `JsonSetLaws`, `JsonRuns`, `JsonFront`, `JsonReread`, `JsonRequote`, `JsonScalar`,
  `JsonMoved`, `JsonKeyed`, `JsonArray`, `CfgStore`). A JSON value is a tree that keeps its layout; `Print` is its
  text and `Flatten` its preorder token array; a text spells at most one tree. The token walk with its level stack is
  proved to be a traversal of the tree; lookups are proved to mean members of the tree; cutting and inserting
  characters in the buffer are proved to be removing and adding members; setting a name is proved to update one member
  and nothing else; and after any run of settings every name reads what it was last set to. Where the text is edited
  inside a value that is no object, every tree that the edited text can spell is accounted for, and so are the tokens
  of an array that gets a key. `CfgStore.Cfg` is the store itself: a character buffer, its token array, and a ghost
  tree that both stand for.
- **Connections and channels** (`RxState`, `RxSafety`, `RxRuns`, `RxServer`). Connects, loop passes, kicks, closes and
  evictions are atomic steps on a table of connections and channels. The invariant says who owns a channel. For every
  step that can break it the exact condition is proved, with a run that breaks it. `RxServer.Server` does the same on
  arrays of records, with the scan of the table and the retry loop.
- **Network buffers** (`NbufQueue`, `NbufList`). The queue as a sequence of entries, and the doubly linked list that
  refines it.
- **Frequency labels** (`DxLabel`, `DxSchedule`, `DxSearch`, `DxEdit`, `DxStore`, `DxSave`, `DxLine`, `DxReload`,
  `Sorting`). The weekly schedule, the range-comparing binary search and the scan from its result, the edits through a
  hidden slot, and the way out to the file and back.
- **Waterfall** (`WfBins`, `WfAperture`). The map from bins to pixels with the single pass over it, and the choice of
  noise and signal levels.
- **Small protocols** (`SaveConfig`, `DpRing`, `Camping`). Fragmented saving of a configuration, the ring between the
  data pump and a sound task, and monitors camping on channels.

Where the code works step by step on its state, a method on arrays or a class does the same and its contract ties it
to a function; the laws are lemmas about that function.

## What the code does not do

Some promises hold only under a condition that the code does not test. In each case the model keeps the code as it is,
a lemma shows a concrete failure, and another says exactly when the promise holds.

- A two-level lookup leaks out of its scope when the value at an id1 is a scalar and another object follows with a key
  that no object at an id1 before it holds (`JsonLookup.ScalarScopeLeaks`, `ScopeExact`).
- A name that was set reads back if and only if it is not of the form id1.id2, or was found before, or the first id1
  holds an object or an array, whenever setting leaves the text of a tree or a key in an array
  (`JsonArray.SetReadsBack`). With no id1 a member is written that the lookup never finds
  (`JsonSetLaws.AppendedDotted`). With an id1 that is no object the member's text is written after the first character
  of that value. An array gets an element with a key, which the tokenizer accepts and the lookup finds
  (`JsonArray.ArrayReads`, `JsonMoved.KeyInArray`). With a scalar, what is left is the text of a tree only if the
  value is one character or an empty string right before the last '}' - then the new member stands beside id1
  (`JsonScalar.BesideExact`, `JsonSetLaws.ScalarSetCorrupts`) - or if it is a string and the quotes change places
  (`JsonMoved.QuotesChangePlaces`); and no such tree gives the name that value (`JsonScalar.NeverReads`). Texts that
  are not those of a tree are not followed further.
- A client that connects again for a stream whose partner is already stopping, a second stream for which no task is to
  be had, and a channel record that outlives its connection each break the ownership of channels
  (`RxRuns.RejoinBreaks`, `NoTaskBreaks`, `StaleVictimBreaks`). A step is safe if and only if neither it nor the next
  pass of a task loop parts a live connection from its channel (`HarmExact`).
- The list of labels is kept in order of the carrier, but searched in order of carrier plus offset; a label can be
  missed (`DxSearch.OffsetHides`, `ServesExact`). The panic that guards against an empty-handed search, on the other
  hand, is never reached for a list that is not empty (`DxSearch.Bsearch`).
- Deleting a label can drop another one whose frequency is 999999 or more (`DxEdit.DeleteExact`, `DeleteDropsOther`).
- Signal width, days and times are lost on saving when a label has no type, passband, offset or parameters
  (`DxSave.ReloadExact`, `WidthLost`).
- A label is lost altogether when its element takes more than 510 characters: the file is read through a buffer of
  512, while an edit accepts up to 1024 characters for each of three texts (`DxLine.FitsExact`, `DxReload.WordyLost`).
  Its further pieces can keep the next label out as well (`WordyTakesNext`). `ListRestored` says exactly which labels
  come back.
- At a lag of 127 blocks the pump writes into the block being processed (`DpRing.Overruns`, `OverrunReached`).

Two limits are in the code but out of its reach:

- With a positive time to live, marking a network buffer done before an older one makes an assertion fail at a later
  allocation, and marking them in order never does (`NbufQueue.MarkExact`). The server sets every descriptor up with a
  time to live of zero (`net/nbuf.cpp:80-87`) and nothing changes it, so that `ZeroTtlNeverPanics` is the case that
  applies.
- The count of bins to a pixel is kept in eight bits and wraps at 256 (`WfBins.CountFits`). The transform has at most
  4096 bins in use (`rx/rx_waterfall.cpp:676-679`) and the plot is about 1024 pixels wide; from 17 pixels on no count
  wraps (`CountsExact`, `Frame`).

## Model

| member | source | states |
|---|---|---|
| JsonText.ScanTree | init/cfg.cpp:1333-1403 | Parsing the text of any well-formed tree gives exactly its preorder token array, with type, start, end and size of every token; this stands for what the tokenizer is assumed to do |
| JsonText.ScanPrint | init/cfg.cpp:1333-1403 | The same for a value anywhere inside a text that a delimiter follows |
| JsonUnique.TreeUnique | init/cfg.cpp:1333-1403 | A text spells at most one well-formed tree, layout included |
| JsonLex.SameRest | init/cfg.cpp:1333-1403 | Two texts of trees that agree from a quote on are read alike from there, outside of strings and equally deep, if one of them is outside of a string there |
| JsonWalk.WalkTree | init/cfg.cpp:1262-1323 | An uninterrupted walk over the tokens of any object or array makes the calls of its bracketed traversal, never goes deeper than the tree's depth, and ends as it began, at level 0 with no name pending |
| JsonDepths.WalkShowsDepths | init/cfg.cpp:1262-1323 | Every token of the tree is passed to the callback once, in order, with its true nesting depth, and every container is closed by exactly one virtual call, inner ones first |
| JsonWalk.RunItems | init/cfg.cpp:1272-1320 | Taking in the items of an open container uses up its count exactly and leaves the stack below it untouched |
| JsonLoop.TakeToken | init/cfg.cpp:1272-1300 | One turn of the loop on the arrays `remstk` and `remjt` is one step of the walker, for every token, level and pending name |
| JsonLoop.CloseContainers | init/cfg.cpp:1300-1316 | The inner loop closes every container whose count is used up, and ignores what the callback answers to these calls |
| JsonLoop.Walk | init/cfg.cpp:1262-1323 | For any token array that nests less deep than the stacks, the method returns the first real token that the callback accepts in the walker's call sequence, and no other |
| JsonLookup.ScopeExact | init/cfg.cpp:342-423 | However often id1 occurs, a walk confined to id1 finds, for every id2, what the scopes of id1 hold, if and only if no scalar at an id1 has as its next container an object under another name with a key that no object at an id1 before it holds |
| JsonLookup.ObjectScope | init/cfg.cpp:365-423 | When the value at the first id1 is an object with an id2, looking up id1.id2 gives the first such member whatever else the text holds; without one the search goes on behind it, and ends in "id1 only" if id1 occurs once |
| JsonLookup.ScalarScopeLeaks | init/cfg.cpp:1303-1317 | {"a":1,"c":{"b":2}}: looking up a.b is answered with the member b of c |
| JsonLookup.TopWalk | init/cfg.cpp:342-363 | A walk that matches level 1 only finds the first top member of that name, and nothing below |
| JsonLookup.ScopeWalk | init/cfg.cpp:391-402 | A walk confined to id1 finds what searching the values after id1 says, on the flat token array |
| JsonLookup.LookupTree | init/cfg.cpp:365-423 | On the text and tokens of any tree the lookup gives the token of the member that the name means in the tree, or "id1 only", or nothing |
| JsonLookup.LookupJson | init/cfg.cpp:365-423 | On any text and any tokens that nest less deep than the stacks the lookup is the walk for the name, and after a failed two-level walk the walk for id1 |
| JsonLookup.LookupId1 | init/cfg.cpp:384-390 | The lookup of id1 alone returns the first top member of that name |
| JsonEdit.CutMeaning | init/cfg.cpp:455-487 | Cutting a member's characters, with comma repair at all four boundary shapes, leaves exactly the text of the object without that member, and the returned position is the gap between its neighbours |
| JsonEdit.InsMeaning | init/cfg.cpp:489-530 | Inserting a member's text at such a gap, with the comma that the neighbouring characters ask for, gives exactly the text of the object with the member there |
| JsonEdit.PlaceText | init/cfg.cpp:455-530 | Replacing the members of the top object, or of the object that is the value of a top member, changes that stretch of the text only |
| JsonEdit.MemberOffset | init/cfg.cpp:455-487 | The text offset of a member lies right after the members before it and their commas |
| JsonEdit.MemberTokens | init/cfg.cpp:342-363 | The tokens of a member are its key token and, next to it, the token of its value |
| JsonSet.CutFewer | init/cfg.cpp:583-637 | Cutting the member that a name is found at lowers the number of members the name could mean by one: the measure on which repeated replacement ends |
| JsonSet.CutGood | init/cfg.cpp:455-487 | A cut leaves a well-formed tree no deeper than before |
| JsonSet.InsGood | init/cfg.cpp:489-530 | An insertion of a well-formed value leaves a well-formed tree within the walker's depth |
| JsonSetLaws.SetTop | init/cfg.cpp:575-648 | Setting an undotted name updates the top-level members in that one member, or adds it as the last; of the others not even the layout changes, but for whitespace before a neighbour |
| JsonSetLaws.SetInner | init/cfg.cpp:575-648 | Setting id1.id2 where id1 is an object changes that object alone: there the one member is updated, or comes first |
| JsonSetLaws.SetFrame | init/cfg.cpp:575-648 | Setting id1.id2 in any text, however often id1 occurs: with no id1 a member is appended and nothing else changes; otherwise all top members keep their place and layout, and of an object only members named id2 change, and whitespace before a neighbour |
| JsonSetLaws.UpdatedKeepsOthers | init/cfg.cpp:575-648 | An update keeps all members of other names and their order, and leaves exactly one of its own name |
| JsonSetLaws.UpdatedInPlace | init/cfg.cpp:632-634 | A member that occurs once keeps its place |
| JsonSetLaws.SwappedIsUpdated | init/cfg.cpp:583-637 | Cutting every occurrence of a name and filling the last gap is the update of that one member, for any number of occurrences |
| JsonSetLaws.SwapPanics | init/cfg.cpp:591-609 | Replacing goes through if and only if every value that the name occurs with is one the setter may remove; otherwise it panics |
| JsonSetLaws.SetThenRead | init/cfg.cpp:553-648 | Reading a name after a sound edit gives the value set, if and only if the name is not id1.id2 with id1 missing |
| JsonSetLaws.AppendedDotted | init/cfg.cpp:610-628 | Setting id1.id2 with no id1 appends a member named "id1.id2", which the two-level lookup does not find |
| JsonSetLaws.ScalarSetCorrupts | init/cfg.cpp:620-626 | {"a":5} with a.b set becomes {"a":5,"b":1}: b stands beside a, and a.b is still not found |
| JsonScalar.NeverReads | init/cfg.cpp:616-629 | Whenever id1.id2 is set where the first id1 is a scalar, no tree that the edited text spells gives id1.id2 the value set, for any value, name and text; where it is an array, the edited text spells no tree |
| JsonScalar.BesideExact | init/cfg.cpp:616-629 | Unless that id1 is a string that is not empty, the edited text spells a tree if and only if the value of id1 is one character or an empty string right before the last '}'; the tree is then the old one with id2 beside id1 |
| JsonMoved.QuotesChangePlaces | init/cfg.cpp:489-530 | {"a":"xy"} with a."," set to {":1,":":"} becomes {"a":"x",":{":1,":":"},y"}, three members |
| JsonScalar.SetReadsExact | init/cfg.cpp:553-648 | In whatever tree setting a name leaves, the name reads the value set if and only if it is undotted, or was found before, or the first id1 holds an object |
| JsonArray.ArrayReads | init/cfg.cpp:616-629 | Setting id1.id2 where the first id1 is an array leaves a text that is accepted, with known tokens that nest within the stacks, and looking id1.id2 up in them gives the token of the value set |
| JsonArray.SetReadsBack | init/cfg.cpp:553-648 | In whatever setting a name leaves, the text of a tree or one with a key in an array, looking the name up gives the value set if and only if it is undotted, or was found before, or the first id1 holds an object or an array |
| JsonArray.TreeReadsText | init/cfg.cpp:553-573 | On a tree, looking a name up gives the token of a value that stands in the text there exactly when the member's value is that value |
| JsonKeyed.MixedScan | init/cfg.cpp:1333-1403 | A text with a key before the first element of one array is accepted; its tokens are those of the tree with the key and its value in the array, which counts one element more |
| JsonArray.MixedWalk | init/cfg.cpp:1262-1323 | A walk confined to id1 over these tokens stops at the key in the array, and gets no deeper than the tree and the new value |
| JsonMoved.KeyInArray | init/cfg.cpp:620-629 | {"a":[2]} with a.b set to 1 becomes {"a":["b":1,2]} |
| JsonScalar.EditSplit | init/cfg.cpp:489-530 | The edit changes the text of the value of id1 and what follows it as an insertion there would, and nothing before it |
| JsonReread.Reread | init/cfg.cpp:489-530 | As part of a tree, what can be read at an edited value that is no object is that value itself, with the new text behind it, or a string of its first character; an edited array is none |
| JsonRequote.Locate | init/cfg.cpp:1333-1403 | A quote after which reading is outside of strings, at the depth of the members, closes the key or the value of one of them |
| JsonRequote.Behind | init/cfg.cpp:489-530 | Behind the end of the string that was edited the members are those that were there, and no object before it has room for the new member |
| JsonRuns.SetView | init/cfg.cpp:575-648 | Setting one name changes the value of that name, and of no other name that is not its scope |
| JsonRuns.SetLeavesReads | init/cfg.cpp:575-648 | Setting id1.id2 where id1 is there changes what no two-level name with another second part reads, however often any name occurs |
| JsonRuns.RunView | init/cfg.cpp:575-648 | After any run of settings of undotted names, and of names in objects, none of which is the scope of another, every name has the value of its last setting, and a name that was not set has the value it had |
| JsonRuns.RunReads | init/cfg.cpp:553-648 | ... and that value is what reading the name gives |
| CfgStore.OverlapCopy | init/cfg.cpp:455-487 | Copying a string down over itself, character by character, closes the gap exactly |
| CfgStore.ShiftUp | init/cfg.cpp:489-530 | Moving the tail up from its end opens a gap of the wanted size and loses nothing, within the buffer |
| CfgStore.Ins | init/cfg.cpp:489-530 | The insertion on the character buffer is the insertion on the text, and writes nothing past the buffer when it was grown as the callers grow it |
| CfgStore.Cut | init/cfg.cpp:455-487 | The cut on the character buffer, with its pointer walks to the left and right, is the cut on the text |
| CfgStore.WalkLeft | init/cfg.cpp:466-470 | The walk left from a key over whitespace ends right after the '{' or ',' before the member |
| CfgStore.WalkRight | init/cfg.cpp:473-477 | The walk right from a value over separators ends at what follows the member |
| CfgStore.SkipMeaning | init/cfg.cpp:583-609 | The test a setter makes on the first characters of a value accepts exactly the values of its kind and null, and token and quotes span the value's text |
| CfgStore.ReadFacts | init/cfg.cpp:537-573 | The reader's test on a member's token holds exactly when the value is of the kind asked for, and the token spans the value's own characters |
| CfgStore.RemovalTexts | init/cfg.cpp:455-487 | The characters around any member are those the cut relies on, and what the cut leaves is the text of the tree without it |
| CfgStore.RemovalFacts | init/cfg.cpp:583-609 | The tokens of any member are those the cut relies on, and the setter accepts exactly the values it may remove |
| CfgStore.InsertFacts | init/cfg.cpp:610-629 | Putting a member's text in a gap gives the text of the tree with the member there, and its tokens |
| CfgStore.Cfg.Init | init/cfg.cpp:201-216 | Setting the store up with a text tells whether it parses, and when it is the text of a tree the store stands for that tree |
| CfgStore.Cfg.ReallocJson | init/cfg.cpp:1405-1424 | The buffer grows to at least the wanted size and keeps the text |
| CfgStore.Cfg.ParseJson | init/cfg.cpp:1333-1403 | The tokens kept are those of the text |
| CfgStore.Cfg.Lookup | init/cfg.cpp:365-423 | The stored text and tokens answer every lookup as the tree they stand for does |
| CfgStore.Cfg.Read | init/cfg.cpp:553-573 | Reading a name gives the characters of its token's value exactly when the lookup finds it and the token is of the kind asked for, on any text; on the text of a tree these are the characters of the member's value |
| CfgStore.Cfg.Remove | init/cfg.cpp:583-609 | Removing a name cuts the member found out of the tree, or leaves a missing name alone, or panics on a value of another kind |
| CfgStore.Cfg.Change | init/cfg.cpp:610-637 | Filling a gap repeats lookup and removal while the name is still found, and ends with the tree of the repeated replacement |
| CfgStore.Cfg.SetInside | init/cfg.cpp:616-629 | Creating id2 under an id1 that is an object puts it first in that object; under an array it leaves tokens in which the name gives the value set; under a scalar the buffer holds exactly the edited text, and stands for a tree again whenever that text spells one |
| CfgStore.Cfg.Set | init/cfg.cpp:575-648 | Setting a name turns the stored text into a text of the tree with that name set, or panics exactly when a value may not be removed, or leaves the edited text when id1 is no object: with an array the name then gives the value set, and when the store stands for a tree the name reads the value set if and only if it is undotted, was found, or the first id1 holds an object |
| CfgStore.Cfg.Default | init/cfg.cpp:650-660 | A name that gives a value of its kind is left alone; any other is set to the default, which is returned, and then reads as after any setting |
| CfgStore.Cfg.Update | init/cfg.cpp:662-672 | After an update the name gives the new value if and only if it is undotted, was found, or the first id1 holds an object; a name that gives it already is left alone |
| CfgStore.ShownReads | init/cfg.cpp:537-573 | A value of the kind asked for is known by its characters: reading gives the characters of v exactly when the member's value is v |
| CfgStore.ReadsShown | init/cfg.cpp:537-573 | Where looking a name up gives the token of a value that stands there, a reader gets its characters exactly when it is of the kind asked for |
| RxServer.Server.RxEnable | rx/rx_server.cpp:100-127 | Enabling, disabling and freeing a channel do to the table what the atomic step says; a negative channel is ignored |
| RxServer.Server.Other | rx/rx_util.cpp:69-75 | The partner reported is the slot `other` points at when it has the wanted type and the same channel |
| RxServer.Server.RxServerRemove | rx/rx_server.cpp:166-216 | Removing a connection resets its slot and no other |
| RxServer.Server.SoundPass | rx/rx_sound.cpp:358-398 | The end of a sound loop pass is the atomic step: told to stop, it frees; told to leave, it hands the channel to its waterfall or frees it |
| RxServer.Server.WaterfallPass | rx/rx_waterfall.cpp:610-641 | The same for a waterfall loop pass |
| RxServer.Server.RxChanFreeCount | rx/rx_util.cpp:177-216 | The count and the first free channel, in the order in which channels are tried for the client |
| RxServer.Server.FindVictim | rx/rx_util.cpp:380-410 | The victim is the autorun channel evicted least often, the lowest of these, if there is one |
| RxServer.FirstFreeExact | rx/rx_util.cpp:177-216 | The first free channel precedes every other free one in the order of trying, and there is none exactly when all channels tried are busy and the count is zero |
| RxServer.OrderCovers | rx/rx_util.cpp:200-208 | Every channel is tried, except those with a waterfall when none of them may be used |
| RxServer.Server.ScanTable | rx/rx_server.cpp:369-444 | The loop over the table culls, remembers the first free slot, refuses duplicates and links, as the atomic scan says |
| RxServer.Server.CullAt | rx/rx_server.cpp:372-377 | A connection that was told to stop and has lost its client is thrown out and its channel freed |
| RxServer.Server.TryConnect | rx/rx_server.cpp:469-668 | One try at a connection evicts if and only if the stream is its client's first, finds no free channel, may evict and an autorun is there; it does to the table what the atomic eviction or connect says |
| RxServer.Server.Websocket | rx/rx_server.cpp:224-677 | A new connection with all its retries ends, evicts exactly while it finds no channel and may evict, and does what that run of evictions and one connect does |
| RxServer.Server.EvictOne | rx/rx_server.cpp:513-524 | The eviction throws out the connection that the channel's record names and frees the channel |
| RxServer.ConnectShape | rx/rx_server.cpp:469-668 | A connect keeps every stored slot and channel number in range |
| RxSafety.LastLeaves | rx/rx_sound.cpp:391-396 | When the sole owner of a channel leaves, the channel is freed, once, and nobody else's ownership changes |
| RxSafety.PartnerLeaves | rx/rx_sound.cpp:384-396 | When one of a pair leaves, the other is told to stop and keeps the channel |
| RxSafety.PassInv | rx/rx_sound.cpp:358-398 | Every loop pass keeps the ownership invariant |
| RxSafety.ScanInv | rx/rx_server.cpp:369-444 | The scan culls safely, and finds the only connection to link with and no duplicate, or refuses |
| RxSafety.ConnectInv | rx/rx_server.cpp:469-668 | From a good table a connect leads to a good table if and only if the connection it joins has not been told to stop and a task is available when it joins one |
| RxSafety.PreemptInv | rx/rx_server.cpp:513-524 | Evicting an autorun leads to a good table if and only if the channel's record names the only connection on that channel |
| RxSafety.EvictInv | rx/rx_server.cpp:505-524 | A try that ends in an eviction keeps the invariant when the eviction is safe |
| RxRuns.StepExact | rx/rx_server.cpp:224-677 | From a good table any step, of any kind, leads to a good table if and only if the step is safe |
| RxRuns.HarmExact | rx/rx_server.cpp:224-677 | From a good table a step is safe if and only if neither it, nor it and the next pass of any task loop, leaves a live connection on a channel that is not busy or a busy channel without an owner |
| RxRuns.UnsafeHarms | rx/rx_server.cpp:224-677 | Joining a stopped partner, joining without a task and evicting by a stale record each part a live connection from its channel, at once or with the partner's next pass |
| RxRuns.RunInv | rx/rx_server.cpp:224-677 | Every run of safe steps keeps the invariant throughout |
| RxRuns.PartnersInRun | rx/rx_util.cpp:69-75 | In every such run a partner that is reported is alive, on the same channel, reports back, and neither has been told to stop, also after table slots are reused; none is reported exactly when there is no other owner |
| RxRuns.ChannelsInRun | rx/rx_sound.cpp:358-398 | In every such run a channel is busy exactly while it has a live owner, has at most one sound and one waterfall owner, and has been freed once for every time it was taken but for the present one |
| RxRuns.PumpInRun | rx/data_pump.cpp:189-194 | In every such run a channel that the data pump serves is headed by a live sound connection, as the pump asserts |
| RxRuns.RetryIsRun | rx/rx_server.cpp:513-524 | A connect with its retries is a run of the atomic steps |
| RxRuns.PairConnects | rx/rx_server.cpp:469-608 | From an empty table a sound and a waterfall connect of one client end up paired on channel 0 |
| RxRuns.RejoinBreaks | rx/rx_server.cpp:405-440 | A client that connects again while its old partner has been told to stop shares a channel that the old partner then frees: the invariant breaks |
| RxRuns.NoTaskBreaks | rx/rx_server.cpp:660-668 | A second stream for which no task is available frees its live partner's channel |
| RxRuns.StaleVictimBreaks | rx/rx_server.cpp:513-524 | A channel record that names a slot reused by an autorun elsewhere makes an eviction throw out the wrong connection |
| NbufQueue.ApplyInv | net/nbuf.cpp:126-289 | Every operation keeps the queue a FIFO: accepted equals delivered followed by pending, the buffers taken are the oldest ones, only taken ones are done, and the count is that of the pending ones, at most 65 |
| NbufQueue.RunInv | net/nbuf.cpp:126-289 | The same over every run of operations |
| NbufQueue.ReclaimedSuffix | net/nbuf.cpp:148-162 | Reclaiming drops ready buffers from the old end, up to the first that is not ready, and nothing else |
| NbufQueue.AllocExact | net/nbuf.cpp:164-184 | An arrival is refused if and only if 65 are pending, or the queue has overflowed and still has 32 or more; a refusal is an overflow and an acceptance ends it |
| NbufQueue.RefusedWhileHigh | net/nbuf.cpp:164-173 | After an overflow every arrival of a run is refused for as long as the count stays at 32 or more |
| NbufQueue.DequeueInv | net/nbuf.cpp:224-246 | A dequeue takes the oldest pending buffer, which is not done, or changes nothing when none is pending |
| NbufQueue.OrderlyKept | net/nbuf.cpp:134-162 | With a positive time to live and buffers done in order, times never decrease from oldest to newest and are at least 1, and the ageing assertion holds |
| NbufQueue.InOrderNeverPanics | net/nbuf.cpp:134-145 | Every run in which buffers are done in order goes through without the assertion failing |
| NbufQueue.ZeroTtlNeverPanics | net/nbuf.cpp:134-145 | With no time to live the assertion is never reached |
| NbufQueue.StuckPanics | net/nbuf.cpp:138-142 | A buffer done behind an older one that is not makes the assertion fail, at the latest at the allocation after its time has run out |
| NbufQueue.MarkExact | net/nbuf.cpp:133-142 | With a positive time to live, marking a buffer done leaves a queue on which no number of allocations fails the assertion if and only if all older buffers are done |
| NbufList.Ndesc.Allocq | net/nbuf.cpp:187-222 | On the linked list an arrival does what it does on the sequence of entries, the two chains staying each other's inverse; it fails exactly when the assertion does |
| NbufList.Ndesc.Age | net/nbuf.cpp:134-146 | The walk from the oldest to the newest counts every done buffer down, or fails at one that has no time left |
| NbufList.Ndesc.Reclaim | net/nbuf.cpp:148-162 | Ready buffers are unlinked from the old end, up to the first that is not |
| NbufList.Ndesc.Append | net/nbuf.cpp:174-182 | A buffer is linked in at the new end |
| NbufList.Ndesc.Admit | net/nbuf.cpp:164-184 | High and low water decide as on the sequence |
| NbufList.Ndesc.Dequeue | net/nbuf.cpp:224-246 | The oldest buffer not yet taken is returned and marked; it is not done |
| NbufList.Ndesc.MarkDone | web/web_server.cpp:141-145 | A reader's mark makes the entry done |
| NbufList.Ndesc.Queued | net/nbuf.cpp:248-268 | The number counted along the list is that of the pending entries and equals `cnt` |
| NbufList.Ndesc.Cleanup | net/nbuf.cpp:270-289 | Everything is unlinked and the counters are reset |
| DxSearch.Bsearch | rx/rx_cmd.cpp:65-86 | The range-comparing binary search returns an element for every list that is not empty, in whatever order, and what it returns fits the key: equal, the gap before the next, or an end |
| DxSearch.ServesExact | rx/rx_cmd.cpp:1438-1475 | For every window with its margins the scan from any fitting element misses no label, if and only if the list is in order of carrier plus offset |
| DxSearch.OffsetHides | rx/rx_cmd.cpp:1438-1475 | A list in order of the carrier alone, as it is kept, with a window of which a label is missed |
| DxSearch.ScanIsLinear | rx/rx_cmd.cpp:1438-1475 | On an ordered list the labels sent that lie above the lower margin are exactly what considering every label of the list gives, nothing is considered above the upper margin, and below the lower one at most the first and the last |
| DxSearch.Markers | rx/rx_cmd.cpp:1438-1680 | The scan sends what the labels from the one found up to the first above the margin offer, and repairs exactly these in the list |
| DxSearch.Consider | rx/rx_cmd.cpp:1472-1674 | One label is repaired in place and offered as type, day, time and text decide |
| DxSearch.OfferExact | rx/rx_cmd.cpp:1472-1674 | A label is sent if and only if its type and text are asked for and it is scheduled for this minute or labels off the air are asked for too; it is marked exactly when it is not scheduled |
| DxSearch.MarkedExact | rx/rx_cmd.cpp:1534-1556 | The mark of a label not on now sets its own bit and no other |
| DxSearch.NearestFromBelow | rx/rx_cmd.cpp:1245-1257 | The administrator's search, which counts the last element too, finds the nearest label from below |
| DxSchedule.AcceptsExact | rx/rx_cmd.cpp:1496-1546 | For every minute of every day the day and time tests together accept a label if and only if the interval from begin to end, or past midnight to end of the next day, that starts on one of the label's days contains that minute |
| DxSchedule.CoversExact | rx/rx_cmd.cpp:1496-1546 | Only the interval that starts today or, past midnight, yesterday can cover a minute of today |
| DxSchedule.BitIsDay | rx/rx_cmd.cpp:1510-1518 | Shifting the Monday bit by the weekday selects that weekday's flag, with no flags meaning every day |
| DxEdit.DeleteExact | rx/rx_cmd.cpp:988-995 | However the sort orders labels of equal frequency, a deletion removes exactly the label asked for, if and only if every other label is below 999999 (or is the very same label) |
| DxEdit.DeleteDropsOther | rx/rx_cmd.cpp:988-995 | Deleting the first of two labels, at 7000 kHz and at 1000000, drops the second |
| DxEdit.SafeDrops | rx/rx_cmd.cpp:988-995 | Below that frequency the label deleted sorts last |
| DxEdit.UnsafeKeeps | rx/rx_cmd.cpp:988-995 | Otherwise there is an order the sort may produce in which another label is dropped |
| DxEdit.QsortLabels | init/dx.cpp:325-332 | Sorting by frequency gives the same labels in order |
| DxStore.DxDb.Update | rx/rx_cmd.cpp:980-1090 | Every edit request keeps the list sorted, every label's index its position and a hidden slot to spare, and changes the labels by exactly what was asked for |
| DxStore.DxDb.Place | rx/rx_cmd.cpp:987-1030 | The draft of an edit: the label in the hidden slot, in its own place, or marked for deletion |
| DxStore.DxDb.Prep | init/dx.cpp:325-335 | Sorting the given part when need be and numbering the part that remains |
| DxStore.DxDb.Install | init/dx.cpp:544-575 | A list read in becomes the store's list, sorted and numbered |
| DxStore.DxDb.Grow | rx/rx_cmd.cpp:1075-1085 | After an edit there is room for a hidden slot, and the labels are kept |
| DxStore.EditMade | rx/rx_cmd.cpp:987-1065 | Sorting and numbering the draft makes the edit that was asked for |
| DxStore.RunAsked | rx/rx_cmd.cpp:984-1090 | Over every run of requests with frequencies below 999999 each request changes the labels by exactly what it asks for |
| DxSave.Save | init/dx.cpp:128-213 | One label is written as frequency, mode, texts and, when anything asks for it, the options in order |
| DxSave.Load | init/dx.cpp:380-542 | One element is loaded field by field |
| DxSave.ReloadExact | init/dx.cpp:128-542 | Saving a label and loading its element back restores it, with no days meaning all and no times the whole day, if and only if it has a type, passband, offset or parameters, or else the usual width, days and times |
| DxSave.WidthLost | init/dx.cpp:145-151 | A label with a signal width of 500 and nothing else comes back without it |
| DxLine.FitsExact | init/dx.cpp:589-629 | The first read of a line into the buffer of 512 gives the whole element exactly when that is at most 510 characters long, last line or not; otherwise it gives a front part of the element |
| DxLine.ReadPiece | init/dx.cpp:621-629 | Reading, taking off the last character and a comma before it leaves the element exactly when it fits |
| DxSave.FlagsKept | init/dx.cpp:138-190 | Mode and type survive the flag bits' way out and back; the days do exactly when they are written or all |
| DxReload.ReadFile | init/dx.cpp:580-702 | Reading elements into the growing table gives the labels in order, without those whose lines do not fit the buffer and those below their predecessor, and leaves a slot to spare |
| DxReload.SaveList | init/dx.cpp:160-215 | All labels of the list are written in order |
| DxReload.Restart | init/dx.cpp:128-702 | Writing the list out, reading it in and installing it leaves a sorted, numbered list of exactly the labels that come back |
| DxReload.ReadSaved | init/dx.cpp:391-404 | Reading back any saved list gives exactly the labels whose lines fit and whose frequencies are not negative, in order, if and only if none is below what the frequency before it, or a piece of a line that is too long, leaves to compare it with |
| DxReload.ListRestored | init/dx.cpp:128-702 | Of a sorted list the labels whose lines fit the buffer and whose frequencies are not negative come back, each as often as it was there, in order and within half a hundredth, if and only if no piece of a line that is too long keeps one out; and a label that comes back is restored exactly under the condition above |
| DxReload.QuietUndisturbed | init/dx.cpp:391-404 | In a sorted list nothing keeps a label out when no piece of a line that is too long is taken for a list |
| DxReload.KeptCount | init/dx.cpp:621-671 | The labels that are to come back are those that fit and are not negative, as often as they are in the list |
| DxReload.WordyLost | init/dx.cpp:589-655 | A label at 7000 kHz with a type and 600 characters of notes, of which nothing would be lost, does not come back |
| DxReload.WordyTakesNext | init/dx.cpp:391-404 | When a further piece of its line begins a list with 8000, the label at 7100 kHz behind it does not come back either |
| WfBins.PixelExact | rx/rx_waterfall.cpp:703-706 | For all sizes a bin falls on a pixel exactly when it lies between that pixel's first bin and the next pixel's |
| WfBins.Shares | rx/rx_waterfall.cpp:696-712 | The pixels share out all bins, each getting the quotient or one more, and at least one when there are as many bins as pixels |
| WfBins.MapContiguous | rx/rx_waterfall.cpp:703-708 | The bins of a pixel follow each other, also with the spectrum inverted |
| WfBins.BuildMap | rx/rx_waterfall.cpp:703-712 | The map's entries, with inversion and 16-bit storage |
| WfBins.Gather | rx/rx_waterfall.cpp:1304-1364 | A pass that remembers only the pixel before puts every pixel's bins together, up to the first bin off the display |
| WfBins.PlotExact | rx/rx_waterfall.cpp:696-712 | Every plot pixel on the display gathers exactly the bins from its first up to the next pixel's first |
| WfBins.OutsideEmpty | rx/rx_waterfall.cpp:703-708 | Display pixels outside the plot gather nothing |
| WfBins.ReachExact | rx/rx_waterfall.cpp:1306-1321 | The pass stops exactly at the first bin beyond the display |
| WfBins.ReachStays | rx/rx_waterfall.cpp:1173-1321 | Later frames, which start from the limit found, gather the same bins |
| WfBins.TogetherMeans | rx/rx_waterfall.cpp:1333-1352 | What is kept for a pixel is the total, largest, smallest or last of its bins' powers |
| WfBins.CountFits | rx/rx_waterfall.cpp:1263-1338 | The count of a pixel's bins fits its eight bits for every pixel exactly when there are at most 255 to a pixel |
| WfBins.CountsExact | rx/rx_waterfall.cpp:676-704 | With at most 4096 bins in use and at least 17 pixels no count wraps |
| WfBins.Frame | rx/rx_waterfall.cpp:1279-1364 | A frame from map to pixels: every plot pixel on the display ends up with its own bins put together, and for averages, with the transform and plot sizes in use, with their true number |
| WfAperture.Auto | rx/rx_waterfall.cpp:1106-1148 | Noise is the lowest of the most frequent unmasked bands and signal the highest of them and -80; with everything masked they are -120 and -80 |
| WfAperture.Weigh | rx/rx_waterfall.cpp:1115-1136 | The run-length loop over the sorted bands finds the lowest most frequent and the highest |
| WfAperture.Collect | rx/rx_waterfall.cpp:1106-1113 | The bands weighed are those of the unmasked part of the spectrum |
| WfAperture.NoiseOfSorted | rx/rx_waterfall.cpp:1116-1117 | Sorting changes neither the lowest most frequent band nor the highest |
| SaveConfig.CommitExact | rx/rx_util.cpp:551-728 | In every run of messages a message commits if and only if it ends a configuration, its number is at least 0, and no readable message of its sender's stretch had a higher number, and it commits the texts with its own number since that sender's last commit or since another sender was heard, in order of arrival |
| SaveConfig.RunAgrees | rx/rx_util.cpp:590-728 | The record kept agrees with the messages at every point of every run |
| SaveConfig.Assembly.Receive | rx/rx_util.cpp:590-728 | One message does to the record, and commits, what the step says |
| DpRing.RunInv | rx/data_pump.cpp:64-101 | In every interleaving in which no sample is put at a lag above 126, the blocks taken are those published, in order, once each; the one being processed is intact; and the computed lag is the true one |
| DpRing.StepInv | rx/rx_sound.cpp:498-567 | Every step keeps the blocks not yet taken, and the one being processed, in their slots |
| DpRing.DiffExact | rx/data_pump.cpp:99-101 | The lag computed from the positions is the true one up to full turns |
| DpRing.SharedExact | rx/rx_sound.cpp:529-567 | The slot being filled is the one being processed exactly when the lag is one short of full turns |
| DpRing.Overruns | rx/data_pump.cpp:64-86 | At a lag of 127 the next sample goes into the block being processed |
| DpRing.OverrunReached | rx/data_pump.cpp:64-86 | From the start: a block is taken, 127 more are put while it is processed, and the next sample is written over it |
| DpRing.Channel.Put | rx/data_pump.cpp:72-86 | A sample goes into the slot at the write position |
| DpRing.Channel.Move | rx/data_pump.cpp:81-97 | A full block is published and the lag measured, on enabled channels |
| DpRing.Channel.Get | rx/rx_sound.cpp:498-567 | The task takes the block at the read position and advances before processing |
| Camping.Camps.Camp | rx/rx_monitor.cpp:70-111 | A request takes the monitor off every channel it was on and puts it in the first free slot of the one asked for, if there is one; every channel's count stays its number of taken slots and no monitor is in two slots |
| Camping.Camps.constructor | rx/rx_monitor.cpp:70-108 | Empty channels satisfy what all steps keep |
| Camping.Camps.PassOn | rx/rx_sound.cpp:1334-1387 | A sound pass drops exactly the monitors that are gone and never finds the count wrong |
| Camping.Camps.FreeChannel | rx/rx_server.cpp:115-117 | Freeing a channel empties its slots and nothing else |
| Camping.Channel.Clear | rx/rx_monitor.cpp:73-87 | A channel's slots are cleared of a connection, the count following |
| Camping.Channel.Add | rx/rx_monitor.cpp:94-108 | The first free slot is taken exactly when the count is below the limit |
| Camping.Channel.Pass | rx/rx_sound.cpp:1334-1387 | The number found present always equals the count |
| Camping.MovedExclusive | rx/rx_monitor.cpp:70-108 | Moving a monitor keeps every monitor on at most one channel |

## Left out

- The tokenizer itself (jsmn) is not part of this model: a scanner written for it stands in, and is proved to give the
  preorder token array with the sizes and offsets that the walk relies on. It also accepts a key before an element of an
  array and a comma after the last one, as the tokenizer does; syntax errors, comments and the growth of the token table
  are not modelled.
- JSON layout: text with ':' right after each key, spaces and tabs between ':' and a value, spaces and newlines after
  a value, and empty containers written `{}` or `[]`; for other layouts the cut and the insertion are not described.
- JsonText.ScanTree: stands for the tokenizer on well-formed texts; of others only keys in arrays are described, and not
  what it makes of a text such as `{"a":5"b":1,0}`.
- JsonText.ScanPrint: has the same limits.
- Number and string rendering (`printf`, `sscanf`, URL encoding): values arrive as their text, names as their parts;
  names with more than one dot are looked up as they are and are not split.
- JsonLookup.LookupTree: takes both parts of a dotted name as they are; the code finds nothing when one is empty, and cuts
  the second one at a blank.
- JsonLoop.Walk: needs a tree that nests less deep than the 32 entries of the stacks; what the code does beyond that is not
  described.
- CfgStore.Cfg.Set: describes one setter for all kinds of value, told apart by the values they will replace; saving
  to a file, the update flags and the locks are not modelled.
- CfgStore.Cfg.SetInside: where id1 is neither object nor array and the edited text is not that of a tree with a layout the
  editor understands, says which text is left, but not whether the tokenizer accepts it (if not, the server panics) or what
  lookups then find. A text with a key in an array can be read; editing it further is not described.
- JsonScalar.BesideExact: is about values other than strings with something in them; for those, which edited texts are
  texts of trees is not characterised.
- CfgStore.Cfg.Init: is the set-up from a text; the flags, and reading the text from a file, are left out.
- CfgStore.Cfg.Default: leaves out the repair of strings that are not UTF-8.
- CfgStore.Cfg.ParseJson: leaves out the removal of comment lines, and the messages for text that does not parse.
- CfgStore.Cfg.Read: gives the characters of the value; turning them into numbers or decoding them is left out.
- CfgStore.Cfg.Update: compares values by their characters, where the code compares numbers.
- JsonSetLaws.SetInner: describes an id1 that occurs once; for any number `JsonSetLaws.SetFrame` says what stays as it was
  and `JsonArray.SetReadsBack` what is read back.
- JsonRuns.RunView: is about names whose id1 occurs once and holds an object, and none of which is the id1 of another.
- Connects, kicks and loop passes are atomic: the code takes no lock on the connection table, and races inside one of
  these steps are not modelled. Waits in the task loops are not modelled either.
- Redirects, blacklists, passwords, the DRM lock, limits on monitors and queuers and the messages to clients are left
  out of connecting; extension and administration connections own no channel and only take up slots.
- RxServer.Server.RxEnable: leaves out RX_DATA_ENABLE, and starting and stopping the data pump itself.
- RxServer.Server.RxServerRemove: leaves out the extension of a sound connection and the shutdown hook.
- RxServer.Server.TryConnect: leaves out the DRM lock and redirects.
- RxServer.Server.Websocket: leaves out passwords, the blacklist and the DRM lock.
- RxServer.Server.RxChanFreeCount: leaves out the counts of heavy and preemptible channels, which no other step reads.
- NbufQueue.OrderlyKept: takes the time to live as constant, as nothing changes it after the queue is set up.
- NbufList.Ndesc.Reclaim: takes freed nodes out of the queue; the memory allocator is not modelled.
- DxSearch.Markers: describes the full search for a window without the thinning of crowded labels; stepping to the next
  label and the searches for texts are left out. Type and text filters are arbitrary predicates.
- DxSearch.Consider: leaves out the test for crowded labels between filtering and sending.
- DxStore.DxDb.Prep: leaves out the list of masked labels and the update counter.
- DxStore.DxDb.Update: leaves out who may edit, the conversion of all frequencies by an offset, and the text fields'
  transmission encoding.
- DxSave.ReloadExact: is about an element that is read as a whole; `DxReload.ListRestored` adds the line buffer. Modes are
  taken as their numbers; the tables of mode names, which are each other's inverse, and the encoding of texts are not
  modelled. Frequencies are rounded half up.
- DxLine.FitsExact: counts the characters of the texts as they are written to the file; a mode number without a name is
  written as an empty one.
- DxSave.Save: writes modes as their numbers and texts as they are.
- DxSave.Load: reads what Save writes; older flag names and format errors are left out.
- DxReload.ReadFile: describes well-formed elements; lines with JSON or format errors, comments and older flag names are
  left out. What the tokenizer makes of the further pieces of a line that is too long is a parameter: lists that begin with
  a number, but no whole labels, and not the 32 tokens at which the server panics.
- WfBins.Frame: powers are real numbers; drop sampling, the map for fewer bins than pixels, scaling to decibels and
  compression are left out.
- WfAperture.Auto: takes the averaged spectrum; the averaging filters before it are left out.
- SaveConfig.CommitExact: one record is modelled, of three that do not interact; decoding of the committed text is left out.
- DpRing.RunInv: one channel is modelled; positions start together, and enabling a channel again later is left out.
- Camping.Camps.Camp: is about channel numbers that exist, or -1; the code takes the number from the client's request
  (`rx/rx_monitor.cpp:70-111`) and does not bound it. The number of slots in use is fixed; audio sent to the campers is
  left out.
- The clock generator, GPS, antenna switching, address blacklist, update and instrument protocols hold only case tables
  and window checks.
