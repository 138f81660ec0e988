# Pipy: nine engines, modelled and proved

Pipy is a programmable network proxy. Behind its plumbing are small engines whose correctness
does not show in any one function: an index of files that must agree with an inheritance
lookup, lock-free lists, ropes that share memory, parsers that must not notice how their
input is cut. The modules here model these engines as the code has them, step by step and
branch by branch, and prove what they are for.

| module | source | what it is |
|---|---|---|
| Store | src/store.cpp | key-value stores: what a batch does, the scan by prefix |
| Codebase, CodebaseCommit, CodebaseAfter, CodebasePending, CodebaseErase, CodebaseReaders | src/codebase-store.cpp | the records of the codebase repository, what they mean, and what each operation does to them |
| CodebaseStore | src/codebase-store.cpp | the operations of the repository, as methods on a store, and histories of them |
| CodebaseTidy | src/codebase-store.cpp | that no content of a file is left behind |
| SharedTable | src/table.cpp, src/table.hpp | the concurrent free list, as a machine of atomic steps |
| TableCells | src/table.cpp, src/table.hpp | the same with its entries in the cells of the table, and how many ids that has room for |
| TableCalls | src/table.cpp, src/table.hpp | what becomes of the calls on the table |
| EventQueue | src/event-queue.cpp | the lock-free queue, as a machine of atomic steps |
| QueueReads | src/event-queue.cpp, src/table.hpp | which nodes its dequeues read, and when the queue is safe |
| QueueCalls | src/event-queue.cpp | what becomes of the calls on the queue |
| DataBooks, DataRope | src/data.hpp, src/data.cpp | ropes of views into reference-counted chunks, on the heap |
| Kmp | src/kmp.cpp | the streaming splitter |
| Deframer | src/deframer.cpp | the byte automaton with bulk fast paths |
| Socket | src/socket.cpp, src/input.cpp | the TCP socket with its re-entrant callbacks |
| SocketHistory | src/socket.cpp | its state and its data, told by what happened to it and by what its owner called |
| Scarce | src/scarce.hpp | the sparse array of pointers |
| StrMap | src/str-map.cpp, src/str-map.hpp | the byte trie and its parser |
| Adler | deps/zlib-1.3.1/adler32.c | Adler-32 (section 2.2 of RFC 1950) |

How things are modelled:

- Code that updates objects is modelled by classes and methods with loops. Each method is
  proved against a function of the old state, and the theorems are about that function.
- The two lock-free structures are machines: a state, an action for each atomic load, store
  or compare-and-swap of a thread, and theorems about every run of any number of threads.
  History variables (what was enqueued, which ids are out) are read by no step.
- In DataRope every method takes the ghost value `w`, which lists every rope, view and chunk
  there is, and returns its successor `u`. `Ok(w)` says that lists are well linked, sizes are
  right and counts are exact; `Changed(w, u, d, t)` says that `d` now holds `t` and that no
  other rope holds anything else than before, whoever shares chunks with whom.
- In Codebase, `Resolve` is what a codebase has committed, over its chain of bases; `Lookup`
  is what `get_file` finds, with pending edits and erasures; `TreeExact` says that the keys
  under the path of a codebase are the manifest, `_etags` and one record for each committed
  file, with the right id and version and with their contents stored; `AllShow` that every
  codebase shows at every path what it showed before, but for one path of one codebase; `Touched` are the
  codebases that a commit rebuilds. `Inv` holds after every history of operations.
- In Deframer, what `on_state` does is an arbitrary function of the whole history of its
  calls; the specification is a machine that takes one byte at a time.
- In SocketHistory, `Calls` lists every call of the owner in a run, those from callbacks included,
  each with the socket as it found it.
- In Socket, what the owner does when called back is an arbitrary script, which may call the
  socket again, and so on.

## Model

| member | source | states |
|---|---|---|
| Store.StoresAgreeExactly | src/store.cpp:114-126 | for any store and any log of operations, applying them in order (LevelDB) and applying all erasures and then all sets (memory store) agree if and only if every key that is ever set is not erased after its last set |
| Store.CleanBatch | src/store.cpp:114-126 | a batch that never erases a key it has set means the same to both stores |
| Store.KeyValueStore.Commit | src/store.cpp:114-126 | committing a batch leaves exactly the records of the ordered log or of erasures-then-sets, by kind of store, and the same ones for a clean batch |
| Store.Keys | src/store.cpp:75-81 | scanning from the lower bound and stopping at the first key without the prefix finds all keys with the prefix and no others |
| CodebaseStore.Repository.ListFiles | src/codebase-store.cpp:382-415 | the recursive listing adds, to what was listed before, what the codebase resolves to over its chain of bases, the nearest winning; a plain listing puts the codebase's own files over it |
| CodebaseStore.Repository.GetFile | src/codebase-store.cpp:599-619 | the id found is that of the lookup with edits before own files before bases, and with erasures hiding edits and own files only |
| CodebaseStore.Repository.SetFile | src/codebase-store.cpp:627-641 | at any path that starts with a slash: keeps the invariant; a first edit takes a new id and cancels an erasure, a further one keeps its id; the codebase shows the edit with the data there, and nothing else changes for any reader |
| CodebasePending.SetFileShows | src/codebase-store.cpp:627-641 | after set_file every codebase shows what it showed, except that this one shows the edit at that path, with the data given |
| CodebaseStore.Repository.EraseFile | src/codebase-store.cpp:695-710 | keeps the invariant: edits and erasures stay disjoint, and an erasure has the id of an own file; the codebase shows what it inherits there, and nothing else changes for any reader |
| CodebasePending.EraseFileShows | src/codebase-store.cpp:695-710 | after erase_file this codebase shows at that path what it inherits there, and nothing else changes for any reader |
| CodebaseStore.Repository.ResetFile | src/codebase-store.cpp:712-724 | keeps the invariant; the codebase shows what is committed there, and nothing else changes for any reader |
| CodebasePending.ResetFileShows | src/codebase-store.cpp:712-724 | after reset_file this codebase shows at that path what is committed there, and nothing else changes for any reader |
| CodebaseStore.Repository.SetMain | src/codebase-store.cpp:643-648 | the record of the codebase has the given main file and is the same otherwise, as all other records are; every codebase shows what it showed |
| CodebaseStore.Repository.Reset | src/codebase-store.cpp:934-947 | drops the edits of the codebase but not its erasures: exactly what every reader finds at every path afterwards |
| CodebaseStore.Repository.MakeCodebase | src/codebase-store.cpp:312-356 | at any path: the record of the codebase has the version, path and base given and the main file of the base, or /main.js; a derived codebase shows what its base has committed, a new root /main.js with the template alone, and every other codebase shows what it showed; the repository stays in order if and only if the path is neither that of another codebase nor under or above one, and what is recorded at its "/" and "/_etags" has ids that nothing else has |
| CodebaseStore.Repository.GenerateFiles | src/codebase-store.cpp:427-491 | what the batch sets and deletes under the path of a codebase: a record per file, the manifest with its content, and the deletion of every old key that is no longer a file; the one content it writes is that of the id recorded as manifest, or of a fresh one |
| CodebaseStore.Repository.GenerateEtags | src/codebase-store.cpp:493-539 | what the batch sets for `_etags`, reusing its content id: a line for each file and no other, with the version given, or, if that is empty, with the version of the record there is, if any |
| CodebaseStore.Repository.GenerateTree | src/codebase-store.cpp:427-539 | rebuilding a tree, in any state of the records: of all ids there are, contents are written under i if and only if the record at the path of the manifest or of the etags has i, whatever i was made for |
| CodebaseStore.EtagsTakeAFile | src/codebase-store.cpp:541-584 | for every repository in order: a codebase x with an exact tree inherits a file at d + "/_etags" and is erased, one is made at d under its path, and its tree generated; then the base has the file under the same id, and what is stored under it are etags |
| CodebaseStore.Repository.UpgradeDerived | src/codebase-store.cpp:884-922 | the recursive update rebuilds exactly the codebases derived from this one, each from its new files, in each region of keys once, and lists each of them |
| CodebaseStore.Repository.Commit | src/codebase-store.cpp:814-925 | keeps the invariant and what get_file finds, ids and contents; what is committed is what was shown; the update list is the codebases touched; every touched tree is exact, with the version in the etag of every file, if and only if no file is at "/" or "/_etags"; the version is the one given, and one more than before for every codebase touched with it; no content is left behind; no other tree record changes, and an untouched exact tree stays exact if and only if its files did |
| CodebaseAfter.CommitKeepsLookup | src/codebase-store.cpp:831-867 | commit changes neither the id nor the content found at any path |
| CodebaseAfter.CommittedIsShown | src/codebase-store.cpp:831-867 | after commit, the codebase resolves to exactly what its lookup was |
| CodebaseAfter.TreeAfter | src/codebase-store.cpp:427-539 | after commit, the tree of every codebase touched is exact if and only if none of its committed files is at "/" or "/_etags" |
| CodebaseAfter.EtagsAfter | src/codebase-store.cpp:493-539 | after commit, the etags of every codebase touched, whatever its files: a line for each of its files, which is its version, or, if that is empty, the version that the file was recorded with before, if any |
| CodebaseAfter.VersionsAfter | src/codebase-store.cpp:906-911 | after commit the codebase has the version given, every other codebase touched has one more than its version as a number, and all else in the records of codebases is the same |
| CodebaseAfter.EtagsFileIsLost | src/codebase-store.cpp:524-538 | after committing an edit of "/_etags", the tree record at that path has another id than the file, and the tree is not exact |
| CodebaseAfter.SameVersionCommit | src/codebase-store.cpp:906-916 | a commit under the stored version leaves the exact tree of a derived codebase exact if and only if the commit does not change its files |
| CodebaseAfter.StaleChild | src/codebase-store.cpp:906-916 | committing an edit under the stored version makes the tree of every direct child without an own file at that path stale |
| CodebaseAfter.CommitMovesTrees | src/codebase-store.cpp:814-925 | for all codebases: touched trees are exact as above, untouched trees keep their records, and codebases not derived from this one keep their files |
| CodebaseAfter.ExactIsPlain | src/codebase-store.cpp:465-488 | a tree can be exact only if no committed file is at "/" or "/_etags" |
| CodebaseAfter.ExactTreesAgree | src/codebase-store.cpp:288-296 | an exact tree tells all: equal tree records in two states mean equal committed files |
| CodebaseStore.Repository.Erase | src/codebase-store.cpp:541-584 | erases the codebase and all derived from it, keeps the invariant, and leaves no content of a file behind; every other codebase shows what it showed, with its contents, and keeps an exact tree; under an erased path exactly the records at inherited paths and "/_etags" survive |
| CodebaseErase.ErasedTree | src/codebase-store.cpp:550-576 | which tree records under the path of an erased codebase survive: those of no own file and not the manifest |
| CodebaseErase.OtherTreesStayExact | src/codebase-store.cpp:949-962 | erasing a codebase leaves every exact tree of the others exact |
| CodebaseErase.EraseKeepsInv | src/codebase-store.cpp:949-962 | erasing keeps the invariant of the whole repository |
| CodebaseTidy.CommitTidies | src/codebase-store.cpp:831-857 | if every content stored for a file is that of a committed file or of a pending edit, so it is after a commit: the contents of what was replaced or erased are gone |
| CodebaseTidy.EraseTidies | src/codebase-store.cpp:550-576 | the same after erasing a codebase and all derived from it |
| CodebaseTidy.ResetTidies | src/codebase-store.cpp:934-947 | the same after a reset |
| CodebaseTidy.EraseFileTidies | src/codebase-store.cpp:695-724 | the same after erase_file and reset_file |
| CodebaseReaders.MakeDerivedKeepsInv | src/codebase-store.cpp:322-333 | with a derived codebase made at any path the records are in order if and only if the path is free, and what was left at the paths of its index has ids that nothing else has |
| CodebaseReaders.MakeRootKeepsOrder | src/codebase-store.cpp:334-348 | the same of a codebase without a base |
| CodebaseReaders.MakeDerivedShows | src/codebase-store.cpp:322-333 | what readers find after a derived codebase was made |
| CodebaseReaders.MakeRootShows | src/codebase-store.cpp:334-348 | what readers find after a codebase without a base was made |
| CodebaseReaders.ResetShows | src/codebase-store.cpp:934-947 | what readers find after a reset, in every codebase at every path |
| CodebaseStore.Repository.ReplayThenCommit | src/codebase-store.cpp:190-962 | after any history of requests, with files at any paths that start with a slash, and none of the new codebases that MakeCodebase says would leave the repository in disorder: a commit under another version than the stored one keeps what get_file finds and leaves the trees of the codebase and of all derived from it exact if and only if they have no file at "/" or "/_etags"; it is carried out if and only if the codebase is there and the version differs; in all of it no content stored for a file is left behind |
| SharedTable.FreeListIsSound | src/table.cpp:75-111 | with an entry for each id: in every state of every run, the list from m_free_id ends, has no id twice, and each id up to m_max_id is in exactly one place: in the list, held, or carried by exactly one thread |
| SharedTable.NoDoubleHandout | src/table.cpp:75-111 | with an entry for each id: in every run, between two hand-outs of an id it is given back |
| TableCalls.AllocsHandOut | src/table.cpp:75-97 | in every run, the calls of alloc_entry are as many as the hand-outs and the calls under way: each that has returned has handed out one id |
| TableCalls.HoldsAreCounted | src/table.hpp:148-149 | in every run, the hold count of an id is one for each hand-out and each hold, less the releases, and it is out just while there are fewer releases than that |
| TableCalls.GrowsWhenEmpty | src/table.cpp:75-97 | in every run, a new id is made only by a thread that found the free list empty when it last loaded m_free_id |
| SharedTable.CounterIsWhatMatters | src/table.cpp:81-84 | every run hands out each id once at a time if and only if m_free_id counts pops |
| SharedTable.UncountedListDoublesAnId | src/table.cpp:81-84 | the run in which a list without the counter hands out an id twice |
| SharedTable.XyzSpell | src/table.hpp:175-179 | the three coordinates are in range and spell the id modulo 2^24 |
| SharedTable.CellsAreDistinct | src/table.hpp:175-179 | two ids share a cell if and only if they agree modulo 2^24 |
| TableCells.RunsAlike | src/table.cpp:40-73 | up to 2^24 ids, the list with its entries in cells takes every step as the one with an entry for each id |
| TableCells.CellListIsSound | src/table.cpp:75-111 | in every run with at most 2^24 ids, the list read through the cells ends, has no id twice, and each id is in exactly one place |
| TableCells.NoDoubleCell | src/table.cpp:75-111 | in every run with at most 2^24 ids, between two hand-outs of an id it is given back |
| TableCells.FullTableDoublesAnId | src/table.cpp:98-111 | the run with one id more in which freeing id 1 frees the id that shares its cell, which is then handed out while it is out |
| TableCells.RoomIsExact | src/table.cpp:75-111 | every run with at most n ids hands out each id once at a time if and only if n is at most 2^24 |
| EventQueue.QueueIsFifo | src/event-queue.cpp:45-82 | in every run in which nodes are not recycled while two enqueues overlap, what was dequeued is a prefix of what was enqueued, in order |
| EventQueue.NullMeansEmpty | src/event-queue.cpp:63-72 | under that condition a dequeue returns null only if the queue was empty at one moment of the call, the moment it loaded `next` |
| EventQueue.ListHoldsTheRest | src/event-queue.cpp:45-82 | under that condition the list from m_head holds exactly what was enqueued and not yet dequeued |
| QueueCalls.EnqueuesArePut | src/event-queue.cpp:45-60 | in every run of every mode, for every queue and event: the calls of enqueue with that event are as many as the times it is in the order and the calls that have not linked it yet; one that has returned has put it there, once |
| QueueCalls.DequeuesAreAnswered | src/event-queue.cpp:62-82 | in every run of every mode, each call of dequeue has returned or is under way |
| QueueCalls.AnswersCameOff | src/event-queue.cpp:62-82 | in every run of every mode, an event came off the order as often as calls have returned it or are about to |
| QueueCalls.OtherAnswersAreNull | src/event-queue.cpp:70-71 | a call of dequeue that returns without an event is one of those that NullMeansEmpty is about |
| EventQueue.BusyQueueLosesAnEvent | src/event-queue.cpp:48-54 | the run of two enqueues and a dequeue after which an event that was enqueued is in no list |
| EventQueue.BusyQueueReturnsNull | src/event-queue.cpp:70-71 | in that run a dequeue returns null although the queue was not empty when it loaded `next`, and the list is short of an event |
| EventQueue.BusyQueueSkipsAnEvent | src/event-queue.cpp:48-54 | the run goes on to dequeue the event enqueued after the lost one |
| QueueReads.OrderExactly | src/event-queue.cpp:45-82 | order, null only when empty, and nothing lost: each holds of every run if and only if nodes are not recycled or a queue has one enqueue at a time |
| QueueReads.ReadsAreLive | src/event-queue.cpp:63-75 | with one dequeue at a time, or without recycling, and any number of enqueues, a dequeue takes the event from a node that is linked and was not freed since |
| QueueReads.CrowdedQueueReadsAFreedNode | src/event-queue.cpp:73 | the run of one enqueue at a time and two dequeues in which one is about to read a node that the other has freed |
| QueueReads.LiveExactly | src/event-queue.cpp:63-75 | no run reads a freed node if and only if nodes are not recycled or a queue has one dequeue at a time |
| QueueReads.NextExactly | src/event-queue.cpp:63-75 | every run reads only the next node in the order if and only if nodes are not recycled or a queue has one enqueue and one dequeue at a time |
| QueueReads.SafeExactly | src/event-queue.cpp:45-82 | all of it holds of every run if and only if nodes are not recycled or a queue has one enqueue and one dequeue at a time |
| DataRope.Data.PushBytes | src/data.hpp:712-732 | appends the bytes, in place only where no other rope shows the chunk: every other rope keeps its bytes |
| DataRope.Data.PushByte | src/data.hpp:738-756 | appends the byte, and every other rope keeps its bytes |
| DataRope.Data.Push | src/data.hpp:678-684 | appends the bytes of the other rope, which stays as it is; pushing a rope to itself does nothing |
| DataRope.Data.Absorb | src/data.hpp:686-700 | moves all bytes of the other rope to the end of this one by relinking; a rope pushed to itself stays as it is |
| DataRope.Data.Pop | src/data.hpp:768-781 | drops the last n bytes, or all |
| DataRope.Data.PopInto | src/data.hpp:783-797 | moves the last n bytes, or all, to the front of the other rope |
| DataRope.Data.Shift | src/data.hpp:799-834 | drops and returns the first n bytes, or all |
| DataRope.Data.ShiftInto | src/data.hpp:836-850 | moves the first n bytes, or all, to the end of the other rope |
| DataRope.Data.ShiftScan | src/data.hpp:852-876 | moves the bytes up to the first one at which the function, of all bytes seen, says to stop, before or after it |
| DataRope.Data.ShiftWhile | src/data.hpp:878-901 | moves the n bytes such that the function accepts each of them and refuses the next one, if there is one |
| DataRope.Data.ShiftTo | src/data.hpp:903-927 | moves the n bytes such that the function accepts the last of them and none before, or all if it accepts none before the last |
| DataRope.Data.Pack | src/data.cpp:44-85 | appends the bytes of the other rope for every vacancy from 0 to 1, leaves every other rope as it is; every view from the old last one on, except the new last one, shows at least 16384 * (1 - vacancy) bytes, rounded up, and is full or ends where the rope or a view of the other one ended |
| DataRope.Data.PackView | src/data.cpp:49-83 | for one view: a last view that shows less than the occupancy, or has room for all of it, takes what it has room for, and the rest follows; otherwise the last view is left alone |
| DataRope.Data.Clear | src/data.hpp:668-676 | leaves no bytes and no views, and every other rope as it was |
| DataRope.Data.Close | src/data.hpp:619-621 | the rope is gone, every other rope is as it was, and counts are exact without it |
| DataRope.Data.Assign | src/data.hpp:623-633 | this rope has the bytes of the other one, and nobody else changed; assigning a rope to itself does nothing |
| DataRope.Data.Replace | src/data.hpp:635-651 | this rope has the bytes that the other one had, the other one has none, and nobody else changed; nothing happens for a rope itself |
| DataRope.Data.PushShared | src/data.hpp:1085-1093 | appends the bytes of the shared data, which stays as it is |
| DataRope.SharedData.Fill | src/data.hpp:1120-1125 | holds the bytes of the rope, which stays as it is |
| DataRope.SharedData.Close | src/data.hpp:1127-1133 | the shared data is gone, every rope is as it was, and counts are exact without it |
| DataRope.CountIsViews | src/data.hpp:391-409 | between operations, the count of every chunk is the number of its views in the lists of all ropes and shared data, it is positive, and no view's chunk is gone |
| DataRope.Reader.Get | src/data.hpp:256-266 | returns the next byte if the view it is at shows any, -1 at the end, and otherwise, in all cases, what the chunk has at the place of the empty view, or what comes after the chunk |
| DataRope.Reader.GetAll | src/data.hpp:256-266 | reading with get() until -1 gives the bytes of the rope if and only if every view of it shows at least one byte; there is one number more for each view that does not |
| DataRope.GetFromNothing | src/data.hpp:878-901 | shift_while with a function that refuses the first byte makes a rope without bytes from which get() gets something |
| DataRope.Reader.Skip | src/data.hpp:268-286 | advances by n bytes, or to the end, whatever the views, and returns how far |
| DataRope.Reader.Read | src/data.hpp:313-334 | appends the next n bytes, or the rest, to the other rope, and advances by as much; all else stays |
| Kmp.KMP.constructor | src/kmp.cpp:55-72 | the first entry of the table is -1 and every other the length of the longest proper border of that many bytes, with at most 2 * length steps of the loops |
| Kmp.SplitIs | src/kmp.cpp:87-115 | the split that Input and End are proved against is the one way to cut the text at separators so that each is the first after the one before and none is left |
| Kmp.Split.Input | src/kmp.cpp:87-115 | whatever the cuts, what was put out so far, with the buffer, is the leftmost non-overlapping split of all input so far, and the buffer is the longest prefix of the pattern that ends the bytes since the last separator |
| Kmp.Split.End | src/kmp.cpp:117-122 | at the end, the segments put out are exactly the split of the whole input; the length of the match stays as it was, so that the splitter is as a new one if and only if nothing was retained |
| Deframer.Deframer.Deframe | src/deframer.cpp:79-139 | the same calls of on_state, the same bytes in every read, the same bytes passed on and the same bytes left over as those of the machine that takes one byte at a time; so every call has got its own piece of all bytes taken so far, as RunAccounts says |
| Deframer.RunAccounts | src/deframer.cpp:79-139 | the bytes taken are cut up in order: one for each byte given to on_state, as many as asked for for each finished request, and the rest for the one under way; each call got its piece, or nothing for a pass, in the state that was asked for; exactly the pieces taken while passing or by a pass were passed on |
| Deframer.CutsDoNotMatter | src/deframer.cpp:79-139 | any cut of the input into chunks gives what the whole input gives, with all that is left over after a negative state |
| Deframer.RunConcat | src/deframer.cpp:79-139 | input in two parts: the second part goes on where the first ended, or is left over |
| Socket.ClosesOnce | src/socket.cpp:222-229 | in every run, on_socket_close has been called exactly once if the socket was opened, is CLOSED and nothing is outstanding, and it was not already CLOSED when it was opened; otherwise not at all |
| Socket.ClosedIsNeverLeft | src/socket.cpp:90-98 | in every run CLOSED is never left, and nothing is accepted or confirmed any more, unless the socket is opened when it is already CLOSED; on_socket_close is never called again |
| Socket.ClosesWellExactly | src/socket.cpp:90-143 | for all limits and every run: no step leaves CLOSED and on_socket_close has been called just when it was due, at every moment of the run, if and only if the socket is not opened when it is already CLOSED |
| Socket.OwnersView | src/socket.cpp:113-143 | a run opens the socket when it is already CLOSED if and only if its owner opens it although it has closed it before, or was told before that the buffer overflowed |
| Socket.OpenedAfterOverflow | src/socket.cpp:119-123 | the run in which two outputs before the socket is opened close it, and it is opened all the same; when it is closed again and nothing is outstanding, on_socket_close has not been called |
| Socket.HandOverIsLast | src/socket.cpp:274-323 | in every reachable state and for every event and scripts of its callbacks: on_socket_close is called before the function at work uses the object for the last time if and only if the callbacks closed the socket and left nothing outstanding |
| Socket.HandOverAfterRead | src/socket.cpp:285-322 | when a read of a socket not opened late ends with bytes or an error, this happens for no callbacks if and only if a write is outstanding |
| Socket.HandOverAfterWrite | src/socket.cpp:331-370 | when a write of such a socket ends, this happens for no callbacks if and only if the congestion does not end or a read is outstanding |
| Socket.HandOverAfterReply | src/socket.cpp:119-123 | at a time-out or an overflow of such a socket, this happens for no reply of the owner if and only if a read or a write is outstanding |
| Socket.OneReadOneWrite | src/socket.cpp:150-182 | in every run at most one read and one write are outstanding, and what is being written is the front of the buffer |
| Socket.BytesInOrder | src/socket.cpp:113-196 | in every run the bytes confirmed and the buffer are all bytes accepted, in order; sending is shut down at most once, after a NO_ERROR end and with everything confirmed |
| Socket.NoLostWakeUp | src/socket.cpp:164-196 | in every run, a socket that can send and has bytes or an end has a write in flight or a registered flush; one that can receive and is not paused is receiving |
| Socket.NothingIsStuck | src/socket.cpp:90-371 | in every run, an opened socket for which nothing is under way has closed and said so, or was opened when it was already CLOSED and has closed, or is waiting for its owner: paused with an empty buffer, or half closed with nothing to send |
| SocketHistory.HistoryIs | src/socket.cpp:113-137 | in every run, by all calls of the owner with the socket that each of them found: the bytes accepted are the data of the calls of output that found it open for output with the buffer not full, the stored end is the first, the tap is as the last call left it, and the bytes written are those the system confirmed |
| SocketHistory.StateIs | src/socket.cpp:285-371 | in every run: the socket is CLOSED only if its owner closed it, output overflowed, time was up, a read or a write failed, an end with an error was reached with all sent, or both sides have ended; what breaks it, and both ends, do close it; otherwise it is half closed by its peer just if that has ended, and by itself just if sending was shut down |
| SocketHistory.EofHalfCloses | src/socket.cpp:298-303 | at the end of the peer, with callbacks that close nothing, an open socket is half closed, and takes output as before |
| SocketHistory.NextIs | src/socket.cpp:90-371 | in every reachable state and for every event: what is confirmed, that a write started is of the whole buffer, the shutdown, and the next state, told by the calls of the owner in its course |
| SocketHistory.NoReadWhilePaused | src/socket.cpp:150-162 | in every reachable state, no event starts a read of a paused socket unless its callbacks open the tap |
| Socket.SocketTCP.Live | src/socket.cpp:90-371 | whatever happens to a new socket object, in any order that the system allows, opened at any time, and with any callbacks: on_socket_close exactly once when it is due, and never if the socket was opened when it was already CLOSED; no byte lost or reordered, one read and one write, one shutdown, no lost wake-up |
| Socket.SocketTCP.Open | src/socket.cpp:90-111 | the fields after open are the state in which the model is |
| Socket.SocketTCP.Output | src/socket.cpp:113-137 | bytes are taken, refused, or close the socket after the owner's reply, which may re-enter |
| Socket.SocketTCP.OutputEnd | src/socket.cpp:113-137 | the first end is stored, and a flush registered |
| Socket.SocketTCP.Close | src/socket.cpp:139-143 | close at any time |
| Socket.SocketTCP.Receive | src/socket.cpp:150-162 | one read at a time, none while paused |
| Socket.SocketTCP.Send | src/socket.cpp:164-196 | one write at a time, the shutdown or the close that an end leads to |
| Socket.SocketTCP.CloseAsync | src/socket.cpp:222-229 | the hand-over to on_socket_close |
| Socket.SocketTCP.NeedFlush | src/input.cpp:67-77 | a flush is registered by a socket that was opened |
| Socket.SocketTCP.OnTick | src/socket.cpp:244-272 | a time-out tells the owner and closes |
| Socket.SocketTCP.OnReceive | src/socket.cpp:274-323 | the completion of a read, with callbacks that may re-enter |
| Socket.SocketTCP.OnSend | src/socket.cpp:325-371 | the completion of a write, with the release of congested sources, which may re-enter |
| Scarce.ScarcePointerArray.Get | src/scarce.hpp:45-66 | returns what the map from indices to pointers has at the index, for all indices of 32 bits |
| Scarce.ScarcePointerArray.Set | src/scarce.hpp:68-135 | returns the old value and changes the map at this index only, for values at indices below 2^30 and null at any of 32 bits; keeps the tree well formed: each count is the number of children or leaves, every node is reached, no node is empty |
| Scarce.ScarcePointerArray.Remove | src/scarce.hpp:122-134 | removing takes the index out of the map, and out of the tree exactly the nodes that became empty |
| Scarce.ScarcePointerArray.EveryNodeHolds | src/scarce.hpp:124-130 | under every node there is a value |
| Scarce.ScarcePointerArray.EmptyHasNoRoot | src/scarce.hpp:124-130 | the root is null if and only if there is no value |
| Scarce.TopLevelIsLeast | src/scarce.hpp:162-165 | the level of an index, computed from its bits, is the least one that has room for it |
| Scarce.TopLevelBound | src/scarce.hpp:89-90 | the way to an index has at most the ten slots that the path array has room for if and only if the index is below 2^30 |
| StrMap.StrMap.InsertString | src/str-map.cpp:59-84 | every child is written within its node if and only if the byte 255 is not in the string; then the string is added to the set of strings, with the trie in order |
| StrMap.StrMap.constructor | src/str-map.cpp:47-53 | inserting any list of strings in its order writes every child within its node if and only if the byte 255 is in none of them; then the trie is that of the set of them |
| StrMap.StrMap.NodesArePrefixes | src/str-map.cpp:59-115 | the nodes are exactly the prefixes of the strings |
| StrMap.InsertNode | src/str-map.cpp:92-115 | whichever way the range grows, the new child is at its byte, every other child stays at its own, and so does the string; for the byte 255, and for no other, the new node has room for no child, and no byte leads on from it |
| StrMap.MakeChain | src/str-map.cpp:72-78 | the nodes made for the rest of a new string spell it, each child within its node, if and only if the byte 255 is not in that rest |
| StrMap.Parser.Parse | src/str-map.hpp:69-82 | after every byte, the verdict on all bytes so far: the string if inserted, null if a proper prefix of one, and the empty string otherwise |
| StrMap.Parser.ParseAll | src/str-map.hpp:69-82 | the verdict on any non-empty string |
| Adler.Adler32 | deps/zlib-1.3.1/adler32.c:61-125 | for every buffer and canonical start value, and for both ways of reducing, the checksum is that of the byte-by-byte definition modulo 65521; no sum exceeds 32 bits |
| Adler.OverIsSums | deps/zlib-1.3.1/adler32.c:96-121 | reducing after every byte and reducing the plain sums once give the same |
| Adler.NmaxIsTheMost | deps/zlib-1.3.1/adler32.c:11-12 | the largest possible sum of n bytes fits in 32 bits if and only if n is at most 5552 |
| Adler.PeakIsReached | deps/zlib-1.3.1/adler32.c:11-12 | bytes of 255 after the largest start value reach that largest sum, for every n |
| Adler.Mod28 | deps/zlib-1.3.1/adler32.c:31-35 | is the remainder if and only if the chopped value is below twice 65521 (always so by division), and so for every value below 2^28 |
| Adler.Mod | deps/zlib-1.3.1/adler32.c:36-40 | is the remainder for every 32-bit value, both ways |
| Adler.Mod63 | deps/zlib-1.3.1/adler32.c:41-53 | is the remainder for every non-negative 64-bit value, both ways |
| Adler.JoinedIsOver | deps/zlib-1.3.1/adler32.c:142-153 | the formula of adler32_combine_ on the checksums of two parts is the checksum of the whole |
| Adler.Combine | deps/zlib-1.3.1/adler32.c:133-155 | for canonical checksums and any length the result is the checksum of the first part followed by any second part with that checksum and length, no intermediate value exceeding its type, and 0xffffffff for a negative length |

## Findings

Properties that one would expect of the code and that it does not have. For each there is an
input, and the exact condition under which the property holds.

- **The event queue loses events.** With nodes recycled through the pool, an enqueue that is
  held up before it links its node can link it behind a node that has meanwhile been dequeued
  and freed: `next` of that node is zero again, count and all, so the compare-and-swap of
  src/event-queue.cpp:52 succeeds. `BusyQueueLosesAnEvent` is such a run; in it a dequeue
  returns null although an event is waiting (`BusyQueueReturnsNull`), and the event enqueued
  next comes out in place of the lost one (`BusyQueueSkipsAnEvent`). `OrderExactly`:
  order, null only when empty, and nothing lost each hold of every run if and only if nodes
  are not recycled or each queue has at most one enqueue at a time.
- **The event queue reads freed nodes.** A dequeue reads the event (src/event-queue.cpp:73)
  before its compare-and-swap on m_head. If it is held up there, another dequeue can take and
  free both the head and the next node (src/table.hpp:212-219); what the first one then reads
  is zeroed, so that it is taken for a Data event without data, and to_event dereferences null
  (src/event-queue.cpp:114-116). `CrowdedQueueReadsAFreedNode` is such a run, with one enqueue at
  a time. `LiveExactly`: no run reads a freed node if and only if nodes are not recycled or each
  queue has at most one dequeue at a time, however many enqueues there are. `SafeExactly` puts
  the two conditions together: one producer and one consumer.
- **A commit under the stored version leaves derived trees stale.** Derived codebases are
  rebuilt only when the version differs from that of their link (src/codebase-store.cpp:908).
  `SameVersionCommit`: the tree of a derived codebase stays exact if and only if the commit does
  not change its files.
  `StaleChild`: it does not stay exact for any direct child when an edit is committed at a
  path at which the child has no own file.
- **A file at "/_etags" is lost to readers of the tree.** src/admin-service.cpp:1040-1050
  accepts such a file; generate_etags then overwrites its tree record. `EtagsFileIsLost` is
  the case, and `TreeAfter` the condition: after a commit, a rebuilt tree is exact if and only
  if none of its files is at "/_etags" or "/".
- **The etags of one codebase can take the place of a file of another.** A codebase "/x" inherits
  a file "/docs/_etags" from its base and is erased: erase_codebase leaves the tree record at
  "/x/docs/_etags" (src/codebase-store.cpp:550-576). A codebase is made at "/x/docs" and
  committed: generate_etags takes the id of the file for that of its etags
  (src/codebase-store.cpp:524-538), and the base now has etags for a file. `EtagsTakeAFile` is that
  history, for every repository, path and file. `GenerateTree` has the condition for one tree:
  contents are written under an id that is in use if and only if it is recorded at the path of the
  manifest or of the etags. `MakeCodebase` has it for the repository: with the new codebase it is
  in order if and only if its path is free, and what is recorded at these two paths has ids that
  no file, no edit and no other codebase's index has, which a caller can look up before.
- **A batch can mean different things to the two stores.** `UncleanBatch` is the shortest such
  batch, and `StoresAgreeExactly` the condition. Every batch that the repository commits is
  clean, which implies it.
- **A socket that overflows before it is opened never reports its close.** output() takes bytes in
  IDLE; with the buffer limit reached it calls close() (src/socket.cpp:119-123), which decides at
  once and without a call, as nothing is outstanding and the socket was not opened
  (src/socket.cpp:222-229). open() tests nothing (src/socket.cpp:90-98), and an outbound connection
  that is being resolved, or waits to be retried, goes on to open its socket
  (src/outbound.cpp:471-472), as that of the HTTP log target does, with a buffer limit and retries
  without end (src/api/logging.cpp:416-418). CLOSED is left then, and close_async returns at once
  from then on. `OpenedAfterOverflow` is such a run. `ClosesWellExactly`: on_socket_close is called when it
  is due and CLOSED is never left, at every moment of a run, if and only if the socket is not
  opened when it is already CLOSED; `OwnersView` says what that means for the owner.
- **A socket is used after it was handed over.** on_receive, on_send,
  on_tick, output and open use the fields of the object after they have called the owner. If it closes
  the socket in that call and nothing else is outstanding, on_socket_close, which releases the object
  (src/outbound.hpp:205), is called before that. The operations under way have a bare pointer to the
  object (src/net.hpp:116-128), so that it lasts only if someone else holds it. `HandOverIsLast` is
  the condition for each event; `HandOverAfterRead`, `HandOverAfterWrite` and `HandOverAfterReply`
  say when no callback can do it: exactly while another operation is outstanding.
- **The sparse array has no room for the way to an index from 2^30 on.** The path array of set()
  has ten slots (src/scarce.hpp:89-90), and `TopLevelBound` says that ten are enough if and only if
  the index is below 2^30.
- **A string with the byte 255 is written behind its node.** The end of the range of a node is one
  more than its last byte, in eight bits (src/str-map.cpp:75, 109): 0 after the byte 255, so that
  the node made has room for no child, and the parser finds no byte in its range. `InsertNode` is that
  step, and `StrMap.constructor` the condition: every write is within its node if and only if no
  string of the list has the byte 255.
- **A reader's get() returns bytes that are not there.** It does so for views that show
  nothing, which shift_while makes (src/data.hpp:896 with n = 0). `GetFromNothing` builds such
  a rope; `Reader.GetAll` gives the condition: get() yields the bytes of a rope if and only if
  every view of it shows at least one. skip() and read() are right for all ropes.
- **Without its counter the free list would hand out an id twice**: `UncountedListDoublesAnId`,
  and `CounterIsWhatMatters` for the equivalence.
- **The table has room for 2^24 ids.** Nothing stops m_max_id there, and two ids share a cell
  if and only if they agree modulo 2^24 (`CellsAreDistinct`). Freeing one frees the other, as
  free_entry reads the id from the cell (src/table.cpp:99); `FullTableDoublesAnId` is a run with
  one id more, and `RoomIsExact` the equivalence.

## Left out

- CodebaseStore.Repository.SetFile: paths start with a slash, as all callers make sure
  (src/admin-service.cpp:1315-1328, src/codebase-store.cpp:171-183, 243-258).
- CodebaseStore.Repository.ReplayThenCommit: a codebase that would leave the repository in
  disorder, by the condition of MakeCodebase, is not made; what happens after one was made is
  told by EtagsTakeAFile only.
- CodebaseStore.Repository.Serve: commit_files is not among the requests; it replaces contents
  without regenerating trees.
- Codebase: records are values, not their text encodings; ids are numbers from a supply that
  never repeats, in place of random UUIDs; the order of the lines of manifest and etags.
- Store: LevelDB itself, the text of keys, files on disk, dump.
- SharedTable: sequential consistency, an unbounded counter, strong compare-and-swap in
  add_entry and the allocation of cells there; the sequential free list of src/table.hpp.
- TableCells: the allocation of ranges and chunks, and the 32 bits of m_max_id.
- EventQueue: sequential consistency and unbounded counts; the conversion of events, which
  reads a node in one step.
- DataRope.Data.Clear: takes views off one by one with the size kept right, where the code
  resets head, tail and size at the end.
- DataRope.Reader.Get: what lies behind the end of a chunk is the parameter `stray`.
- DataRope.Data.PopInto: the rope itself as the target.
- DataRope.Data.ShiftInto: the rope itself as the target.
- DataRope.Data.ShiftScan: the rope itself as the target.
- DataRope.Data.ShiftWhile: the rope itself as the target.
- DataRope.Data.ShiftTo: the rope itself as the target.
- DataRope.Reader.Read: the rope that is being read as the target.
- DataRope: Builder, scan, to_bytes and the conversions of text, and producers;
  sizes are unbounded integers.
- Kmp.Split.End: input after the end, for which m_match_len is not reset; both users of the
  splitter delete it then (src/filters/split.cpp:130-133, src/filters/mime.cpp:92-97).
- Deframer.Deframer.Deframe: how on_pass calls and on_state calls are interleaved and how bytes
  are grouped in on_pass calls, which depends on the cuts, as bytes to be passed on are flushed
  at the end of every chunk (src/deframer.cpp:138); requests of size zero; handlers that look at
  bytes passed on or at the state while a chunk is being taken.
- Socket.SocketTCP.OnSend: a completion never counts more bytes than were given to be written.
- Socket: it is opened once at most, by an owner that has connected the system's socket; a read or
  write is aborted only after the socket was closed; on_socket_close does not call back; congestion
  reaches the socket as its taps being closed and opened; the order in which several flush targets
  are flushed; options, logging, and the UDP and netlink sockets.
- Scarce.ScarcePointerArray.Set: values at indices from 2^30 on, for which the path array is too
  short by TopLevelBound, and indices of more than 32 bits, whose bits are not all seen.
- Scarce: the destructor.
- StrMap: what is in memory after a child was written behind its node; reference counts of strings
  and freeing of nodes.
- Adler.Adler32: start values that are not canonical.
- Adler.Combine: checksums that are not canonical.
- Adler: shifts and masks are written as / and %.
- The pjs engine, HTTP, TLS, filters, timers, admin routing and command-line options.
