# Proofs about the algorithms of a student archive

The archive has no single program; several of its files each hold one classic algorithm. This
project models those algorithms, one module a file, and proves what they are for.

| module | models |
|---|---|
| `Kruskal`, `DisjointSets`, `Graph`, `Counting` | Kruskal's algorithm with its in-place quicksort and union-find: a minimum spanning forest for every graph |
| `Snapshot` | the wait-free snapshot object with helped scans |
| `Edf` | the earliest-deadline-first simulator: it follows its rule in every second, and is optimal among all slot-by-slot schedules |
| `LazySkipList`, `SkipListAnswers`, `SkipListQuiet` | the lazy concurrent skip list; its answers are right at some moment of each call, and a call left alone returns |
| `FilterLock`, `BakeryLock`, `TasLock` | three locks |
| `Barrier` | the reusable barrier made of two turnstiles |
| `StopAndWait`, `TransferCompletes` | the stop-and-wait file transfer: what can be lost, and when it can be completed |
| `Sieve` | the segmented prime sieve run by several threads |
| `Decimal`, `Karatsuba` | Karatsuba multiplication of decimal strings and polynomial evaluation |
| `BTreeSpec`, `BTree` | the B-tree: as trees of values, and in memory with full deletion |
| `RedBlackTree` | insertion into a red-black tree with parent pointers and a sentinel |
| `BinomialHeap` | the binomial heap: union, insertion, extraction of a minimum |
| `SlabAllocator` | the slab allocator with bitmaps and back pointers |

Concurrent programs are step systems: every thread has a program counter, every shared read, write,
test-and-set, lock or semaphore operation is one atomic step, and memory is sequentially
consistent. A `Run` is a finite sequence of states that starts in `Init` and in which each state
follows from the one before by a step of some thread; the number of threads is not bounded. Ghost
fields of the states (histories, counts of entries, sets of threads that came first) only record
what happened. Sequential code that changes memory is imperative: methods with loops on arrays and
on fields of objects, each proved against a specification about which the lemmas speak. Where nodes
point to nodes, a ghost tree says which node holds what; a predicate (`Matches`, `Tied`, `Row`) says
that the fields of the nodes agree with it, and the methods carry that tree along.

What the proofs found out about the code:

- The stop-and-wait transfer loses a file of 1 to 1023 bytes in some runs: the receiver starts with
  acknowledgement number 1, which is what the sender expects for its first packet. Empty files and
  files of at least two chunks are safe (`StopAndWait.ReliableExactly`).
- `union_dsu` of two elements of one class corrupts `size`; Kruskal's loop never does that
  (`DisjointSets.SelfUnionBreaksSizes`).
- `multDriver` splits an odd length in the wrong place, so `mult` is wrong for operands of an odd
  number of digits above 1024 unless the product is zero (`Karatsuba.Mult`).
- The polynomial program cuts zeros off in front of its answers but never behind a minus: the
  coefficients 1 and 5 at -12 give -07 (`Karatsuba.Evaluate`, `Karatsuba.PaddedAnswer`).
- If the first packet never gets onto the network and the receiver's initial acknowledgement is taken
  for its answer, the transfer can never be completed; nothing else makes it so
  (`TransferCompletes.OnlyTheFirst`).
- Two processes with the same deadline and start take turns every second (`Edf.Simulator.Contend`).
- `sub`, `add` and `mult` cope with leading zeros, although the program asks its users for none.
- Kruskal's program prints v - 1 edges even when the graph is not connected; the edges chosen are
  then a minimum spanning forest and the rest of the array is not set (`Kruskal.Kruskal`).

## Model

| member | source | states |
|---|---|---|
| Kruskal.Kruskal | assignment/Data Struct/dsu/kruskal.c:113-138 | For every graph, connected or not, the chosen edges, from the lightest to the heaviest, are a spanning forest whose weight is least among all spanning forests; v - 1 edges are chosen exactly when the graph is connected, and the result array is never overrun |
| Kruskal.Select | assignment/Data Struct/dsu/kruskal.c:122-138 | The selection loop keeps: the chosen edges are a forest, part of some minimum spanning forest, and two vertices have one representative exactly when the chosen edges connect them |
| Kruskal.Consider | assignment/Data Struct/dsu/kruskal.c:124-136 | One turn of the selection loop keeps an edge exactly when its ends are in different classes, and with it everything the loop keeps true |
| Kruskal.Qsort | assignment/Data Struct/dsu/kruskal.c:36-42 | The range is sorted by weight and is a permutation of what it was; nothing outside it changes |
| Kruskal.Partition | assignment/Data Struct/dsu/kruskal.c:27-34 | The pivot ends up at the returned index with smaller weights before it and no smaller one after it |
| Kruskal.SafeEdge | assignment/Data Struct/dsu/kruskal.c:124-136 | A lightest edge between two classes keeps the chosen edges inside some minimum spanning forest |
| Kruskal.SafeExchange | assignment/Data Struct/dsu/kruskal.c:124-136 | Exchange step: from any spanning forest over the chosen edges, one that also holds the new edge and weighs no more |
| Kruskal.Optimal | assignment/Data Struct/dsu/kruskal.c:113-138 | A spanning forest that every optimum can be exchanged into is minimal |
| Graph.ConnectedIffWalk | assignment/Data Struct/dsu/kruskal.c:13-17 | Connected by cuts is connected by a walk along edges |
| Graph.Exchange | assignment/Data Struct/dsu/kruskal.c:124-136 | In a spanning forest some edge across a cut can be replaced by any graph edge that crosses it |
| DisjointSets.Dsu.constructor | assignment/Data Struct/dsu/kruskal.c:54-59 | Every element starts as its own class of size 1 |
| DisjointSets.Dsu.Find | assignment/Data Struct/dsu/kruskal.c:61-70 | Path halving returns the class's root and moves no element to another class; an index out of range gives -1; 2 to the number of loop turns is at most the size of the class |
| DisjointSets.Dsu.Union | assignment/Data Struct/dsu/kruskal.c:72-83 | The smaller class is joined to the larger one; sizes stay right exactly when the two elements were in different classes |
| DisjointSets.HalvingKeepsShape | assignment/Data Struct/dsu/kruskal.c:65-68 | Pointing an element at its grandparent keeps every element's root |
| DisjointSets.DepthIsLogarithmic | assignment/Data Struct/dsu/kruskal.c:72-83 | A node's depth is at most the base-2 logarithm of the size of its class |
| DisjointSets.SelfUnionBreaksSizes | assignment/Data Struct/dsu/kruskal.c:79-82 | Joining a class to itself doubles its recorded size, so sizes are only right because the caller checks |
| Snapshot.ScansAreAtomic | assignment/pcp/a4/mrmw.cpp:66-117 | Every finished scan, helped or not, returns the contents all registers had together at one moment between its call and its return, after at most capacity + 2 collects |
| Snapshot.ScansAreOrdered | assignment/pcp/a4/mrmw.cpp:86-117 | A scan that starts after another has ended never shows an older memory |
| Snapshot.CallsBegin | assignment/pcp/a4/mrmw.cpp:78-86 | In every reachable state an idle thread can begin a scan, or an update of its own register with any value |
| Snapshot.UpdatesTakeEffect | assignment/pcp/a4/mrmw.cpp:78-84 | An update that has returned wrote its argument into its own register, once, in its last step and with the next stamp; before that its register stayed as it was when the call began |
| Snapshot.OnlyUpdatesWrite | assignment/pcp/a4/mrmw.cpp:78-84 | Every step of every run leaves all registers alone or is the last step of an update call, which gives its register the argument of that call |
| Snapshot.ScansReturn | assignment/pcp/a4/mrmw.cpp:86-117 | Every scan call that has returned left one result, an atomic snapshot of a moment between its call and its return |
| Snapshot.ScanShowsUpdate | assignment/pcp/a4/mrmw.cpp:78-117 | A scan that begins after an update has returned shows the value written, unless its thread begins another update before the scan ends |
| Snapshot.NeverBlocked | assignment/pcp/a4/mrmw.cpp:66-117 | In every reachable state every thread can take a step, and each step it takes changes its own state: none waits for another thread |
| Snapshot.WaitFree | assignment/pcp/a4/mrmw.cpp:66-117 | In every run, a call of scan or update takes at most (capacity + 2)(capacity + 1) + capacity + 6 steps of its own, however the other threads run in between |
| Snapshot.WorkFalls | assignment/pcp/a4/mrmw.cpp:66-117 | Every step a thread takes inside a call lowers a measure that is never negative |
| Snapshot.CollectsBounded | assignment/pcp/a4/mrmw.cpp:86-117 | No scan under way, in any reachable state, has begun more than capacity + 2 collects |
| Snapshot.Compare | assignment/pcp/a4/mrmw.cpp:92-113 | The two comparison loops of scan decide between a clean double collect, a helper found twice, and one more round |
| Snapshot.StoreKeeps | assignment/pcp/a4/mrmw.cpp:78-84 | Writing a register with a new stamp keeps every running scan's knowledge true |
| Snapshot.StepKeeps | assignment/pcp/a4/mrmw.cpp:66-117 | Every step keeps the invariant of the protocol |
| FilterLock.LevelsFilter | assignment/pcp/a2/b.cpp:94-106 | In every reachable state at most n - i threads are through level i, although each thread looks at the others one at a time |
| FilterLock.MutualExclusion | assignment/pcp/a2/b.cpp:94-111 | No two threads are in the critical section |
| FilterLock.NoDeadlock | assignment/pcp/a2/b.cpp:94-111 | While some thread is in the lock, some thread in it can take a step, and every step it can take brings it nearer to leaving it |
| FilterLock.OwnStep | assignment/pcp/a2/b.cpp:94-111 | A step of a thread in the lock lowers a measure of what it has left to do, unless it spins, and then its two reads bring it back to where it was |
| FilterLock.OtherStep | assignment/pcp/a2/b.cpp:94-111 | No step of another thread sets a thread back |
| FilterLock.AloneEnters | assignment/pcp/a2/b.cpp:94-111 | A thread that has the lock to itself is through within a number of steps that depends on the number of threads alone |
| FilterLock.EveryoneGetsThrough | assignment/pcp/a2/b.cpp:94-111 | From every reachable state all threads in the lock can get through it without a step of a thread outside |
| FilterLock.StepKeeps | assignment/pcp/a2/b.cpp:94-111 | Every read and write keeps the invariant |
| BakeryLock.MutualExclusion | assignment/pcp/a2/b.cpp:43-74 | No two threads are in the critical section, with a scan for the largest label that is not atomic |
| BakeryLock.FirstComeFirstServed | assignment/pcp/a2/b.cpp:43-69 | A thread that had written its label before another one raised its flag enters first |
| BakeryLock.NoDeadlock | assignment/pcp/a2/b.cpp:43-74 | While some thread is in the lock, some thread in it can take a step, and every step it can take brings it nearer to leaving it or ends the program because the labels are used up |
| BakeryLock.OwnStepFalls | assignment/pcp/a2/b.cpp:43-74 | A step of a thread in the lock lowers a measure of what it has left to do, unless it spins, and then its reads bring it back to where it was |
| BakeryLock.AloneEnters | assignment/pcp/a2/b.cpp:43-74 | A thread that has the lock to itself is through within 8n + 4 steps |
| BakeryLock.HaltsWhenUsedUp | assignment/pcp/a2/b.cpp:47-59 | Labels never exceed the largest 64-bit number, and the program stops only when some thread has that label |
| BakeryLock.EveryoneGetsThrough | assignment/pcp/a2/b.cpp:43-74 | From every reachable state with labels left, all threads in the lock can get through it without a step of a thread outside |
| BakeryLock.StepKeeps | assignment/pcp/a2/b.cpp:43-74 | Every read and write keeps the invariant |
| Edf.Simulator.CountDead | assignment/OS 2/A1/Assgn1-EDFcs16btech11038.cpp:219-240 | The number of missed deadlines is zero exactly when every job needs time and some schedule meets all deadlines: the simulator is optimal |
| Edf.Simulator.Simulate | assignment/OS 2/A1/Assgn1-EDFcs16btech11038.cpp:104-215 | The simulation ends with every process finished; the schedule obeys the earliest-deadline-first rule in every second, whether or not deadlines were missed, and every process ends in the last second it ran if it got its time, otherwise at its deadline |
| Edf.Simulator.Turn | assignment/OS 2/A1/Assgn1-EDFcs16btech11038.cpp:104-214 | One turn of the loop keeps the simulator's invariant, the earliest-deadline-first rule for all seconds so far included, and ends, drops a process or passes a second |
| Edf.Simulator.Release | assignment/OS 2/A1/Assgn1-EDFcs16btech11038.cpp:105-115 | All processes whose start time has come move to the ready queue |
| Edf.Simulator.StartFromIdle | assignment/OS 2/A1/Assgn1-EDFcs16btech11038.cpp:141-166 | Drops what can no longer run and starts the ready process with the earliest deadline, the earlier start deciding between equal ones |
| Edf.Simulator.Contend | assignment/OS 2/A1/Assgn1-EDFcs16btech11038.cpp:167-201 | Keeps or preempts the running process so that the most urgent one runs; of two just as urgent the one that waited runs |
| Edf.Simulator.Finish | assignment/OS 2/A1/Assgn1-EDFcs16btech11038.cpp:206-214 | A process that has run its time leaves |
| Edf.ChosenObeys | assignment/OS 2/A1/Assgn1-EDFcs16btech11038.cpp:135-204 | The process the simulator picks for the next second is one the earliest-deadline-first rule allows: nothing runs only if nothing waits |
| Edf.OnlySchedule | assignment/OS 2/A1/Assgn1-EDFcs16btech11038.cpp:35-62 | The rule fixes the schedule: if no two processes have the same deadline and start, any two simulations that obey it run the same process in every second |
| Edf.StatsLoop | assignment/OS 2/A1/Assgn1-EDFcs16btech11038.cpp:224-235 | Counts the processes that ended at their deadline or later |
| Edf.RunEarliest | assignment/OS 2/A1/Assgn1-EDFcs16btech11038.cpp:141-204 | Exchange step: a schedule that follows the simulator so far can be changed to also run the earliest deadline next |
| Edf.RunNothing | assignment/OS 2/A1/Assgn1-EDFcs16btech11038.cpp:135-139 | With nothing ready, any schedule that follows the simulator is idle next |
| Edf.LateIsHopeless | assignment/OS 2/A1/Assgn1-EDFcs16btech11038.cpp:121-133 | A process still unfinished at its deadline shows that no schedule follows the simulator so far |
| Edf.TickKeeps | assignment/OS 2/A1/Assgn1-EDFcs16btech11038.cpp:206-214 | The invariant, with optimality so far, survives the end of a turn |
| Edf.Verdict | assignment/OS 2/A1/Assgn1-EDFcs16btech11038.cpp:224-238 | The processes counted as dead are those without their time, and there are none exactly when the jobs are schedulable |
| LazySkipList.ListsAreSkipList | assignment/pcp/proj/LazySkipList.h:171-388 | In every reachable state of any number of concurrent operations each level is strictly sorted, each upper level is part of the one below, and every fully linked unmarked node is on all its levels |
| LazySkipList.SetChanges | assignment/pcp/proj/LazySkipList.h:194-368 | The set of keys changes only where add sets fullyLinked on a node of its key and drawn level, from without the key to with it, and where remove sets marked, from with it to without it |
| LazySkipList.ContainsIsTrue | assignment/pcp/proj/LazySkipList.h:375-388 | When contains answers true, the key was in the set at its last read |
| SkipListAnswers.FalseIsRight | assignment/pcp/proj/LazySkipList.h:194-388 | When add returns false the key was in the set at some moment between its call and its return; when remove or contains returns false there was such a moment at which it was not |
| SkipListAnswers.TrueIsRight | assignment/pcp/proj/LazySkipList.h:194-388 | When add returns true its call has put the key into the set in one step, when remove returns true its call has taken it out in one step, and contains returns true only of a key in the set |
| SkipListAnswers.Hindsight | assignment/pcp/proj/LazySkipList.h:171-187 | Where a node that may have been unlinked leads now is where it led at some moment of the search while it was still linked |
| SkipListAnswers.FoundLow | assignment/pcp/proj/LazySkipList.h:296-361 | remove may give up on a node that reaches above the level it was found at: the key was then absent while the search passed the level above |
| SkipListAnswers.CallKnows | assignment/pcp/proj/LazySkipList.h:171-388 | At every step of a call, each recorded pair of neighbours was linked together at some moment of that call |
| SkipListQuiet.QuietLists | assignment/pcp/proj/LazySkipList.h:194-368 | While no call is under way each level links exactly the nodes of the set that have this level, all of them fully linked |
| SkipListQuiet.CallsBegin | assignment/pcp/proj/LazySkipList.h:194-388 | In every reachable state an idle thread can begin to add, remove or look for any key between the sentinels' |
| SkipListQuiet.AloneReturns | assignment/pcp/proj/LazySkipList.h:171-388 | A call that has the list to itself returns within a number of steps that depends on the number of nodes alone |
| SkipListQuiet.StepFalls | assignment/pcp/proj/LazySkipList.h:171-388 | Alone, every step of a call lowers a measure of what it has left to do |
| SkipListQuiet.CanStep | assignment/pcp/proj/LazySkipList.h:171-388 | Nothing but a mutex that another thread holds can stop a thread from taking its next step |
| SkipListQuiet.Validates | assignment/pcp/proj/LazySkipList.h:242-253 | With neighbours that are still as recorded every validation succeeds |
| LazySkipList.NoWaitCycle | assignment/pcp/proj/LazySkipList.h:247-352 | Threads waiting for node locks never form a cycle |
| LazySkipList.StepKeeps | assignment/pcp/proj/LazySkipList.h:171-388 | Every step of every operation keeps the invariant |
| LazySkipList.FindStepOk | assignment/pcp/proj/LazySkipList.h:171-187 | The search keeps what later steps need of the recorded neighbours |
| LazySkipList.LinkStep | assignment/pcp/proj/LazySkipList.h:265-267 | Linking one level puts the new node between its locked neighbours |
| LazySkipList.UnlinkStep | assignment/pcp/proj/LazySkipList.h:350-352 | Unlinking one level takes out exactly the victim |
| LazySkipList.MarkStep | assignment/pcp/proj/LazySkipList.h:317-328 | Marking takes the victim out of the set and nothing else |
| TasLock.MutualExclusion | assignment/OS 2/A2/Assgn2-TAS_Faircs16btech11038.cpp:42-72 | No two threads are in the critical section |
| TasLock.BoundedWaiting | assignment/OS 2/A2/Assgn2-TAS_Faircs16btech11038.cpp:42-72 | After a thread has raised its flag at most n - 1 others enter before it |
| TasLock.TokenNeverLost | assignment/OS 2/A2/Assgn2-TAS_Faircs16btech11038.cpp:42-72 | The lock bit is set exactly when some thread holds the token, taken by test-and-set or handed over |
| TasLock.NoDeadlock | assignment/OS 2/A2/Assgn2-TAS_Faircs16btech11038.cpp:42-72 | While some thread is in the section, some thread in it can take a step, and every step it can take brings it nearer to leaving it |
| TasLock.HolderAdvances | assignment/OS 2/A2/Assgn2-TAS_Faircs16btech11038.cpp:42-72 | The holder of the token gives it away after at most n + 6 steps of its own, and no other thread sets it back |
| TasLock.OwnStep | assignment/OS 2/A2/Assgn2-TAS_Faircs16btech11038.cpp:42-72 | A step of a thread in the section lowers a measure of what it has left to do, unless it spins, and then its two steps bring it back to where it was |
| TasLock.AloneLeaves | assignment/OS 2/A2/Assgn2-TAS_Faircs16btech11038.cpp:42-72 | A thread that has the section to itself is through within n + 9 steps |
| TasLock.EveryoneGetsThrough | assignment/OS 2/A2/Assgn2-TAS_Faircs16btech11038.cpp:42-72 | From every reachable state all threads in the section can get through it without a step of a thread outside |
| TasLock.StepKeeps | assignment/OS 2/A2/Assgn2-TAS_Faircs16btech11038.cpp:42-72 | Every read, write and test-and-set keeps the invariant |
| Barrier.NobodyPassesEarly | assignment/OS 2/A4/Assgn4-newbarrCS16BTECH11038.cpp:44-67 | A thread anywhere between the first turnstile and its return in some round means every thread has entered that round |
| Barrier.NobodyLeavesEarly | assignment/OS 2/A4/Assgn4-newbarrCS16BTECH11038.cpp:44-67 | No thread has left more rounds than any thread has entered |
| Barrier.RoundsStayClose | assignment/OS 2/A4/Assgn4-newbarrCS16BTECH11038.cpp:44-67 | Completed rounds of any two threads differ by at most one |
| Barrier.NestedWaitsNeverBlock | assignment/OS 2/A4/Assgn4-newbarrCS16BTECH11038.cpp:47-50 | The semaphore waits made while the mutex is held never block |
| Barrier.NoDeadlock | assignment/OS 2/A4/Assgn4-newbarrCS16BTECH11038.cpp:44-67 | When the threads of a round have all come, those outside having left it already, some thread still inside can go on |
| Barrier.StepNearer | assignment/OS 2/A4/Assgn4-newbarrCS16BTECH11038.cpp:44-67 | A call takes at most sixteen steps: each lowers a measure that no other thread touches, and the call returns exactly when it counts another round |
| Barrier.EveryoneGetsThrough | assignment/OS 2/A4/Assgn4-newbarrCS16BTECH11038.cpp:44-67 | Once every thread has come for a round, all get through it without a step of a thread outside, until none is left inside |
| Barrier.StepKeeps | assignment/OS 2/A4/Assgn4-newbarrCS16BTECH11038.cpp:44-67 | Every semaphore operation keeps the invariant |
| StopAndWait.FileIsPrefix | assignment/networks2/tut4/stopNWaitAQR_FTP_recv.cpp:155-172 | Over a network that loses, duplicates, reorders and detectably corrupts, the received file is always whole chunks from the start of the source |
| StopAndWait.WholeFile | assignment/networks2/tut4/stopNWaitAQR_FTP_sender.cpp:106-116 | A sender that left its loop has transferred the whole source, when it has at least 1024 bytes |
| StopAndWait.ReceiverClosesWithWholeFile | assignment/networks2/tut4/stopNWaitAQR_FTP_recv.cpp:110-113 | A receiver that saw the disconnect packet has the whole source, when it has at least 1024 bytes |
| StopAndWait.LostFile | assignment/networks2/tut4/stopNWaitAQR_FTP_recv.cpp:105-106 | A run in which a shorter source is lost: the receiver's initial acknowledgement answers the sender's first packet |
| StopAndWait.ReliableExactly | assignment/networks2/tut4/stopNWaitAQR_FTP_sender.cpp:106-187 | The transfer is reliable exactly for the empty source and for sources of at least 1024 bytes, that is two chunks |
| TransferCompletes.EveryFileArrives | assignment/networks2/tut4/stopNWaitAQR_FTP_sender.cpp:106-117 | Every file is transferred in some run, with both programs at their end |
| TransferCompletes.CompletableExactly | assignment/networks2/tut4/stopNWaitAQR_FTP_sender.cpp:106-187 | A reachable state can be completed exactly when every chunk the sender takes for delivered and the receiver lacks is on the network, and the disconnect packet too once the sender has closed |
| TransferCompletes.OnlyTheFirst | assignment/networks2/tut4/stopNWaitAQR_FTP_recv.cpp:86-113 | While the sender is in its loop the one thing that rules completion out is the receiver's initial acknowledgement taken for that of a first packet that never got onto the network |
| TransferCompletes.PacketsAreAnswered | assignment/networks2/tut4/stopNWaitAQR_FTP_recv.cpp:103-173 | Whatever packet arrives, the receiver can answer it at once with the number of chunks it has, or 1, and is then ready for the next one |
| TransferCompletes.StepNearer | assignment/networks2/tut4/stopNWaitAQR_FTP_sender.cpp:106-187 | From a state that can be completed some step of the two programs lowers a measure of what is left to do |
| StopAndWait.StepKeeps | assignment/networks2/tut4/stopNWaitAQR_FTP_sender.cpp:106-187 | Every step of both programs keeps the invariant |
| StopAndWait.TakeKeeps | assignment/networks2/tut4/stopNWaitAQR_FTP_recv.cpp:150-170 | Whatever packet arrives, the file stays a whole number of chunks in order |
| StopAndWait.ComputeCheckSum | assignment/networks2/tut4/ftp_aqr.h:20-31 | The loop combines all bytes by exclusive or |
| StopAndWait.OneByteIsDetected | assignment/networks2/tut4/ftp_aqr.h:20-31 | Changing one byte always changes the checksum |
| Sieve.Sieve | assignment/pcp/sam2-sieve.cpp:121-149 | The merged list holds every prime below the bound once, and nothing else, for every bound and number of threads |
| Sieve.SortedPrimes | assignment/pcp/sam2-sieve.cpp:146-153 | However the merged list is sorted, the result is the primes below the bound in strictly ascending order |
| Sieve.ThreadFunc | assignment/pcp/sam2-sieve.cpp:39-98 | One thread lists exactly the primes from its own slices, once each |
| Sieve.SieveSlice | assignment/pcp/sam2-sieve.cpp:52-87 | After sieving a slice, an entry is set exactly when its odd number is prime |
| Sieve.CrossOut | assignment/pcp/sam2-sieve.cpp:73-86 | Crosses out the odd multiples of a divisor from its square on, never outside the array |
| Sieve.UncrossedIsPrime | assignment/pcp/sam2-sieve.cpp:64-87 | Leaving out multiples of 3, 5, 7 and 11 and starting at the square loses nothing |
| Sieve.FirstIsFirst | assignment/pcp/sam2-sieve.cpp:75-81 | The computed start is the first odd multiple in the slice not below the square |
| Sieve.HoldsOneSlice | assignment/pcp/sam2-sieve.cpp:40-48 | Stepping by all threads' slices gives every number to one thread |
| Sieve.SliceOnce | assignment/pcp/sam2-sieve.cpp:89-92 | What a slice appends holds each of its primes once, with 2 from the first slice only |
| Karatsuba.Mult | assignment/popl2/CS16BTECH11038.go:278-312 | The product of two signed decimal strings is exact up to 1024 digits; from there to 2046 digits exactly when the longer operand has an even number of digits or the product is zero; recursion ends because operand values fall |
| Karatsuba.MultDriver | assignment/popl2/CS16BTECH11038.go:314-403 | Three half-size products make the whole one when the length is even; with an odd length above 1 only a zero product comes out right |
| Karatsuba.Recombine | assignment/popl2/CS16BTECH11038.go:380-401 | When the middle product is at least the other two, neither subtraction goes below zero and the shifted sum is right |
| Karatsuba.MiddleTerm | assignment/popl2/CS16BTECH11038.go:380-381 | The middle product is always at least the sum of the other two, so the discarded signs are never negative |
| Karatsuba.Combined | assignment/popl2/CS16BTECH11038.go:384-391 | The recombined value equals the product if and only if the split was even or the product is zero |
| Karatsuba.Parts | assignment/popl2/CS16BTECH11038.go:338-374 | The operands of the three products are smaller in value and at most 1024 digits long |
| Karatsuba.Padded | assignment/popl2/CS16BTECH11038.go:301-308 | Padding makes the lengths equal and even, and leaves a digit of the longer operand in the first half |
| Karatsuba.AddDriver | assignment/popl2/CS16BTECH11038.go:255-276 | Column addition with byte arithmetic gives the sum of the reversed numbers |
| Karatsuba.Add | assignment/popl2/CS16BTECH11038.go:235-253 | Exact sum of two digit strings with any leading zeros, itself without any |
| Karatsuba.SubDriver | assignment/popl2/CS16BTECH11038.go:209-233 | Column subtraction with wrapping bytes gives the difference when it is not negative |
| Karatsuba.Sub | assignment/popl2/CS16BTECH11038.go:174-207 | Exact distance of two digit strings with as many digits as the larger one, with the sign flag set exactly when the first is smaller |
| Karatsuba.SignedAdder | assignment/popl2/CS16BTECH11038.go:109-130 | Exact sum of two signed numbers in all four sign cases; behind a minus it writes as many digits as the larger operand has when the signs differ, and as many as the sum has otherwise |
| Karatsuba.StrRev | assignment/popl2/CS16BTECH11038.go:162-168 | Swapping from both ends reverses the string |
| Karatsuba.BitShift | assignment/popl2/CS16BTECH11038.go:170-172 | Padding the reversed string on the left multiplies by a power of ten |
| Karatsuba.PadSpec | assignment/popl2/CS16BTECH11038.go:132-156 | Padding keeps the value and reaches at most 1024 digits |
| Karatsuba.Pow | assignment/popl2/CS16BTECH11038.go:405-417 | Fast exponentiation is exact whenever the result has at most 1024 digits |
| Karatsuba.Evaluate | assignment/popl2/CS16BTECH11038.go:45-102 | The unrolled loop returns the plain sum of coefficient times power as long as the coefficients and the highest power have at most 1024 digits; the answer has no zeros in front, and the number of digits behind a minus is that of the last addition, so it is canonical exactly when the value is not negative or has that many digits itself |
| Karatsuba.PaddedAnswer | assignment/popl2/CS16BTECH11038.go:95-102 | Five plus one times minus twelve is a case in which a zero stays behind the minus |
| Karatsuba.CanonicalByLength | assignment/popl2/CS16BTECH11038.go:95-99 | A negative number is canonical exactly when it has as many digits as its value |
| Karatsuba.SumIsHorner | assignment/popl2/CS16BTECH11038.go:45-92 | That sum is the polynomial evaluated from its leading coefficient |
| Decimal.FirstDifference | assignment/popl2/CS16BTECH11038.go:200-204 | Of two strings of one length, the first differing digit decides |
| BTree.BTree.constructor | assignment/Data Struct/btree/bt.c:46-51 | The tree starts as one leaf without keys |
| BTree.BTree.Insert | assignment/Data Struct/btree/bt.c:95-108 | insert turns the memory of a valid tree into that of the tree the specification makes, splitting a full root below a new one; the keys in order gain exactly one copy, and every node is an old one or a new one |
| BTree.BTree.Delete | assignment/Data Struct/btree/bt.c:248-281 | delete turns the memory of a valid tree into that of the tree the specification makes; the keys in order lose exactly one copy and the result is 0 when the value is there, and nothing changes and the result is -1 when it is not |
| BTree.BTree.Search | assignment/Data Struct/btree/bt.c:32-44 | find returns a node of the tree and an index that hold the value exactly when the value is in the tree |
| BTree.Find | assignment/Data Struct/btree/bt.c:32-44 | Below any node: the node and index of the value, or none exactly when the descent does not meet it |
| BTree.SplitIChild | assignment/Data Struct/btree/bt.c:53-72 | The memory holds the tree with the child split, the other half in a new node |
| BTree.HalfOff | assignment/Data Struct/btree/bt.c:55-66 | The new node gets the keys and children behind the middle key, the old one keeps those in front |
| BTree.InsNFull | assignment/Data Struct/btree/bt.c:74-93 | The memory below a node that is not full holds the tree that insertion makes of it |
| BTree.Node.ShiftAbove | assignment/Data Struct/btree/bt.c:76-80 | The shifting loop of a leaf stops at the place of the value, with the larger keys moved up by one |
| BTree.GPred | assignment/Data Struct/btree/bt.c:118-123 | The value found at the right end below the child is the largest key there |
| BTree.GSucc | assignment/Data Struct/btree/bt.c:125-130 | The value found at the left end below the next child is the smallest key there |
| BTree.Node.DelLeaf | assignment/Data Struct/btree/bt.c:132-135 | The key leaves a leaf and the keys behind it move down by one |
| BTree.BTree.DelNLeaf | assignment/Data Struct/btree/bt.c:138-175 | The memory below the node holds the tree that deleting one of its own keys makes: by predecessor, successor or merge, with the root giving way to its only child |
| BTree.BTree.EnsureKeys | assignment/Data Struct/btree/bt.c:177-246 | The memory holds the tree in which the child has a key to spare; the flag says exactly when the root has given way to its only child |
| BTree.BorrowLeftKids | assignment/Data Struct/btree/bt.c:179-190 | The last key and child of the left sibling have moved over, in memory as in the specification |
| BTree.BorrowRightKids | assignment/Data Struct/btree/bt.c:191-202 | The first key and child of the right sibling have moved over, in memory as in the specification |
| BTree.MergeKids | assignment/Data Struct/btree/bt.c:203-235 | The child holds its keys and children, the key between and those of its right sibling, which has left the tree |
| BTree.BTree.DeleteAt | assignment/Data Struct/btree/bt.c:248-281 | Below any node: the memory holds the tree that the deletion makes, the root field changes only when the node is the root, and the result tells whether the value was found |
| BTreeSpec.FindsExactly | assignment/Data Struct/btree/bt.c:32-44 | The descent that find makes meets a value exactly when the value is in the tree |
| BTreeSpec.SplitKeeps | assignment/Data Struct/btree/bt.c:53-72 | The tree with a full child split has the same keys in order and the shape of a B-tree |
| BTreeSpec.InsertKeeps | assignment/Data Struct/btree/bt.c:74-93 | The tree that insertion below a node that is not full makes has one copy more, in order, its leaves at one depth and two to five keys a node |
| BTreeSpec.InsertRootKeeps | assignment/Data Struct/btree/bt.c:95-108 | The tree that insert makes has exactly one copy more and is a sorted tree of the right shape, one level higher when the root was full |
| BTreeSpec.BorrowLeftKeeps | assignment/Data Struct/btree/bt.c:179-190 | The tree after borrowing from the left sibling has the same keys in order, and the child a spare one |
| BTreeSpec.BorrowRightKeeps | assignment/Data Struct/btree/bt.c:191-202 | The tree after borrowing from the right sibling has the same keys in order, and the child a spare one |
| BTreeSpec.MergeKeeps | assignment/Data Struct/btree/bt.c:203-244 | The tree with two siblings and the key between them merged has the same keys in order |
| BTreeSpec.PredecessorTaken | assignment/Data Struct/btree/bt.c:141-144 | The tree with a key replaced by its predecessor, taken out below, has lost exactly that key |
| BTreeSpec.SuccessorTaken | assignment/Data Struct/btree/bt.c:145-148 | The tree with a key replaced by its successor, taken out below, has lost exactly that key |
| BTreeSpec.DeleteKeeps | assignment/Data Struct/btree/bt.c:248-281 | The tree that delete makes has lost exactly one copy when the value was there and is unchanged otherwise; shape, order and occupancy survive borrowing, merging and the root's shrinking |
| BTreeSpec.HeightBound | assignment/Data Struct/btree/bt.c:15-21 | 2 * 3^height is at most the number of keys plus one |
| BTreeSpec.Grown | assignment/Data Struct/btree/bt.c:295-347 | After any sequence of the trees' insertions and deletions the tree is well formed and holds exactly the bag those operations make |
| RedBlackTree.RBTree.constructor | assignment/Data Struct/rb/rb.c:135-142 | The tree starts empty: the root is the black sentinel |
| RedBlackTree.RBTree.Insert | assignment/Data Struct/rb/rb.c:91-111 | The keys in order gain the value in one place and stay sorted; the root is black, no red node has a red child, every path has the same number of black nodes, and the parent pointers mirror the child pointers |
| RedBlackTree.RBTree.Balance | assignment/Data Struct/rb/rb.c:48-89 | From a tree whose only fault is a red node below a red parent, or a red root, ends with a red-black tree with the same keys in order |
| RedBlackTree.RBTree.LeftRot | assignment/Data Struct/rb/rb.c:24-34 | The rotation turns the edge to the right child around, in the child and parent pointers of all nodes concerned, and keeps everything else |
| RedBlackTree.RBTree.RightRot | assignment/Data Struct/rb/rb.c:36-46 | The rotation turns the edge to the left child around, in the child and parent pointers of all nodes concerned, and keeps everything else |
| RedBlackTree.RBTree.Recolor | assignment/Data Struct/rb/rb.c:53-57 | Recolouring parent, uncle and grandparent changes those three colours and nothing else |
| RedBlackTree.RedUncleFixes | assignment/Data Struct/rb/rb.c:53-57 | With a red uncle the fault moves two levels up |
| RedBlackTree.InnerFixes | assignment/Data Struct/rb/rb.c:60-63 | With a black uncle an inner child becomes an outer one, with the same fault |
| RedBlackTree.OuterFixes | assignment/Data Struct/rb/rb.c:64-66 | With a black uncle and an outer child, recolouring and a rotation remove the fault |
| RedBlackTree.NewLeaf | assignment/Data Struct/rb/rb.c:99-109 | A red leaf put where the search ends has at most the one fault balance removes, and keeps the keys sorted |
| RedBlackTree.PlugInOrder | assignment/Data Struct/rb/rb.c:91-111 | The keys of a tree are those before a subtree, in it and behind it, in this order |
| RedBlackTree.UnplugLaws | assignment/Data Struct/rb/rb.c:48-89 | In a red-black tree every subtree and its surroundings keep the laws, with the same count of black nodes on every path |
| RedBlackTree.HeightBound | assignment/Data Struct/rb/rb.c:48-111 | Two to the height is at most the square of one more than the number of keys: the height is at most 2 log2(n + 1) |
| BinomialHeap.BHeap.BTreeLink | assignment/Data Struct/bheap/bh.c:31-39 | Trees of one degree become one, with the first as the first child of the second; of different degrees, nothing changes |
| BinomialHeap.BHeap.Merge | assignment/Data Struct/bheap/bh.c:56-89 | The root lists of two heaps are merged by degree into one list of the same nodes |
| BinomialHeap.BHeap.UnionOf | assignment/Data Struct/bheap/bh.c:91-123 | The new heap is the union of the two, made of exactly their nodes |
| BinomialHeap.BHeap.UniteStep | assignment/Data Struct/bheap/bh.c:103-121 | One turn of the uniting loop moves on or links two roots, and leads to the same final list |
| BinomialHeap.BHeap.Insert | assignment/Data Struct/bheap/bh.c:125-135 | The heap gains the node with its value, and stays a binomial heap with one value more |
| BinomialHeap.BHeap.FindMin | assignment/Data Struct/bheap/bh.c:151-157 | The result is a least value of the heap, or -1 when it is empty |
| BinomialHeap.BHeap.ExtractMin | assignment/Data Struct/bheap/bh.c:159-208 | The node returned has a least value and is the first root that has; what remains is a binomial heap with all other nodes and exactly one copy of that value less |
| BinomialHeap.BHeap.LeastRoot | assignment/Data Struct/bheap/bh.c:161-169 | The loop finds the first root with the least value of all roots |
| BinomialHeap.BHeap.Unlink | assignment/Data Struct/bheap/bh.c:170-181 | The root leaves the list and the others stay in order |
| BinomialHeap.BHeap.ReverseKids | assignment/Data Struct/bheap/bh.c:186-205 | The children become roots, in reverse order and without a parent |
| BinomialHeap.UnionKeeps | assignment/Data Struct/bheap/bh.c:91-123 | The union of two binomial heaps is one, with all values of both |
| BinomialHeap.ConsolidatedKeeps | assignment/Data Struct/bheap/bh.c:103-121 | The uniting loop makes the degrees strictly increase and keeps all values |
| BinomialHeap.MergedPairs | assignment/Data Struct/bheap/bh.c:56-89 | Merging two lists of increasing degrees gives at most two roots of each degree, side by side |
| BinomialHeap.LinkedKeeps | assignment/Data Struct/bheap/bh.c:31-39 | Linking two binomial trees of one degree under the smaller root gives a binomial tree of the next degree |
| BinomialHeap.ExtractKeeps | assignment/Data Struct/bheap/bh.c:159-208 | Without a least root and with its children, the values lose exactly that one, which was least of all |
| BinomialHeap.SizeIsPower | assignment/Data Struct/bheap/bh.c:31-39 | A tree of degree k has 2^k nodes |
| BinomialHeap.RootIsLeast | assignment/Data Struct/bheap/bh.c:31-39 | No value in a tree is less than that of its root |
| BinomialHeap.DegreesAreDigits | assignment/Data Struct/bheap/bh.c:91-123 | The degrees of the roots are exactly the binary digits that are 1 in the number of nodes |
| SlabAllocator.BestFit | assignment/OS 2/slab-allocator/libmymem.cpp:30-44 | The first bucket whose objects are large enough, or -1 exactly above 8192 bytes |
| SlabAllocator.Allocator.MyMalloc | assignment/OS 2/slab-allocator/libmymem.cpp:46-126 | Above 8192 bytes the result is null and nothing changes; otherwise exactly one block becomes live, of the size of the best bucket: the first free slot of the first slab with room, or the first slot of a new last slab exactly when all slabs of the bucket are full |
| SlabAllocator.Allocator.MyFree | assignment/OS 2/slab-allocator/libmymem.cpp:128-191 | Freeing a live block makes exactly that block dead; freeing a dead one whose slab is still mapped changes nothing; the invariant holds afterwards |
| SlabAllocator.Allocator.MapFirst | assignment/OS 2/slab-allocator/libmymem.cpp:59-81 | A bucket without slabs gets a new one, and its first block |
| SlabAllocator.Allocator.MapNext | assignment/OS 2/slab-allocator/libmymem.cpp:85-107 | A new slab is put behind the last one of its bucket, and its first block is handed out |
| SlabAllocator.Allocator.TakeSlot | assignment/OS 2/slab-allocator/libmymem.cpp:108-124 | The first free slot of a slab is handed out, and no slab comes or goes |
| SlabAllocator.Allocator.Unmap | assignment/OS 2/slab-allocator/libmymem.cpp:158-190 | A slab goes with its last live block, and its bucket stays a proper list, whether it was the head or not |
| SlabAllocator.Allocator.FreeReady | assignment/OS 2/slab-allocator/libmymem.cpp:135-139 | The back pointer and the division by the slot size recover exactly the slot that was handed out |
| SlabAllocator.LiveApart | assignment/OS 2/slab-allocator/libmymem.cpp:46-191 | Two live blocks do not overlap |
| SlabAllocator.LiveClear | assignment/OS 2/slab-allocator/libmymem.cpp:46-191 | A live block lies inside one mapping, and no slab header and no back pointer lies in it |
| SlabAllocator.LiveBacked | assignment/OS 2/slab-allocator/libmymem.cpp:135-136 | A live block may be freed: the pointer to its slab is in front of it |
| SlabAllocator.SlabInUse | assignment/OS 2/slab-allocator/libmymem.cpp:148-190 | No slab without a live block stays linked, and freeObj is totObj minus the number of set bits |
| SlabAllocator.SlotInside | assignment/OS 2/slab-allocator/libmymem.hpp:18-24 | Every slot of a slab lies behind the header and inside the mapping |
| SlabAllocator.SlotUnique | assignment/OS 2/slab-allocator/libmymem.cpp:135-138 | An address belongs to at most one slot of all slabs |

## Left out

- Input, output, menus, logging, timing, random sleeps, sockets and the creation of threads.
- Weak memory orders and data races: steps are atomic and sequentially consistent.
- Machine overflow, except in the byte arithmetic of the Karatsuba program; stamps, labels,
  sequence numbers and sums are unbounded.
- Snapshot: a register has one writer, as in the program's `main`, and the memory is never freed.
- Skip list: the random level is any level in range; keys lie strictly between the two sentinels'
  keys, since the program itself never stops on a larger key; memory is never freed; no fairness is
  assumed, so that a call returns is stated of calls that have the list to themselves.
- Locks and barrier: no fairness is assumed; it is stated that some thread can always come nearer, that
  all can get through, and that a thread alone does, not that every thread does in every run.
- `Snapshot`, `LazySkipList`, `FilterLock`, `BakeryLock`, `TasLock`, `Barrier` and `StopAndWait` are
  step relations on states instead of methods, because their point is the interleaving of steps.
- Kruskal: `Select` is the loop of `main` and `Consider` its body, `Attach` is the branch of `union_dsu` that links and adds
  the sizes; the array of edge pointers is an array of edges.
- EDF: reading the input file, a process id of -1, which the program takes for an idle processor, the
  log and the average waiting and turnaround times; the two queues are
  sets of process indices from which any minimum by (deadline, start) is taken, since the program's
  comparison functions do not say which of two equals comes first.
- Stop-and-wait: no fairness is assumed, so completion is stated as possible, not as certain;
  acknowledgements carry no checksum and are not corrupted in the model; a corrupted
  data packet fails its checksum; the fields `id`, `isExtra` and `start` are not used by the programs.
- Sieve: the body of `std::sort` (any sorted arrangement is covered) and the output; the unused
  function `isPrime`.
- Karatsuba.Mult: nothing is said of operands of more than 2046 digits, whose halves are themselves
  longer than what `pad` evens out; goroutines and channels are calls; `Align`, `Recombine`, `Product`,
  `Exactly`, `NextAnswer` and `AddBlock` are parts of larger bodies under a name of their own.
- Karatsuba.MultDriver: says nothing of lengths above 2046, for the same reason.
- B-tree: `free` and a failing `malloc`; the arrays of a node are fields of fixed length, since they
  are part of the node; code that the program writes out several times (merging, borrowing, moving
  the root) is one method, and longer bodies are cut into methods of their own.
- Red-black tree: a failing `malloc`; there is no deletion in the program; `Climb` stands for both
  mirror images of the loop body, and `Relink`, `PassLeft`, `HangLeft`, `Paint`, `RaiseLeft`, `Attach`
  and their mirror images are parts of larger bodies under a name of their own.
- Binomial heap: `free` and a failing `malloc`; extracting from an empty heap, which the program does
  not survive; the loops' bodies are methods of their own.
- SlabAllocator.Allocator.MyFree: null and foreign pointers, and a second `myfree` after the slab is
  unmapped, all of which the program reads through.
- Slab allocator: a failing `mmap`, which is given as any free range of addresses; the twelve mutexes,
  so one operation runs at a time; what users write into their blocks.
- The simpler programs of the archive (sorts, calendars, interpreters, proxies).
