# Verified models of six concurrent C programs

This project models the six programs of the repository that hold real concurrent state, and proves what
they keep, compute and guarantee under every schedule:

| program | files here |
|---|---|
| `cw10/assignment/main.c`, a hospital monitor: a doctor, patients and pharmacists, one mutex, five condition variables | `HospitalProtocol`, `HospitalInvariant`, `HospitalOutcome`, `HospitalPatients`, `HospitalBroadcast`, `HospitalDeliveries`, `HospitalPossible`, `HospitalSurprises`, `HospitalWaking`, `Hospital` |
| `cw08/assignment/main.c`, a print queue: a ring in shared memory and three semaphores | `PrintQueueProtocol`, `PrintQueueCorrect`, `PrintQueueJobs`, `PrintQueue` |
| `Funkcje/Mutex/main.c`, a reaper: main joins terminated threads while it holds the mutex | `ReaperProtocol`, `ReaperCorrect`, `Reaper` |
| `cw09/assignment/main.c`, parallel integration of 4 / (x^2 + 1) | `Division`, `Quadrature`, `Integration`, `ParallelSum` |
| `cw12/assignment/server.c`, a UDP chat server | `UdpRegistryProtocol`, `UdpRegistryCorrect`, `UdpRuns`, `UdpRequests`, `UdpRefresh`, `UdpQuit`, `UdpSweeps`, `UdpNames`, `UdpDelivery`, `UdpServer` |
| `cw11/assignment/server.c`, a TCP chat server | `TcpRegistryProtocol`, `TcpRegistryCorrect`, `TcpRuns`, `TcpHandlers`, `TcpDelivery`, `TcpSweep`, `TcpThreats`, `TcpServing`, `TcpConnections`, `TcpServer` |

`Sums` and `Sequences` hold small facts about sums over sequences and sequences without repetition.
To verify everything, run `dafny verify dfyconfig.toml`.

## How a program is modelled

Each program appears twice. The *protocol* module has the shared variables and a program counter for every
thread in one value, the next step of each thread as a function, and `Run(s, acts, t)`: `t` is reached from `s`
by the actions `acts`, each possible when its turn comes. The class has the shared variables as its fields (the C
arrays are arrays) and a method for each stretch of code; every method is proved to make exactly the protocol's
step, and `Schedule`, which tries the actions of an arbitrary list one after the other, to make a run. What is
proved of all runs therefore holds of the class under every interleaving.

- Thread counts, ring size and table size are parameters. The theorems are about all of them.
- Where every access is under the mutex (the hospital), a step is a stretch from lock to unlock or wait. Elsewhere
  steps are smaller: one semaphore operation, one copy and one index update in the print queue; one slot at a time
  for searches made without the mutex and for sweeps, reading the clock and storing it being separate steps.
- A signal wakes one sleeper if there is one, a broadcast wakes all, and spurious wake-ups are actions of their
  own, as POSIX allows them. Invariants hold with spurious wake-ups; bounds on the length of runs count them.
- What a request, a connection, a client's messages or a job comes to is followed along a run, from the action that
  brings it in to the last step made for it, and stated without reference to the steps of the code.
- The clock never goes backwards. Messages sent are recorded in a log.
- Fields that only record history (orders of arrival, rounds, logs, what a sweep began with) are marked as such;
  no step depends on them. The number of a registration or a connection, which tells clients apart that use the
  same slot one after the other, is such a field too.

## What the code does not do

Some things that one might expect are false of the code. Each is shown false by a run from the initial state, and
for each it is proved when it holds.

- *A patient leaves only after being consulted.* The broadcast that ends a consultation also calls those who came
  during it. This can happen exactly if there are at least four patients
  (`HospitalSurprises.WhenAPatientCanBeSentAway`); a broadcast calls only consulted patients exactly if nobody sits
  in the waiting room at that moment but patients that woke up spuriously (`HospitalBroadcast.CallsOnlyTheConsulted`).
- *After shutdown everybody leaves.* A pharmacist can sleep on `cond_pharmacist_done` for ever, because another
  took the flag meant for it and shutdown does not broadcast that variable. This can happen exactly if the number
  of patients is a multiple of three and at least twelve and there are at least two pharmacists
  (`HospitalSurprises.WhenSomebodyIsLeftBehind`).
- *With enough pharmacists all groups are treated.* All pharmacists may come while the stock is half full and leave
  at once, however many they are; the drugs can run out exactly if there are at least nine patients
  (`HospitalPossible.WhenDrugsCanRunOut`), and after which numbers of treated patients is
  `HospitalPossible.WhenDrugsRunOutAfter`. On the other hand one pharmacist who is slow to leave the queue is
  enough for any number of deliveries (`HospitalPossible.Rounds`).
- *Names in the UDP server differ.* The check compares the name as given, the table holds it cut to 31 characters
  (`UdpNames.LongNamesCollide`); handling a registration keeps names distinct exactly if it is refused or the cut
  name is not in use (`UdpNames.RegistrationKeepsNamesDistinct`).
- *"Message sent" means that somebody got it.* The sender is told so even if a sweep evicts the receiver between
  search and send (`UdpDelivery.NobodyReceives`), and exactly then the reply is not preceded by the message
  (`UdpDelivery.SentMeansReceived`).
- *A TCP handler removes only its own client.* If its client has been ousted and the slot has been given away, it
  removes the newcomer (`TcpHandlers.HandlerRemovesNewcomer`), and exactly then (`TcpHandlers.LeavingFreesOwnClient`).
- *A private message in the TCP server reaches the client found or nobody.* If that has gone and its slot has been
  given away, it reaches the newcomer (`TcpDelivery.MessageGoesAstray`), and exactly then
  (`TcpDelivery.PrivateMessage`). In the UDP server this cannot happen.
- *A TCP sweep spares whoever is up to date when it starts.* The handler of a client that is gone may store an old
  time in the slot of a newcomer while the sweep is on its way (`TcpThreats.NewcomerIsEvicted`). A sweep can come to
  evict a client that is up to date exactly if, when it takes the mutex, some handler of the slot has read a time of
  more than 60 seconds before and not yet stored it (`TcpThreats.WhenASweepCanBeUnfair`).

In the hospital the message printed at the start says that the last group of fewer than three patients is not
consulted. The program then does not end, because the doctor waits for ever. Of the group's members, exactly those
wait for ever that came while no consultation was going on and did not wake up spuriously
(`HospitalPatients.FateOfTheLastGroup`). Without spurious wake-ups it can be none of them exactly if there are at
least four patients and the others can be treated (`HospitalSurprises.WhenNobodyOfTheLastGroupWaits`).

## Model

| member | source | states |
|---|---|---|
| `HospitalInvariant.ArrivalOrder` | cw10/assignment/main.c:62-69 | In every state of every run the consulted triples followed by the occupied part of the waiting-room array are the order of arrival, without repetition; the array is never indexed out of bounds; treated patients come in threes and never exceed the total |
| `HospitalInvariant.ShutdownIsComplete` | cw10/assignment/main.c:38-44 | If done_flag is set, the total is a multiple of three, the room is empty, the consulted triples contain every id exactly once, and no patient still waits |
| `HospitalInvariant.DoctorNeverOversleeps` | cw10/assignment/main.c:45-55 | While the doctor sleeps unsignalled its wait guard is false: no wake-up by a third patient or by a pharmacist is lost; the shutdown branch inside the wait loop is never taken |
| `HospitalInvariant.DrugConservation` | cw10/assignment/main.c:62-102 | Treated patients plus stock equal 6 plus everything refilled; the stock is 0, 3 or 6; deliveries are bounded from both sides by treated patients |
| `HospitalInvariant.RoundsBound` | cw10/assignment/main.c:36-116 | Consultations and deliveries together are at most two thirds of the number of patients, in any run |
| `HospitalInvariant.TokenProtocol` | cw10/assignment/main.c:205-236 | waiting_pharmacists counts exactly the pharmacists in the queue or gone from it on shutdown, so it is never negative; pharmacists past each of the two flags never outnumber the deliveries started and finished |
| `HospitalInvariant.StepKeepsInv` | cw10/assignment/main.c:34-246 | Every step of every thread, spurious wake-ups included, keeps the whole invariant |
| `HospitalOutcome.StepWork` | cw10/assignment/main.c:34-246 | A single measure over all threads falls with every step, except that roaming changes nothing and a spurious wake-up adds at most one |
| `HospitalOutcome.RunsAreBounded` | cw10/assignment/main.c:34-246 | With m patients and n pharmacists every run has at most 8m + 8n + 5 steps besides roaming, plus two for every spurious wake-up |
| `HospitalOutcome.Outcomes` | cw10/assignment/main.c:259-295 | A run that cannot go on has treated everybody, or is left with a last group of fewer than three, or has a full waiting room and no drugs left anywhere; in each case it says where every patient and every pharmacist is, and the total modulo 3 tells which two cases are possible |
| `HospitalOutcome.ComesToRest` | cw10/assignment/main.c:34-246 | From every state that satisfies the invariant some run without spurious wake-ups leads to a state where nothing can happen any more |
| `HospitalPossible.WhenAllCanBeTreated` | cw10/assignment/main.c:38-44 | Some run ends with everybody treated if and only if the total is a multiple of three and there is a pharmacist or the total is at most six |
| `HospitalPossible.WhenAGroupCanBeLeftOver` | cw10/assignment/main.c:259-262 | Some run ends with a last group left over if and only if the total is not a multiple of three and there is a pharmacist or the total is below nine |
| `HospitalPossible.WhenDrugsCanRunOut` | cw10/assignment/main.c:193-244 | Some run ends with a full waiting room and no drugs if and only if there are at least nine patients, however many pharmacists there are |
| `HospitalPossible.WhenDrugsRunOutAfter` | cw10/assignment/main.c:90-112 | Some run ends with a full waiting room and no drugs after exactly k groups if and only if 3k + 3 patients exist and k is 2, or k is at least 4 and there is a pharmacist |
| `HospitalPossible.Rounds` | cw10/assignment/main.c:90-112 | Any number of consultations and deliveries can follow one another on a single pharmacist that has been woken but has not left the queue |
| `HospitalSurprises.WhenSomebodyIsLeftBehind` | cw10/assignment/main.c:38-44 | For m patients and n pharmacists some run leaves a pharmacist on cond_pharmacist_done after shutdown if and only if m is a multiple of three, m is at least 12 and n at least 2; then some run without spurious wake-ups ends that way |
| `HospitalDeliveries.NobodyLeftBehind` | cw10/assignment/main.c:205-243 | With fewer than 12 patients or fewer than 2 pharmacists no pharmacist sleeps on cond_pharmacist_done after shutdown in any run, spurious wake-ups included |
| `HospitalSurprises.LeavesAfterShutdown` | cw10/assignment/main.c:229-236 | After shutdown some continuation without spurious wake-ups lets a pharmacist leave if and only if it does not wait on cond_pharmacist_done |
| `HospitalPatients.WhoWaits` | cw10/assignment/main.c:134-167 | In every run, when no consultation is going on, the patients that wait are exactly the occupants of the waiting room that came while none was going on and did not wake up spuriously |
| `HospitalPatients.FateOfTheLastGroup` | cw10/assignment/main.c:259-262 | When a last group is left over, exactly the members that came while no consultation was going on and did not wake up spuriously wait for ever; everybody else has left |
| `HospitalBroadcast.CallsOnlyTheConsulted` | cw10/assignment/main.c:78-88 | In every run the broadcast ending a consultation wakes only consulted patients if and only if all occupants of the waiting room had woken up spuriously before; in runs without spurious wake-ups, if and only if the room is empty |
| `HospitalWaking.WhomTheDoctorWakes` | cw10/assignment/main.c:34-118 | In every run the doctor wakes exactly one pharmacist waiting for a shortage, a turn or the end of a delivery, if there is one, when it starts a consultation, starts a delivery or ends one; all of the first two kinds when it goes home; calls exactly the waiting patients when a consultation ends; and moves nobody else |
| `HospitalWaking.WhoWakesTheDoctor` | cw10/assignment/main.c:156-213 | The sleeping doctor is woken exactly by the third patient to register, by a pharmacist that comes for an empty stock, or spuriously |
| `HospitalWaking.NobodyElseWakes` | cw10/assignment/main.c:120-246 | Nobody but the doctor wakes pharmacists or calls patients, apart from spurious wake-ups |
| `HospitalWaking.WherePharmacistsGo` | cw10/assignment/main.c:193-243 | In every reachable state before shutdown, exactly when a pharmacist sleeps on which condition variable, leaves unneeded or completes a delivery, and which flag it takes back |
| `HospitalWaking.PharmacistsLeaveAfterShutdown` | cw10/assignment/main.c:201-235 | After shutdown a pharmacist that runs leaves by the exit of its check and changes no shared variable |
| `HospitalSurprises.WhenAPatientCanBeSentAway` | cw10/assignment/main.c:163-166 | Some run without spurious wake-ups lets a patient finish its visit unconsulted if and only if there are at least four patients |
| `HospitalSurprises.WhenNobodyOfTheLastGroupWaits` | cw10/assignment/main.c:163-166 | Some run without spurious wake-ups ends with a last group left over and all patients gone if and only if the total is not a multiple of three, is at least 4, and is below 9 or there is a pharmacist |
| `Hospital.Monitor.constructor` | cw10/assignment/main.c:16-26 | The initial values of the shared variables are the initial state of the protocol and satisfy the invariant |
| `Hospital.Monitor.DoctorRuns` | cw10/assignment/main.c:34-118 | A stretch of the doctor between lock and unlock or wait changes the shared variables and wakes threads exactly as the protocol's step |
| `Hospital.Monitor.Decide` | cw10/assignment/main.c:45-115 | Waiting, consulting or accepting a delivery is chosen as the protocol does; the last else branch is unreachable |
| `Hospital.Monitor.CopyIds` | cw10/assignment/main.c:63-66 | The ids copied for the consultation are those in the waiting room, in order |
| `Hospital.Monitor.PatientRuns` | cw10/assignment/main.c:134-167 | A patient registers, roams or leaves exactly as the protocol's step, within the bounds of the array |
| `Hospital.Monitor.PharmacistRuns` | cw10/assignment/main.c:192-244 | The pharmacist's three wait loops and its four ways out change the state exactly as the protocol's step |
| `Hospital.Monitor.Perform` | cw10/assignment/main.c:34-246 | Whatever thread runs next, the invariant survives and the new state is the protocol's |
| `Hospital.Monitor.Schedule` | cw10/assignment/main.c:269-288 | Under any schedule the monitor goes through a run of the protocol, so all theorems about runs hold of it |
| `PrintQueueCorrect.NothingLost` | cw08/assignment/main.c:29-49 | Jobs read followed by the ring from head to tail are the jobs written, in the order of the critical sections: nothing is lost, doubled, reordered or overwritten unread |
| `PrintQueueCorrect.RefinesAtomicQueue` | cw08/assignment/main.c:29-49 | The visible events of any interleaving are a behaviour of an atomic bounded first-in first-out queue ending with the contents of the ring |
| `PrintQueueCorrect.SemaphoreAccounting` | cw08/assignment/main.c:89-91 | The units of the two counting semaphores and of the processes on their way add up to the ring size; the mutex semaphore and the processes in a critical section add up to 1; the occupancy lies between the two semaphores |
| `PrintQueueCorrect.UserAlone` | cw08/assignment/main.c:31-36 | While a user is in its critical section the mutex semaphore is 0 and no other process is in one |
| `PrintQueueCorrect.NoDeadlock` | cw08/assignment/main.c:29-49 | With at least one slot, user and printer, some process can take a step in every reachable state |
| `PrintQueueCorrect.Throughput` | cw08/assignment/main.c:51-80 | The length of any run is at most twelve times the number of jobs taken out plus a constant of the configuration, so the processes cannot keep busy without printing |
| `PrintQueueJobs.UsersJobsArePut` | cw08/assignment/main.c:29-34 | In every run the jobs a user adds to the queue are a prefix of the arguments of its calls of enqueue_job, short by at most the last one, and by none if the user is not between the call and the update of tail |
| `PrintQueueJobs.PrintersPrintWhatTheyTook` | cw08/assignment/main.c:67-80 | Outside dequeue_job a printer's buffer is the job it took out last |
| `PrintQueueCorrect.StepKeepsInv` | cw08/assignment/main.c:29-49 | Every small step keeps the accounting, the ring and the copies in flight |
| `PrintQueue.JobQueue.constructor` | cw08/assignment/main.c:87-91 | Empty ring and semaphores 1, 0 and size satisfy the invariant |
| `PrintQueue.JobQueue.UserRuns` | cw08/assignment/main.c:29-38 | The next statement of enqueue_job changes shared memory and semaphores exactly as the protocol's step |
| `PrintQueue.JobQueue.PrinterRuns` | cw08/assignment/main.c:40-49 | The next statement of dequeue_job changes shared memory and semaphores exactly as the protocol's step |
| `PrintQueue.JobQueue.Schedule` | cw08/assignment/main.c:93-105 | Under any interleaving of users and printers the queue goes through a run of the protocol |
| `ReaperCorrect.CountersAndWakeUps` | Funkcje/Mutex/main.c:23-25 | numUnjoined counts the terminated threads and numLive those not joined; if main sleeps although there is somebody to join, some thread has its broadcast still to do |
| `ReaperCorrect.JoinedThreadNeedsNoMutex` | Funkcje/Mutex/main.c:124-137 | The thread main joins while holding the mutex has released it for the last time, so one of the two can always go on |
| `ReaperCorrect.EveryRoundJoins` | Funkcje/Mutex/main.c:106-139 | After a scan numUnjoined is 0 and numLive has fallen by the number of threads terminated when the scan began, which is at least one |
| `ReaperCorrect.StepWork` | Funkcje/Mutex/main.c:39-148 | A measure over main and all workers falls with every step; a spurious wake-up adds exactly one |
| `ReaperCorrect.RunsAreBounded` | Funkcje/Mutex/main.c:91-147 | With n threads every run has at most 2n^2 + 6n + 2 steps, plus two for every spurious wake-up |
| `ReaperCorrect.StuckExactlyAtTheEnd` | Funkcje/Mutex/main.c:91-147 | A reachable state in which nothing can happen is one where main has exited, both counters are 0 and every thread has been joined exactly once, and conversely |
| `ReaperCorrect.StepKeepsInv` | Funkcje/Mutex/main.c:39-148 | Every step of main and of the workers keeps the invariant |
| `Reaper.Program.MainRuns` | Funkcje/Mutex/main.c:91-145 | The next step of main changes the table and the counters exactly as the protocol's step |
| `Reaper.Program.Wait` | Funkcje/Mutex/main.c:107-123 | Lock, wait loop and the start of the scan, as the protocol has them |
| `Reaper.Program.WorkerRuns` | Funkcje/Mutex/main.c:48-69 | The next step of threadFunc: report under the mutex, or broadcast after it |
| `Reaper.Program.Pick` | Funkcje/Mutex/main.c:48-145 | Finds a thread that can run, and if it finds none then none can |
| `Reaper.Program.RunToTheEnd` | Funkcje/Mutex/main.c:72-148 | The program terminates, with every thread ended and joined exactly once and both counters 0 |
| `Integration.RangesTile` | cw09/assignment/main.c:26-27 | The ranges of the threads tile 0..n, each n / k long rounded down or up, and the products fit into 63 bits for at most 1024 threads and fewer than 2^53 rectangles |
| `Integration.StepKeepsInv` | cw09/assignment/main.c:29-35 | A step of one thread keeps for every thread that its local sum is that of its rectangles so far and that x is at the left edge of the next |
| `Integration.ScheduleDoesNotMatter` | cw09/assignment/main.c:66-86 | Under any interleaving of any number of threads the total equals the sum of a single loop over all rectangles |
| `Integration.Accuracy` | cw09/assignment/main.c:45-57 | For any width in (0, 1] and any number of threads the result is at most 2 dx above the area and at most 3.2 times the uncovered gap, which is narrower than dx, below it |
| `Integration.Enclosure` | cw09/assignment/main.c:45-86 | Up to those errors the result of any complete run lies between every right sum and every left sum over an exact grid |
| `Integration.ResultsAgree` | cw09/assignment/main.c:57-86 | The results of two complete runs, of any two widths, numbers of threads and interleavings, differ by no more than the sum of their errors |
| `Integration.ExactResultsAgree` | cw09/assignment/main.c:57-86 | The results of two complete runs with widths 1/m and 1/n differ by at most twice the larger width |
| `Integration.FFalls` | cw09/assignment/main.c:14-16 | f is non-negative and non-increasing on the non-negative reals |
| `Quadrature.Telescope` | cw09/assignment/main.c:30-33 | Left sum minus right sum of the same rectangles is one rectangle as high as the curve falls |
| `Quadrature.RightBelowSteps` | cw09/assignment/main.c:30-33 | Right rectangles of any width stay below the area under left steps of any other width |
| `Quadrature.Compare` | cw09/assignment/main.c:30-33 | For any falling curve a left sum exceeds another of any width by at most its own overshoot and the other's uncovered strip |
| `Quadrature.SumNearArea` | cw09/assignment/main.c:30-33 | For any falling curve a left sum is within its overshoot and its uncovered strip of the area |
| `ParallelSum.Program.constructor` | cw09/assignment/main.c:57-72 | The number of rectangles is 1/dx rounded down; all results are 0 and no thread has started |
| `ParallelSum.Program.ThreadRuns` | cw09/assignment/main.c:18-37 | The next step of thread_function: start, one rectangle, or storing the local sum |
| `ParallelSum.Program.Sum` | cw09/assignment/main.c:83-86 | main's loop returns the total of the results |
| `ParallelSum.Program.JoinAll` | cw09/assignment/main.c:79-81 | All threads finish, whatever they had done before |
| `ParallelSum.Program.Integrate` | cw09/assignment/main.c:39-86 | The whole program returns the left sum with 1/dx rounded down rectangles, whatever the interleaving and the number of threads |
| `UdpRegistryProtocol.RegisterMeaning` | cw12/assignment/server.c:78-107 | Registration is refused as taken exactly if an active client has the name, as full exactly if none has and no slot is free, and otherwise gets the first free slot |
| `UdpRegistryProtocol.ActiveSlotsMeaning` | cw12/assignment/server.c:38-47 | A broadcast goes to every active slot but the sender's and to nobody else |
| `UdpRequests.RequestsAreServed` | cw12/assignment/server.c:150-250 | Followed from its receipt to the next, through any sweeps, every request of every kind is answered exactly as the table calls for: REGISTER with the right one of three replies and the first free slot filled; an unknown sender refused only if no client has its address; LIST and 2ALL with every active slot once and in order; 2ONE to the first client of the name or refused only if none has it; QUIT with a reply and the removal of the sender; PING with a reply; nothing else is said or changed, and the sender's last ping is not older than the request |
| `UdpRequests.RequestsAreServedSoon` | cw12/assignment/server.c:150-250 | A request takes at most 2n + 6 steps of the message thread for n slots, and only a sweep that has the mutex can hold up the next one |
| `UdpRefresh.PingIsKept` | cw12/assignment/server.c:178-178 | From the step that stores the time of a message on, in every later state the slot's last ping is at least that time for as long as the slot is the client's |
| `UdpRefresh.NotEvictedSoon` | cw12/assignment/server.c:127-136 | Whenever a sweep that takes the mutex after a message was stored evicts its sender, the time of the sweep is more than 60 seconds after that of the message |
| `UdpQuit.ByeMeansGone` | cw12/assignment/server.c:239-243 | Every goodbye in the log of any run goes back to a QUIT from that address, and the client found for it is either just being removed or holds no slot any more, for good |
| `UdpQuit.ComesAndGoes` | cw12/assignment/server.c:239-243 | For any table of at least one slot, a run in which a client registers and quits and its removal is logged |
| `UdpRegistryCorrect.CountIsExact` | cw12/assignment/server.c:69-143 | client_count is the number of active slots under every interleaving of messages and sweeps, even in the middle of a sweep, and no client has two slots |
| `UdpRegistryCorrect.EventsAreJustified` | cw12/assignment/server.c:123-250 | Every private message went to an active client of the given name, the very one the search had found; every QUIT removal hit a client at the sender's address; every eviction hit a client silent for more than 60 seconds and every ALIVE one that was not |
| `UdpRegistryCorrect.DeliveryReachesFoundClientOrNobody` | cw12/assignment/server.c:217-231 | A private message reaches the client found or nobody, whatever sweeps came between, and the sender is told it was sent in either case |
| `UdpDelivery.SentMeansReceived` | cw12/assignment/server.c:49-56 | Every reply "sent" in the log of any run goes back to a moment of that run at which the message thread had the mutex; the message itself stands right before it, to the client the search had found, if and only if that client was still active, that is, if and only if no sweep had evicted it |
| `UdpDelivery.NobodyReceives` | cw12/assignment/server.c:217-231 | For any table of at least one slot, a run in which the receiver is evicted between search and send and the sender is told that the message was sent |
| `UdpDelivery.WhenSentCanMeanNobody` | cw12/assignment/server.c:217-231 | Some run logs "sent" without a message before it if and only if the table has a slot |
| `UdpRegistryCorrect.QuitTouchesOnlyTheSender` | cw12/assignment/server.c:239-243 | QUIT leaves the slot found for the sender free and every other slot as it was |
| `UdpRegistryCorrect.SweepIsFair` | cw12/assignment/server.c:123-147 | When a sweep ends, everybody within 60 seconds of its time when it took the mutex is still there, everybody still there is within 60 seconds of it, and nobody is new, although unlocked refreshes ran all the while |
| `UdpSweeps.EverybodyIsAskedOrEvicted` | cw12/assignment/server.c:130-143 | From taking the mutex to its end a sweep says exactly one thing about each client that was there, in the order of the table: ALIVE to each it keeps and an eviction for each other |
| `UdpSweeps.SweepReadsTheClock` | cw12/assignment/server.c:127-127 | The time a sweep uses lies between the clock when it was last asleep and the clock now |
| `UdpSweeps.NobodyServedDuringSweep` | cw12/assignment/server.c:128-145 | While a sweep has the mutex the message thread sends no message and no list, lets nobody in and removes nobody |
| `UdpSweeps.SweepGetsOn` | cw12/assignment/server.c:130-145 | A sweep can always go on and gives the mutex back after at most 2n + 1 steps |
| `UdpNames.RegistrationKeepsNamesDistinct` | cw12/assignment/server.c:81-92 | In every reachable state in which a registration is handled and names are distinct, they stay so if and only if it is refused or the name cut to 31 characters is not in use, which the check ensures for names of at most 31 characters |
| `UdpNames.LongNamesCollide` | cw12/assignment/server.c:90-91 | For any table of at least two slots, a run in which two different names of 32 characters are registered, both successfully, and stored alike |
| `UdpNames.WhenNamesCanCollide` | cw12/assignment/server.c:78-107 | Some run leads to two active clients of the same name if and only if the table has at least two slots |
| `UdpNames.NamesStayDistinct` | cw12/assignment/server.c:69-107 | In every run in which nobody asks for a name of more than 31 characters, active names are pairwise distinct |
| `UdpRegistryCorrect.StepKeepsInv` | cw12/assignment/server.c:109-250 | Every step of the message thread, of the sweep and of the clock keeps the invariant: others only free slots, so what a search found stays or becomes free |
| `UdpServer.Server.FindClientByName` | cw12/assignment/server.c:69-76 | The loop returns the first active slot with the name, or -1 |
| `UdpServer.Server.RegisterClient` | cw12/assignment/server.c:78-107 | Result, table and counter after a registration, and that a refused one changes nothing |
| `UdpServer.Server.RemoveClient` | cw12/assignment/server.c:109-121 | Frees and blanks an active slot and counts down; does nothing to a free one |
| `UdpServer.Server.BroadcastMessage` | cw12/assignment/server.c:38-47 | The sends are to the active slots but the sender's, in order |
| `UdpServer.Server.MessageRuns` | cw12/assignment/server.c:150-250 | The next step of handle_message changes the table exactly as the protocol's step |
| `UdpServer.Server.SweepRuns` | cw12/assignment/server.c:123-148 | The next step of ping_clients changes the table exactly as the protocol's step |
| `UdpServer.Server.Schedule` | cw12/assignment/server.c:290-308 | Under any interleaving of messages, sweeps and time the server goes through a run of the protocol |
| `TcpRegistryCorrect.NamesDistinctAndCounted` | cw11/assignment/server.c:254-285 | Active names are pairwise distinct and client_count is the number of active slots, in every state, although the name check runs outside the lock |
| `TcpRegistryCorrect.TakingASlot` | cw11/assignment/server.c:270-292 | When the accept loop gets the mutex the name it checked is still free; it turns the client away exactly if no slot is free and otherwise fills the first free one and no other |
| `TcpConnections.ConnectionsAreAnswered` | cw11/assignment/server.c:245-305 | Followed from beginning to end, every connection has exactly one outcome: refused if a client has the name, else turned away if all slots are taken, else entered in the first free slot and served |
| `TcpServing.HandlersDoAsTold` | cw11/assignment/server.c:83-160 | In every run a handler has left its loop exactly if its last input was a closed connection or STOP, or it found its slot free; it serves on after any other message, and makes one search for every private message |
| `TcpConnections.SearchesMissNobody` | cw11/assignment/server.c:54-61 | A search for a receiver that fails has missed no client that was connected when it began; one that succeeds has found a client of the name |
| `TcpConnections.NobodyServedDuringSweep` | cw11/assignment/server.c:168-185 | While a sweep has the mutex nobody enters, no handler removes anybody, and no private message is sent |
| `TcpConnections.SweepReadsTheClock` | cw11/assignment/server.c:167-167 | The time a sweep uses lies between the clock when it was last asleep and the clock now |
| `TcpHandlers.LeavingFreesOwnClient` | cw11/assignment/server.c:63-73 | A leaving handler frees its own client if and only if nobody else has done so before, and another client if and only if its own had been ousted and the slot has been given away since; the slot is free and blank afterwards and nothing else changes |
| `TcpHandlers.WithoutEvictionsHandlersAreSafe` | cw11/assignment/server.c:159-187 | As long as no sweep evicts anybody, every handler's slot holds its own client until it leaves |
| `TcpHandlers.HandlerRemovesNewcomer` | cw11/assignment/server.c:83-89 | For any table of at least one slot, a run in which a client is evicted while its handler waits in recv, and the handler then removes the client that got the slot |
| `TcpHandlers.WhenHandlersCanRob` | cw11/assignment/server.c:159-160 | Some run lets a handler remove another client if and only if the table has a slot |
| `TcpDelivery.PrivateMessage` | cw11/assignment/server.c:131-141 | A private message reaches the client the search found, which has the name asked for, if and only if that has neither left nor been ousted; a stranger if and only if it has and the slot has been given away; otherwise nobody |
| `TcpDelivery.MessageGoesAstray` | cw11/assignment/server.c:131-141 | For any table of at least one slot, a run in which a message to "a" is sent to "b", who got the slot after the search |
| `TcpDelivery.WhenMessagesCanGoAstray` | cw11/assignment/server.c:131-141 | Some run sends a private message to a stranger if and only if the table has a slot |
| `TcpSweep.SweepIsFair` | cw11/assignment/server.c:163-187 | When a sweep ends nobody is new; of the clients that no other client's handler has touched, whoever is gone was silent for more than 60 seconds when it took the mutex, and no survivor is; before the first eviction nobody is touched |
| `TcpThreats.WhenASweepCanBeUnfair` | cw11/assignment/server.c:163-187 | In any reachable state with a sweep on its way to a client that is within 60 seconds of its time, the sweep can come to evict that client if and only if some handler of the slot has still to store a time of more than 60 seconds before; and if and only if so, it can end with the client kept and out of date |
| `TcpThreats.WhoThreatens` | cw11/assignment/server.c:95-95 | A client that no other client's handler has touched is threatened only by handlers whose own client has been ousted |
| `TcpThreats.NewcomerIsEvicted` | cw11/assignment/server.c:163-187 | For any table of at least one slot, a run in which a sweep evicts a client that had just come, because a delayed handler set back its time |
| `TcpThreats.WhenSomeSweepIsUnfair` | cw11/assignment/server.c:163-187 | Some run evicts a client that was within 60 seconds when the sweep took the mutex if and only if the table has a slot |
| `TcpRegistryCorrect.StepKeepsInv` | cw11/assignment/server.c:63-187 | Every step of the accept loop, of any number of handlers, of the sweep and of the clock keeps the invariant |
| `TcpServer.Server.EnterClient` | cw11/assignment/server.c:270-292 | The loop under the mutex fills the first free slot, or turns the client away |
| `TcpServer.Server.AcceptRuns` | cw11/assignment/server.c:245-306 | The next step of the accept loop changes the table exactly as the protocol's step |
| `TcpServer.Server.RemoveClient` | cw11/assignment/server.c:63-73 | Frees and blanks an active slot and counts down; does nothing to a free one |
| `TcpServer.Server.HandlerRuns` | cw11/assignment/server.c:75-161 | The next step of a handler: test, receive, refresh without the mutex, search and send a private message, leave |
| `TcpServer.Server.SweepRuns` | cw11/assignment/server.c:163-188 | The next step of ping_clients changes the table exactly as the protocol's step |
| `TcpServer.Server.Schedule` | cw11/assignment/server.c:245-307 | Under any interleaving of the threads the server goes through a run of the protocol |

## Left out

- Sockets, shared-memory mapping, `fork`, signals, printing, `rand` and the length of sleeps: a sleep is a point where other threads may run; what arrives from the network is an input of the step that receives it.
- Error returns of operating-system calls, and semaphores left over from an earlier run (the print queue starts with 1, 0 and the ring size).
- `main` of the hospital and the print queue: all threads exist from the start; joining them is not modelled, except in the reaper and the integration, where joining is the point.
- Splitting a datagram or a TCP read into command, name and text, the layout of LIST replies and time stamps, and the field `registered`, which is written and never read. The UDP model takes requests already split; commands it does not know, and a private message without a text, change nothing but the time of the last ping.
- In the TCP server the requests LIST, 2ALL and PING are one input, a message. What is sent for them, the replies to 2ONE and the ALIVE of a sweep are not recorded; they do not touch the table.
- Reading `active` and `name` of a slot in a search is one step; a half-erased name seen by a search in another thread is not part of this model.
- `sleep(30)` between sweeps: a sweep may start at any time.
- Wrap-around of C integers: the counters of the first three programs and of the servers are bounded by the numbers of threads and slots, and `RangesTile` bounds the products of the integration for up to 1024 threads and fewer than 2^53 rectangles.
- Integration.Accuracy: over exact reals, so it leaves out the rounding of `long double`, and it is about any number that all left and right sums enclose; that this number exists (it is pi) needs completeness of the reals and is not proved. That there is at most one is `Quadrature.AreaIsUnique`.
- Integration.ScheduleDoesNotMatter: with `long double` the sum may depend on the number of threads in the last digits; over exact reals it does not.
- HospitalOutcome.RunsAreBounded: patients who find the waiting room full roam and try again; these steps change nothing and are counted separately, so a run in which a patient roams for ever is unbounded. The same holds of spurious wake-ups.
- PrintQueueCorrect.Throughput: printing as a whole goes on for ever; that a particular user or printer gets its turn depends on how the system orders the waiters of a semaphore.
- The other exercises of the repository: single-threaded text filters and counters, signal catchers, pipes, and demonstrations of one system call, which hold no state worth an invariant.
