/** The print queue: any number of users put jobs into a ring of slots in shared memory and any number of
    printers take them out, guarded by three semaphores.  A step is one semaphore operation, one copy of a
    job, or one update of an index, so that every interleaving of the processes is a run. */
module PrintQueueProtocol {

  type Job = string

  /** Where a user is in enqueue_job: named after the last thing it did. */
  datatype UserPc = Outside | GotEmpty | Entered | Copied | Advanced | Left

  /** Where a printer is in dequeue_job. */
  datatype PrinterPc = Printing | GotFull | Reading | Fetched | Moved | Released

  datatype User = User(pc: UserPc, job: Job)
  datatype Printer = Printer(pc: PrinterPc, buffer: Job)

  datatype State = State(
    jobs: seq<Job>,
    head: nat,
    tail: nat,
    semMutex: nat,
    semFull: nat,
    semEmpty: nat,
    users: seq<User>,
    printers: seq<Printer>,
    // history
    written: seq<Job>,     // in the order of the updates of tail
    read: seq<Job>)        // in the order of the updates of head

  datatype Action =
    | UserRuns(u: nat, job: Job)   // job: what the user wants printed, if it is about to call enqueue_job
    | PrinterRuns(p: nat)

  function Init(size: nat, users: nat, printers: nat): State
  {
    State(seq(size, _ => ""), 0, 0, 1, 0, size,
          seq(users, _ => User(Outside, "")), seq(printers, _ => Printer(Printing, "")), [], [])
  }

  /** sem_wait blocks while the semaphore is 0; every other step can always be taken. */
  predicate Enabled(s: State, a: Action)
  {
    match a
    case UserRuns(u, job) =>
      u < |s.users| && (match s.users[u].pc
                        case Outside => s.semEmpty > 0
                        case GotEmpty => s.semMutex > 0
                        case _ => true)
    case PrinterRuns(p) =>
      p < |s.printers| && (match s.printers[p].pc
                           case Printing => s.semFull > 0
                           case GotFull => s.semMutex > 0
                           case _ => true)
  }

  /** The indices stay inside the ring. */
  predicate Shape(s: State)
  {
    s.head < |s.jobs| && s.tail < |s.jobs|
  }

  function UserStep(s: State, u: nat, job: Job): State
    requires Shape(s) && Enabled(s, UserRuns(u, job))
  {
    var me := s.users[u];
    match me.pc
    case Outside => s.(semEmpty := s.semEmpty - 1, users := s.users[u := User(GotEmpty, job)])
    case GotEmpty => s.(semMutex := s.semMutex - 1, users := s.users[u := me.(pc := Entered)])
    case Entered => s.(jobs := s.jobs[s.tail := me.job], users := s.users[u := me.(pc := Copied)])
    case Copied =>
      s.(tail := (s.tail + 1) % |s.jobs|, written := s.written + [me.job], users := s.users[u := me.(pc := Advanced)])
    case Advanced => s.(semMutex := s.semMutex + 1, users := s.users[u := me.(pc := Left)])
    case Left => s.(semFull := s.semFull + 1, users := s.users[u := me.(pc := Outside)])
  }

  function PrinterStep(s: State, p: nat): State
    requires Shape(s) && Enabled(s, PrinterRuns(p))
  {
    var me := s.printers[p];
    match me.pc
    case Printing => s.(semFull := s.semFull - 1, printers := s.printers[p := me.(pc := GotFull)])
    case GotFull => s.(semMutex := s.semMutex - 1, printers := s.printers[p := me.(pc := Reading)])
    case Reading => s.(printers := s.printers[p := Printer(Fetched, s.jobs[s.head])])
    case Fetched =>
      s.(head := (s.head + 1) % |s.jobs|, read := s.read + [me.buffer], printers := s.printers[p := me.(pc := Moved)])
    case Moved => s.(semMutex := s.semMutex + 1, printers := s.printers[p := me.(pc := Released)])
    case Released => s.(semEmpty := s.semEmpty + 1, printers := s.printers[p := me.(pc := Printing)])
  }

  function Next(s: State, a: Action): State
    requires Shape(s) && Enabled(s, a)
  {
    match a
    case UserRuns(u, job) => UserStep(s, u, job)
    case PrinterRuns(p) => PrinterStep(s, p)
  }

  ghost predicate Run(s: State, acts: seq<Action>, t: State)
    decreases |acts|
  {
    if acts == [] then s == t
    else Shape(s) && Enabled(s, acts[0]) && Run(Next(s, acts[0]), acts[1..], t)
  }
}
