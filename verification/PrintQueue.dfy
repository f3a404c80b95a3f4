/** The print queue as code: the shared memory and the semaphores are the fields of a class; `UserRuns` and
    `PrinterRuns` execute the next statement of enqueue_job and dequeue_job for one process. */
module PrintQueue {
  import opened PrintQueueProtocol
  import opened PrintQueueCorrect

  class JobQueue {
    const jobs: array<Job>
    var head: nat
    var tail: nat
    var semMutex: nat
    var semFull: nat
    var semEmpty: nat
    var users: seq<User>
    var printers: seq<Printer>
    ghost var written: seq<Job>
    ghost var read: seq<Job>

    ghost function Snapshot(): State
      reads this, jobs
    {
      State(jobs[..], head, tail, semMutex, semFull, semEmpty, users, printers, written, read)
    }

    constructor (size: nat, users: nat, printers: nat)
      requires size > 0
      ensures Inv(Snapshot()) && fresh(jobs)
      ensures Snapshot() == Init(size, users, printers)
    {
      jobs := new Job[size](_ => "");
      head, tail := 0, 0;
      semMutex, semFull, semEmpty := 1, 0, size;
      this.users := seq(users, _ => User(Outside, ""));
      this.printers := seq(printers, _ => Printer(Printing, ""));
      written, read := [], [];
      new;
      assert jobs[..] == seq(size, _ => "");
      InitInv(size, users, printers);
    }

    method UserRuns(u: nat, job: Job)
      requires Shape(Snapshot()) && Enabled(Snapshot(), PrintQueueProtocol.UserRuns(u, job))
      modifies this, jobs
      ensures Snapshot() == UserStep(old(Snapshot()), u, job)
    {
      var me := users[u];
      match me.pc
      case Outside =>
        semEmpty := semEmpty - 1;
        users := users[u := User(GotEmpty, job)];
      case GotEmpty =>
        semMutex := semMutex - 1;
        users := users[u := me.(pc := Entered)];
      case Entered =>
        jobs[tail] := me.job;
        users := users[u := me.(pc := Copied)];
      case Copied =>
        tail := (tail + 1) % jobs.Length;
        written := written + [me.job];
        users := users[u := me.(pc := Advanced)];
      case Advanced =>
        semMutex := semMutex + 1;
        users := users[u := me.(pc := Left)];
      case Left =>
        semFull := semFull + 1;
        users := users[u := me.(pc := Outside)];
    }

    method PrinterRuns(p: nat)
      requires Shape(Snapshot()) && Enabled(Snapshot(), PrintQueueProtocol.PrinterRuns(p))
      modifies this
      ensures Snapshot() == PrinterStep(old(Snapshot()), p)
    {
      var me := printers[p];
      match me.pc
      case Printing =>
        semFull := semFull - 1;
        printers := printers[p := me.(pc := GotFull)];
      case GotFull =>
        semMutex := semMutex - 1;
        printers := printers[p := me.(pc := Reading)];
      case Reading =>
        printers := printers[p := Printer(Fetched, jobs[head])];
      case Fetched =>
        head := (head + 1) % jobs.Length;
        read := read + [me.buffer];
        printers := printers[p := me.(pc := Moved)];
      case Moved =>
        semMutex := semMutex + 1;
        printers := printers[p := me.(pc := Released)];
      case Released =>
        semEmpty := semEmpty + 1;
        printers := printers[p := me.(pc := Printing)];
    }

    method Perform(a: Action)
      requires Inv(Snapshot()) && Enabled(Snapshot(), a)
      modifies this, jobs
      ensures Inv(Snapshot()) && Snapshot() == Next(old(Snapshot()), a)
    {
      StepKeepsInv(Snapshot(), a);
      match a
      case UserRuns(u, job) => UserRuns(u, job);
      case PrinterRuns(p) => PrinterRuns(p);
    }

    method Possible(a: Action) returns (b: bool)
      ensures b == Enabled(Snapshot(), a)
    {
      b := Enabled(State(jobs[..], head, tail, semMutex, semFull, semEmpty, users, printers, [], []), a);
    }

    /** Any interleaving of the processes: blocked processes are passed over. */
    method Schedule(proposed: seq<Action>) returns (ghost performed: seq<Action>)
      requires Inv(Snapshot())
      modifies this, jobs
      ensures Inv(Snapshot()) && Run(old(Snapshot()), performed, Snapshot())
    {
      performed := [];
      var i := 0;
      while i < |proposed|
        invariant i <= |proposed|
        invariant Inv(Snapshot()) && Run(old(Snapshot()), performed, Snapshot())
      {
        ghost var before := Snapshot();
        var possible := Possible(proposed[i]);
        if possible {
          Perform(proposed[i]);
          RunExtends(old(Snapshot()), performed, before, proposed[i]);
          performed := performed + [proposed[i]];
        }
        i := i + 1;
      }
    }
  }
}
