/** When interleaving two jobs is harmless: every completed schedule then ends as both serial orders do. */
module Serial {
  import opened Types
  import opened Ledger
  import opened Interleaving

  predicate Touches(job: Job, x: Address) {
    exists i :: 0 <= i < job.Slots() && job.Party(i) == x
  }

  /** Some slot of the job changes this account. */
  predicate Alters(job: Job, x: Address) {
    exists i :: 0 <= i < job.Slots() && job.Party(i) == x && job.Change(i) != 0
  }

  ghost predicate Shared(a: Job, b: Job, x: Address) {
    Touches(a, x) && Touches(b, x)
  }

  /** An account both jobs touch and at least one of them changes. */
  ghost predicate Conflict(a: Job, b: Job) {
    exists x :: Shared(a, b, x) && (Alters(a, x) || Alters(b, x))
  }

  /** The shared accounts are as in the ledger l0. */
  ghost predicate QuietLedger(l0: Accounts, a: Job, b: Job, l: Accounts) {
    forall x :: Shared(a, b, x) ==> GetAccount(l, x) == GetAccount(l0, x)
  }

  /** What a thread has read or loaded of a shared account is as in l0. */
  ghost predicate QuietThread(l0: Accounts, a: Job, b: Job, th: Thread) {
    !th.Done() ==>
      && (forall i: nat :: i < th.job.Slots() && Shared(a, b, th.job.Party(i)) && th.job.ReadPc(i) < th.pc ==>
            BalanceAt(th.bals, i) == Balance(l0, th.job.Party(i), th.job.token))
      && (th.Current().Save? && Shared(a, b, th.Target()) ==> th.acc == GetAccount(l0, th.Target()))
  }

  ghost predicate QuietSystem(l0: Accounts, a: Job, b: Job, s: System) {
    && s.a.job == a && s.b.job == b && QuietLedger(l0, a, b, s.l)
    && QuietThread(l0, a, b, s.a) && QuietThread(l0, a, b, s.b)
  }

  /** Slots read before a line: reading one more adds just that slot, other lines add none. */
  lemma ReadBefore(job: Job, pc: nat, i: nat)
    requires pc < job.Length() && i < job.Slots()
    ensures job.ReadPc(i) < pc + 1 <==> job.ReadPc(i) < pc || job.Line(pc) == Read(i)
    ensures job.Line(pc) == Load(i) ==> job.ReadPc(i) < pc
  {
    LineStandsAt(job, pc);
    LinesInOrder(job, i);
  }

  lemma QuietRead(l0: Accounts, a: Job, b: Job, l: Accounts, th: Thread)
    requires QuietLedger(l0, a, b, l) && QuietThread(l0, a, b, th) && !th.Done() && th.Current().Read?
    ensures QuietThread(l0, a, b, Step(l, th).1)
  {
    var t' := Step(l, th).1;
    LineStandsAt(th.job, th.pc);
    if !t'.Done() {
      forall i: nat | i < th.job.Slots() && Shared(a, b, th.job.Party(i)) && th.job.ReadPc(i) < t'.pc
        ensures BalanceAt(t'.bals, i) == Balance(l0, th.job.Party(i), th.job.token)
      {
        ReadBefore(th.job, th.pc, i);
      }
    }
  }

  lemma QuietLoad(l0: Accounts, a: Job, b: Job, l: Accounts, th: Thread)
    requires !Conflict(a, b) && (th.job == a || th.job == b)
    requires QuietLedger(l0, a, b, l) && QuietThread(l0, a, b, th) && !th.Done() && th.Current().Load?
    ensures QuietThread(l0, a, b, Step(l, th).1)
  {
    var t' := Step(l, th).1;
    LineStandsAt(th.job, th.pc);
    ReadBefore(th.job, th.pc, th.Current().slot);
    forall i: nat | i < th.job.Slots() && Shared(a, b, th.job.Party(i)) && th.job.ReadPc(i) < t'.pc
      ensures BalanceAt(t'.bals, i) == Balance(l0, th.job.Party(i), th.job.token)
    {
      ReadBefore(th.job, th.pc, i);
    }
  }

  lemma QuietSave(l0: Accounts, a: Job, b: Job, l: Accounts, th: Thread)
    requires QuietLedger(l0, a, b, l) && QuietThread(l0, a, b, th) && !th.Done() && th.Current().Save?
    ensures QuietThread(l0, a, b, Step(l, th).1)
  {
    var t' := Step(l, th).1;
    LineStandsAt(th.job, th.pc);
    forall i: nat | i < th.job.Slots() && Shared(a, b, th.job.Party(i)) && th.job.ReadPc(i) < t'.pc
      ensures BalanceAt(t'.bals, i) == Balance(l0, th.job.Party(i), th.job.token)
    {
      ReadBefore(th.job, th.pc, i);
    }
  }

  lemma QuietStep(l0: Accounts, a: Job, b: Job, l: Accounts, th: Thread)
    requires !Conflict(a, b) && (th.job == a || th.job == b)
    requires QuietLedger(l0, a, b, l) && QuietThread(l0, a, b, th)
    ensures Step(l, th).1.job == th.job
    ensures QuietLedger(l0, a, b, Step(l, th).0) && QuietThread(l0, a, b, Step(l, th).1)
  {
    if !th.Done() {
      match th.Current()
      case Read(_) => QuietRead(l0, a, b, l, th);
      case Load(_) => QuietLoad(l0, a, b, l, th);
      case Save(_) => QuietSave(l0, a, b, l, th);
    }
  }

  lemma {:induction false} QuietSteps(l0: Accounts, a: Job, b: Job, l: Accounts, th: Thread, n: nat)
    requires !Conflict(a, b) && (th.job == a || th.job == b)
    requires QuietLedger(l0, a, b, l) && QuietThread(l0, a, b, th)
    ensures Steps(l, th, n).1.job == th.job
    ensures QuietLedger(l0, a, b, Steps(l, th, n).0) && QuietThread(l0, a, b, Steps(l, th, n).1)
  {
    if n > 0 {
      QuietSteps(l0, a, b, l, th, n - 1);
      QuietStep(l0, a, b, Steps(l, th, n - 1).0, Steps(l, th, n - 1).1);
    }
  }

  /** Steps on different accounts commute, and so do steps on a shared account that stays as it is. */
  lemma StepsCommute(l0: Accounts, a: Job, b: Job, s: System)
    requires QuietSystem(l0, a, b, s)
    ensures Advance(Advance(s, true), false) == Advance(Advance(s, false), true)
  {
  }

  /** A step of the first thread slides before all steps of the second. */
  lemma {:induction false} SlideFirst(l0: Accounts, a: Job, b: Job, s: System, n: nat)
    requires !Conflict(a, b) && QuietSystem(l0, a, b, s)
    ensures Advance(Alone(s, false, n), true) == Alone(Advance(s, true), false, n)
  {
    if n > 0 {
      SlideFirst(l0, a, b, s, n - 1);
      QuietSteps(l0, a, b, s.l, s.b, n - 1);
      StepsCommute(l0, a, b, Alone(s, false, n - 1));
    }
  }

  function Count(schedule: seq<bool>, first: bool): nat {
    if |schedule| == 0 then 0
    else Count(schedule[..|schedule| - 1], first) + if schedule[|schedule| - 1] == first then 1 else 0
  }

  /** Every schedule has the outcome of running the first thread's steps before the second's. */
  lemma {:induction false} SchedulesSort(l0: Accounts, a: Job, b: Job, s: System, schedule: seq<bool>)
    requires !Conflict(a, b) && QuietSystem(l0, a, b, s)
    ensures Execute(s, schedule) == Alone(Alone(s, true, Count(schedule, true)), false, Count(schedule, false))
  {
    if |schedule| > 0 {
      var init := schedule[..|schedule| - 1];
      SchedulesSort(l0, a, b, s, init);
      if schedule[|schedule| - 1] {
        QuietSteps(l0, a, b, s.l, s.a, Count(init, true));
        SlideFirst(l0, a, b, Alone(s, true, Count(init, true)), Count(init, false));
      }
    }
  }

  /** Without a conflict, the only ledger the jobs can leave is that of the first serial order. */
  lemma OneOutcome(l: Accounts, a: Job, b: Job, end: Accounts)
    requires !Conflict(a, b) && CanLeave(l, a, b, end)
    ensures end == Atomic(Atomic(l, a), b)
  {
    var ta: Thread, tb: Thread :| Leads(l, a, b, System(end, ta, tb)) && ta.Done() && tb.Done();
    var schedule :| LedBy(l, a, b, schedule, System(end, ta, tb));
    SchedulesSort(l, a, b, Begin(l, a, b), schedule);
    AloneIsAtomic(l, a, Count(schedule, true));
    AloneIsAtomic(Atomic(l, a), b, Count(schedule, false));
  }

  /** Jobs without a conflict commute as indivisible actions: running b first is one of their schedules. */
  lemma AtomicsCommute(l: Accounts, a: Job, b: Job)
    requires !Conflict(a, b)
    ensures Atomic(Atomic(l, a), b) == Atomic(Atomic(l, b), a)
  {
    FirstThenSecond(l, b, a);
    LeavingIsSymmetric(l, a, b, Atomic(Atomic(l, b), a));
    OneOutcome(l, a, b, Atomic(Atomic(l, b), a));
  }

  /** Every completed interleaving of two jobs without a conflict ends as either serial order does. */
  lemma InterleavingIsSerial(l: Accounts, a: Job, b: Job, end: Accounts)
    requires !Conflict(a, b)
    ensures CanLeave(l, a, b, end) <==> end == Atomic(Atomic(l, a), b)
    ensures CanLeave(l, a, b, end) <==> end == Atomic(Atomic(l, b), a)
  {
    AtomicsCommute(l, a, b);
    FirstThenSecond(l, a, b);
    if CanLeave(l, a, b, end) {
      OneOutcome(l, a, b, end);
    }
  }
}
