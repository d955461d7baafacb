/**
 * Two jobs running concurrently over the unlocked account store: each read and each write of a stored account
 * is one atomic step, and a schedule says whose step comes next.
 */
module Interleaving {
  import opened Types
  import opened Ledger

  /** Guarded: every balance is read just before it is set. Stale: all are read before the first is set. */
  datatype Kind = Guarded | Stale

  datatype Payout = Payout(to: Address, amount: int)

  /** Read takes a balance; Load reads the whole record again, as SetBalance does; Save stores it. */
  datatype Action = Read(slot: nat) | Load(slot: nat) | Save(slot: nat)

  /** One party is debited and others are credited, in this order and in one token. Slot 0 is the debit. */
  datatype Job = Job(kind: Kind, token: Token, from: Address, amount: int, payouts: seq<Payout>) {
    function Slots(): nat {
      |payouts| + 1
    }

    function Party(i: nat): Address
      requires i < Slots()
    {
      if i == 0 then from else payouts[i - 1].to
    }

    function Change(i: nat): int
      requires i < Slots()
    {
      if i == 0 then -amount else payouts[i - 1].amount
    }

    function Length(): nat {
      3 * Slots()
    }

    /** The program, line by line. */
    function Line(pc: nat): (act: Action)
      requires pc < Length()
      ensures act.slot < Slots()
    {
      if kind == Guarded then
        var i := pc / 3;
        if pc == 3 * i then Read(i) else if pc == 3 * i + 1 then Load(i) else Save(i)
      else if pc < Slots() then Read(pc)
      else
        var i := (pc - Slots()) / 2;
        if pc == Slots() + 2 * i then Load(i) else Save(i)
    }

    function ReadPc(i: nat): nat {
      if kind == Guarded then 3 * i else i
    }

    function LoadPc(i: nat): nat {
      if kind == Guarded then 3 * i + 1 else Slots() + 2 * i
    }

    /** SubBalance also rejects a negative amount; the stale jobs only compare. */
    predicate Rejects(balance: int) {
      balance < amount || (kind == Guarded && amount < 0)
    }
  }

  function BalanceAt(bals: map<nat, int>, i: nat): int {
    if i in bals then bals[i] else 0
  }

  /** A running job: program counter, the balances it read, and the record its next Save stores. */
  datatype Thread = Thread(job: Job, pc: nat, bals: map<nat, int>, acc: Account) {
    predicate Done() {
      pc >= job.Length()
    }

    function Current(): (act: Action)
      requires !Done()
      ensures act.slot < job.Slots()
    {
      job.Line(pc)
    }

    /** The one account the next step reads or writes. */
    function Target(): Address
      requires !Done()
    {
      job.Party(Current().slot)
    }

    /** The thread after a step that saw this record. A rejected job jumps to its end. */
    function After(rec: Account): Thread
      requires !Done()
    {
      var bal := rec.Balance(job.token);
      match Current()
      case Read(i) => this.(bals := bals[i := bal], pc := if i == 0 && job.Rejects(bal) then job.Length() else pc + 1)
      case Load(i) => this.(acc := rec.WithBalance(job.token, BalanceAt(bals, i) + job.Change(i)), pc := pc + 1)
      case Save(_) => this.(pc := pc + 1)
    }
  }

  function Start(job: Job): Thread {
    Thread(job, 0, map[], NEW_ACCOUNT)
  }

  /** One atomic step; a finished job rests. */
  function Step(l: Accounts, th: Thread): (Accounts, Thread) {
    if th.Done() then (l, th)
    else (if th.Current().Save? then l[th.Target() := th.acc] else l, th.After(GetAccount(l, th.Target())))
  }

  function Steps(l: Accounts, th: Thread, n: nat): (Accounts, Thread) {
    if n == 0 then (l, th)
    else
      var (l', th') := Steps(l, th, n - 1);
      Step(l', th')
  }

  // ---------------------------------------------------------------------------------------------
  // The job as one indivisible action
  // ---------------------------------------------------------------------------------------------

  /** Slots i onwards, each balance read and set in turn. */
  function GuardedFrom(m: Accounts, job: Job, i: nat): Accounts
    decreases job.Slots() - i
  {
    if i >= job.Slots() then m
    else
      var x := job.Party(i);
      GuardedFrom(SetBalance(m, x, job.token, Balance(m, x, job.token) + job.Change(i)), job, i + 1)
  }

  /** The balances of slots i onwards, added to those already read. */
  function ReadFrom(m: Accounts, job: Job, bals: map<nat, int>, i: nat): map<nat, int>
    decreases job.Slots() - i
  {
    if i >= job.Slots() then bals
    else ReadFrom(m, job, bals[i := Balance(m, job.Party(i), job.token)], i + 1)
  }

  /** Slots i onwards, each balance set from the one read. */
  function WriteFrom(m: Accounts, job: Job, bals: map<nat, int>, i: nat): Accounts
    decreases job.Slots() - i
  {
    if i >= job.Slots() then m
    else
      WriteFrom(SetBalance(m, job.Party(i), job.token, BalanceAt(bals, i) + job.Change(i)), job, bals, i + 1)
  }

  predicate Accepts(l: Accounts, job: Job) {
    !job.Rejects(Balance(l, job.from, job.token))
  }

  /** A rejected job leaves the ledger as it was. */
  function Atomic(l: Accounts, job: Job): Accounts {
    if !Accepts(l, job) then l
    else
      match job.kind
      case Guarded => GuardedFrom(l, job, 0)
      case Stale => WriteFrom(l, job, ReadFrom(l, job, map[], 0), 0)
  }

  // ---------------------------------------------------------------------------------------------
  // Running alone
  // ---------------------------------------------------------------------------------------------

  /** A finished job changes nothing more. */
  lemma {:induction false} DoneRests(l: Accounts, th: Thread, n: nat, m: nat)
    requires n <= m && Steps(l, th, n).1.Done()
    ensures Steps(l, th, m) == Steps(l, th, n)
  {
    if n < m {
      DoneRests(l, th, n, m - 1);
    }
  }

  lemma {:induction false} StepsCompose(l: Accounts, th: Thread, m: nat, n: nat)
    ensures Steps(l, th, m + n) == Steps(Steps(l, th, m).0, Steps(l, th, m).1, n)
  {
    if n > 0 {
      StepsCompose(l, th, m, n - 1);
    }
  }

  /** So many steps of the job alone lead from one configuration to another. */
  ghost predicate TakesTo(l: Accounts, th: Thread, n: nat, l': Accounts, th': Thread) {
    Steps(l, th, n) == (l', th')
  }

  /** Running alone, the job gets from one configuration to another. */
  ghost predicate Reaches(l: Accounts, th: Thread, l': Accounts, th': Thread) {
    exists n: nat :: TakesTo(l, th, n, l', th')
  }

  /** Running alone, the job gets to its end, and leaves this ledger. */
  ghost predicate Ends(l: Accounts, th: Thread, l': Accounts) {
    exists th': Thread :: Reaches(l, th, l', th') && th'.Done()
  }

  lemma ReachesItself(l: Accounts, th: Thread)
    ensures Reaches(l, th, l, th)
  {
    assert TakesTo(l, th, 0, l, th);
  }

  lemma OneStep(l: Accounts, th: Thread)
    ensures Steps(l, th, 1) == Step(l, th)
  {
    assert Steps(l, th, 0) == (l, th);
  }

  lemma ReachesNext(l: Accounts, th: Thread)
    ensures Reaches(l, th, Step(l, th).0, Step(l, th).1)
  {
    OneStep(l, th);
    assert TakesTo(l, th, 1, Step(l, th).0, Step(l, th).1);
  }

  lemma ReachesChain(l: Accounts, th: Thread, l1: Accounts, t1: Thread, l2: Accounts, t2: Thread)
    requires Reaches(l, th, l1, t1) && Reaches(l1, t1, l2, t2)
    ensures Reaches(l, th, l2, t2)
  {
    var m: nat :| TakesTo(l, th, m, l1, t1);
    var n: nat :| TakesTo(l1, t1, n, l2, t2);
    StepsCompose(l, th, m, n);
    assert TakesTo(l, th, m + n, l2, t2);
  }

  lemma ReachesTwo(l: Accounts, th: Thread, l1: Accounts, t1: Thread, l2: Accounts, t2: Thread)
    requires Step(l, th) == (l1, t1) && Step(l1, t1) == (l2, t2)
    ensures Reaches(l, th, l2, t2)
  {
    ReachesNext(l, th);
    ReachesNext(l1, t1);
    ReachesChain(l, th, l1, t1, l2, t2);
  }

  lemma ReachesThenEnds(l: Accounts, th: Thread, l1: Accounts, t1: Thread, end: Accounts)
    requires Reaches(l, th, l1, t1) && Ends(l1, t1, end)
    ensures Ends(l, th, end)
  {
    var t2: Thread :| Reaches(l1, t1, end, t2) && t2.Done();
    ReachesChain(l, th, l1, t1, end, t2);
  }

  lemma LinesInOrder(job: Job, i: nat)
    requires i < job.Slots()
    ensures job.LoadPc(i) + 1 < job.Length() && job.ReadPc(i) < job.LoadPc(i)
    ensures job.Line(job.ReadPc(i)) == Read(i)
    ensures job.Line(job.LoadPc(i)) == Load(i)
    ensures job.Line(job.LoadPc(i) + 1) == Save(i)
  {
  }

  /** Where a line stands, and that only a Save follows a Load. */
  lemma LineStandsAt(job: Job, pc: nat)
    requires pc < job.Length()
    ensures match job.Line(pc)
            case Read(i) => pc == job.ReadPc(i) && (pc + 1 < job.Length() ==> !job.Line(pc + 1).Save?)
            case Load(i) => pc == job.LoadPc(i) && pc + 1 < job.Length() && job.Line(pc + 1) == Save(i)
            case Save(i) => pc == job.LoadPc(i) + 1 && (pc + 1 < job.Length() ==> !job.Line(pc + 1).Save?)
  {
  }

  /** Loading and saving a record sets its balance. */
  function AfterSet(m: Accounts, th: Thread, i: nat): (Accounts, Thread)
    requires i < th.job.Slots()
  {
    var x := th.job.Party(i);
    var m' := SetBalance(m, x, th.job.token, BalanceAt(th.bals, i) + th.job.Change(i));
    (m', th.(acc := m'[x], pc := th.pc + 2))
  }

  /** The thread between loading and saving. */
  function Loaded(m: Accounts, th: Thread, i: nat): Thread
    requires i < th.job.Slots()
  {
    var bal := BalanceAt(th.bals, i) + th.job.Change(i);
    th.(acc := GetAccount(m, th.job.Party(i)).WithBalance(th.job.token, bal), pc := th.pc + 1)
  }

  lemma StepLoads(m: Accounts, th: Thread, i: nat)
    requires i < th.job.Slots() && th.pc == th.job.LoadPc(i)
    ensures Step(m, th) == (m, Loaded(m, th, i))
  {
    LinesInOrder(th.job, i);
  }

  lemma StepSaves(m: Accounts, th: Thread, i: nat)
    requires i < th.job.Slots() && th.pc == th.job.LoadPc(i) + 1
    ensures Step(m, th) == (m[th.job.Party(i) := th.acc], th.(pc := th.pc + 1))
  {
    LinesInOrder(th.job, i);
  }

  lemma SavesLoaded(m: Accounts, th: Thread, i: nat)
    requires i < th.job.Slots() && th.pc == th.job.LoadPc(i)
    ensures Step(m, Loaded(m, th, i)) == AfterSet(m, th, i)
  {
    StepSaves(m, Loaded(m, th, i), i);
  }

  lemma Sets(m: Accounts, th: Thread, i: nat)
    requires i < th.job.Slots() && th.pc == th.job.LoadPc(i)
    ensures Reaches(m, th, AfterSet(m, th, i).0, AfterSet(m, th, i).1)
  {
    StepLoads(m, th, i);
    SavesLoaded(m, th, i);
    ReachesTwo(m, th, m, Loaded(m, th, i), AfterSet(m, th, i).0, AfterSet(m, th, i).1);
  }

  /** What one read leaves of a thread. */
  function AfterRead(m: Accounts, th: Thread, i: nat): Thread
    requires i < th.job.Slots()
  {
    th.(bals := th.bals[i := Balance(m, th.job.Party(i), th.job.token)], pc := th.pc + 1)
  }

  lemma Reads(m: Accounts, th: Thread, i: nat)
    requires i < th.job.Slots() && th.pc == th.job.ReadPc(i) && (i == 0 ==> Accepts(m, th.job))
    ensures Reaches(m, th, m, AfterRead(m, th, i))
  {
    LinesInOrder(th.job, i);
    ReachesNext(m, th);
  }

  lemma ReadsAndSets(m: Accounts, th: Thread, i: nat)
    requires th.job.kind == Guarded && i < th.job.Slots() && th.pc == 3 * i && (i == 0 ==> Accepts(m, th.job))
    ensures Reaches(m, th, AfterSet(m, AfterRead(m, th, i), i).0, AfterSet(m, AfterRead(m, th, i), i).1)
  {
    var t1 := AfterRead(m, th, i);
    var (m', t') := AfterSet(m, t1, i);
    Reads(m, th, i);
    Sets(m, t1, i);
    ReachesChain(m, th, m, t1, m', t');
  }

  /** A guarded job between two slots goes on as its remaining slots. */
  lemma {:induction false} GuardedEnds(m: Accounts, th: Thread, i: nat)
    requires th.job.kind == Guarded && th.pc == 3 * i && i <= th.job.Slots() && (i == 0 ==> Accepts(m, th.job))
    ensures Ends(m, th, GuardedFrom(m, th.job, i))
    decreases th.job.Slots() - i
  {
    if i == th.job.Slots() {
      ReachesItself(m, th);
    } else {
      var t1 := AfterRead(m, th, i);
      Reads(m, th, i);
      GuardedResumes(m, t1, i);
      ReachesThenEnds(m, th, m, t1, GuardedFrom(m, th.job, i));
    }
  }

  /** A guarded job that has read a balance sets it from what it read, then goes on. */
  lemma {:induction false} GuardedResumes(m: Accounts, th: Thread, i: nat)
    requires th.job.kind == Guarded && th.pc == 3 * i + 1 && i < th.job.Slots()
    ensures Ends(m, th, GuardedFrom(AfterSet(m, th, i).0, th.job, i + 1))
    decreases th.job.Slots() - i, 0
  {
    var (m', th') := AfterSet(m, th, i);
    Sets(m, th, i);
    GuardedEnds(m', th', i + 1);
    ReachesThenEnds(m, th, m', th', GuardedFrom(m', th.job, i + 1));
  }

  lemma {:induction false} StaleReads(m: Accounts, th: Thread)
    requires th.job.kind == Stale && th.pc <= th.job.Slots() && (th.pc == 0 ==> Accepts(m, th.job))
    ensures Reaches(m, th, m, th.(bals := ReadFrom(m, th.job, th.bals, th.pc), pc := th.job.Slots()))
    decreases th.job.Slots() - th.pc
  {
    if th.pc == th.job.Slots() {
      ReachesItself(m, th);
    } else {
      var t1 := AfterRead(m, th, th.pc);
      Reads(m, th, th.pc);
      StaleReads(m, t1);
      ReachesChain(m, th, m, t1, m, th.(bals := ReadFrom(m, th.job, th.bals, th.pc), pc := th.job.Slots()));
    }
  }

  lemma {:induction false} StaleWrites(m: Accounts, th: Thread, i: nat)
    requires th.job.kind == Stale && th.pc == th.job.Slots() + 2 * i && i <= th.job.Slots()
    ensures Ends(m, th, WriteFrom(m, th.job, th.bals, i))
    decreases th.job.Slots() - i
  {
    if i == th.job.Slots() {
      ReachesItself(m, th);
    } else {
      var (m', th') := AfterSet(m, th, i);
      Sets(m, th, i);
      StaleWrites(m', th', i + 1);
      ReachesThenEnds(m, th, m', th', WriteFrom(m', th.job, th.bals, i + 1));
    }
  }

  /** A stale job goes on from any ledger with the balances it has read and those it still reads. */
  lemma StaleResumes(m: Accounts, th: Thread)
    requires th.job.kind == Stale && th.pc <= th.job.Slots() && (th.pc == 0 ==> Accepts(m, th.job))
    ensures Ends(m, th, WriteFrom(m, th.job, ReadFrom(m, th.job, th.bals, th.pc), 0))
  {
    var t1 := th.(bals := ReadFrom(m, th.job, th.bals, th.pc), pc := th.job.Slots());
    StaleReads(m, th);
    StaleWrites(m, t1, 0);
    ReachesThenEnds(m, th, m, t1, WriteFrom(m, th.job, t1.bals, 0));
  }

  /** A job left alone ends, having performed its indivisible action. */
  lemma EndsInAtomic(l: Accounts, job: Job)
    ensures Ends(l, Start(job), Atomic(l, job))
  {
    if !Accepts(l, job) {
      LinesInOrder(job, 0);
      ReachesNext(l, Start(job));
    } else if job.kind == Guarded {
      GuardedEnds(l, Start(job), 0);
    } else {
      StaleResumes(l, Start(job));
    }
  }

  /** Once a job left alone has finished, the ledger is that of its indivisible action. */
  lemma AloneIsAtomic(l: Accounts, job: Job, n: nat)
    requires Steps(l, Start(job), n).1.Done()
    ensures Steps(l, Start(job), n).0 == Atomic(l, job)
  {
    EndsInAtomic(l, job);
    var th: Thread :| Reaches(l, Start(job), Atomic(l, job), th) && th.Done();
    var m: nat :| TakesTo(l, Start(job), m, Atomic(l, job), th);
    if n < m {
      DoneRests(l, Start(job), n, m);
    } else {
      DoneRests(l, Start(job), m, n);
    }
  }

  // ---------------------------------------------------------------------------------------------
  // Systems and schedules
  // ---------------------------------------------------------------------------------------------

  datatype System = System(l: Accounts, a: Thread, b: Thread)

  function Advance(s: System, first: bool): System {
    if first then
      var (l', a') := Step(s.l, s.a);
      System(l', a', s.b)
    else
      var (l', b') := Step(s.l, s.b);
      System(l', s.a, b')
  }

  function Execute(s: System, schedule: seq<bool>): System {
    if |schedule| == 0 then s
    else Advance(Execute(s, schedule[..|schedule| - 1]), schedule[|schedule| - 1])
  }

  function Begin(l: Accounts, a: Job, b: Job): System {
    System(l, Start(a), Start(b))
  }

  ghost predicate LedBy(l: Accounts, a: Job, b: Job, schedule: seq<bool>, s: System) {
    Execute(Begin(l, a, b), schedule) == s
  }

  /** Some schedule leads from the start of both jobs to this system. */
  ghost predicate Leads(l: Accounts, a: Job, b: Job, s: System) {
    exists schedule :: LedBy(l, a, b, schedule, s)
  }

  lemma LeadsStart(l: Accounts, a: Job, b: Job)
    ensures Leads(l, a, b, Begin(l, a, b))
  {
    assert LedBy(l, a, b, [], Begin(l, a, b));
  }

  /** A schedule continued by n steps of one thread. */
  function Extend(schedule: seq<bool>, first: bool, n: nat): seq<bool> {
    if n == 0 then schedule else Extend(schedule, first, n - 1) + [first]
  }

  /** One thread takes n steps, the other none. */
  function Alone(s: System, first: bool, n: nat): System {
    if first then
      var (l', a') := Steps(s.l, s.a, n);
      System(l', a', s.b)
    else
      var (l', b') := Steps(s.l, s.b, n);
      System(l', s.a, b')
  }

  lemma {:induction false} ExecuteExtend(s: System, schedule: seq<bool>, first: bool, n: nat)
    ensures Execute(s, Extend(schedule, first, n)) == Alone(Execute(s, schedule), first, n)
  {
    if n > 0 {
      var shorter := Extend(schedule, first, n - 1);
      ExecuteExtend(s, schedule, first, n - 1);
      assert (shorter + [first])[..|shorter|] == shorter;
    }
  }

  /** One of the threads goes on alone. */
  lemma LeadsOn(l: Accounts, a: Job, b: Job, s: System, first: bool, n: nat)
    requires Leads(l, a, b, s)
    ensures Leads(l, a, b, Alone(s, first, n))
  {
    var schedule :| LedBy(l, a, b, schedule, s);
    ExecuteExtend(Begin(l, a, b), schedule, first, n);
    assert LedBy(l, a, b, Extend(schedule, first, n), Alone(s, first, n));
  }

  lemma FirstGoesOn(l: Accounts, a: Job, b: Job, s: System, l': Accounts, th: Thread)
    requires Leads(l, a, b, s) && Reaches(s.l, s.a, l', th)
    ensures Leads(l, a, b, System(l', th, s.b))
  {
    var n: nat :| TakesTo(s.l, s.a, n, l', th);
    LeadsOn(l, a, b, s, true, n);
  }

  lemma SecondGoesOn(l: Accounts, a: Job, b: Job, s: System, l': Accounts, th: Thread)
    requires Leads(l, a, b, s) && Reaches(s.l, s.b, l', th)
    ensures Leads(l, a, b, System(l', s.a, th))
  {
    var n: nat :| TakesTo(s.l, s.b, n, l', th);
    LeadsOn(l, a, b, s, false, n);
  }

  /** Both jobs can end, leaving this ledger. */
  ghost predicate CanLeave(l: Accounts, a: Job, b: Job, end: Accounts) {
    exists ta: Thread, tb: Thread :: Leads(l, a, b, System(end, ta, tb)) && ta.Done() && tb.Done()
  }

  /** The first job goes on to its end when the second has finished. */
  lemma FirstEnds(l: Accounts, a: Job, b: Job, s: System, end: Accounts)
    requires Leads(l, a, b, s) && s.b.Done() && Ends(s.l, s.a, end)
    ensures CanLeave(l, a, b, end)
  {
    var ta: Thread :| Reaches(s.l, s.a, end, ta) && ta.Done();
    FirstGoesOn(l, a, b, s, end, ta);
  }

  lemma SecondEnds(l: Accounts, a: Job, b: Job, s: System, end: Accounts)
    requires Leads(l, a, b, s) && s.a.Done() && Ends(s.l, s.b, end)
    ensures CanLeave(l, a, b, end)
  {
    var tb: Thread :| Reaches(s.l, s.b, end, tb) && tb.Done();
    SecondGoesOn(l, a, b, s, end, tb);
  }

  /** Some schedule runs the second job after the first. */
  lemma FirstThenSecond(l: Accounts, a: Job, b: Job)
    ensures CanLeave(l, a, b, Atomic(Atomic(l, a), b))
  {
    LeadsStart(l, a, b);
    EndsInAtomic(l, a);
    var ta: Thread :| Reaches(l, Start(a), Atomic(l, a), ta) && ta.Done();
    FirstGoesOn(l, a, b, Begin(l, a, b), Atomic(l, a), ta);
    EndsInAtomic(Atomic(l, a), b);
    SecondEnds(l, a, b, System(Atomic(l, a), ta, Start(b)), Atomic(Atomic(l, a), b));
  }

  function Flip(schedule: seq<bool>): seq<bool> {
    if |schedule| == 0 then [] else Flip(schedule[..|schedule| - 1]) + [!schedule[|schedule| - 1]]
  }

  lemma {:induction false} ExecuteFlip(l: Accounts, a: Thread, b: Thread, schedule: seq<bool>)
    ensures var s, t := Execute(System(l, a, b), schedule), Execute(System(l, b, a), Flip(schedule));
            t == System(s.l, s.b, s.a)
  {
    if |schedule| > 0 {
      var init := schedule[..|schedule| - 1];
      ExecuteFlip(l, a, b, init);
      assert Flip(schedule)[..|Flip(init)|] == Flip(init);
    }
  }

  lemma LeavingIsSymmetric(l: Accounts, a: Job, b: Job, end: Accounts)
    requires CanLeave(l, b, a, end)
    ensures CanLeave(l, a, b, end)
  {
    var tb: Thread, ta: Thread :| Leads(l, b, a, System(end, tb, ta)) && tb.Done() && ta.Done();
    var schedule :| LedBy(l, b, a, schedule, System(end, tb, ta));
    ExecuteFlip(l, Start(b), Start(a), schedule);
    assert LedBy(l, a, b, Flip(schedule), System(end, ta, tb));
  }
}
