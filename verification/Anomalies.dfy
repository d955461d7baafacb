/**
 * When two concurrent jobs can end in a ledger that neither serial order gives: exactly when they share an
 * account that one of them changes. Each case exhibits a schedule in which a job saves what it read too early.
 */
module Anomalies {
  import opened Types
  import opened Ledger
  import opened Interleaving
  import opened Serial

  /** Some schedule completes in a ledger that neither serial order gives. */
  ghost predicate Anomalous(l: Accounts, a: Job, b: Job) {
    exists end :: CanLeave(l, a, b, end) && end != Atomic(Atomic(l, a), b) && end != Atomic(Atomic(l, b), a)
  }

  lemma AnomalyIsSymmetric(l: Accounts, a: Job, b: Job)
    requires Anomalous(l, b, a)
    ensures Anomalous(l, a, b)
  {
    var end :| CanLeave(l, b, a, end) && end != Atomic(Atomic(l, b), a) && end != Atomic(Atomic(l, a), b);
    LeavingIsSymmetric(l, a, b, end);
  }

  /** The job moves something and could be paid for on its own. */
  predicate Covered(l: Accounts, job: Job) {
    0 < job.amount <= Balance(l, job.from, job.token)
  }

  /** No payout takes money. */
  predicate NonNegativePayouts(job: Job) {
    forall i :: 0 <= i < |job.payouts| ==> job.payouts[i].amount >= 0
  }

  // ---------------------------------------------------------------------------------------------
  // What a job does to one balance
  // ---------------------------------------------------------------------------------------------

  /** The changes that slots i onwards make to an account. */
  function SumAt(job: Job, x: Address, i: nat): int
    decreases job.Slots() - i
  {
    if i >= job.Slots() then 0
    else (if job.Party(i) == x then job.Change(i) else 0) + SumAt(job, x, i + 1)
  }

  /** The last slot from i onwards that sets an account. */
  function LastAt(job: Job, x: Address, i: nat): (last: Option<nat>)
    ensures last.Some? ==> i <= last.value < job.Slots() && job.Party(last.value) == x
    ensures last.Some? ==> forall j :: last.value < j < job.Slots() ==> job.Party(j) != x
    ensures last.None? ==> forall j :: i <= j < job.Slots() ==> job.Party(j) != x
    decreases job.Slots() - i
  {
    if i >= job.Slots() then None
    else
      match LastAt(job, x, i + 1)
      case Some(k) => Some(k)
      case None => if job.Party(i) == x then Some(i) else None
  }

  /** What an accepted job adds to an account: guarded changes add up, of stale ones the last wins. */
  function Effect(job: Job, x: Address): int {
    match job.kind
    case Guarded => SumAt(job, x, 0)
    case Stale => var last := LastAt(job, x, 0); if last.Some? then job.Change(last.value) else 0
  }

  lemma {:induction false} GuardedBalance(m: Accounts, job: Job, i: nat, x: Address, t: Token)
    ensures Balance(GuardedFrom(m, job, i), x, t) == Balance(m, x, t) + (if t == job.token then SumAt(job, x, i) else 0)
    decreases job.Slots() - i
  {
    if i < job.Slots() {
      var y := job.Party(i);
      GuardedBalance(SetBalance(m, y, job.token, Balance(m, y, job.token) + job.Change(i)), job, i + 1, x, t);
    }
  }

  lemma {:induction false} WrittenBalance(m: Accounts, job: Job, bals: map<nat, int>, i: nat, x: Address, t: Token)
    ensures var last := LastAt(job, x, i);
            Balance(WriteFrom(m, job, bals, i), x, t)
            == if t == job.token && last.Some? then BalanceAt(bals, last.value) + job.Change(last.value)
               else Balance(m, x, t)
    decreases job.Slots() - i
  {
    if i < job.Slots() {
      var m' := SetBalance(m, job.Party(i), job.token, BalanceAt(bals, i) + job.Change(i));
      WrittenBalance(m', job, bals, i + 1, x, t);
    }
  }

  lemma {:induction false} ReadBalance(m: Accounts, job: Job, bals: map<nat, int>, i: nat, j: nat)
    requires j < job.Slots()
    ensures BalanceAt(ReadFrom(m, job, bals, i), j)
         == if j < i then BalanceAt(bals, j) else Balance(m, job.Party(j), job.token)
    decreases job.Slots() - i
  {
    if i < job.Slots() {
      ReadBalance(m, job, bals[i := Balance(m, job.Party(i), job.token)], i + 1, j);
    }
  }

  lemma AtomicBalance(l: Accounts, job: Job, x: Address, t: Token)
    ensures Balance(Atomic(l, job), x, t)
         == Balance(l, x, t) + (if Accepts(l, job) && t == job.token then Effect(job, x) else 0)
  {
    if job.kind == Guarded {
      GuardedBalance(l, job, 0, x, t);
    } else {
      var bals := ReadFrom(l, job, map[], 0);
      WrittenBalance(l, job, bals, 0, x, t);
      if LastAt(job, x, 0).Some? {
        ReadBalance(l, job, map[], 0, LastAt(job, x, 0).value);
      }
    }
  }

  /** Each job is accepted after the other. */
  predicate Joint(l: Accounts, a: Job, b: Job) {
    Accepts(l, a) && Accepts(l, b) && Accepts(Atomic(l, a), b) && Accepts(Atomic(l, b), a)
  }

  function EffectIn(job: Job, x: Address, t: Token): int {
    if t == job.token then Effect(job, x) else 0
  }

  lemma SerialBalance(l: Accounts, a: Job, b: Job, x: Address, t: Token)
    requires Joint(l, a, b)
    ensures Balance(Atomic(Atomic(l, a), b), x, t) == Balance(l, x, t) + EffectIn(a, x, t) + EffectIn(b, x, t)
    ensures Balance(Atomic(Atomic(l, b), a), x, t) == Balance(l, x, t) + EffectIn(a, x, t) + EffectIn(b, x, t)
  {
    AtomicBalance(l, a, x, t);
    AtomicBalance(l, b, x, t);
    AtomicBalance(Atomic(l, a), b, x, t);
    AtomicBalance(Atomic(l, b), a, x, t);
  }

  // ---------------------------------------------------------------------------------------------
  // The last save
  // ---------------------------------------------------------------------------------------------

  lemma StepAdvances(m: Accounts, th: Thread)
    requires th.pc > 0 || Accepts(m, th.job)
    ensures Step(m, th).1.job == th.job && Step(m, th).1.pc == if th.Done() then th.pc else th.pc + 1
  {
    if !th.Done() {
      LineStandsAt(th.job, th.pc);
    }
  }

  /** Every step but a rejection advances by one line, and no step goes back. */
  lemma {:induction false} PcAdvances(m: Accounts, th: Thread, n: nat)
    requires th.pc > 0 || Accepts(m, th.job)
    ensures Steps(m, th, n).1.job == th.job
    ensures Steps(m, th, n).1.pc == if th.pc + n <= th.job.Length() then th.pc + n
                                    else if th.pc <= th.job.Length() then th.job.Length() else th.pc
  {
    if n > 0 {
      PcAdvances(m, th, n - 1);
      StepAdvances(Steps(m, th, n - 1).0, Steps(m, th, n - 1).1);
    }
  }

  lemma Terminates(m: Accounts, th: Thread)
    requires th.pc > 0 || Accepts(m, th.job)
    ensures Steps(m, th, th.job.Length()).1.Done()
  {
    PcAdvances(m, th, th.job.Length());
  }

  /** No save to an account is left to the thread. */
  ghost predicate SavesNoMore(th: Thread, x: Address) {
    th.pc > 0
    && forall j :: 0 <= j < th.job.Slots() && th.job.LoadPc(j) + 1 >= th.pc ==> th.job.Party(j) != x
  }

  lemma StepLeavesAlone(m: Accounts, th: Thread, x: Address)
    requires SavesNoMore(th, x)
    ensures GetAccount(Step(m, th).0, x) == GetAccount(m, x) && SavesNoMore(Step(m, th).1, x)
  {
    StepAdvances(m, th);
    if !th.Done() {
      LineStandsAt(th.job, th.pc);
    }
  }

  /** Once the last save to an account is past, the job leaves the account alone. */
  lemma {:induction false} LeavesAlone(m: Accounts, th: Thread, n: nat, x: Address)
    requires SavesNoMore(th, x)
    ensures GetAccount(Steps(m, th, n).0, x) == GetAccount(m, x) && SavesNoMore(Steps(m, th, n).1, x)
  {
    if n > 0 {
      LeavesAlone(m, th, n - 1, x);
      StepLeavesAlone(Steps(m, th, n - 1).0, Steps(m, th, n - 1).1, x);
    }
  }

  lemma {:induction false} StepsAfterOne(m: Accounts, th: Thread, m1: Accounts, t1: Thread, n: nat)
    requires Step(m, th) == (m1, t1) && n > 0
    ensures Steps(m, th, n) == Steps(m1, t1, n - 1)
  {
    if n > 1 {
      StepsAfterOne(m, th, m1, t1, n - 1);
    }
  }

  /** From the last save to an account on: whatever the ledger was, the record about to be saved stays. */
  lemma SaveStays(m: Accounts, th: Thread, k: nat, n: nat)
    requires k < th.job.Slots() && th.pc == th.job.LoadPc(k) + 1 && n > 0
    requires forall j :: k < j < th.job.Slots() ==> th.job.Party(j) != th.job.Party(k)
    ensures GetAccount(Steps(m, th, n).0, th.job.Party(k)) == th.acc
  {
    var m1, t1 := m[th.job.Party(k) := th.acc], th.(pc := th.pc + 1);
    StepSaves(m, th, k);
    StepsAfterOne(m, th, m1, t1, n);
    LeavesAlone(m1, t1, n - 1, th.job.Party(k));
  }

  lemma RunToEnd(l: Accounts, job: Job)
    requires Accepts(l, job)
    ensures Steps(l, Start(job), job.Length()).0 == Atomic(l, job)
  {
    Terminates(l, Start(job));
    AloneIsAtomic(l, job, job.Length());
  }

  /** The record that a job running alone is about to save last is the one it leaves. */
  lemma AboutToSave(l: Accounts, job: Job, k: nat)
    requires Accepts(l, job) && k < job.Slots() && forall j :: k < j < job.Slots() ==> job.Party(j) != job.Party(k)
    ensures var th := Steps(l, Start(job), job.LoadPc(k) + 1).1;
            th.job == job && th.pc == job.LoadPc(k) + 1 && th.acc == GetAccount(Atomic(l, job), job.Party(k))
  {
    var n := job.LoadPc(k) + 1;
    var (m, th) := Steps(l, Start(job), n);
    LinesInOrder(job, k);
    PcAdvances(l, Start(job), n);
    RunToEnd(l, job);
    StepsCompose(l, Start(job), n, job.Length() - n);
    SaveStays(m, th, k, job.Length() - n);
  }

  /**
   * The second job runs on a ledger the first has come to, up to its last save to an account; the first ends;
   * the second saves. It has the last word on that account.
   */
  lemma LastWord(l: Accounts, a: Job, b: Job, l1: Accounts, ta: Thread, x: Address)
    requires Leads(l, a, b, System(l1, ta, Start(b))) && Accepts(l1, b) && Touches(b, x)
    ensures exists end :: CanLeave(l, a, b, end) && GetAccount(end, x) == GetAccount(Atomic(l1, b), x)
  {
    var k := LastAt(b, x, 0).value;
    var n := b.LoadPc(k) + 1;
    var s1 := Alone(System(l1, ta, Start(b)), false, n);
    LeadsOn(l, a, b, System(l1, ta, Start(b)), false, n);
    AboutToSave(l1, b, k);
    FirstCanFinish(l, a, b, s1);
    var s2: System :| Leads(l, a, b, s2) && s2.a.Done() && s2.b == s1.b;
    LeadsOn(l, a, b, s2, false, b.Length());
    SaveStays(s2.l, s2.b, k, b.Length());
    Terminates(s2.l, s2.b);
    assert CanLeave(l, a, b, Alone(s2, false, b.Length()).l);
  }

  lemma FirstCanFinish(l: Accounts, a: Job, b: Job, s: System)
    requires Leads(l, a, b, s)
    ensures exists s': System :: Leads(l, a, b, s') && s'.a.Done() && s'.b == s.b
  {
    var n := EventuallyDone(s.l, s.a);
    LeadsOn(l, a, b, s, true, n);
  }

  /** Whatever the ledger has become, a thread finishes: a rejection is an end too. */
  lemma EventuallyDone(m: Accounts, th: Thread) returns (n: nat)
    ensures Steps(m, th, n).1.Done()
  {
    if th.pc > 0 || Accepts(m, th.job) {
      n := th.job.Length();
      Terminates(m, th);
    } else {
      n := 1;
      LinesInOrder(th.job, 0);
      OneStep(m, th);
    }
  }

  // ---------------------------------------------------------------------------------------------
  // Jobs that are accepted in either order
  // ---------------------------------------------------------------------------------------------

  /** The second job has the last word on a shared account, and so erases what the first did to it. */
  lemma EraseClash(l: Accounts, a: Job, b: Job, x: Address)
    requires Joint(l, a, b) && Touches(b, x) && Effect(a, x) != 0
    ensures Anomalous(l, a, b)
  {
    LeadsStart(l, a, b);
    LastWord(l, a, b, l, Start(a), x);
    var end :| CanLeave(l, a, b, end) && GetAccount(end, x) == GetAccount(Atomic(l, b), x);
    AtomicBalance(l, b, x, a.token);
    SerialBalance(l, a, b, x, a.token);
  }

  /** Both can be paid from one purse only if it holds enough for both. */
  predicate OnePurse(a: Job, b: Job) {
    a.from == b.from && a.token == b.token
  }

  lemma {:induction false} LaterChangesAdd(job: Job, x: Address, i: nat)
    requires NonNegativePayouts(job) && (i > 0 || x != job.from)
    ensures SumAt(job, x, i) >= 0
    decreases job.Slots() - i
  {
    if i < job.Slots() {
      LaterChangesAdd(job, x, i + 1);
    }
  }

  lemma OthersDoNotTake(l: Accounts, a: Job, b: Job)
    requires NonNegativePayouts(a) && Covered(l, b) && !OnePurse(a, b)
    ensures Accepts(Atomic(l, a), b)
  {
    AtomicBalance(l, a, b.from, b.token);
    if a.token == b.token && a.kind == Guarded {
      LaterChangesAdd(a, b.from, 0);
    }
  }

  /** The ledger of an accepted job that has done its first j slots. */
  function UpTo(l: Accounts, job: Job, j: nat): Accounts
    requires j <= job.Slots()
  {
    if j == 0 then l
    else
      var m, x := UpTo(l, job, j - 1), job.Party(j - 1);
      SetBalance(m, x, job.token, Balance(if job.kind == Guarded then m else l, x, job.token) + job.Change(j - 1))
  }

  /** A guarded job reads and sets one slot; a stale job has read before and only sets. */
  function AfterSlot(m: Accounts, th: Thread, j: nat): (Accounts, Thread)
    requires j < th.job.Slots()
  {
    AfterSet(m, if th.job.kind == Guarded then AfterRead(m, th, j) else th, j)
  }

  /** The thread of an accepted job that has done its first j slots. */
  function Midway(l: Accounts, job: Job, j: nat): (th: Thread)
    requires j <= job.Slots()
    ensures th.job == job && th.pc == if job.kind == Guarded then 3 * j else job.Slots() + 2 * j
    ensures job.kind == Stale ==> th.bals == ReadFrom(l, job, map[], 0)
  {
    if j == 0 then
      if job.kind == Guarded then Start(job)
      else Start(job).(bals := ReadFrom(l, job, map[], 0), pc := job.Slots())
    else AfterSlot(UpTo(l, job, j - 1), Midway(l, job, j - 1), j - 1).1
  }

  lemma SlotIsNext(l: Accounts, job: Job, j: nat)
    requires j < job.Slots()
    ensures AfterSlot(UpTo(l, job, j), Midway(l, job, j), j) == (UpTo(l, job, j + 1), Midway(l, job, j + 1))
  {
    if job.kind == Stale {
      ReadBalance(l, job, map[], 0, j);
    }
  }

  lemma ReachesAfterSlot(m: Accounts, th: Thread, j: nat)
    requires j < th.job.Slots() && (th.pc == 0 ==> Accepts(m, th.job))
    requires th.pc == if th.job.kind == Guarded then 3 * j else th.job.Slots() + 2 * j
    ensures Reaches(m, th, AfterSlot(m, th, j).0, AfterSlot(m, th, j).1)
  {
    if th.job.kind == Guarded {
      ReadsAndSets(m, th, j);
    } else {
      Sets(m, th, j);
    }
  }

  lemma ReachesUpToNothing(l: Accounts, job: Job)
    requires Accepts(l, job)
    ensures Reaches(l, Start(job), l, Midway(l, job, 0))
  {
    if job.kind == Guarded {
      ReachesItself(l, Start(job));
    } else {
      StaleReads(l, Start(job));
    }
  }

  lemma ReachesNextSlot(l: Accounts, job: Job, j: nat)
    requires Accepts(l, job) && j < job.Slots()
    ensures Reaches(UpTo(l, job, j), Midway(l, job, j), UpTo(l, job, j + 1), Midway(l, job, j + 1))
  {
    ReachesAfterSlot(UpTo(l, job, j), Midway(l, job, j), j);
    SlotIsNext(l, job, j);
  }

  lemma ReachesOneMore(l: Accounts, job: Job, j: nat)
    requires Accepts(l, job) && j < job.Slots() && Reaches(l, Start(job), UpTo(l, job, j), Midway(l, job, j))
    ensures Reaches(l, Start(job), UpTo(l, job, j + 1), Midway(l, job, j + 1))
  {
    ReachesNextSlot(l, job, j);
    ReachesChain(l, Start(job), UpTo(l, job, j), Midway(l, job, j), UpTo(l, job, j + 1), Midway(l, job, j + 1));
  }

  /** The job alone gets to where its first j slots are done. */
  ghost predicate DoesSlots(l: Accounts, job: Job, j: nat) {
    j <= job.Slots() && Reaches(l, Start(job), UpTo(l, job, j), Midway(l, job, j))
  }

  lemma DoesOneMore(l: Accounts, job: Job, j: nat)
    requires Accepts(l, job) && j < job.Slots() && DoesSlots(l, job, j)
    ensures DoesSlots(l, job, j + 1)
  {
    ReachesOneMore(l, job, j);
  }

  lemma DoesNone(l: Accounts, job: Job)
    requires Accepts(l, job)
    ensures DoesSlots(l, job, 0)
  {
    ReachesUpToNothing(l, job);
  }

  lemma {:induction false} DoesAll(l: Accounts, job: Job, j: nat)
    requires Accepts(l, job) && j <= job.Slots()
    ensures DoesSlots(l, job, j)
  {
    if j == 0 {
      DoesNone(l, job);
    } else {
      DoesAll(l, job, j - 1);
      DoesOneMore(l, job, j - 1);
    }
  }

  lemma ReachesUpTo(l: Accounts, job: Job, j: nat)
    requires Accepts(l, job) && j <= job.Slots()
    ensures Reaches(l, Start(job), UpTo(l, job, j), Midway(l, job, j))
  {
    DoesAll(l, job, j);
  }

  /** As long as no slot changes it, an account stays; and none but the debited balance ever falls. */
  lemma {:induction false} UpToBalance(l: Accounts, job: Job, j: nat, x: Address, t: Token)
    requires j <= job.Slots()
    ensures (forall i :: 0 <= i < j && job.Party(i) == x ==> job.Change(i) == 0) ==>
              Balance(UpTo(l, job, j), x, t) == Balance(l, x, t)
    ensures NonNegativePayouts(job) && !(x == job.from && t == job.token) ==>
              Balance(UpTo(l, job, j), x, t) >= Balance(l, x, t)
  {
    if j > 0 {
      UpToBalance(l, job, j - 1, x, t);
    }
  }

  /** The first slot that changes an account, and the balance right after it. */
  lemma FirstAlters(l: Accounts, job: Job, x: Address) returns (j: nat)
    requires Alters(job, x)
    ensures j < job.Slots() && Balance(UpTo(l, job, j + 1), x, job.token) != Balance(l, x, job.token)
  {
    j := 0;
    while !(job.Party(j) == x && job.Change(j) != 0)
      invariant j < job.Slots()
      invariant forall i :: 0 <= i < j && job.Party(i) == x ==> job.Change(i) == 0
      decreases job.Slots() - j
    {
      j := j + 1;
    }
    UpToBalance(l, job, j, x, job.token);
  }

  /** The first job does its first j slots, then the second has the last word on an account. */
  lemma MidwaySchedule(l: Accounts, a: Job, b: Job, j: nat, x: Address)
    requires Accepts(l, a) && j <= a.Slots() && Accepts(UpTo(l, a, j), b) && Touches(b, x)
    ensures exists end :: CanLeave(l, a, b, end) && GetAccount(end, x) == GetAccount(Atomic(UpTo(l, a, j), b), x)
  {
    var l1 := UpTo(l, a, j);
    ReachesUpTo(l, a, j);
    LeadsStart(l, a, b);
    FirstGoesOn(l, a, b, Begin(l, a, b), l1, Midway(l, a, j));
    LastWord(l, a, b, l1, Midway(l, a, j), x);
  }

  /** The second job picks up a balance that the first restores later. */
  lemma MidwayClash(l: Accounts, a: Job, b: Job, x: Address)
    requires NonNegativePayouts(a) && Covered(l, b) && Joint(l, a, b) && !OnePurse(a, b)
    requires Alters(a, x) && Touches(b, x) && Effect(a, x) == Effect(b, x) == 0
    ensures Anomalous(l, a, b)
  {
    var j := FirstAlters(l, a, x);
    var l1 := UpTo(l, a, j + 1);
    UpToBalance(l, a, j + 1, b.from, b.token);
    MidwaySchedule(l, a, b, j + 1, x);
    var end :| CanLeave(l, a, b, end) && GetAccount(end, x) == GetAccount(Atomic(l1, b), x);
    AtomicBalance(l1, b, x, a.token);
    SerialBalance(l, a, b, x, a.token);
  }

  lemma JointClash(l: Accounts, a: Job, b: Job)
    requires Covered(l, a) && Covered(l, b) && NonNegativePayouts(a) && NonNegativePayouts(b)
    requires Joint(l, a, b) && !OnePurse(a, b) && Conflict(a, b)
    ensures Anomalous(l, a, b)
  {
    var x :| Shared(a, b, x) && (Alters(a, x) || Alters(b, x));
    if Effect(a, x) != 0 {
      EraseClash(l, a, b, x);
    } else if Effect(b, x) != 0 {
      EraseClash(l, b, a, x);
      AnomalyIsSymmetric(l, a, b);
    } else if Alters(a, x) {
      MidwayClash(l, a, b, x);
    } else {
      MidwayClash(l, b, a, x);
      AnomalyIsSymmetric(l, a, b);
    }
  }

  // ---------------------------------------------------------------------------------------------
  // One purse
  // ---------------------------------------------------------------------------------------------

  lemma PursesAreTouched(job: Job)
    ensures Touches(job, job.from) && (job.amount != 0 ==> Alters(job, job.from))
  {
    assert job.Party(0) == job.from && job.Change(0) == -job.amount;
  }

  /** A job that has only read its sender's balance. */
  function ReadOnce(l: Accounts, job: Job): Thread {
    Thread(job, 1, map[0 := Balance(l, job.from, job.token)], NEW_ACCOUNT)
  }

  lemma SecondReadsOnce(l: Accounts, a: Job, b: Job)
    requires Covered(l, b)
    ensures Leads(l, a, b, System(l, Start(a), ReadOnce(l, b)))
  {
    LeadsStart(l, a, b);
    Reads(l, Start(b), 0);
    SecondGoesOn(l, a, b, Begin(l, a, b), l, ReadOnce(l, b));
  }

  /** The second job has read once, then the first has made its debit. */
  lemma FirstDebits(l: Accounts, a: Job, b: Job)
    requires Covered(l, a) && Covered(l, b)
    ensures Leads(l, a, b, System(UpTo(l, a, 1), Midway(l, a, 1), ReadOnce(l, b)))
  {
    SecondReadsOnce(l, a, b);
    ReachesUpTo(l, a, 1);
    FirstGoesOn(l, a, b, System(l, Start(a), ReadOnce(l, b)), UpTo(l, a, 1), Midway(l, a, 1));
  }

  lemma DebitedBalance(l: Accounts, job: Job)
    ensures Balance(UpTo(l, job, 1), job.from, job.token) == Balance(l, job.from, job.token) - job.amount
  {
    assert UpTo(l, job, 0) == l;
  }

  /**
   * Two guarded jobs that pay back all they take: b reads, a debits, b overwrites the debit and ends, and a's
   * payouts then come on top.
   */
  lemma PaidBackClash(l: Accounts, a: Job, b: Job)
    requires Covered(l, a) && Covered(l, b) && OnePurse(a, b) && Joint(l, a, b)
    requires a.kind == b.kind == Guarded && Effect(a, a.from) == Effect(b, a.from) == 0
    ensures Anomalous(l, a, b)
  {
    var y, t, bal := a.from, a.token, Balance(l, a.from, a.token);
    var l2 := AfterSet(UpTo(l, a, 1), ReadOnce(l, b), 0).0;
    var m := GuardedFrom(l2, b, 1);
    PaidBackSchedule(l, a, b);
    GuardedBalance(l2, b, 1, y, t);
    GuardedBalance(m, a, 1, y, t);
    SerialBalance(l, a, b, y, t);
    assert Balance(GuardedFrom(m, a, 1), y, t) == bal + a.amount;
  }

  lemma PaidBackSchedule(l: Accounts, a: Job, b: Job)
    requires Covered(l, a) && Covered(l, b) && a.kind == b.kind == Guarded
    ensures var l2 := AfterSet(UpTo(l, a, 1), ReadOnce(l, b), 0).0;
            CanLeave(l, a, b, GuardedFrom(GuardedFrom(l2, b, 1), a, 1))
  {
    var l1 := UpTo(l, a, 1);
    var m := GuardedFrom(AfterSet(l1, ReadOnce(l, b), 0).0, b, 1);
    FirstDebits(l, a, b);
    var ta := Midway(l, a, 1);
    GuardedResumes(l1, ReadOnce(l, b), 0);
    var tb: Thread :| Reaches(l1, ReadOnce(l, b), m, tb) && tb.Done();
    SecondGoesOn(l, a, b, System(l1, ta, ReadOnce(l, b)), m, tb);
    GuardedEnds(m, ta, 1);
    FirstEnds(l, a, b, System(m, ta, tb), GuardedFrom(m, a, 1));
  }

  /** A stale job that ends with the sender's balance as it read it, after a's debit, keeps the debited balance. */
  lemma PickedUpClash(l: Accounts, a: Job, b: Job)
    requires Covered(l, a) && Covered(l, b) && OnePurse(a, b) && Joint(l, a, b)
    requires b.kind == Stale && Effect(a, a.from) == Effect(b, b.from) == 0
    ensures Anomalous(l, a, b)
  {
    var y, t, l1 := a.from, a.token, UpTo(l, a, 1);
    var bals := ReadAll(l1, l, b).bals;
    PickedUpSchedule(l, a, b);
    var m: Accounts :| CanLeave(l, a, b, WriteFrom(m, b, bals, 0));
    var end := WriteFrom(m, b, bals, 0);
    var k := LastAt(b, y, 0).value;
    WrittenBalance(m, b, bals, 0, y, t);
    ReadBalance(l1, b, ReadOnce(l, b).bals, 1, k);
    DebitedBalance(l, a);
    SerialBalance(l, a, b, y, t);
    assert Balance(end, y, t) == Balance(l, y, t) - a.amount;
  }

  /** The first job ends, whatever it leaves, and then the second, which has read everything, writes. */
  lemma WritesLast(l: Accounts, a: Job, b: Job, l1: Accounts, ta: Thread, tb: Thread)
    requires Leads(l, a, b, System(l1, ta, tb)) && tb.job == b && b.kind == Stale && tb.pc == b.Slots()
    ensures exists m: Accounts :: CanLeave(l, a, b, WriteFrom(m, b, tb.bals, 0))
  {
    FirstCanFinish(l, a, b, System(l1, ta, tb));
    var s: System :| Leads(l, a, b, s) && s.a.Done() && s.b == tb;
    StaleWrites(s.l, tb, 0);
    SecondEnds(l, a, b, s, WriteFrom(s.l, b, tb.bals, 0));
  }

  /** A stale job that has read its sender's balance on l, and the others on m. */
  function ReadAll(m: Accounts, l: Accounts, job: Job): Thread {
    ReadOnce(l, job).(bals := ReadFrom(m, job, ReadOnce(l, job).bals, 1), pc := job.Slots())
  }

  lemma ReachesReadAll(m: Accounts, l: Accounts, job: Job)
    requires job.kind == Stale
    ensures Reaches(m, ReadOnce(l, job), m, ReadAll(m, l, job))
  {
    StaleReads(m, ReadOnce(l, job));
  }

  lemma PickedUpSchedule(l: Accounts, a: Job, b: Job)
    requires Covered(l, a) && Covered(l, b) && b.kind == Stale
    ensures exists m: Accounts :: CanLeave(l, a, b, WriteFrom(m, b, ReadAll(UpTo(l, a, 1), l, b).bals, 0))
  {
    var l1 := UpTo(l, a, 1);
    var tb := ReadAll(l1, l, b);
    FirstDebits(l, a, b);
    var ta := Midway(l, a, 1);
    ReachesReadAll(l1, l, b);
    SecondGoesOn(l, a, b, System(l1, ta, ReadOnce(l, b)), l1, tb);
    WritesLast(l, a, b, l1, ta, tb);
  }

  /** What job b leaves when it has read its sender's balance on l and goes on from m. */
  function ResumedOnce(m: Accounts, l: Accounts, b: Job): Accounts {
    match b.kind
    case Guarded => GuardedFrom(AfterSet(m, ReadOnce(l, b), 0).0, b, 1)
    case Stale => WriteFrom(m, b, ReadFrom(m, b, ReadOnce(l, b).bals, 1), 0)
  }

  /** The second job reads once, the first runs whole, the second goes on. */
  lemma ReadTooEarly(l: Accounts, a: Job, b: Job)
    requires Covered(l, a) && Covered(l, b)
    ensures CanLeave(l, a, b, ResumedOnce(Atomic(l, a), l, b))
  {
    var m := Atomic(l, a);
    SecondReadsOnce(l, a, b);
    EndsInAtomic(l, a);
    var ta: Thread :| Reaches(l, Start(a), m, ta) && ta.Done();
    FirstGoesOn(l, a, b, System(l, Start(a), ReadOnce(l, b)), m, ta);
    if b.kind == Guarded {
      GuardedResumes(m, ReadOnce(l, b), 0);
    } else {
      StaleResumes(m, ReadOnce(l, b));
    }
    SecondEnds(l, a, b, System(m, ta, ReadOnce(l, b)), ResumedOnce(m, l, b));
  }

  /** Unless it is stale and pays its own sender, the resumed job adds its effect to what it read, or finds. */
  lemma ResumedBalance(m: Accounts, l: Accounts, b: Job, x: Address)
    requires b.kind == Guarded || LastAt(b, b.from, 1).None?
    ensures Balance(ResumedOnce(m, l, b), x, b.token)
         == Balance(if x == b.from then l else m, x, b.token) + Effect(b, x)
  {
    if b.kind == Guarded {
      GuardedBalance(AfterSet(m, ReadOnce(l, b), 0).0, b, 1, x, b.token);
    } else {
      var bals := ReadFrom(m, b, ReadOnce(l, b).bals, 1);
      WrittenBalance(m, b, bals, 0, x, b.token);
      var last := LastAt(b, x, 0);
      if last.Some? {
        ReadBalance(m, b, ReadOnce(l, b).bals, 1, last.value);
      }
    }
  }

  /** A job that in the end takes from its sender gives to somebody else. */
  ghost predicate Gives(job: Job) {
    Effect(job, job.from) < 0 ==> exists z :: z != job.from && Effect(job, z) != 0
  }

  /** The purse cannot pay for both when a goes first, yet b, having read too early, is paid as well. */
  lemma OverdrawnClash(l: Accounts, a: Job, b: Job)
    requires Covered(l, a) && Covered(l, b) && Gives(a) && Gives(b) && OnePurse(a, b)
    requires !Accepts(Atomic(l, a), b) && (b.kind == Guarded || LastAt(b, b.from, 1).None?)
    ensures Anomalous(l, a, b)
  {
    var y, t := a.from, a.token;
    var end := ResumedOnce(Atomic(l, a), l, b);
    ReadTooEarly(l, a, b);
    AtomicBalance(l, a, y, t);
    ResumedBalance(Atomic(l, a), l, b, y);
    assert Effect(a, y) < 0;
    assert end != Atomic(l, a) by {
      if Effect(b, y) == Effect(a, y) {
        var z :| z != y && Effect(b, z) != 0;
        ResumedBalance(Atomic(l, a), l, b, z);
      }
    }
    assert end != Atomic(Atomic(l, b), a) by {
      AtomicBalance(l, b, y, t);
      AtomicBalance(Atomic(l, b), a, y, t);
      if !Accepts(Atomic(l, b), a) {
        var z :| z != y && Effect(a, z) != 0;
        ResumedBalance(Atomic(l, a), l, b, z);
        AtomicBalance(l, a, z, t);
        AtomicBalance(l, b, z, t);
      }
    }
  }

  /** A stale job that pays its own sender reads everything first, and so undoes the other's debit. */
  lemma UndoneClash(l: Accounts, a: Job, b: Job)
    requires Covered(l, a) && Covered(l, b) && NonNegativePayouts(b) && OnePurse(a, b) && Effect(a, a.from) < 0
    requires b.kind == Stale && LastAt(b, b.from, 1).Some?
    ensures Anomalous(l, a, b)
  {
    var y, t, m := a.from, a.token, Atomic(l, a);
    var bals := ReadFrom(l, b, map[], 0);
    var end := WriteFrom(m, b, bals, 0);
    ReadsAllTooEarly(l, a, b);
    WrittenBalance(m, b, bals, 0, y, t);
    ReadBalance(l, b, map[], 0, LastAt(b, y, 0).value);
    AtomicBalance(l, a, y, t);
    AtomicBalance(l, b, y, t);
    AtomicBalance(Atomic(l, a), b, y, t);
    AtomicBalance(Atomic(l, b), a, y, t);
  }

  lemma ReadsAllTooEarly(l: Accounts, a: Job, b: Job)
    requires Covered(l, a) && Covered(l, b) && b.kind == Stale
    ensures CanLeave(l, a, b, WriteFrom(Atomic(l, a), b, ReadFrom(l, b, map[], 0), 0))
  {
    var m := Atomic(l, a);
    var tb := Start(b).(bals := ReadFrom(l, b, map[], 0), pc := b.Slots());
    LeadsStart(l, a, b);
    StaleReads(l, Start(b));
    SecondGoesOn(l, a, b, Begin(l, a, b), l, tb);
    EndsInAtomic(l, a);
    var ta: Thread :| Reaches(l, Start(a), m, ta) && ta.Done();
    FirstGoesOn(l, a, b, System(l, Start(a), tb), m, ta);
    StaleWrites(m, tb, 0);
    SecondEnds(l, a, b, System(m, ta, tb), WriteFrom(m, b, tb.bals, 0));
  }

  /** The purse cannot pay for both when a goes first. */
  lemma StarvedClash(l: Accounts, a: Job, b: Job)
    requires Covered(l, a) && Covered(l, b) && NonNegativePayouts(b) && Gives(a) && Gives(b)
    requires OnePurse(a, b) && !Accepts(Atomic(l, a), b)
    ensures Anomalous(l, a, b)
  {
    AtomicBalance(l, a, a.from, a.token);
    if b.kind == Guarded || LastAt(b, b.from, 1).None? {
      OverdrawnClash(l, a, b);
    } else {
      UndoneClash(l, a, b);
    }
  }

  lemma OnePurseClash(l: Accounts, a: Job, b: Job)
    requires Covered(l, a) && Covered(l, b) && NonNegativePayouts(a) && NonNegativePayouts(b) && OnePurse(a, b)
    requires Joint(l, a, b) || (Gives(a) && Gives(b))
    ensures Anomalous(l, a, b)
  {
    PursesAreTouched(a);
    PursesAreTouched(b);
    if !Accepts(Atomic(l, a), b) {
      StarvedClash(l, a, b);
    } else if !Accepts(Atomic(l, b), a) {
      StarvedClash(l, b, a);
      AnomalyIsSymmetric(l, a, b);
    } else if Effect(a, a.from) != 0 {
      EraseClash(l, a, b, a.from);
    } else if Effect(b, a.from) != 0 {
      EraseClash(l, b, a, a.from);
      AnomalyIsSymmetric(l, a, b);
    } else if b.kind == Stale {
      PickedUpClash(l, a, b);
    } else if a.kind == Stale {
      PickedUpClash(l, b, a);
      AnomalyIsSymmetric(l, a, b);
    } else {
      PaidBackClash(l, a, b);
    }
  }

  // ---------------------------------------------------------------------------------------------
  // The exact condition
  // ---------------------------------------------------------------------------------------------

  lemma ConflictIsAnomalous(l: Accounts, a: Job, b: Job)
    requires Covered(l, a) && Covered(l, b) && NonNegativePayouts(a) && NonNegativePayouts(b) && Conflict(a, b)
    requires Joint(l, a, b) || (Gives(a) && Gives(b))
    ensures Anomalous(l, a, b)
  {
    if OnePurse(a, b) {
      OnePurseClash(l, a, b);
    } else {
      OthersDoNotTake(l, a, b);
      OthersDoNotTake(l, b, a);
      JointClash(l, a, b);
    }
  }

  /**
   * For covered jobs of any kinds, tokens and numbers of payouts: some schedule completes outside both serial
   * orders exactly when the jobs share an account that one of them changes. When one purse cannot pay for both,
   * this asks that the jobs give what they take to somebody.
   */
  lemma AnomalousIffConflict(l: Accounts, a: Job, b: Job)
    requires Covered(l, a) && Covered(l, b) && NonNegativePayouts(a) && NonNegativePayouts(b)
    requires Joint(l, a, b) || (Gives(a) && Gives(b))
    ensures Anomalous(l, a, b) <==> Conflict(a, b)
  {
    if Conflict(a, b) {
      ConflictIsAnomalous(l, a, b);
    } else if Anomalous(l, a, b) {
      var end :| CanLeave(l, a, b, end) && end != Atomic(Atomic(l, a), b) && end != Atomic(Atomic(l, b), a);
      InterleavingIsSerial(l, a, b, end);
    }
  }
}
