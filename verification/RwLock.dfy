/**
 The read-write spin lock that guards the chunk (`ReadWriteSpinlock`), one
 atomic access per step, for any number of threads. `data` stands for
 everything the lock protects: a writer may change it step by step inside its
 section, and a reader remembers what it saw on entry.
 */
module RwLock {

  const WRITE_LOCKED: nat := 0x8000_0000
  const WORD: nat := 0x1_0000_0000

  datatype Thread =
    | Outside
    | WantsRead(seen: nat)      // last value of the state word it loaded
    | Reading(entry: int)       // holds a read lock; data as it was on entry
    | WantsWrite(seen: nat)
    | Writing

  datatype State = State(word: nat, threads: seq<Thread>, data: int)

  function Init(n: nat, data: int): State {
    State(0, seq(n, _ => Outside), data)
  }

  datatype Step =
    | LoadForRead(t: nat)
    | CasRead(t: nat)           // won
    | CasReadLost(t: nat)       // lost or spurious: the loaded value is refreshed
    | UnlockRead(t: nat)
    | LoadForWrite(t: nat)
    | CasWrite(t: nat)
    | CasWriteLost(t: nat)
    | UnlockWrite(t: nat)
    | Store(t: nat, d: int)     // a writer changes the protected data

  predicate Enabled(s: State, step: Step) {
    match step
    case LoadForRead(t) => t < |s.threads| && (s.threads[t].Outside? || s.threads[t].WantsRead?)
    case CasRead(t) =>
      && t < |s.threads| && s.threads[t].WantsRead?
      && s.threads[t].seen < WRITE_LOCKED && s.word == s.threads[t].seen
    case CasReadLost(t) => t < |s.threads| && s.threads[t].WantsRead? && s.threads[t].seen < WRITE_LOCKED
    case UnlockRead(t) => t < |s.threads| && s.threads[t].Reading?
    case LoadForWrite(t) => t < |s.threads| && (s.threads[t].Outside? || s.threads[t].WantsWrite?)
    case CasWrite(t) => t < |s.threads| && s.threads[t].WantsWrite? && s.threads[t].seen == 0 && s.word == 0
    case CasWriteLost(t) => t < |s.threads| && s.threads[t].WantsWrite? && s.threads[t].seen == 0
    case UnlockWrite(t) => t < |s.threads| && s.threads[t].Writing?
    case Store(t, d) => t < |s.threads| && s.threads[t].Writing?
  }

  function After(s: State, step: Step): State
    requires Enabled(s, step)
  {
    match step
    case LoadForRead(t) => s.(threads := s.threads[t := WantsRead(s.word)])
    case CasRead(t) => s.(word := (s.threads[t].seen + 1) % WORD, threads := s.threads[t := Reading(s.data)])
    case CasReadLost(t) => s.(threads := s.threads[t := WantsRead(s.word)])
    case UnlockRead(t) => s.(word := (s.word + WORD - 1) % WORD, threads := s.threads[t := Outside])
    case LoadForWrite(t) => s.(threads := s.threads[t := WantsWrite(s.word)])
    case CasWrite(t) => s.(word := WRITE_LOCKED, threads := s.threads[t := Writing])
    case CasWriteLost(t) => s.(threads := s.threads[t := WantsWrite(s.word)])
    case UnlockWrite(t) => s.(word := s.word % WRITE_LOCKED, threads := s.threads[t := Outside])
    case Store(t, d) => s.(data := d)
  }

  function Readers(s: State): set<nat> {
    set t: nat | t < |s.threads| && s.threads[t].Reading?
  }

  function Writers(s: State): set<nat> {
    set t: nat | t < |s.threads| && s.threads[t].Writing?
  }

  // The state word is the number of readers, or the write bit.
  ghost predicate Inv(s: State) {
    && (Writers(s) == {} ==> s.word == |Readers(s)| <= WRITE_LOCKED)
    && (Writers(s) != {} ==> |Writers(s)| == 1 && Readers(s) == {} && s.word == WRITE_LOCKED)
    && (forall t :: 0 <= t < |s.threads| && s.threads[t].Reading? ==> s.threads[t].entry == s.data)
  }

  // One thread changes its state.
  lemma OneThread(s: State, s': State, t: nat, x: Thread)
    requires t < |s.threads| && s'.threads == s.threads[t := x]
    ensures Readers(s') == if x.Reading? then Readers(s) + {t} else Readers(s) - {t}
    ensures Writers(s') == if x.Writing? then Writers(s) + {t} else Writers(s) - {t}
    ensures t in Readers(s) <==> s.threads[t].Reading?
    ensures t in Writers(s) <==> s.threads[t].Writing?
  {
  }

  lemma CasReadOk(s: State, t: nat)
    requires Inv(s) && Enabled(s, CasRead(t))
    ensures Inv(After(s, CasRead(t)))
  {
    OneThread(s, After(s, CasRead(t)), t, Reading(s.data));
    assert |Readers(s) + {t}| == |Readers(s)| + 1;
  }

  lemma UnlockReadOk(s: State, t: nat)
    requires Inv(s) && Enabled(s, UnlockRead(t))
    ensures Inv(After(s, UnlockRead(t)))
  {
    OneThread(s, After(s, UnlockRead(t)), t, Outside);
    assert |Readers(s) - {t}| == |Readers(s)| - 1;
  }

  lemma CasWriteOk(s: State, t: nat)
    requires Inv(s) && Enabled(s, CasWrite(t))
    ensures Inv(After(s, CasWrite(t)))
  {
    OneThread(s, After(s, CasWrite(t)), t, Writing);
    assert Writers(s) == {} && Readers(s) == {};
    assert forall x: nat :: x < |s.threads| && s.threads[x].Reading? ==> x in Readers(s);
  }

  lemma UnlockWriteOk(s: State, t: nat)
    requires Inv(s) && Enabled(s, UnlockWrite(t))
    ensures Inv(After(s, UnlockWrite(t)))
  {
    OneThread(s, After(s, UnlockWrite(t)), t, Outside);
    OnlyOne(Writers(s), t);
  }

  lemma StoreOk(s: State, t: nat, d: int)
    requires Inv(s) && Enabled(s, Store(t, d))
    ensures Inv(After(s, Store(t, d)))
  {
    var s' := After(s, Store(t, d));
    assert t in Writers(s);
    assert Writers(s') == Writers(s) && Readers(s') == Readers(s);
    assert forall x: nat :: x < |s.threads| && s.threads[x].Reading? ==> x in Readers(s);
  }

  lemma OnlyOne(a: set<nat>, t: nat)
    requires |a| == 1 && t in a
    ensures a == {t}
  {
    assert |a - {t}| == 0;
  }

  lemma StepOk(s: State, step: Step)
    requires Inv(s) && Enabled(s, step)
    ensures Inv(After(s, step)) && |After(s, step).threads| == |s.threads|
  {
    var s' := After(s, step);
    match step {
      case CasRead(t) => CasReadOk(s, t);
      case UnlockRead(t) => UnlockReadOk(s, t);
      case CasWrite(t) => CasWriteOk(s, t);
      case UnlockWrite(t) => UnlockWriteOk(s, t);
      case Store(t, d) => StoreOk(s, t, d);
      case _ => assert Writers(s') == Writers(s) && Readers(s') == Readers(s);
    }
  }

  ghost predicate Next(s: State, s': State) {
    exists step :: Enabled(s, step) && s' == After(s, step)
  }

  // The run takes a step at i.
  ghost predicate StepAt(run: seq<State>, i: nat) {
    i + 1 < |run| && Next(run[i], run[i + 1])
  }

  ghost predicate IsRun(n: nat, data: int, run: seq<State>) {
    && |run| > 0 && run[0] == Init(n, data)
    && forall i :: 0 <= i < |run| - 1 ==> StepAt(run, i)
  }

  lemma {:induction false} RunOk(n: nat, data: int, run: seq<State>, i: nat)
    requires IsRun(n, data, run) && i < |run|
    ensures Inv(run[i])
  {
    if i == 0 {
      assert Readers(run[0]) == {} && Writers(run[0]) == {};
    } else {
      RunOk(n, data, run, i - 1);
      assert StepAt(run, i - 1);
      var step :| Enabled(run[i - 1], step) && run[i] == After(run[i - 1], step);
      StepOk(run[i - 1], step);
    }
  }

  // In every run, for any number of threads: a writer is alone, whatever a
  // reader saw on entry stays true until it leaves, and the state word counts
  // the readers or carries the write bit.
  lemma Exclusion(n: nat, data: int, run: seq<State>, i: nat, t: nat, u: nat)
    requires IsRun(n, data, run) && i < |run| && t < |run[i].threads| && u < |run[i].threads| && t != u
    ensures run[i].threads[t].Writing? ==> !run[i].threads[u].Writing? && !run[i].threads[u].Reading?
    ensures run[i].threads[t].Reading? ==> run[i].threads[t].entry == run[i].data
    ensures run[i].word == |Readers(run[i])| + (if Writers(run[i]) == {} then 0 else WRITE_LOCKED)
  {
    RunOk(n, data, run, i);
    var s := run[i];
    if s.threads[t].Writing? {
      assert t in Writers(s);
      OnlyOne(Writers(s), t);
      assert u !in Writers(s) && u !in Readers(s);
    }
  }

  // In every run, a thread whose view of the state word is up to date gets the read
  // lock exactly when nobody writes and the word has room for one more reader,
  // however many read already, and the write lock exactly when nobody is inside.
  lemma Admission(n: nat, data: int, run: seq<State>, i: nat, t: nat)
    requires IsRun(n, data, run) && i < |run| && t < |run[i].threads|
    ensures run[i].threads[t] == WantsRead(run[i].word) ==>
              (Enabled(run[i], CasRead(t)) <==> Writers(run[i]) == {} && |Readers(run[i])| < WRITE_LOCKED)
    ensures run[i].threads[t] == WantsWrite(run[i].word) ==>
              (Enabled(run[i], CasWrite(t)) <==> Writers(run[i]) == {} && Readers(run[i]) == {})
  {
    RunOk(n, data, run, i);
  }

  // A lost exchange looks at the state word again.
  lemma LostLooksAgain(s: State, t: nat)
    ensures Enabled(s, CasReadLost(t)) ==> After(s, CasReadLost(t)).threads[t] == WantsRead(s.word)
    ensures Enabled(s, CasWriteLost(t)) ==> After(s, CasWriteLost(t)).threads[t] == WantsWrite(s.word)
    ensures t < |s.threads| && s.threads[t].WantsRead? ==> Enabled(s, LoadForRead(t))
    ensures t < |s.threads| && s.threads[t].WantsWrite? ==> Enabled(s, LoadForWrite(t))
  {
  }

  // Entering and leaving, without another thread in between: the reader or writer
  // is in, everybody else is where they were, and after leaving so is the lock.
  lemma EnterAndLeave(s: State, t: nat)
    requires Inv(s) && t < |s.threads| && s.threads[t].Outside? && Writers(s) == {}
    ensures |Readers(s)| < WRITE_LOCKED ==>
              && var want := After(s, LoadForRead(t));
              && Enabled(want, CasRead(t))
              && var inside := After(want, CasRead(t));
              && inside.threads == s.threads[t := Reading(s.data)] && Enabled(inside, UnlockRead(t))
              && After(inside, UnlockRead(t)) == s
    ensures Readers(s) == {} ==>
              && var want := After(s, LoadForWrite(t));
              && Enabled(want, CasWrite(t))
              && var inside := After(want, CasWrite(t));
              && inside.threads == s.threads[t := Writing] && Enabled(inside, UnlockWrite(t))
              && After(inside, UnlockWrite(t)) == s
  {
  }
}
