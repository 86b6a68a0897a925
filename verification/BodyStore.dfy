/** The body store: put and delete goroutines that serialize on one mutex, readers
    that take no lock at all, and a terminal `removeAll` that sets `closed`, waits
    for the goroutines and removes the directory.

    `Apply` gives the state after one atomic step of one goroutine, or None when the
    step is not enabled; file system calls may fail where the source lets them. */
module BodyStore {
  import opened Prelude
  import opened BodyBudget

  function FinalName(id: string): string { id + ".json" }

  function TmpName(id: string): string { FinalName(id) + ".tmp" }

  lemma {:induction false} FileNames(id: string, other: string)
    ensures IsBody(FinalName(id)) && !IsBody(TmpName(id))
    ensures FinalName(id) == FinalName(other) ==> id == other
    ensures TmpName(id) == TmpName(other) ==> id == other
    ensures FinalName(id) != TmpName(other)
  {
    assert FinalName(id)[|id|..] == ".json" && FinalName(id)[..|id|] == id;
    assert FinalName(other)[..|other|] == other;
    assert TmpName(id)[|TmpName(id)| - 1] == 'p' && TmpName(other)[|TmpName(other)| - 1] == 'p';
    assert FinalName(id)[|FinalName(id)| - 1] == 'n';
    assert TmpName(id)[..|FinalName(id)|] == FinalName(id) && TmpName(other)[..|FinalName(other)|] == FinalName(other);
    assert TmpName(id)[|TmpName(id)| - 5..][4] == 'p';
  }

  // ----- State -----

  type WorkerId = nat

  datatype Job = Put(id: string, payload: Bytes) | Delete(id: string)

  /** One put or delete goroutine; the mutex is held from Entered to Leaving. */
  datatype Phase = Queued | Entered | DirMade | Staged | Published | Leaving | Finished

  datatype Worker = Worker(job: Job, phase: Phase)

  /** One removeAll call; the mutex is held while Locked or Wiped. */
  datatype Shred = Marked | Waited | Locked | Wiped(complete: bool) | Returned(complete: bool)

  datatype Holder = Free | ByWorker(w: WorkerId) | ByShred(r: WorkerId)

  datatype State = State(
    closed: bool,
    holder: Holder,
    workers: map<WorkerId, Worker>,
    shreds: map<WorkerId, Shred>,
    files: Dir,
    dirExists: bool,
    clock: nat,
    faulty: bool,                  // some eviction hit an I/O error
    puts: set<(string, Bytes)>)    // every put issued so far

  const INIT: State := State(false, Free, map[], map[], map[], false, 0, false, {})

  // ----- Steps -----

  datatype Step =
    | IssuePut(w: WorkerId, id: string, payload: Bytes)
    | IssueDelete(w: WorkerId, id: string)
    | Enter(w: WorkerId)
    | MakeDir(w: WorkerId, ok: bool)
    | WriteSome(w: WorkerId, n: nat)
    | WriteAll(w: WorkerId, ok: bool)
    | Rename(w: WorkerId, ok: bool, tmpRemoved: bool)
    | Evict(w: WorkerId, order: seq<string>, k: nat)
    | EvictWithFaults(w: WorkerId, gone: set<string>)
    | RemoveBody(w: WorkerId, ok: bool)
    | Leave(w: WorkerId)
    | MarkClosed(r: WorkerId)
    | WaitWorkers(r: WorkerId)
    | LockForWipe(r: WorkerId)
    | Wipe(r: WorkerId, complete: bool, gone: set<string>)
    | ReturnFrom(r: WorkerId)

  predicate InCritical(ph: Phase) { ph != Queued && ph != Finished }

  predicate Writing(ph: Phase) { InCritical(ph) && ph != Leaving }

  predicate At(s: State, w: WorkerId, ph: Phase) {
    w in s.workers && s.workers[w].phase == ph
  }

  predicate PutAt(s: State, w: WorkerId, ph: Phase) {
    At(s, w, ph) && s.workers[w].job.Put?
  }

  function Move(s: State, w: WorkerId, ph: Phase): State
    requires w in s.workers
  {
    s.(workers := s.workers[w := s.workers[w].(phase := ph)], clock := s.clock + 1)
  }

  predicate AllFinished(s: State) {
    forall w | w in s.workers :: s.workers[w].phase == Finished
  }

  ghost function ApplyIssue(s: State, t: Step): Option<State> {
    match t
    case IssuePut(w, id, payload) =>
      if w in s.workers then None
      else Some(s.(workers := s.workers[w := Worker(Put(id, payload), Queued)], puts := s.puts + {(id, payload)}))
    case IssueDelete(w, id) =>
      if w in s.workers then None
      else Some(s.(workers := s.workers[w := Worker(Delete(id), Queued)]))
    case Enter(w) =>
      if At(s, w, Queued) && s.holder == Free
      then Some(Move(s, w, if s.closed then Leaving else Entered).(holder := ByWorker(w))) else None
    case Leave(w) =>
      if At(s, w, Leaving) then Some(Move(s, w, Finished).(holder := Free)) else None
    case RemoveBody(w, ok) =>
      if At(s, w, Entered) && s.workers[w].job.Delete?
      then Some(Move(s, w, Leaving).(files := if ok then s.files - {FinalName(s.workers[w].job.id)} else s.files))
      else None
    case _ => None
  }

  /** Where a put goroutine goes next and what it does to the directory. */
  datatype Effect = Effect(next: Phase, files: Dir, dirExists: bool, faulty: bool)

  ghost function PutEffect(s: State, budget: int, w: WorkerId, t: Step): (e: Option<Effect>)
    requires w in s.workers && s.workers[w].job.Put?
    ensures e.Some? ==> InCritical(s.workers[w].phase) && InCritical(e.value.next)
  {
    var Worker(job, phase) := s.workers[w];
    var tmp, final := TmpName(job.id), FinalName(job.id);
    match t
    case MakeDir(_, ok) =>
      if phase != Entered then None
      else if ok then Some(Effect(DirMade, s.files, true, s.faulty))
      else Some(Effect(Leaving, s.files, s.dirExists, s.faulty))
    case WriteSome(_, n) =>
      if phase != DirMade || n > |job.payload| then None
      else Some(Effect(DirMade, s.files[tmp := File(job.payload[..n], s.clock)], s.dirExists, s.faulty))
    case WriteAll(_, ok) =>
      if phase != DirMade then None
      else if ok then Some(Effect(Staged, s.files[tmp := File(job.payload, s.clock)], s.dirExists, s.faulty))
      else Some(Effect(Leaving, s.files, s.dirExists, s.faulty))
    case Rename(_, ok, tmpRemoved) =>
      if phase != Staged || tmp !in s.files then None
      else if ok then Some(Effect(Published, (s.files - {tmp})[final := s.files[tmp]], s.dirExists, s.faulty))
      else Some(Effect(Leaving, if tmpRemoved then s.files - {tmp} else s.files, s.dirExists, s.faulty))
    case Evict(_, order, k) =>
      if phase != Published then None
      else if budget <= 0 then Some(Effect(Leaving, s.files, s.dirExists, s.faulty))
      else if Queue(s.files, Bodies(s.files), order) && k <= |order| && ShortestPrefix(s.files, order, k, budget)
      then Some(Effect(Leaving, s.files - Names(order[..k]), s.dirExists, s.faulty))
      else None
    case EvictWithFaults(_, gone) =>
      if phase != Published || budget <= 0 then None
      else Some(Effect(Leaving, s.files - gone * Bodies(s.files), s.dirExists, true))
    case _ => None
  }

  ghost function ApplyPut(s: State, budget: int, w: WorkerId, t: Step): Option<State> {
    if !(w in s.workers && s.workers[w].job.Put?) then None
    else match PutEffect(s, budget, w, t)
         case None => None
         case Some(e) => Some(Move(s, w, e.next).(files := e.files, dirExists := e.dirExists, faulty := e.faulty))
  }

  ghost function ApplyShred(s: State, t: Step): Option<State> {
    match t
    case MarkClosed(r) =>
      if r !in s.shreds && s.holder == Free
      then Some(s.(closed := true, shreds := s.shreds[r := Marked])) else None
    case WaitWorkers(r) =>
      if r in s.shreds && s.shreds[r] == Marked && AllFinished(s)
      then Some(s.(shreds := s.shreds[r := Waited])) else None
    case LockForWipe(r) =>
      if r in s.shreds && s.shreds[r] == Waited && s.holder == Free
      then Some(s.(shreds := s.shreds[r := Locked], holder := ByShred(r))) else None
    case Wipe(r, complete, gone) =>
      if !(r in s.shreds && s.shreds[r] == Locked) then None
      else if complete then Some(s.(shreds := s.shreds[r := Wiped(true)], files := map[], dirExists := false))
      else Some(s.(shreds := s.shreds[r := Wiped(false)], files := s.files - gone))
    case ReturnFrom(r) =>
      if r in s.shreds && s.shreds[r].Wiped?
      then Some(s.(shreds := s.shreds[r := Returned(s.shreds[r].complete)], holder := Free)) else None
    case _ => None
  }

  ghost function Apply(s: State, budget: int, t: Step): Option<State> {
    match t
    case IssuePut(_, _, _) => ApplyIssue(s, t)
    case IssueDelete(_, _) => ApplyIssue(s, t)
    case Enter(_) => ApplyIssue(s, t)
    case Leave(_) => ApplyIssue(s, t)
    case RemoveBody(_, _) => ApplyIssue(s, t)
    case MarkClosed(_) => ApplyShred(s, t)
    case WaitWorkers(_) => ApplyShred(s, t)
    case LockForWipe(_) => ApplyShred(s, t)
    case Wipe(_, _, _) => ApplyShred(s, t)
    case ReturnFrom(_) => ApplyShred(s, t)
    case _ => ApplyPut(s, budget, t.w, t)
  }

  ghost function Run(s: State, budget: int, steps: seq<Step>): Option<State>
    decreases |steps|
  {
    if steps == [] then Some(s)
    else match Apply(s, budget, steps[0])
         case None => None
         case Some(s') => Run(s', budget, steps[1..])
  }

  // ----- Invariants -----

  /** The mutex has exactly the holder whose phase says so. */
  ghost predicate MutexHeld(s: State) {
    && (forall w :: s.holder == ByWorker(w) <==> w in s.workers && InCritical(s.workers[w].phase))
    && (forall r :: s.holder == ByShred(r) <==> r in s.shreds && (s.shreds[r].Locked? || s.shreds[r].Wiped?))
  }

  /** Once closed, nobody is between the closed check and the end of a write. */
  ghost predicate QuietWhenClosed(s: State) {
    && (s.closed ==> forall w | w in s.workers :: !Writing(s.workers[w].phase))
    && (s.shreds != map[] ==> s.closed)
  }

  ghost predicate JobsKnown(s: State) {
    forall w | w in s.workers && s.workers[w].job.Put? :: (s.workers[w].job.id, s.workers[w].job.payload) in s.puts
  }

  ghost predicate StagedWhole(s: State) {
    forall w | PutAt(s, w, Staged) ::
      TmpName(s.workers[w].job.id) in s.files && s.files[TmpName(s.workers[w].job.id)].data == s.workers[w].job.payload
  }

  /** A body file is always the complete payload of some put of its id. */
  ghost predicate BodiesComplete(s: State) {
    && JobsKnown(s) && StagedWhole(s)
    && (forall id | FinalName(id) in s.files :: (id, s.files[FinalName(id)].data) in s.puts)
  }

  ghost predicate WipedEmpty(s: State) {
    && (forall r | r in s.shreds && (s.shreds[r] == Wiped(true) || s.shreds[r] == Returned(true)) ::
          s.files == map[] && !s.dirExists)
  }

  /** Between put critical sections the bodies fit the budget. */
  ghost predicate BudgetKept(s: State, budget: int) {
    s.faulty || (exists w :: PutAt(s, w, Published)) || WithinBudget(s.files, budget)
  }

  ghost predicate Inv(s: State, budget: int) {
    MutexHeld(s) && QuietWhenClosed(s) && BodiesComplete(s) && WipedEmpty(s) && BudgetKept(s, budget)
  }

  lemma {:induction false} IssueKeepsMutex(s: State, t: Step)
    requires MutexHeld(s) && ApplyIssue(s, t).Some?
    ensures MutexHeld(ApplyIssue(s, t).value)
  {
  }

  lemma {:induction false} PutKeepsMutex(s: State, budget: int, w: WorkerId, t: Step)
    requires MutexHeld(s) && ApplyPut(s, budget, w, t).Some?
    ensures MutexHeld(ApplyPut(s, budget, w, t).value)
  {
    hide PutEffect;
  }

  lemma {:induction false} ShredKeepsMutex(s: State, t: Step)
    requires MutexHeld(s) && ApplyShred(s, t).Some?
    ensures MutexHeld(ApplyShred(s, t).value)
  {
    hide AllFinished;
  }

  lemma {:induction false} IssueKeepsQuiet(s: State, t: Step)
    requires MutexHeld(s) && QuietWhenClosed(s) && ApplyIssue(s, t).Some?
    ensures QuietWhenClosed(ApplyIssue(s, t).value)
  {
  }

  lemma {:induction false} PutKeepsQuiet(s: State, budget: int, w: WorkerId, t: Step)
    requires MutexHeld(s) && QuietWhenClosed(s) && ApplyPut(s, budget, w, t).Some?
    ensures QuietWhenClosed(ApplyPut(s, budget, w, t).value)
  {
  }

  lemma {:induction false} ShredKeepsQuiet(s: State, t: Step)
    requires MutexHeld(s) && QuietWhenClosed(s) && ApplyShred(s, t).Some?
    ensures QuietWhenClosed(ApplyShred(s, t).value)
  {
  }

  /** `s'` has no file or directory that `s` had not, and none changed. */
  ghost predicate OnlyRemoves(s: State, s': State) {
    && (s'.dirExists ==> s.dirExists) && s'.files.Keys <= s.files.Keys
    && (forall n | n in s'.files :: s'.files[n] == s.files[n])
  }

  lemma {:induction false} IssueOnlyRemovesOnceClosed(s: State, t: Step)
    requires s.closed && QuietWhenClosed(s) && ApplyIssue(s, t).Some?
    ensures OnlyRemoves(s, ApplyIssue(s, t).value)
  {
  }

  lemma {:induction false} NoPutOnceClosed(s: State, budget: int, w: WorkerId, t: Step)
    requires s.closed && QuietWhenClosed(s)
    ensures ApplyPut(s, budget, w, t) == None
  {
  }

  lemma {:induction false} ShredOnlyRemovesOnceClosed(s: State, t: Step)
    requires s.closed && QuietWhenClosed(s) && ApplyShred(s, t).Some?
    ensures OnlyRemoves(s, ApplyShred(s, t).value)
  {
  }

  /** Once closed, no step creates or changes a file or the directory. */
  lemma {:induction false} ClosedOnlyRemoves(s: State, budget: int, t: Step)
    requires s.closed && QuietWhenClosed(s) && Apply(s, budget, t).Some?
    ensures Apply(s, budget, t).value.closed && OnlyRemoves(s, Apply(s, budget, t).value)
  {
    forall w
      ensures ApplyPut(s, budget, w, t) == None
    {
      NoPutOnceClosed(s, budget, w, t);
    }
    hide QuietWhenClosed, OnlyRemoves;
    if ApplyIssue(s, t).Some? {
      IssueOnlyRemovesOnceClosed(s, t);
    } else if ApplyShred(s, t).Some? {
      ShredOnlyRemovesOnceClosed(s, t);
    }
  }

  lemma {:induction false} ShredKeepsWiped(s: State, t: Step)
    requires WipedEmpty(s) && ApplyShred(s, t).Some?
    ensures WipedEmpty(ApplyShred(s, t).value)
  {
  }

  lemma {:induction false} WipedStaysEmpty(s: State, budget: int, t: Step)
    requires QuietWhenClosed(s) && WipedEmpty(s) && Apply(s, budget, t).Some?
    ensures WipedEmpty(Apply(s, budget, t).value)
  {
    hide QuietWhenClosed;
    if ApplyShred(s, t).Some? {
      ShredKeepsWiped(s, t);
    } else if s.closed {
      ClosedOnlyRemoves(s, budget, t);
    } else {
      ShredsMeanClosed(s);
    }
  }

  lemma {:induction false} ShredsMeanClosed(s: State)
    requires QuietWhenClosed(s)
    ensures s.shreds != map[] ==> s.closed
  {
  }

  lemma {:induction false} AllFileNames()
    ensures forall id, other :: FinalName(id) == FinalName(other) ==> id == other
    ensures forall id, other :: FinalName(id) != TmpName(other)
  {
    forall id, other
      ensures FinalName(id) == FinalName(other) ==> id == other
      ensures FinalName(id) != TmpName(other)
    {
      FileNames(id, other);
    }
  }

  lemma {:induction false} IssueKeepsComplete(s: State, t: Step)
    requires MutexHeld(s) && BodiesComplete(s) && ApplyIssue(s, t).Some?
    ensures BodiesComplete(ApplyIssue(s, t).value)
  {
    hide FinalName, TmpName;
    AllFileNames();
  }

  lemma {:induction false} ShredKeepsComplete(s: State, t: Step)
    requires MutexHeld(s) && BodiesComplete(s) && ApplyShred(s, t).Some?
    ensures BodiesComplete(ApplyShred(s, t).value)
  {
    hide FinalName, TmpName;
  }

  lemma {:induction false} PutKeepsStaged(s: State, budget: int, w: WorkerId, t: Step)
    requires MutexHeld(s) && JobsKnown(s) && StagedWhole(s) && ApplyPut(s, budget, w, t).Some?
    ensures JobsKnown(ApplyPut(s, budget, w, t).value) && StagedWhole(ApplyPut(s, budget, w, t).value)
  {
    hide FinalName, TmpName, Queue, ShortestPrefix;
    var s' := ApplyPut(s, budget, w, t).value;
    assert forall v | PutAt(s', v, Staged) :: v == w;
  }

  lemma {:induction false} PutKeepsComplete(s: State, budget: int, w: WorkerId, t: Step)
    requires MutexHeld(s) && BodiesComplete(s) && ApplyPut(s, budget, w, t).Some?
    ensures BodiesComplete(ApplyPut(s, budget, w, t).value)
  {
    PutKeepsStaged(s, budget, w, t);
    hide FinalName, TmpName, Queue, ShortestPrefix, MutexHeld;
    AllFileNames();
    assert t.Rename? ==> PutAt(s, w, Staged);
  }

  lemma {:induction false} FewerFilesFit(d: Dir, d': Dir, budget: int)
    requires WithinBudget(d, budget)
    requires Bodies(d') <= Bodies(d) && forall n | n in Bodies(d') :: d'[n] == d[n]
    ensures WithinBudget(d', budget)
  {
    SizeOfSame(d', d, Bodies(d'));
    SizeOfMonotone(d, Bodies(d'), Bodies(d));
  }

  lemma {:induction false} PutKeepsBudget(s: State, budget: int, w: WorkerId, t: Step)
    requires BudgetKept(s, budget) && ApplyPut(s, budget, w, t).Some?
    requires forall v | PutAt(s, v, Published) :: v == w
    ensures BudgetKept(ApplyPut(s, budget, w, t).value, budget)
  {
    hide WithinBudget, FinalName, TmpName, IsBody;
    var s' := ApplyPut(s, budget, w, t).value;
    var id := s.workers[w].job.id;
    FileNames(id, id);
    if s'.faulty {
    } else if t.Rename? && t.ok {
      assert PutAt(s', w, Published);
    } else if t.Evict? {
      if budget > 0 {
        EvictionFits(s.files, t.order, t.k, budget, s'.files);
      } else {
        NoBudgetFits(s'.files, budget);
      }
    } else {
      assert Bodies(s'.files) == Bodies(s.files);
      FewerFilesFit(s.files, s'.files, budget);
    }
  }

  lemma {:induction false} NoBudgetFits(d: Dir, budget: int)
    requires budget <= 0
    ensures WithinBudget(d, budget)
  {
  }

  lemma {:induction false} StepKeepsBudget(s: State, budget: int, t: Step)
    requires MutexHeld(s) && BudgetKept(s, budget) && Apply(s, budget, t).Some?
    ensures BudgetKept(Apply(s, budget, t).value, budget)
  {
    var s' := Apply(s, budget, t).value;
    if ApplyIssue(s, t).Some? || ApplyShred(s, t).Some? {
      OthersKeepBudget(s, budget, t);
    } else {
      assert forall v | PutAt(s, v, Published) :: v == t.w by { assert InCritical(s.workers[t.w].phase); }
      PutKeepsBudget(s, budget, t.w, t);
    }
  }

  lemma {:induction false} OthersKeepBudget(s: State, budget: int, t: Step)
    requires BudgetKept(s, budget) && Apply(s, budget, t).Some?
    requires ApplyIssue(s, t).Some? || ApplyShred(s, t).Some?
    ensures BudgetKept(Apply(s, budget, t).value, budget)
  {
    hide WithinBudget, PutEffect, FinalName;
    var s' := Apply(s, budget, t).value;
    assert s'.faulty == s.faulty;
    if v :| PutAt(s, v, Published) {
      assert PutAt(s', v, Published);
    } else if !s.faulty {
      FewerFilesFit(s.files, s'.files, budget);
    }
  }

  lemma {:induction false} StepKeepsComplete(s: State, budget: int, t: Step)
    requires MutexHeld(s) && BodiesComplete(s) && Apply(s, budget, t).Some?
    ensures BodiesComplete(Apply(s, budget, t).value)
  {
    hide BodiesComplete, MutexHeld;
    if ApplyIssue(s, t).Some? {
      IssueKeepsComplete(s, t);
    } else if ApplyShred(s, t).Some? {
      ShredKeepsComplete(s, t);
    } else {
      PutKeepsComplete(s, budget, t.w, t);
    }
  }

  lemma {:induction false} StepKeepsMutex(s: State, budget: int, t: Step)
    requires MutexHeld(s) && QuietWhenClosed(s) && Apply(s, budget, t).Some?
    ensures MutexHeld(Apply(s, budget, t).value) && QuietWhenClosed(Apply(s, budget, t).value)
  {
    hide MutexHeld, QuietWhenClosed;
    if ApplyIssue(s, t).Some? {
      IssueKeepsMutex(s, t);
      IssueKeepsQuiet(s, t);
    } else if ApplyShred(s, t).Some? {
      ShredKeepsMutex(s, t);
      ShredKeepsQuiet(s, t);
    } else {
      PutKeepsMutex(s, budget, t.w, t);
      PutKeepsQuiet(s, budget, t.w, t);
    }
  }

  lemma {:induction false} StepKeepsInv(s: State, budget: int, t: Step)
    requires Inv(s, budget) && Apply(s, budget, t).Some?
    ensures Inv(Apply(s, budget, t).value, budget)
  {
    hide MutexHeld, QuietWhenClosed, BodiesComplete, WipedEmpty, BudgetKept, Apply;
    StepKeepsMutex(s, budget, t);
    StepKeepsComplete(s, budget, t);
    WipedStaysEmpty(s, budget, t);
    StepKeepsBudget(s, budget, t);
  }

  lemma {:induction false} InitInv(budget: int)
    ensures Inv(INIT, budget)
  {
    assert Bodies(INIT.files) == {};
    assert SizeOf(INIT.files, {}) == 0;
  }

  // ----- Main results over whole runs -----

  lemma {:induction false} RunKeepsInv(s: State, budget: int, steps: seq<Step>)
    requires Inv(s, budget) && Run(s, budget, steps).Some?
    ensures Inv(Run(s, budget, steps).value, budget)
    decreases |steps|
  {
    hide Inv, Apply;
    if steps != [] {
      StepKeepsInv(s, budget, steps[0]);
      RunKeepsInv(Apply(s, budget, steps[0]).value, budget, steps[1..]);
    }
  }

  /** A wipe that went through has returned. */
  ghost predicate Shredded(s: State) {
    exists r :: r in s.shreds && s.shreds[r] == Returned(true)
  }

  lemma {:induction false} RunAfterClosed(s: State, budget: int, steps: seq<Step>)
    requires s.closed && Inv(s, budget) && Run(s, budget, steps).Some?
    ensures var s' := Run(s, budget, steps).value;
            s'.closed && Inv(s', budget) && OnlyRemoves(s, s') && (Shredded(s) ==> Shredded(s'))
    decreases |steps|
  {
    if steps != [] {
      var mid := Apply(s, budget, steps[0]).value;
      ShredStays(s, budget, steps[0]);
      hide Apply, Inv, Shredded;
      assert QuietWhenClosed(s) by { InvParts(s, budget); }
      ClosedOnlyRemoves(s, budget, steps[0]);
      StepKeepsInv(s, budget, steps[0]);
      RunAfterClosed(mid, budget, steps[1..]);
    }
  }

  lemma {:induction false} InvParts(s: State, budget: int)
    requires Inv(s, budget)
    ensures QuietWhenClosed(s) && WipedEmpty(s)
  {
  }

  lemma {:induction false} ShredStays(s: State, budget: int, t: Step)
    requires Apply(s, budget, t).Some?
    ensures Shredded(s) ==> Shredded(Apply(s, budget, t).value)
  {
    hide ApplyIssue, ApplyPut, ApplyShred;
    if Shredded(s) {
      var r :| r in s.shreds && s.shreds[r] == Returned(true);
      var s' := Apply(s, budget, t).value;
      if t.MarkClosed? || t.WaitWorkers? || t.LockForWipe? || t.Wipe? || t.ReturnFrom? {
        ReturnStays(s, t, r);
      } else if t.IssuePut? || t.IssueDelete? || t.Enter? || t.Leave? || t.RemoveBody? {
        IssueKeepsShreds(s, t);
      } else {
        PutKeepsShreds(s, budget, t.w, t);
      }
      assert r in s'.shreds && s'.shreds[r] == Returned(true);
    }
  }

  lemma {:induction false} ReturnStays(s: State, t: Step, r: WorkerId)
    requires r in s.shreds && s.shreds[r] == Returned(true) && ApplyShred(s, t).Some?
    ensures var s' := ApplyShred(s, t).value; r in s'.shreds && s'.shreds[r] == Returned(true)
  {
    hide AllFinished;
  }

  lemma {:induction false} IssueKeepsShreds(s: State, t: Step)
    requires ApplyIssue(s, t).Some?
    ensures ApplyIssue(s, t).value.shreds == s.shreds
  {
    hide FinalName;
  }

  lemma {:induction false} PutKeepsShreds(s: State, budget: int, w: WorkerId, t: Step)
    requires ApplyPut(s, budget, w, t).Some?
    ensures ApplyPut(s, budget, w, t).value.shreds == s.shreds
  {
    hide PutEffect;
  }

  /** From the moment `closed` is set, in every interleaving and for every put and
      delete issued before or later, no file or directory appears or changes. */
  lemma {:induction false} NothingWrittenOnceClosed(budget: int, before: seq<Step>, after: seq<Step>)
    requires Run(INIT, budget, before).Some? && Run(INIT, budget, before).value.closed
    requires Run(Run(INIT, budget, before).value, budget, after).Some?
    ensures OnlyRemoves(Run(INIT, budget, before).value, Run(Run(INIT, budget, before).value, budget, after).value)
  {
    hide Inv, Apply, OnlyRemoves;
    InitInv(budget);
    RunKeepsInv(INIT, budget, before);
    RunAfterClosed(Run(INIT, budget, before).value, budget, after);
  }

  /** Once a removeAll whose removal went through has returned, the bodies directory
      is gone and stays gone, whatever is issued afterwards. */
  lemma {:induction false} ShredIsFinal(budget: int, before: seq<Step>, after: seq<Step>)
    requires Run(INIT, budget, before).Some? && Shredded(Run(INIT, budget, before).value)
    requires Run(Run(INIT, budget, before).value, budget, after).Some?
    ensures var s := Run(Run(INIT, budget, before).value, budget, after).value;
            s.files == map[] && !s.dirExists
  {
    var mid := Run(INIT, budget, before).value;
    InitInv(budget);
    RunKeepsInv(INIT, budget, before);
    InvParts(mid, budget);
    assert mid.closed by {
      var r :| r in mid.shreds && mid.shreds[r] == Returned(true);
    }
    RunAfterClosed(mid, budget, after);
    var s := Run(mid, budget, after).value;
    InvParts(s, budget);
    var r :| r in s.shreds && s.shreds[r] == Returned(true);
  }

  /** Whenever no put is between its rename and its eviction, and no eviction ever hit
      an I/O error, the bodies fit the budget. */
  lemma {:induction false} BudgetHoldsBetweenPuts(budget: int, steps: seq<Step>)
    requires Run(INIT, budget, steps).Some?
    ensures var s := Run(INIT, budget, steps).value;
            s.faulty || (exists w :: PutAt(s, w, Published)) || WithinBudget(s.files, budget)
    ensures var s := Run(INIT, budget, steps).value;
            s.holder == Free && !s.faulty ==> WithinBudget(s.files, budget)
  {
    InitInv(budget);
    RunKeepsInv(INIT, budget, steps);
    hide Apply, WithinBudget;
  }

  // ----- The critical sections as the goroutines run them -----

  /** Which of a put's file system calls succeed, and how far a failed write got. */
  datatype PutIo = PutIo(
    mkdir: bool, write: bool, written: nat, rename: bool, tmpRemoved: bool,
    readDir: bool, noInfo: set<string>, stuck: set<string>)

  /** What a put leaves of a directory, and of its being there, for every pattern of failing
      calls; `order` and `k` say what was evicted. */
  ghost predicate PutLeaves(
      was: Dir, wasThere: bool, job: Job, now: nat, budget: int, io: PutIo, order: seq<string>, k: nat,
      files: Dir, there: bool)
    requires job.Put? && io.written <= |job.payload|
  {
    var tmp, d := TmpName(job.id), PublishedIn(was, job, now);
    if !io.mkdir then files == was && there == wasThere
    else
      && there
      && if !io.write then files == was[tmp := File(job.payload[..io.written], now)]
         else if !io.rename then files == if io.tmpRemoved then was - {tmp} else was[tmp := File(job.payload, now)]
         else if budget <= 0 || !io.readDir then files == d
         else
           && Queue(d, Bodies(d) - io.noInfo, order) && k <= |order| && ShortestPrefix(d, order, k, budget)
           && files == Left(d, Names(order[..k]), io.stuck)
  }

  /** The files with a put published, before eviction. */
  function PublishedIn(was: Dir, job: Job, now: nat): Dir
    requires job.Put?
  {
    (was - {TmpName(job.id)})[FinalName(job.id) := File(job.payload, now)]
  }

  /** The goroutine alone, by steps of its own, gets from `s` to the end of its critical
      section with these files. */
  ghost predicate ReachesAlone(s: State, budget: int, w: WorkerId, files: Dir, there: bool) {
    exists steps: seq<Step> :: Run(s, budget, steps).Some? && EndsWith(Run(s, budget, steps).value, w, files, there)
  }

  ghost predicate EndsWith(s: State, w: WorkerId, files: Dir, there: bool) {
    At(s, w, Leaving) && s.files == files && s.dirExists == there
  }

  lemma {:induction false} StepFirst(s: State, budget: int, w: WorkerId, t: Step, files: Dir, there: bool)
    requires Apply(s, budget, t).Some? && ReachesAlone(Apply(s, budget, t).value, budget, w, files, there)
    ensures ReachesAlone(s, budget, w, files, there)
  {
    hide Apply, EndsWith;
    var mid := Apply(s, budget, t).value;
    var steps: seq<Step> :| Run(mid, budget, steps).Some? && EndsWith(Run(mid, budget, steps).value, w, files, there);
    assert ([t] + steps)[1..] == steps;
    assert Run(s, budget, [t] + steps) == Run(mid, budget, steps);
  }

  lemma {:induction false} NoStep(s: State, budget: int, w: WorkerId, files: Dir, there: bool)
    requires EndsWith(s, w, files, there)
    ensures ReachesAlone(s, budget, w, files, there)
  {
    hide EndsWith;
    assert Run(s, budget, []) == Some(s);
  }

  /** What a put's critical section leaves is what the steps of the protocol leave: the
      directory made, the file staged, published, and the budget enforced. */
  lemma {:induction false} PutBySteps(
      s: State, budget: int, w: WorkerId, io: PutIo, order: seq<string>, k: nat, files: Dir, there: bool)
    requires At(s, w, Entered) && s.workers[w].job.Put? && io.written <= |s.workers[w].job.payload|
    requires PutLeaves(s.files, s.dirExists, s.workers[w].job, s.clock + 1, budget, io, order, k, files, there)
    ensures ReachesAlone(s, budget, w, files, there)
  {
    hide ReachesAlone, FinalName, TmpName, Queue, ShortestPrefix, Left;
    var t := MakeDir(w, io.mkdir);
    var mid := Apply(s, budget, t).value;
    if !io.mkdir {
      NoStep(mid, budget, w, files, there);
    } else if !io.write {
      WriteFails(mid, budget, w, io.written);
    } else {
      WrittenBySteps(mid, budget, w, io, order, k, s.files, files);
    }
    StepFirst(s, budget, w, t, files, there);
  }

  lemma {:induction false} WriteFails(s: State, budget: int, w: WorkerId, n: nat)
    requires PutAt(s, w, DirMade) && n <= |s.workers[w].job.payload|
    ensures ReachesAlone(s, budget, w,
                         s.files[TmpName(s.workers[w].job.id) := File(s.workers[w].job.payload[..n], s.clock)],
                         s.dirExists)
  {
    hide ReachesAlone, TmpName;
    var files := s.files[TmpName(s.workers[w].job.id) := File(s.workers[w].job.payload[..n], s.clock)];
    var mid := Apply(s, budget, WriteSome(w, n)).value;
    NoStep(Apply(mid, budget, WriteAll(w, false)).value, budget, w, files, s.dirExists);
    StepFirst(mid, budget, w, WriteAll(w, false), files, s.dirExists);
    StepFirst(s, budget, w, WriteSome(w, n), files, s.dirExists);
  }

  lemma {:induction false} WrittenBySteps(
      s: State, budget: int, w: WorkerId, io: PutIo, order: seq<string>, k: nat, was: Dir, files: Dir)
    requires PutAt(s, w, DirMade) && s.files == was && io.mkdir && io.write && io.written <= |s.workers[w].job.payload|
    requires PutLeaves(was, true, s.workers[w].job, s.clock, budget, io, order, k, files, true)
    ensures ReachesAlone(s, budget, w, files, s.dirExists)
  {
    hide ReachesAlone, FinalName, TmpName, Queue, ShortestPrefix, Left;
    var job := s.workers[w].job;
    var mid := Apply(s, budget, WriteAll(w, true)).value;
    var t := Rename(w, io.rename, io.tmpRemoved);
    var end := Apply(mid, budget, t).value;
    assert was[TmpName(job.id) := File(job.payload, s.clock)] - {TmpName(job.id)} == was - {TmpName(job.id)};
    if io.rename {
      assert end.files == PublishedIn(was, job, s.clock);
      var e := EvictionStep(w, end.files, budget, io, order, k);
      EvictionLeaves(end, budget, w, io, order, k, files);
      NoStep(Apply(end, budget, e).value, budget, w, files, s.dirExists);
      StepFirst(end, budget, w, e, files, s.dirExists);
    } else {
      NoStep(end, budget, w, files, s.dirExists);
    }
    StepFirst(mid, budget, w, t, files, s.dirExists);
    StepFirst(s, budget, w, WriteAll(w, true), files, s.dirExists);
  }

  /** The step an eviction is: a clean one, or one that met I/O errors. */
  ghost function EvictionStep(w: WorkerId, d: Dir, budget: int, io: PutIo, order: seq<string>, k: nat): Step {
    if budget <= 0 then Evict(w, [], 0)
    else if !io.readDir then EvictWithFaults(w, {})
    else if k <= |order| && io.noInfo * Bodies(d) == {} && io.stuck * Names(order[..k]) == {} then Evict(w, order, k)
    else EvictWithFaults(w, if k <= |order| then Names(order[..k]) - io.stuck else {})
  }

  lemma {:induction false} EvictionLeaves(
      s: State, budget: int, w: WorkerId, io: PutIo, order: seq<string>, k: nat, files: Dir)
    requires At(s, w, Published) && s.workers[w].job.Put?
    requires if budget <= 0 || !io.readDir then files == s.files
             else
               && Queue(s.files, Bodies(s.files) - io.noInfo, order) && k <= |order|
               && ShortestPrefix(s.files, order, k, budget)
               && files == Left(s.files, Names(order[..k]), io.stuck)
    ensures var r := Apply(s, budget, EvictionStep(w, s.files, budget, io, order, k));
            r.Some? && EndsWith(r.value, w, files, s.dirExists)
  {
    hide IsBody, ShortestPrefix, NoDuplicates, OldestFirst, FinalName, TmpName;
    if budget > 0 && io.readDir {
      LeftIs(s.files, order, k, io.stuck);
      Without(io.noInfo, Bodies(s.files));
    }
  }

  lemma {:induction false} Without(a: set<string>, b: set<string>)
    ensures b - a <= b && (a * b == {} ==> b - a == b)
  {
    if a * b == {} {
      forall n | n in b ensures n in b - a {
        assert n in a ==> n in a * b;
      }
    }
  }

  lemma {:induction false} LeftIs(d: Dir, order: seq<string>, k: nat, stuck: set<string>)
    requires k <= |order| && Names(order) <= Bodies(d)
    ensures Names(order[..k]) <= Bodies(d)
    ensures Left(d, Names(order[..k]), stuck) == d - (Names(order[..k]) - stuck) * Bodies(d)
    ensures stuck * Names(order[..k]) == {} ==> Left(d, Names(order[..k]), stuck) == d - Names(order[..k])
  {
    hide Bodies;
    SplitNames(order, k);
    var gone := Names(order[..k]);
    Without(stuck, gone);
    assert (gone - stuck) * Bodies(d) == gone - stuck;
  }

  /** The mutex goes to any goroutine that waits for it, and what it is for depends on
      `closed` alone; leaving gives it back. */
  lemma {:induction false} MutexIsFair(s: State, budget: int, w: WorkerId)
    requires w in s.workers
    ensures s.workers[w].phase == Queued && s.holder == Free ==>
              var r := Apply(s, budget, Enter(w));
              && r.Some? && r.value.holder == ByWorker(w) && r.value.files == s.files
              && r.value.workers[w] == Worker(s.workers[w].job, if s.closed then Leaving else Entered)
    ensures s.workers[w].phase == Leaving ==>
              var r := Apply(s, budget, Leave(w));
              r.Some? && r.value.holder == Free && r.value.files == s.files && r.value.workers[w].phase == Finished
  {
  }

  /** The same for a delete. */
  lemma {:induction false} DeleteBySteps(s: State, budget: int, w: WorkerId, ok: bool)
    requires At(s, w, Entered) && s.workers[w].job.Delete?
    ensures ReachesAlone(s, budget, w, if ok then s.files - {FinalName(s.workers[w].job.id)} else s.files, s.dirExists)
  {
    hide ReachesAlone, FinalName;
    var files := if ok then s.files - {FinalName(s.workers[w].job.id)} else s.files;
    NoStep(Apply(s, budget, RemoveBody(w, ok)).value, budget, w, files, s.dirExists);
    StepFirst(s, budget, w, RemoveBody(w, ok), files, s.dirExists);
  }

  /** The steps of a removeAll that no goroutine interrupts. */
  function ShredSteps(r: WorkerId, complete: bool, gone: set<string>): seq<Step> {
    [MarkClosed(r), WaitWorkers(r), LockForWipe(r), Wipe(r, complete, gone), ReturnFrom(r)]
  }

  lemma {:induction false} ShredBySteps(s: State, budget: int, r: WorkerId, complete: bool, gone: set<string>)
    requires r !in s.shreds && s.holder == Free && AllFinished(s)
    ensures var e := Run(s, budget, ShredSteps(r, complete, gone));
            && e.Some? && e.value.closed && e.value.shreds == s.shreds[r := Returned(complete)]
            && e.value.holder == Free
            && e.value.files == (if complete then map[] else s.files - gone)
            && e.value.dirExists == (!complete && s.dirExists)
  {
    hide Run, AllFinished, ApplyPut, ApplyIssue;
    var steps := ShredSteps(r, complete, gone);
    var s1 := Apply(s, budget, MarkClosed(r)).value;
    SameWorkers(s, s1);
    var s2 := Apply(s1, budget, WaitWorkers(r)).value;
    var s3 := Apply(s2, budget, LockForWipe(r)).value;
    RunFrom(s, budget, steps);
    RunFrom(s1, budget, steps[1..]);
    RunFrom(s2, budget, steps[2..]);
    assert steps[2..][1..] == [Wipe(r, complete, gone), ReturnFrom(r)];
    WipeReturns(s3, budget, r, complete, gone);
    assert s3.shreds[r := Returned(complete)] == s.shreds[r := Returned(complete)];
  }

  lemma {:induction false} WipeReturns(s: State, budget: int, r: WorkerId, complete: bool, gone: set<string>)
    requires r in s.shreds && s.shreds[r] == Locked
    ensures var e := Run(s, budget, [Wipe(r, complete, gone), ReturnFrom(r)]);
            && e.Some? && e.value.closed == s.closed && e.value.shreds == s.shreds[r := Returned(complete)]
            && e.value.holder == Free && e.value.files == (if complete then map[] else s.files - gone)
            && e.value.dirExists == (!complete && s.dirExists)
  {
    hide Run, ApplyPut, ApplyIssue;
    var steps := [Wipe(r, complete, gone), ReturnFrom(r)];
    var s1 := Apply(s, budget, Wipe(r, complete, gone)).value;
    var s2 := Apply(s1, budget, ReturnFrom(r)).value;
    assert s2.shreds == s.shreds[r := Returned(complete)];
    RunFrom(s, budget, steps);
    RunFrom(s1, budget, steps[1..]);
    assert steps[1..][1..] == [];
    RunNone(s2, budget);
  }

  lemma {:induction false} SameWorkers(s: State, s': State)
    requires s.workers == s'.workers
    ensures AllFinished(s) <==> AllFinished(s')
  {
  }

  lemma {:induction false} RunNone(s: State, budget: int)
    ensures Run(s, budget, []) == Some(s)
  {
  }

  lemma {:induction false} RunFrom(s: State, budget: int, steps: seq<Step>)
    requires steps != [] && Apply(s, budget, steps[0]).Some?
    ensures Run(s, budget, steps) == Run(Apply(s, budget, steps[0]).value, budget, steps[1..])
  {
    hide Apply;
  }

  class Store {
    const budget: int
    const dir: BodiesDir
    var dirExists: bool
    var closed: bool

    ghost predicate Valid()
      reads this, dir
    {
      dir.files.Keys !! dir.subdirs
    }

    constructor (budget: int, dir: BodiesDir)
      requires dir.files == map[]
      ensures this.budget == budget && this.dir == dir && Valid() && !closed && !dirExists
    {
      this.budget := budget;
      this.dir := dir;
      dirExists := false;
      closed := false;
    }

    /** The protocol's state has the files, the directory and the flag of this store. */
    ghost predicate IsStateOf(s: State)
      reads this, dir
    {
      s.files == dir.files && s.dirExists == dirExists && s.closed == closed
    }

    /** What a put goroutine does while it holds the mutex, for every pattern of failing
        system calls; the protocol's steps of that goroutine do the same. */
    method PutCritical(id: string, payload: Bytes, now: nat, io: PutIo) returns (ghost order: seq<string>, ghost k: nat)
      requires Valid() && TmpName(id) !in dir.subdirs && FinalName(id) !in dir.subdirs && io.written <= |payload|
      modifies this`dirExists, dir
      ensures Valid()
      ensures old(closed) ==> dir.files == old(dir.files) && dirExists == old(dirExists)
      ensures !old(closed) ==>
                PutLeaves(old(dir.files), old(dirExists), Put(id, payload), now, budget, io, order, k,
                          dir.files, dirExists)
      ensures !old(closed) ==>
                forall s: State, w: WorkerId | old(IsStateOf(s)) && At(s, w, Entered)
                  && s.workers[w].job == Put(id, payload) && now == s.clock + 1 ::
                  ReachesAlone(s, budget, w, dir.files, dirExists)
    {
      hide ReachesAlone, Queue, ShortestPrefix, Left;
      order, k := PutFiles(id, payload, now, io);
      if !closed {
        forall s: State, w: WorkerId | old(IsStateOf(s)) && At(s, w, Entered)
                                       && s.workers[w].job == Put(id, payload) && now == s.clock + 1
          ensures ReachesAlone(s, budget, w, dir.files, dirExists)
        {
          PutBySteps(s, budget, w, io, order, k, dir.files, dirExists);
        }
      }
    }

    method PutFiles(id: string, payload: Bytes, now: nat, io: PutIo) returns (ghost order: seq<string>, ghost k: nat)
      requires Valid() && TmpName(id) !in dir.subdirs && FinalName(id) !in dir.subdirs && io.written <= |payload|
      modifies this`dirExists, dir
      ensures Valid()
      ensures old(closed) ==> dir.files == old(dir.files) && dirExists == old(dirExists)
      ensures !old(closed) ==>
                PutLeaves(old(dir.files), old(dirExists), Put(id, payload), now, budget, io, order, k,
                          dir.files, dirExists)
    {
      order, k := [], 0;
      FileNames(id, id);
      if closed || !io.mkdir {
        return;
      }
      dirExists := true;
      if !io.write {
        dir.files := dir.files[TmpName(id) := File(payload[..io.written], now)];
        return;
      }
      dir.files := dir.files[TmpName(id) := File(payload, now)];
      if !io.rename {
        if io.tmpRemoved {
          dir.files := dir.files - {TmpName(id)};
        }
        return;
      }
      var staged := dir.files[TmpName(id)];
      dir.files := (dir.files - {TmpName(id)})[FinalName(id) := staged];
      assert dir.files == PublishedIn(old(dir.files), Put(id, payload), now);
      order, k := dir.EnforceBudget(budget, io.readDir, io.noInfo, io.stuck);
    }

    /** What a delete goroutine does while it holds the mutex, and the protocol's steps of
        that goroutine with it. */
    method DeleteCritical(id: string, ok: bool)
      requires Valid()
      modifies dir
      ensures Valid()
      ensures dir.files == if old(closed) || !ok then old(dir.files) else old(dir.files) - {FinalName(id)}
      ensures !old(closed) ==>
                forall s: State, w: WorkerId
                  | old(IsStateOf(s)) && At(s, w, Entered) && s.workers[w].job == Delete(id) ::
                  ReachesAlone(s, budget, w, dir.files, dirExists)
    {
      hide ReachesAlone, FinalName;
      if closed {
        return;
      }
      if ok {
        dir.files := dir.files - {FinalName(id)};
      }
      forall s: State, w: WorkerId | old(IsStateOf(s)) && At(s, w, Entered) && s.workers[w].job == Delete(id)
        ensures ReachesAlone(s, budget, w, dir.files, dirExists)
      {
        DeleteBySteps(s, budget, w, ok);
      }
    }

    /** removeAll, with no goroutine left to wait for between its two critical sections: what
        its five steps of the protocol do. */
    method RemoveAll(complete: bool, gone: set<string>)
      requires Valid()
      modifies this, dir
      ensures Valid() && closed
      ensures complete ==> dir.files == map[] && !dirExists
      ensures !complete ==> dir.files == old(dir.files) - gone && dirExists == old(dirExists)
      ensures forall s: State, r: WorkerId
                | old(IsStateOf(s)) && r !in s.shreds && s.holder == Free && AllFinished(s) ::
                var e := Run(s, budget, ShredSteps(r, complete, gone)); e.Some? && IsStateOf(e.value)
    {
      hide Run, ShredSteps;
      closed := true;
      if complete {
        dir.files, dirExists := map[], false;
      } else {
        dir.files := dir.files - gone;
      }
      forall s: State, r: WorkerId | old(IsStateOf(s)) && r !in s.shreds && s.holder == Free && AllFinished(s)
        ensures var e := Run(s, budget, ShredSteps(r, complete, gone)); e.Some? && IsStateOf(e.value)
      {
        ShredBySteps(s, budget, r, complete, gone);
      }
    }
  }

  // ----- The lock-free reader -----

  datatype Loaded = BadId | Missing | Body(data: Bytes)

  predicate HasDotDot(id: string) {
    exists i | 0 <= i < |id| - 1 :: id[i] == '.' && id[i + 1] == '.'
  }

  /** The id is its own base name and has no "..". */
  predicate LoadableId(id: string) {
    id != "" && (id == "/" || '/' !in id) && !HasDotDot(id)
  }

  /** The file the cleaned path names: a lone separator is absorbed by the join. */
  function LoadedId(id: string): string { if id == "/" then "" else id }

  function Load(s: State, id: string): Loaded {
    if !LoadableId(id) then BadId
    else if FinalName(LoadedId(id)) !in s.files then Missing
    else Body(s.files[FinalName(LoadedId(id))].data)
  }

  /** In every interleaving, at any moment, a reader that gets a body gets the whole
      payload of some put of that id, and its path stays inside the directory. */
  lemma {:induction false} LoadSeesWholePuts(budget: int, steps: seq<Step>, id: string)
    requires Run(INIT, budget, steps).Some?
    ensures var s := Run(INIT, budget, steps).value;
            Load(s, id).Body? ==> (LoadedId(id), Load(s, id).data) in s.puts && '/' !in LoadedId(id)
  {
    InitInv(budget);
    RunKeepsInv(INIT, budget, steps);
    hide Apply;
  }

  /** What a read answers, id by id: the bytes of the body's file, or that there is none,
      unless the id is empty, has a separator in it, or two dots in a row. (A lone separator
      passes the guard and names a file no put writes.) */
  lemma {:induction false} LoadIs(s: State, id: string)
    requires id != "/"
    ensures Load(s, id) == BadId <==>
            id == "" || '/' in id || exists i :: 0 <= i < |id| - 1 && id[i] == '.' && id[i + 1] == '.'
    ensures Load(s, id) == Missing <==> Load(s, id) != BadId && id + ".json" !in s.files
    ensures forall data :: Load(s, id) == Body(data) <==>
                             Load(s, id) != BadId && id + ".json" in s.files && s.files[id + ".json"].data == data
  {
    hide IsBody;
  }

  /** An id the endpoint can ask for. */
  predicate PlainId(id: string) {
    && id != "" && '/' !in id
    && !exists i :: 0 <= i < |id| - 1 && id[i] == '.' && id[i + 1] == '.'
  }

  /** A put is read back the moment its rename went through. */
  lemma {:induction false} PublishedIsRead(s: State, budget: int, w: WorkerId, tmpRemoved: bool)
    requires StagedWhole(s) && Apply(s, budget, Rename(w, true, tmpRemoved)).Some?
    ensures w in s.workers && s.workers[w].job.Put?
    ensures var Put(id, payload) := s.workers[w].job;
            PlainId(id) ==> Load(Apply(s, budget, Rename(w, true, tmpRemoved)).value, id) == Body(payload)
  {
    hide FinalName, TmpName;
    assert PutAt(s, w, Staged);
    var id := s.workers[w].job.id;
    FileNames(id, id);
    if PlainId(id) {
      ReadsFile(Apply(s, budget, Rename(w, true, tmpRemoved)).value, id);
    }
  }

  lemma {:induction false} ReadsFile(s: State, id: string)
    requires PlainId(id)
    ensures Load(s, id) == if FinalName(id) in s.files then Body(s.files[FinalName(id)].data) else Missing
  {
    LoadIs(s, id);
  }

  /** Whether a step publishes, removes, evicts or wipes the body of `id`. */
  predicate Disturbs(s: State, t: Step, id: string) {
    match t
    case Rename(w, ok, _) => ok && w in s.workers && s.workers[w].job.Put? && s.workers[w].job.id == id
    case RemoveBody(w, ok) => ok && w in s.workers && s.workers[w].job == Delete(id)
    case Evict(_, order, k) => k <= |order| && id + ".json" in order[..k]
    case EvictWithFaults(_, gone) => id + ".json" in gone
    case Wipe(_, complete, gone) => complete || id + ".json" in gone
    case _ => false
  }

  /** Any other step of anybody leaves the answer as it is. */
  lemma {:induction false} AnswerStays(s: State, budget: int, t: Step, id: string)
    requires PlainId(id) && Apply(s, budget, t).Some? && !Disturbs(s, t, id)
    ensures Load(Apply(s, budget, t).value, id) == Load(s, id)
  {
    hide FinalName, TmpName, PlainId, Load, Disturbs, Apply;
    var s' := Apply(s, budget, t).value;
    ReadsFile(s, id);
    ReadsFile(s', id);
    if t.MarkClosed? || t.WaitWorkers? || t.LockForWipe? || t.Wipe? || t.ReturnFrom? {
      ShredLeavesFile(s, budget, t, id);
    } else if t.IssuePut? || t.IssueDelete? || t.Enter? || t.Leave? || t.RemoveBody? {
      IssueLeavesFile(s, budget, t, id);
    } else {
      PutLeavesFile(s, budget, t, id);
    }
  }

  predicate SameBody(s: State, s': State, id: string) {
    && (FinalName(id) in s'.files <==> FinalName(id) in s.files)
    && (FinalName(id) in s.files ==> s'.files[FinalName(id)].data == s.files[FinalName(id)].data)
  }

  lemma {:induction false} ShredLeavesFile(s: State, budget: int, t: Step, id: string)
    requires Apply(s, budget, t).Some? && !Disturbs(s, t, id)
    requires t.MarkClosed? || t.WaitWorkers? || t.LockForWipe? || t.Wipe? || t.ReturnFrom?
    ensures SameBody(s, Apply(s, budget, t).value, id)
  {
    hide AllFinished;
  }

  lemma {:induction false} IssueLeavesFile(s: State, budget: int, t: Step, id: string)
    requires Apply(s, budget, t).Some? && !Disturbs(s, t, id)
    requires t.IssuePut? || t.IssueDelete? || t.Enter? || t.Leave? || t.RemoveBody?
    ensures SameBody(s, Apply(s, budget, t).value, id)
  {
    hide FinalName;
    AllFileNames();
  }

  lemma {:induction false} PutLeavesFile(s: State, budget: int, t: Step, id: string)
    requires Apply(s, budget, t).Some? && !Disturbs(s, t, id)
    requires t.MakeDir? || t.WriteSome? || t.WriteAll? || t.Rename? || t.Evict? || t.EvictWithFaults?
    ensures SameBody(s, Apply(s, budget, t).value, id)
  {
    hide FinalName, TmpName, Queue, ShortestPrefix, IsBody;
    FinalIs(id);
    AllFileNames();
  }

  lemma {:induction false} FinalIs(id: string)
    ensures FinalName(id) == id + ".json"
  {
  }

  /** A run in which no step disturbs the body of `id`. */
  ghost predicate Undisturbed(s: State, budget: int, steps: seq<Step>, id: string)
    requires Run(s, budget, steps).Some?
    decreases |steps|
  {
    steps == [] || (!Disturbs(s, steps[0], id) && Undisturbed(Apply(s, budget, steps[0]).value, budget, steps[1..], id))
  }

  lemma {:induction false} AnswerStaysOverRuns(s: State, budget: int, steps: seq<Step>, id: string)
    requires PlainId(id) && Run(s, budget, steps).Some? && Undisturbed(s, budget, steps, id)
    ensures Load(Run(s, budget, steps).value, id) == Load(s, id)
    decreases |steps|
  {
    hide Apply, PlainId, Disturbs, Load;
    if steps != [] {
      AnswerStays(s, budget, steps[0], id);
      AnswerStaysOverRuns(Apply(s, budget, steps[0]).value, budget, steps[1..], id);
    }
  }

  /** In every interleaving: from the moment a put's rename went through, a read of its id
      gives its payload for as long as nothing publishes, removes, evicts or wipes that id. */
  lemma {:induction false} PutIsReadBack(budget: int, before: seq<Step>, w: WorkerId, gone: bool, after: seq<Step>)
    requires Run(INIT, budget, before).Some?
    requires Apply(Run(INIT, budget, before).value, budget, Rename(w, true, gone)).Some?
    requires var s := Apply(Run(INIT, budget, before).value, budget, Rename(w, true, gone)).value;
             Run(s, budget, after).Some? && w in s.workers && s.workers[w].job.Put?
             && Undisturbed(s, budget, after, s.workers[w].job.id)
    ensures var s := Apply(Run(INIT, budget, before).value, budget, Rename(w, true, gone)).value;
            var Put(id, payload) := s.workers[w].job;
            PlainId(id) ==> Load(Run(s, budget, after).value, id) == Body(payload)
  {
    hide Run, Load, PlainId, Undisturbed, Inv;
    InitInv(budget);
    RunKeepsInv(INIT, budget, before);
    var s0 := Run(INIT, budget, before).value;
    InvStaged(s0, budget);
    PublishedIsRead(s0, budget, w, gone);
    var s := Apply(s0, budget, Rename(w, true, gone)).value;
    SameJob(s0, budget, w, gone);
    if PlainId(s.workers[w].job.id) {
      AnswerStaysOverRuns(s, budget, after, s.workers[w].job.id);
    }
  }

  lemma {:induction false} SameJob(s: State, budget: int, w: WorkerId, gone: bool)
    requires Apply(s, budget, Rename(w, true, gone)).Some?
    ensures w in s.workers && Apply(s, budget, Rename(w, true, gone)).value.workers[w].job == s.workers[w].job
  {
  }

  lemma {:induction false} InvStaged(s: State, budget: int)
    requires Inv(s, budget)
    ensures StagedWhole(s)
  {
  }

  /** After a completed removeAll nothing is read any more, whatever is issued later. */
  lemma {:induction false} NothingReadAfterShred(budget: int, before: seq<Step>, after: seq<Step>, id: string)
    requires Run(INIT, budget, before).Some? && Shredded(Run(INIT, budget, before).value) && PlainId(id)
    requires Run(Run(INIT, budget, before).value, budget, after).Some?
    ensures Load(Run(Run(INIT, budget, before).value, budget, after).value, id) == Missing
  {
    hide Run, Shredded, PlainId, Load;
    ShredIsFinal(budget, before, after);
    ReadsFile(Run(Run(INIT, budget, before).value, budget, after).value, id);
  }
}
