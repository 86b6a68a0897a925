/** A file shared by any number of processes. A writer takes the exclusive lock, loads,
    edits, replaces the file in one step and lets the lock go; some jobs also look at the
    file before, without the lock. A process may die at any point, and the lock dies with
    it. What an edit does is a parameter.

    `Apply` gives the state after one atomic step of one process, or None when the step is
    not enabled; a run is any sequence of enabled steps. */
module SharedFile {
  import opened Prelude

  type Pid = nat

  /** What a job makes of the file it loads under the lock, or None when it leaves it alone;
      which jobs look first, and on what they saw they go on; which contents are no file. */
  datatype Rules<!J, !D> = Rules(
    edit: (J, D) -> Option<D>,
    looks: J -> bool,
    goesOn: (J, D) -> bool,
    missing: D -> bool)

  // ----- State and steps -----

  datatype Phase<D> =
    | Started
    | Looked(seen: D)
    | Holding(saw: Option<D>)
    | Loaded(saw: Option<D>, file: D)
    | Written
    | Failed
    | Gone(wrote: bool)

  datatype Proc<J, D> = Proc(job: J, phase: Phase<D>)

  datatype State<J, D> = State(
    disk: D,
    holder: Option<Pid>,
    procs: map<Pid, Proc<J, D>>,
    order: seq<Pid>,       // who got the lock, in that order
    versions: seq<D>)      // what the path has held, in that order

  function Init<J, D>(d: D): State<J, D> {
    State(d, None, map[], [], [d])
  }

  datatype Step<J> =
    | Start(pid: Pid, job: J)
    | Look(pid: Pid)
    | Acquire(pid: Pid)
    | Reload(pid: Pid)
    | Commit(pid: Pid, writable: bool)
    | Release(pid: Pid)
    | Die(pid: Pid)

  function Move<J, D>(s: State<J, D>, pid: Pid, ph: Phase<D>): State<J, D>
    requires pid in s.procs
  {
    s.(procs := s.procs[pid := s.procs[pid].(phase := ph)])
  }

  predicate Locked<D>(ph: Phase<D>) {
    ph.Holding? || ph.Loaded? || ph.Written? || ph.Failed?
  }

  predicate Wrote<D>(ph: Phase<D>) {
    ph.Written? || (ph.Gone? && ph.wrote)
  }

  ghost function Apply<J, D>(s: State<J, D>, r: Rules<J, D>, t: Step<J>): Option<State<J, D>> {
    if t.Start? then
      if t.pid in s.procs then None else Some(s.(procs := s.procs[t.pid := Proc(t.job, Started)]))
    else if t.pid !in s.procs then None
    else
      var job, ph := s.procs[t.pid].job, s.procs[t.pid].phase;
      match t
      case Look(p) =>
        if !(ph == Started && r.looks(job)) then None
        else Some(Move(s, p, if r.goesOn(job, s.disk) then Looked(s.disk) else Gone(false)))
      case Acquire(p) =>
        if s.holder != None || !(ph.Looked? || (ph == Started && !r.looks(job))) then None
        else
          var held := Move(s, p, Holding(if ph.Looked? then Some(ph.seen) else None));
          Some(held.(holder := Some(p), order := s.order + [p]))
      case Reload(p) => if ph.Holding? then Some(Move(s, p, Loaded(ph.saw, s.disk))) else None
      case Commit(p, writable) =>
        if !ph.Loaded? then None
        else if writable && r.edit(job, ph.file).Some? && (r.missing(ph.file) ==> r.missing(s.disk)) then
          var d := r.edit(job, ph.file).value;
          Some(Move(s, p, Written).(disk := d, versions := s.versions + [d]))
        else Some(Move(s, p, Failed))
      case Release(p) =>
        if ph.Written? || ph.Failed? then Some(Move(s, p, Gone(ph.Written?)).(holder := None)) else None
      case Die(p) =>
        if ph.Gone? then None
        else Some(Move(s, p, Gone(ph.Written?)).(holder := if s.holder == Some(p) then None else s.holder))
  }

  ghost function Run<J, D>(s: State<J, D>, r: Rules<J, D>, steps: seq<Step<J>>): Option<State<J, D>>
    decreases |steps|
  {
    if steps == [] then Some(s)
    else match Apply(s, r, steps[0])
         case None => None
         case Some(s') => Run(s', r, steps[1..])
  }

  // ----- One edit after another -----

  /** The edit a process has made, if it has. */
  function Turn<J, D>(procs: map<Pid, Proc<J, D>>, pid: Pid): Option<J> {
    if pid in procs && Wrote(procs[pid].phase) then Some(procs[pid].job) else None
  }

  /** The edits made, in the order the lock was taken. */
  function Turns<J, D>(order: seq<Pid>, procs: map<Pid, Proc<J, D>>): (turns: seq<Option<J>>)
    ensures |turns| == |order|
  {
    seq(|order|, i requires 0 <= i < |order| => Turn(procs, order[i]))
  }

  ghost predicate TurnOk<J, D>(d: D, turn: Option<J>, r: Rules<J, D>) {
    turn.Some? ==> r.edit(turn.value, d).Some?
  }

  /** The edits applied one after another. */
  ghost function Replay<J, D>(start: D, turns: seq<Option<J>>, r: Rules<J, D>): D {
    if turns == [] then start
    else
      var before := Replay(start, turns[..|turns| - 1], r);
      var turn := turns[|turns| - 1];
      if turn.Some? && r.edit(turn.value, before).Some? then r.edit(turn.value, before).value else before
  }

  /** Each edit made succeeded on the file its turn found. */
  ghost predicate AllOk<J, D>(start: D, turns: seq<Option<J>>, r: Rules<J, D>) {
    forall i | 0 <= i < |turns| :: TurnOk(Replay(start, turns[..i], r), turns[i], r)
  }

  ghost predicate LockHeld<J, D>(s: State<J, D>) {
    && (forall p | p in s.procs && Locked(s.procs[p].phase) :: s.holder == Some(p))
    && (s.holder.Some? ==> s.holder.value in s.procs && Locked(s.procs[s.holder.value].phase)
                           && s.order != [] && s.order[|s.order| - 1] == s.holder.value)
    && (forall i, j | 0 <= i < j < |s.order| :: s.order[i] != s.order[j])
    && (forall p | p in s.order :: p in s.procs && !s.procs[p].phase.Started? && !s.procs[p].phase.Looked?)
    && (forall p | Turn(s.procs, p).Some? :: p in s.order)
  }

  /** What was loaded under the lock is still what the path holds. */
  ghost predicate Fresh<J, D>(s: State<J, D>) {
    forall p | p in s.procs && s.procs[p].phase.Loaded? :: s.procs[p].phase.file == s.disk
  }

  ghost predicate Serial<J, D>(s: State<J, D>, start: D, r: Rules<J, D>) {
    var turns := Turns(s.order, s.procs);
    s.disk == Replay(start, turns, r) && AllOk(start, turns, r)
  }

  /** Unlocked looks saw something the path held, and allowed the job to go on. */
  ghost predicate Seen<J, D>(s: State<J, D>, r: Rules<J, D>) {
    && s.versions != [] && s.versions[|s.versions| - 1] == s.disk
    && (forall p | p in s.procs && r.looks(s.procs[p].job) ::
          match s.procs[p].phase
          case Looked(d) => d in s.versions && r.goesOn(s.procs[p].job, d)
          case Holding(saw) => saw.Some? && saw.value in s.versions && r.goesOn(s.procs[p].job, saw.value)
          case Loaded(saw, _) => saw.Some? && saw.value in s.versions && r.goesOn(s.procs[p].job, saw.value)
          case _ => true)
  }

  lemma {:induction false} AllOkFirst<J, D>(start: D, turns: seq<Option<J>>, r: Rules<J, D>)
    requires turns != [] && AllOk(start, turns, r)
    ensures AllOk(start, turns[..|turns| - 1], r)
  {
    hide TurnOk, Replay;
    var first := turns[..|turns| - 1];
    forall i | 0 <= i < |first| ensures TurnOk(Replay(start, first[..i], r), first[i], r) {
      assert first[..i] == turns[..i];
    }
  }

  lemma {:induction false} OneMoreTurn<J, D>(start: D, turns: seq<Option<J>>, turn: Option<J>, r: Rules<J, D>)
    requires AllOk(start, turns, r) && TurnOk(Replay(start, turns, r), turn, r)
    ensures AllOk(start, turns + [turn], r)
    ensures Replay(start, turns + [turn], r) ==
            if turn.Some? then r.edit(turn.value, Replay(start, turns, r)).value else Replay(start, turns, r)
  {
    var more := turns + [turn];
    assert more[..|more| - 1] == turns;
    forall i | 0 <= i < |more| ensures TurnOk(Replay(start, more[..i], r), more[i], r) {
      if i < |turns| {
        assert more[..i] == turns[..i];
      }
    }
  }

  // ----- Every step -----

  lemma {:induction false} AcquireKeepsLock<J, D>(s: State<J, D>, r: Rules<J, D>, t: Step<J>)
    requires LockHeld(s) && t.Acquire? && Apply(s, r, t).Some?
    ensures LockHeld(Apply(s, r, t).value)
  {
    var s' := Apply(s, r, t).value;
    assert t.pid !in s.order;
    assert forall p | p in s'.order :: p in s.order || p == t.pid;
    assert s'.order[|s'.order| - 1] == t.pid;
  }

  lemma {:induction false} LeaveKeepsLock<J, D>(s: State<J, D>, r: Rules<J, D>, t: Step<J>)
    requires LockHeld(s) && (t.Release? || t.Die?) && Apply(s, r, t).Some?
    ensures LockHeld(Apply(s, r, t).value)
  {
  }

  lemma {:induction false} StartKeepsLock<J, D>(s: State<J, D>, r: Rules<J, D>, t: Step<J>)
    requires LockHeld(s) && (t.Start? || t.Look?) && Apply(s, r, t).Some?
    ensures LockHeld(Apply(s, r, t).value)
  {
    assert t.pid in s.procs ==> s.procs[t.pid].phase == Started;
  }

  lemma {:induction false} WorkKeepsLock<J, D>(s: State<J, D>, r: Rules<J, D>, t: Step<J>)
    requires LockHeld(s) && (t.Reload? || t.Commit?) && Apply(s, r, t).Some?
    ensures LockHeld(Apply(s, r, t).value)
  {
    assert s.holder == Some(t.pid);
  }

  lemma {:induction false} StepKeepsFresh<J, D>(s: State<J, D>, r: Rules<J, D>, t: Step<J>)
    requires LockHeld(s) && Fresh(s) && Apply(s, r, t).Some?
    ensures Fresh(Apply(s, r, t).value)
  {
  }

  lemma {:induction false} StepKeepsSeen<J, D>(s: State<J, D>, r: Rules<J, D>, t: Step<J>)
    requires Seen(s, r) && Apply(s, r, t).Some?
    ensures Seen(Apply(s, r, t).value, r)
  {
    var s' := Apply(s, r, t).value;
    assert forall d | d in s.versions :: d in s'.versions;
    assert s.disk in s.versions by { assert s.versions[|s.versions| - 1] in s.versions; }
  }

  /** The last in line has not written yet: what there is comes from those before. */
  lemma {:induction false} LastStillToWrite<J, D>(s: State<J, D>, start: D, r: Rules<J, D>)
    requires Serial(s, start, r) && s.order != [] && Turn(s.procs, s.order[|s.order| - 1]) == None
    ensures var first := Turns(s.order, s.procs)[..|s.order| - 1];
            s.disk == Replay(start, first, r) && AllOk(start, first, r)
  {
    hide AllOk, Turn;
    AllOkFirst(start, Turns(s.order, s.procs), r);
  }

  lemma {:induction false} TurnsAfter<J, D>(s: State<J, D>, r: Rules<J, D>, t: Step<J>)
    requires LockHeld(s) && Apply(s, r, t).Some?
    ensures var s' := Apply(s, r, t).value; var turns, turns' := Turns(s.order, s.procs), Turns(s'.order, s'.procs);
            && (t.Commit? ==>
                  && s.order != [] && s.order[|s.order| - 1] == t.pid && Turn(s.procs, t.pid) == None
                  && turns' == turns[..|turns| - 1] + [Turn(s'.procs, t.pid)])
            && (t.Acquire? ==> turns' == turns + [None])
            && (!t.Commit? && !t.Acquire? ==> turns' == turns)
  {
    var s' := Apply(s, r, t).value;
    if t.Commit? {
      assert forall i | 0 <= i < |s.order| - 1 :: s.order[i] != t.pid;
    }
  }

  lemma {:induction false} CommitOutcome<J, D>(s: State<J, D>, r: Rules<J, D>, t: Step<J>)
    requires Fresh(s) && t.Commit? && Apply(s, r, t).Some?
    ensures var s' := Apply(s, r, t).value; var turn := Turn(s'.procs, t.pid);
            TurnOk(s.disk, turn, r)
            && s'.disk == if turn.Some? then r.edit(turn.value, s.disk).value else s.disk
  {
  }

  lemma {:induction false} StepKeepsSerial<J, D>(s: State<J, D>, r: Rules<J, D>, t: Step<J>, start: D)
    requires LockHeld(s) && Fresh(s) && Serial(s, start, r) && Apply(s, r, t).Some?
    ensures Serial(Apply(s, r, t).value, start, r)
  {
    hide Turns, Turn, LockHeld, Fresh, Replay, AllOk;
    var s' := Apply(s, r, t).value;
    TurnsAfter(s, r, t);
    if t.Commit? {
      LastStillToWrite(s, start, r);
      CommitOutcome(s, r, t);
      OneMoreTurn(start, Turns(s.order, s.procs)[..|s.order| - 1], Turn(s'.procs, t.pid), r);
    } else if t.Acquire? {
      OneMoreTurn(start, Turns(s.order, s.procs), None, r);
    }
  }

  ghost predicate Inv<J, D>(s: State<J, D>, start: D, r: Rules<J, D>) {
    LockHeld(s) && Fresh(s) && Seen(s, r) && Serial(s, start, r)
  }

  lemma {:induction false} StepKeepsInv<J, D>(s: State<J, D>, r: Rules<J, D>, t: Step<J>, start: D)
    requires Inv(s, start, r) && Apply(s, r, t).Some?
    ensures Inv(Apply(s, r, t).value, start, r)
  {
    hide Apply, LockHeld, Fresh, Seen, Serial;
    if t.Acquire? {
      AcquireKeepsLock(s, r, t);
    } else if t.Release? || t.Die? {
      LeaveKeepsLock(s, r, t);
    } else if t.Start? || t.Look? {
      StartKeepsLock(s, r, t);
    } else {
      WorkKeepsLock(s, r, t);
    }
    StepKeepsFresh(s, r, t);
    StepKeepsSeen(s, r, t);
    StepKeepsSerial(s, r, t, start);
  }

  lemma {:induction false} RunKeepsInv<J, D>(s: State<J, D>, r: Rules<J, D>, steps: seq<Step<J>>, start: D)
    requires Inv(s, start, r) && Run(s, r, steps).Some?
    ensures Inv(Run(s, r, steps).value, start, r)
    decreases |steps|
  {
    hide Inv, Apply;
    if steps != [] {
      var mid := Apply(s, r, steps[0]).value;
      StepKeepsInv(s, r, steps[0], start);
      RunKeepsInv(mid, r, steps[1..], start);
    }
  }

  // ----- Main results over whole runs -----

  /** No update is lost: at every moment of every interleaving, with any number of deaths,
      the file is what the successful edits make of the first one, applied one after
      another in the order they took the lock; each of them took it exactly once. */
  lemma {:induction false} NoLostUpdates<J, D>(start: D, r: Rules<J, D>, steps: seq<Step<J>>)
    requires Run(Init(start), r, steps).Some?
    ensures var s := Run(Init(start), r, steps).value;
            && s.disk == Replay(start, Turns(s.order, s.procs), r)
            && AllOk(start, Turns(s.order, s.procs), r)
            && (forall p | Turn(s.procs, p).Some? :: p in s.order)
            && (forall i, j | 0 <= i < j < |s.order| :: s.order[i] != s.order[j])
  {
    hide Run;
    assert Inv(Init(start), start, r);
    RunKeepsInv(Init(start), r, steps, start);
  }

  /** Whoever looks without the lock sees the file as some commit left it, never a mix. */
  lemma {:induction false} LooksSeeVersions<J, D>(start: D, r: Rules<J, D>, steps: seq<Step<J>>, p: Pid)
    requires Run(Init(start), r, steps).Some?
    ensures var s := Run(Init(start), r, steps).value;
            && s.disk in s.versions
            && (p in s.procs && r.looks(s.procs[p].job) && s.procs[p].phase.Looked? ==>
                  s.procs[p].phase.seen in s.versions)
  {
    hide Run;
    assert Inv(Init(start), start, r);
    RunKeepsInv(Init(start), r, steps, start);
    var s := Run(Init(start), r, steps).value;
    assert s.versions[|s.versions| - 1] in s.versions;
  }

  /** The exclusive create never loses its race: under the lock, a file that was missing
      when loaded is still missing at the commit. */
  lemma {:induction false} CreateNeverCollides<J, D>(start: D, r: Rules<J, D>, steps: seq<Step<J>>, p: Pid)
    requires Run(Init(start), r, steps).Some?
    ensures var s := Run(Init(start), r, steps).value;
            p in s.procs && s.procs[p].phase.Loaded? ==>
              && s.procs[p].phase.file == s.disk
              && (r.edit(s.procs[p].job, s.disk).Some? ==>
                    Apply(s, r, Commit(p, true)).Some? && Wrote(Apply(s, r, Commit(p, true)).value.procs[p].phase))
  {
    hide Run;
    assert Inv(Init(start), start, r);
    RunKeepsInv(Init(start), r, steps, start);
  }

  /** What every edit keeps holds of every version: if the first file is good and each job
      in the run is fit, and a fit job makes a good file of a good one, all versions are good. */
  lemma {:induction false} VersionsStayGood<J, D>(
      s: State<J, D>, r: Rules<J, D>, steps: seq<Step<J>>, start: D, fit: J -> bool, good: D -> bool)
    requires Inv(s, start, r) && AllGood(s, fit, good) && Run(s, r, steps).Some?
    requires forall t | t in steps && t.Start? :: fit(t.job)
    requires forall j, d | fit(j) && good(d) && r.edit(j, d).Some? :: good(r.edit(j, d).value)
    ensures AllGood(Run(s, r, steps).value, fit, good)
    decreases |steps|
  {
    hide Apply, Inv, AllGood;
    if steps != [] {
      assert steps[0] in steps;
      StepKeepsGood(s, r, steps[0], start, fit, good);
      StepKeepsInv(s, r, steps[0], start);
      VersionsStayGood(Apply(s, r, steps[0]).value, r, steps[1..], start, fit, good);
    }
  }

  ghost predicate AllGood<J, D>(s: State<J, D>, fit: J -> bool, good: D -> bool) {
    (forall v | v in s.versions :: good(v)) && forall p | p in s.procs :: fit(s.procs[p].job)
  }

  lemma {:induction false} StepKeepsGood<J, D>(
      s: State<J, D>, r: Rules<J, D>, t: Step<J>, start: D, fit: J -> bool, good: D -> bool)
    requires Inv(s, start, r) && AllGood(s, fit, good) && Apply(s, r, t).Some? && (t.Start? ==> fit(t.job))
    requires forall j, d | fit(j) && good(d) && r.edit(j, d).Some? :: good(r.edit(j, d).value)
    ensures AllGood(Apply(s, r, t).value, fit, good)
  {
    hide LockHeld, Serial;
    assert s.disk in s.versions by { assert s.versions[|s.versions| - 1] in s.versions; }
    assert good(s.disk);
  }

  lemma {:induction false} StartsWell<J, D>(start: D, r: Rules<J, D>)
    ensures Inv(Init(start), start, r)
  {
  }

  // ----- Building runs -----

  lemma {:induction false} RunThen<J, D>(s: State<J, D>, r: Rules<J, D>, steps: seq<Step<J>>, t: Step<J>)
    requires Run(s, r, steps).Some? && Apply(Run(s, r, steps).value, r, t).Some?
    ensures Run(s, r, steps + [t]) == Apply(Run(s, r, steps).value, r, t)
    decreases |steps|
  {
    hide Apply;
    if steps == [] {
      assert [] + [t] == [t];
      assert [t][1..] == [];
    } else {
      assert (steps + [t])[1..] == steps[1..] + [t];
      RunThen(Apply(s, r, steps[0]).value, r, steps[1..], t);
    }
  }

  /** The three turns of a job with the lock, one after another. */
  lemma {:induction false} LockedTurn<J, D>(s0: State<J, D>, r: Rules<J, D>, before: seq<Step<J>>, pid: Pid)
    requires Run(s0, r, before).Some?
    requires var s := Run(s0, r, before).value;
             && s.holder == None && pid in s.procs && r.edit(s.procs[pid].job, s.disk).Some?
             && (s.procs[pid].phase.Looked? || (s.procs[pid].phase == Started && !r.looks(s.procs[pid].job)))
    ensures var s := Run(s0, r, before).value;
            var steps := before + [Acquire(pid)] + [Reload(pid)] + [Commit(pid, true)] + [Release(pid)];
            && Run(s0, r, steps).Some?
            && var s' := Run(s0, r, steps).value;
               && s'.holder == None && s'.disk == r.edit(s.procs[pid].job, s.disk).value
               && s'.procs == s.procs[pid := s.procs[pid].(phase := Gone(true))]
  {
    hide Run;
    RunThen(s0, r, before, Acquire(pid));
    RunThen(s0, r, before + [Acquire(pid)], Reload(pid));
    RunThen(s0, r, before + [Acquire(pid)] + [Reload(pid)], Commit(pid, true));
    RunThen(s0, r, before + [Acquire(pid)] + [Reload(pid)] + [Commit(pid, true)], Release(pid));
  }

  lemma {:induction false} RunNothing<J, D>(s: State<J, D>, r: Rules<J, D>)
    ensures Run(s, r, []) == Some(s)
  {
  }
}
