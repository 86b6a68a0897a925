/** The launcher's signal relay and its rollback stack. */
module Launcher {
  import opened Prelude

  // ----- Relaying stop signals -----

  /** What wakes the loop, and when. */
  datatype Event = Signal(sig: nat, at: int) | Grace(at: int)

  datatype Action = Forward(sig: nat) | Report(sig: nat) | Kill

  /** The loop's variables; the grace timer is armed by the first signal. */
  datatype Loop = Loop(first: Option<Event>, armed: bool, killed: bool)

  datatype Setup = Setup(hasProcess: bool, hasListener: bool, grace: int, gap: int)

  class SignalRelay {
    const setup: Setup
    var loop: Loop

    constructor (setup: Setup)
      ensures this.setup == setup && loop == Loop(None, false, false)
    {
      this.setup := setup;
      loop := Loop(None, false, false);
    }

    method KillOnce() returns (done: seq<Action>)
      modifies this
      ensures done == if setup.hasProcess && !old(loop).killed then [Kill] else []
      ensures loop == if setup.hasProcess then old(loop).(killed := true) else old(loop)
    {
      if !setup.hasProcess || loop.killed {
        return [];
      }
      loop := loop.(killed := true);
      return [Kill];
    }

    method OnSignal(sig: nat, now: int) returns (done: seq<Action>)
      requires loop.first.Some? ==> loop.first.value.Signal?
      modifies this
      ensures (loop, done) == React(old(loop), Signal(sig, now), setup)
    {
      done := if setup.hasProcess then [Forward(sig)] else [];
      assert done + [] == done;
      if loop.first.Some? {
        if now - loop.first.value.at >= setup.gap {
          var kill := KillOnce();
          done := done + kill;
        }
        return;
      }
      loop := loop.(first := Some(Signal(sig, now)));
      if setup.hasListener {
        done := done + [Report(sig)];
      }
      loop := loop.(armed := true);
    }

    method OnGrace(now: int) returns (done: seq<Action>)
      requires loop.armed
      modifies this
      ensures (loop, done) == React(old(loop), Grace(now), setup)
    {
      loop := loop.(armed := false);
      done := KillOnce();
    }
  }

  function React(l: Loop, e: Event, u: Setup): (Loop, seq<Action>) {
    var dead := l.(killed := l.killed || u.hasProcess);
    var kill := if u.hasProcess && !l.killed then [Kill] else [];
    match e
    case Grace(_) => (dead.(armed := false), kill)
    case Signal(sig, at) =>
      var forward := if u.hasProcess then [Forward(sig)] else [];
      if l.first.None? then (l.(first := Some(e), armed := true), forward + if u.hasListener then [Report(sig)] else [])
      else if at - l.first.value.at >= u.gap then (dead, forward + kill)
      else (l, forward)
  }

  /** The loop's variables after the events. */
  function After(events: seq<Event>, u: Setup): Loop {
    if events == [] then Loop(None, false, false)
    else React(After(events[..|events| - 1], u), events[|events| - 1], u).0
  }

  function ActionsAt(events: seq<Event>, j: nat, u: Setup): seq<Action>
    requires j < |events|
  {
    React(After(events[..j], u), events[j], u).1
  }

  /** The timer fires only while armed, and no sooner than the grace period. */
  predicate Timely(l: Loop, e: Event, u: Setup) {
    e.Grace? ==> l.armed && l.first.Some? && e.at >= l.first.value.at + u.grace
  }

  predicate Possible(events: seq<Event>, u: Setup) {
    forall j | 0 <= j < |events| :: Timely(After(events[..j], u), events[j], u)
  }

  function FirstSignal(events: seq<Event>): (n: nat)
    ensures n <= |events|
    ensures n < |events| ==> events[n].Signal?
    ensures forall j | 0 <= j < n :: events[j].Grace?
  {
    if events == [] || events[0].Signal? then 0 else 1 + FirstSignal(events[1..])
  }

  /** An event that asks for a kill: the end of the grace period, or a signal long enough
      after the first one. */
  predicate Due(events: seq<Event>, j: nat, u: Setup)
    requires j < |events|
  {
    var n := FirstSignal(events);
    n < j && (events[j].Grace? || events[j].at - events[n].at >= u.gap)
  }

  predicate DueBefore(events: seq<Event>, j: nat, u: Setup)
    requires j <= |events|
  {
    exists i: nat :: i < j && Due(events, i, u)
  }

  /** What the loop knows after `j` events. */
  lemma {:induction false} AfterIs(events: seq<Event>, j: nat, u: Setup)
    requires j <= |events| && Possible(events, u)
    ensures var l := After(events[..j], u); var n := FirstSignal(events);
            && l.first == (if n < j then Some(events[n]) else None)
            && (l.armed ==> n < j)
            && (l.killed <==> u.hasProcess && DueBefore(events, j, u))
  {
    if j > 0 {
      var i := j - 1;
      AfterIs(events, i, u);
      assert events[..j][..i] == events[..i];
      assert Timely(After(events[..i], u), events[i], u);
      DueStep(events, i, u);
    }
  }

  lemma {:induction false} DueStep(events: seq<Event>, i: nat, u: Setup)
    requires i < |events|
    ensures DueBefore(events, i + 1, u) <==> DueBefore(events, i, u) || Due(events, i, u)
  {
    hide Due;
  }

  /** Over every timed run: each signal is forwarded, the first one alone is reported, and
      the child is killed at the first event that asks for it and never again. */
  lemma {:induction false} RelayDoes(events: seq<Event>, j: nat, u: Setup)
    requires j < |events| && Possible(events, u)
    ensures ActionsAt(events, j, u) ==
            (if events[j].Signal? && u.hasProcess then [Forward(events[j].sig)] else [])
            + (if j == FirstSignal(events) && u.hasListener then [Report(events[j].sig)] else [])
            + (if u.hasProcess && Due(events, j, u) && !DueBefore(events, j, u) then [Kill] else [])
  {
    hide DueBefore;
    AfterIs(events, j, u);
    assert Timely(After(events[..j], u), events[j], u);
  }

  /** Two kills in one run would be one too many, and none comes before the grace period or
      the repeat gap is over. */
  lemma {:induction false} KillOnceAndNotEarly(events: seq<Event>, i: nat, j: nat, u: Setup)
    requires i < |events| && j < |events| && Possible(events, u)
    requires Kill in ActionsAt(events, i, u)
    ensures Kill in ActionsAt(events, j, u) ==> i == j
    ensures u.hasProcess && FirstSignal(events) < i
    ensures var first := events[FirstSignal(events)].at;
            if events[i].Grace? then events[i].at >= first + u.grace else events[i].at >= first + u.gap
  {
    hide After, React, FirstSignal, Due;
    RelayDoes(events, i, u);
    RelayDoes(events, j, u);
    KillIsDue(events, i, u);
  }

  /** And it does come: once the grace period is over, or a signal came the gap or longer
      after the first one, the child has been killed, then or before. */
  lemma {:induction false} KillComes(events: seq<Event>, n: nat, j: nat, u: Setup)
    requires n < j < |events| && Possible(events, u) && u.hasProcess
    requires events[n].Signal? && forall i | 0 <= i < n :: events[i].Grace?
    requires events[j].Grace? || events[j].at - events[n].at >= u.gap
    ensures exists i :: n < i <= j && Kill in ActionsAt(events, i, u)
  {
    hide After, React, FirstSignal;
    FirstIs(events, n);
    assert Due(events, j, u);
    FirstDue(events, j, u);
    var i: nat :| i <= j && Due(events, i, u) && !DueBefore(events, i, u);
    RelayDoes(events, i, u);
  }

  lemma {:induction false} FirstIs(events: seq<Event>, n: nat)
    requires n < |events| && events[n].Signal? && forall i | 0 <= i < n :: events[i].Grace?
    ensures FirstSignal(events) == n
  {
    hide FirstSignal;
    var f := FirstSignal(events);
    assert f <= n;
  }

  lemma {:induction false} FirstDue(events: seq<Event>, j: nat, u: Setup)
    requires j < |events| && Due(events, j, u)
    ensures exists i: nat :: i <= j && Due(events, i, u) && !DueBefore(events, i, u)
    decreases j
  {
    hide Due;
    if DueBefore(events, j, u) {
      var i: nat :| i < j && Due(events, i, u);
      FirstDue(events, i, u);
    }
  }

  lemma {:induction false} KillIsDue(events: seq<Event>, i: nat, u: Setup)
    requires i < |events| && Possible(events, u) && Due(events, i, u)
    ensures var n := FirstSignal(events);
            n < i && events[i].at >= events[n].at + if events[i].Grace? then u.grace else u.gap
  {
    hide React;
    AfterIs(events, i, u);
    assert Timely(After(events[..i], u), events[i], u);
  }

  // ----- Rolling back -----

  /** The cleanups still to run, last pushed first. */
  function Remaining(n: nat, done: set<nat>): seq<nat> {
    if n == 0 then [] else (if n - 1 in done then [] else [n - 1]) + Remaining(n - 1, done)
  }

  lemma {:induction false} OneLess(log: seq<nat>, i: nat, done: set<nat>)
    ensures log + Remaining(i + 1, done) == (log + if i in done then [] else [i]) + Remaining(i, done)
  {
    Regroup(log, if i in done then [] else [i], Remaining(i, done));
  }

  lemma {:induction false} Regroup(a: seq<nat>, b: seq<nat>, c: seq<nat>)
    ensures a + (b + c) == (a + b) + c
  {
  }

  lemma {:induction false} NoneLeft(done: set<nat>)
    ensures Remaining(0, done) == []
  {
  }

  /** Cleanups are numbered in push order. Each is wrapped in a sync.Once: it runs at most
      once, and counts as run even if it panics. */
  class RollbackStack {
    var pushed: nat
    var done: set<nat>
    ghost var log: seq<nat>

    /** `log` is what has been invoked, in order: everything done, each once. */
    ghost predicate Valid()
      reads this
    {
      && (forall c | c in done :: c < pushed)
      && (forall c: nat :: c in log <==> c in done)
      && (forall i, j | 0 <= i < j < |log| :: log[i] != log[j])
    }

    constructor ()
      ensures Valid() && pushed == 0 && done == {} && log == []
    {
      pushed := 0;
      done := {};
      log := [];
    }

    method Push() returns (c: nat)
      requires Valid()
      modifies this`pushed
      ensures Valid() && c == old(pushed) && pushed == old(pushed) + 1
    {
      c := pushed;
      pushed := pushed + 1;
    }

    /** One cleanup by itself, as the success path calls it; a panic reaches the caller. */
    method Call(c: nat, panics: bool) returns (panicked: bool)
      requires Valid() && c < pushed
      modifies this`done, this`log
      ensures Valid() && done == old(done) + {c}
      ensures log == (if c in old(done) then old(log) else old(log) + [c])
      ensures panicked <==> panics && c !in old(done)
    {
      if c in done {
        return false;
      }
      done := done + {c};
      log := log + [c];
      return panics;
    }

    /** Every cleanup not yet invoked runs, in reverse push order, whichever of them panic;
        none runs twice. */
    method Run(panics: set<nat>)
      requires Valid()
      modifies this`done, this`log
      ensures Valid() && forall c: nat :: c in done <==> c < pushed
      ensures log == old(log) + Remaining(pushed, old(done))
    {
      hide Remaining;
      var i: nat := pushed;
      while i > 0
        invariant 0 <= i <= pushed && Valid()
        invariant forall c: nat | c < pushed :: c in done <==> c >= i || c in old(done)
        invariant log + Remaining(i, old(done)) == old(log) + Remaining(pushed, old(done))
      {
        i := i - 1;
        OneLess(log, i, old(done));
        assert log + [] == log;
        var panicked := Call(i, i in panics);
      }
      NoneLeft(old(done));
    }
  }

  lemma {:induction false} RemainingIs(n: nat, done: set<nat>)
    ensures forall c: nat :: c in Remaining(n, done) <==> c < n && c !in done
    ensures forall i, j | 0 <= i < j < |Remaining(n, done)| :: Remaining(n, done)[i] > Remaining(n, done)[j]
  {
    if n > 0 {
      RemainingIs(n - 1, done);
      var rest := Remaining(n - 1, done);
      assert forall i | 0 <= i < |rest| :: rest[i] in rest;
    }
  }
}
