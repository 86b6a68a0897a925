/** The screening listener: an accept loop that reserves one of eight slots
    before it takes a connection, one screening goroutine per connection, any
    number of Accept and Close callers, and a reader/writer lock that makes Close
    wait for the Accept calls in flight.

    The goroutines are modelled as a step relation: `Apply` gives the state after
    one atomic step, or None when the step is not enabled, and a run is any
    sequence of enabled steps. The main results come first; the lemmas about single steps
    they rest on follow. */
module Listener {
  import opened Prelude

  type Conn = nat
  type Caller = nat

  // ----- Admission policy -----

  datatype LookupFailure = Orphaned | NotFound | Unsupported | Layout | Other

  /** What the owner lookup said; a panicking lookup counts as `Failed(Other)`. */
  datatype Owner = Uid(uid: nat) | Failed(why: LookupFailure)

  datatype Policy = Policy(self: nat, strict: bool)

  predicate Admits(p: Policy, o: Owner) {
    match o
    case Uid(u) => u == p.self || u == 0
    case Failed(Orphaned) => false
    case Failed(_) => !p.strict
  }

  /** The key under which a verdict is logged; an admitted owner is not logged. */
  datatype LogKey = RefusedUid(uid: nat) | OrphanedPeer | LookupFailed(why: LookupFailure)

  /** The admission half of the listener object, with its `logged` table. */
  class Admission {
    const policy: Policy
    var logged: map<LogKey, bool>
    var lines: seq<LogKey>

    /** Every key in the table was written to the log exactly once. */
    ghost predicate Valid()
      reads this
    {
      && logged.Keys == (set k | k in lines)
      && (forall k | k in logged :: logged[k])
      && (forall i, j | 0 <= i < j < |lines| :: lines[i] != lines[j])
    }

    constructor (p: Policy)
      ensures Valid() && policy == p && lines == []
    {
      policy := p;
      logged := map[];
      lines := [];
    }

    method LogOnce(key: LogKey)
      requires Valid()
      modifies this
      ensures Valid()
      ensures lines == if key in old(lines) then old(lines) else old(lines) + [key]
    {
      var first := !(key in logged && logged[key]);
      logged := logged[key := true];
      if first {
        lines := lines + [key];
      }
    }

    /** Own uid and root pass without a word. Every other answer is logged, under its own
        key and once; of those only a failure to identify a peer that still has an owner
        passes, and only where the policy is not strict. */
    method Admit(o: Owner) returns (ok: bool)
      requires Valid()
      modifies this
      ensures Valid() && ok == Admits(policy, o)
      ensures ok <==> o == Uid(policy.self) || o == Uid(0)
                      || (o.Failed? && o.why != Orphaned && !policy.strict)
      ensures o == Uid(policy.self) || o == Uid(0) ==> lines == old(lines)
      ensures o.Uid? && o.uid != policy.self && o.uid != 0 ==>
                lines == if RefusedUid(o.uid) in old(lines) then old(lines) else old(lines) + [RefusedUid(o.uid)]
      ensures o == Failed(Orphaned) ==>
                lines == if OrphanedPeer in old(lines) then old(lines) else old(lines) + [OrphanedPeer]
      ensures o.Failed? && o.why != Orphaned ==>
                lines == if LookupFailed(o.why) in old(lines) then old(lines) else old(lines) + [LookupFailed(o.why)]
    {
      match o {
        case Uid(u) =>
          if u == policy.self || u == 0 {
            return true;
          }
          LogOnce(RefusedUid(u));
          ok := false;
        case Failed(Orphaned) =>
          LogOnce(OrphanedPeer);
          ok := false;
        case Failed(w) =>
          LogOnce(LookupFailed(w));
          ok := !policy.strict;
      }
    }
  }

  // ----- State -----

  const MAX_SCREENING: nat := 8

  datatype InnerError = Closed | Temporary(code: int)

  /** The accept loop. It holds a slot reservation while Accepting or Failing. An inner Accept
      begun while the inner listener was open may still return a connection, or any error,
      after it was closed. */
  datatype LoopPhase =
    | Reserving
    | Accepting(open: bool)
    | Failing(err: InnerError)
    | Reporting(err: InnerError)
    | Stopped

  datatype Answer = Delivered(conn: Conn) | Refused(err: InnerError)

  /** One Accept call; all phases but Answered hold the read lock. */
  datatype CallPhase =
    | Selecting
    | Received(conn: Conn)
    | Answering(answer: Answer)
    | Answered(answer: Answer)

  /** One Close call. */
  datatype ClosePhase = DoneClosed | InnerClosed | WriteLocked | CloseReturned

  datatype State = State(
    slots: nat,
    loop: LoopPhase,
    looking: set<Conn>,   // screeners inside the owner lookup
    looked: set<Conn>,    // lookup returned, slot still held
    deciding: set<Conn>,  // slot released, policy not applied yet
    offering: set<Conn>,  // admitted, waiting for an Accept call or for done
    owners: map<Conn, Owner>,
    calls: map<Caller, CallPhase>,
    closers: map<Caller, ClosePhase>,
    readers: set<Caller>,
    writer: Option<Caller>,
    done: bool,
    innerClosed: bool,
    taken: set<Conn>,     // every connection the inner listener ever returned
    shut: set<Conn>)      // connections the listener closed itself

  const INIT: State := State(0, Reserving, {}, {}, {}, {}, map[], map[], map[], {}, None, false, false, {}, {})

  // ----- Steps -----

  datatype Step =
    | Loop(l: LoopStep)
    | Screen(s: ScreenStep)
    | Call(a: CallStep)
    | Close(k: CloseStep)

  datatype LoopStep =
    | Reserve
    | SeeDoneReserving
    | TakeConn(conn: Conn)
    | TakeError(err: InnerError)
    | ReleaseSlot
    | ReportTo(caller: Caller)
    | SeeDoneReporting

  datatype ScreenStep =
    | FinishLookup(conn: Conn, owner: Owner)
    | FreeSlot(conn: Conn)
    | Decide(conn: Conn)
    | HandTo(conn: Conn, caller: Caller)
    | SeeDoneOffering(conn: Conn)

  datatype CallStep =
    | ReadLock(caller: Caller)
    | SeeDoneSelecting(caller: Caller)
    | CheckDone(caller: Caller)
    | ReadUnlock(caller: Caller)

  datatype CloseStep =
    | CloseDone(caller: Caller)
    | CloseInner(caller: Caller)
    | WriteLock(caller: Caller)
    | WriteUnlock(caller: Caller)

  function ApplyLoop(s: State, l: LoopStep): Option<State> {
    match l
    case Reserve =>
      if s.loop == Reserving && s.slots < MAX_SCREENING
      then Some(s.(slots := s.slots + 1, loop := Accepting(!s.innerClosed))) else None
    case SeeDoneReserving =>
      if s.loop == Reserving && s.done then Some(s.(loop := Stopped)) else None
    case TakeConn(c) =>
      if s.loop == Accepting(true) && c !in s.taken
      then Some(s.(loop := Reserving, looking := s.looking + {c}, taken := s.taken + {c})) else None
    case TakeError(e) =>
      if s.loop.Accepting? && (s.loop.open || e == Closed)
      then Some(s.(loop := Failing(e))) else None
    case ReleaseSlot =>
      if s.loop.Failing? && s.slots > 0
      then Some(s.(loop := Reporting(s.loop.err), slots := s.slots - 1)) else None
    case ReportTo(a) =>
      if s.loop.Reporting? && a in s.calls && s.calls[a] == Selecting
      then Some(s.(calls := s.calls[a := Answering(Refused(s.loop.err))],
                   loop := if s.loop.err == Closed then Stopped else Reserving)) else None
    case SeeDoneReporting =>
      if s.loop.Reporting? && s.done then Some(s.(loop := Stopped)) else None
  }

  function ApplyScreen(s: State, p: Policy, t: ScreenStep): Option<State> {
    match t
    case FinishLookup(c, o) =>
      if c in s.looking
      then Some(s.(looking := s.looking - {c}, looked := s.looked + {c}, owners := s.owners[c := o])) else None
    case FreeSlot(c) =>
      if c in s.looked && s.slots > 0
      then Some(s.(looked := s.looked - {c}, deciding := s.deciding + {c}, slots := s.slots - 1)) else None
    case Decide(c) =>
      if !(c in s.deciding && c in s.owners) then None
      else if Admits(p, s.owners[c]) then Some(s.(deciding := s.deciding - {c}, offering := s.offering + {c}))
      else Some(s.(deciding := s.deciding - {c}, shut := s.shut + {c}))
    case HandTo(c, a) =>
      if c in s.offering && a in s.calls && s.calls[a] == Selecting
      then Some(s.(offering := s.offering - {c}, calls := s.calls[a := Received(c)])) else None
    case SeeDoneOffering(c) =>
      if c in s.offering && s.done
      then Some(s.(offering := s.offering - {c}, shut := s.shut + {c})) else None
  }

  function ApplyCall(s: State, t: CallStep): Option<State> {
    match t
    case ReadLock(a) =>
      if a !in s.calls && s.writer == None
      then Some(s.(calls := s.calls[a := Selecting], readers := s.readers + {a})) else None
    case SeeDoneSelecting(a) =>
      if a in s.calls && s.calls[a] == Selecting && s.done
      then Some(s.(calls := s.calls[a := Answering(Refused(Closed))])) else None
    case CheckDone(a) =>
      if !(a in s.calls && s.calls[a].Received?) then None
      else if s.done then
        Some(s.(calls := s.calls[a := Answering(Refused(Closed))], shut := s.shut + {s.calls[a].conn}))
      else Some(s.(calls := s.calls[a := Answering(Delivered(s.calls[a].conn))]))
    case ReadUnlock(a) =>
      if a in s.calls && s.calls[a].Answering?
      then Some(s.(calls := s.calls[a := Answered(s.calls[a].answer)], readers := s.readers - {a})) else None
  }

  function ApplyClose(s: State, t: CloseStep): Option<State> {
    match t
    case CloseDone(k) =>
      if k !in s.closers then Some(s.(closers := s.closers[k := DoneClosed], done := true)) else None
    case CloseInner(k) =>
      if k in s.closers && s.closers[k] == DoneClosed
      then Some(s.(closers := s.closers[k := InnerClosed], innerClosed := true)) else None
    case WriteLock(k) =>
      if k in s.closers && s.closers[k] == InnerClosed && s.readers == {} && s.writer == None
      then Some(s.(closers := s.closers[k := WriteLocked], writer := Some(k))) else None
    case WriteUnlock(k) =>
      if k in s.closers && s.closers[k] == WriteLocked
      then Some(s.(closers := s.closers[k := CloseReturned], writer := None)) else None
  }

  function Apply(s: State, p: Policy, t: Step): Option<State> {
    match t
    case Loop(l) => ApplyLoop(s, l)
    case Screen(x) => ApplyScreen(s, p, x)
    case Call(a) => ApplyCall(s, a)
    case Close(k) => ApplyClose(s, k)
  }

  /** The state after running `steps` in order, or None when one is not enabled. */
  function Run(s: State, p: Policy, steps: seq<Step>): Option<State>
    decreases |steps|
  {
    if steps == [] then Some(s)
    else match Apply(s, p, steps[0])
         case None => None
         case Some(s') => Run(s', p, steps[1..])
  }

  // ----- Invariants -----

  function LoopReservation(s: State): nat {
    if s.loop.Accepting? || s.loop.Failing? then 1 else 0
  }

  ghost predicate SlotsCounted(s: State) {
    && s.slots == LoopReservation(s) + |s.looking| + |s.looked|
    && s.slots <= MAX_SCREENING
  }

  /** The connection an Accept call holds, if any. */
  function HeldBy(ph: CallPhase): Option<Conn> {
    match ph
    case Received(c) => Some(c)
    case Answering(Delivered(c)) => Some(c)
    case Answered(Delivered(c)) => Some(c)
    case _ => None
  }

  ghost predicate Holds(s: State, a: Caller, c: Conn) {
    a in s.calls && HeldBy(s.calls[a]) == Some(c)
  }

  ghost predicate Apart(s: State) {
    && s.looking !! s.looked && s.looking !! s.deciding && s.looking !! s.offering && s.looking !! s.shut
    && s.looked !! s.deciding && s.looked !! s.offering && s.looked !! s.shut
    && s.deciding !! s.offering && s.deciding !! s.shut && s.offering !! s.shut
  }

  predicate Listed(s: State, c: Conn) {
    c in s.looking || c in s.looked || c in s.deciding || c in s.offering || c in s.shut
  }

  ghost predicate HeldOnce(s: State) {
    && (forall a, c | Holds(s, a, c) :: c in s.taken && !Listed(s, c))
    && (forall a, b, c | Holds(s, a, c) && Holds(s, b, c) :: a == b)
  }

  ghost predicate NoneLost(s: State) {
    && (forall c | Listed(s, c) :: c in s.taken)
    && (forall c | c in s.taken && !Listed(s, c) :: exists a :: Holds(s, a, c))
  }

  /** Every connection taken is in exactly one place, and nothing else is anywhere. */
  ghost predicate PlacedOnce(s: State) {
    Apart(s) && HeldOnce(s) && NoneLost(s)
  }

  /** Only admitted connections get past the policy, and an admitted one is closed only after done. */
  ghost predicate PolicyApplied(s: State, p: Policy) {
    && (forall c | c in s.looked || c in s.deciding :: c in s.owners)
    && (forall c | c in s.offering :: c in s.owners && Admits(p, s.owners[c]))
    && (forall a, c | Holds(s, a, c) :: c in s.owners && Admits(p, s.owners[c]))
    && (forall c | c in s.shut :: c in s.owners && (!Admits(p, s.owners[c]) || s.done))
  }

  ghost predicate LockDiscipline(s: State) {
    && (forall a :: a in s.readers <==> a in s.calls && !s.calls[a].Answered?)
    && (forall k :: s.writer == Some(k) <==> k in s.closers && s.closers[k].WriteLocked?)
    && (s.writer != None ==> s.readers == {})
  }

  /** Once a Close call owns or has released the write lock, no Accept is about to deliver. */
  ghost predicate CloseOrdered(s: State) {
    && (s.closers != map[] ==> s.done)
    && (forall k | k in s.closers && s.closers[k] != DoneClosed :: s.innerClosed)
    && (forall k, a | k in s.closers && s.closers[k] in {WriteLocked, CloseReturned} && a in s.calls ::
          !(s.calls[a].Answering? && s.calls[a].answer.Delivered?))
  }

  ghost predicate Inv(s: State, p: Policy) {
    SlotsCounted(s) && PlacedOnce(s) && PolicyApplied(s, p) && LockDiscipline(s) && CloseOrdered(s)
  }

  // ----- What the main results speak of -----

  /** How many places hold `c`: a screener, the closed set, or one of the Accept calls. */
  ghost function Places(s: State, c: Conn): nat {
    (if c in s.looking then 1 else 0) + (if c in s.looked then 1 else 0) + (if c in s.deciding then 1 else 0)
    + (if c in s.offering then 1 else 0) + (if c in s.shut then 1 else 0)
    + |set a | a in s.calls && Holds(s, a, c)|
  }

  ghost predicate CloseHasReturned(s: State) {
    exists k :: k in s.closers && s.closers[k] == CloseReturned
  }

  /** Every Accept call that has returned a connection in `s'` had done so in `s`. */
  ghost predicate NoNewDelivery(s: State, s': State) {
    forall a, c | a in s'.calls && s'.calls[a] == Answered(Delivered(c)) :: a in s.calls && s.calls[a] == s'.calls[a]
  }

  function LoopRank(l: LoopPhase): nat {
    match l
    case Stopped => 0
    case Reporting(Closed) => 1
    case Failing(Closed) => 2
    case Accepting(open) => if open then 9 else 3
    case Reserving => 4
    case Reporting(_) => 5
    case Failing(_) => 6
  }

  /** Steps the accept loop and the screeners still have to take once closing. */
  function Remaining(s: State): nat {
    LoopRank(s.loop) + 4 * |s.looking| + 3 * |s.looked| + 2 * |s.deciding| + |s.offering|
  }

  ghost predicate Closing(s: State) { s.done && s.innerClosed }

  /** How many of `steps` belong to the accept loop or to a screener. */
  function OwnSteps(steps: seq<Step>): nat {
    if steps == [] then 0
    else (if steps[0].Loop? || steps[0].Screen? then 1 else 0) + OwnSteps(steps[1..])
  }

  ghost predicate Finished(s: State) {
    s.loop == Stopped && s.looking == {} && s.looked == {} && s.deciding == {} && s.offering == {}
  }

  ghost predicate OwnStepEnabled(s: State, p: Policy) {
    exists t: Step :: (t.Loop? || t.Screen?) && Apply(s, p, t) != None
  }

  function NextOf(a: Caller, ph: CallPhase): CallStep {
    match ph
    case Selecting => SeeDoneSelecting(a)
    case Received(_) => CheckDone(a)
    case _ => ReadUnlock(a)
  }

  // ----- Main results over whole runs -----

  /** In every interleaving each connection taken is in exactly one place, and a
      connection an Accept call got hold of is one the policy admits. */
  lemma {:induction false} EveryConnectionPlacedOnce(p: Policy, steps: seq<Step>, c: Conn)
    requires Run(INIT, p, steps).Some?
    ensures var s := Run(INIT, p, steps).value;
            && Places(s, c) == (if c in s.taken then 1 else 0)
            && (forall a | Holds(s, a, c) :: c in s.owners && Admits(p, s.owners[c]))
            && (c in s.shut ==> c in s.owners && (!Admits(p, s.owners[c]) || s.done))
  {
    RunKeepsInv(INIT, p, steps);
    OnePlace(Run(INIT, p, steps).value, c);
  }

  /** Whoever gets a connection, in whatever interleaving: some lookup of that connection in
      this very run answered with our own uid or root, or, where the policy is not strict,
      failed on a peer that was not orphaned. Under a strict policy nobody else's
      connection is ever delivered. */
  lemma {:induction false} OnlyOwnConnectionsDelivered(p: Policy, steps: seq<Step>, a: Caller, c: Conn)
    requires Run(INIT, p, steps).Some?
    requires var s := Run(INIT, p, steps).value;
             a in s.calls && s.calls[a] in {Received(c), Answering(Delivered(c)), Answered(Delivered(c))}
    ensures exists i, o | 0 <= i < |steps| ::
              && steps[i] == Screen(FinishLookup(c, o))
              && (o == Uid(p.self) || o == Uid(0) || (!p.strict && o.Failed? && o.why != Orphaned))
    ensures p.strict ==> Screen(FinishLookup(c, Uid(p.self))) in steps || Screen(FinishLookup(c, Uid(0))) in steps
  {
    hide Run, Apply, Inv;
    InitInv(p);
    RunKeepsInv(INIT, p, steps);
    var s := Run(INIT, p, steps).value;
    assert Holds(s, a, c);
    HeldIsAdmitted(s, p, a, c);
    OwnersLookedUp(INIT, p, steps, c);
    var i :| 0 <= i < |steps| && steps[i] == Screen(FinishLookup(c, s.owners[c]));
  }

  /** A refused connection is closed, and an admitted one is never closed before done: the
      screener of a connection whose lookup answers `o` puts it up for an Accept call, and
      with one waiting that call returns it. */
  lemma {:induction false} ScreenedConnectionArrives(s: State, p: Policy, c: Conn, o: Owner, a: Caller)
    requires c in s.looking && c !in s.looked && s.slots > 0 && !s.done && a in s.calls && s.calls[a] == Selecting
    ensures var mine := o == Uid(p.self) || o == Uid(0) || (!p.strict && o.Failed? && o.why != Orphaned);
            var r := Run(s, p, [Screen(FinishLookup(c, o)), Screen(FreeSlot(c)), Screen(Decide(c))]);
            && r.Some? && r.value.slots == s.slots - 1
            && (mine ==> c in r.value.offering && Delivers(r.value, p, c, a))
            && (!mine ==> c in r.value.shut)
  {
    var steps := [Screen(FinishLookup(c, o)), Screen(FreeSlot(c)), Screen(Decide(c))];
    var s1 := Apply(s, p, steps[0]).value;
    var s2 := Apply(s1, p, steps[1]).value;
    var s3 := Apply(s2, p, steps[2]).value;
    RunThree(s, p, steps[0], steps[1], steps[2]);
    if c in s3.offering {
      OfferedIsDelivered(s3, p, c, a);
    }
  }

  /** Handing over, the last look at done, and the return of the call. */
  ghost predicate Delivers(s: State, p: Policy, c: Conn, a: Caller) {
    var r := Run(s, p, [Screen(HandTo(c, a)), Call(CheckDone(a)), Call(ReadUnlock(a))]);
    r.Some? && a in r.value.calls && r.value.calls[a] == Answered(Delivered(c))
  }

  lemma {:induction false} OfferedIsDelivered(s: State, p: Policy, c: Conn, a: Caller)
    requires c in s.offering && !s.done && a in s.calls && s.calls[a] == Selecting
    ensures Delivers(s, p, c, a)
  {
    RunThree(s, p, Screen(HandTo(c, a)), Call(CheckDone(a)), Call(ReadUnlock(a)));
  }

  /** An Accept call can start whenever no Close is past its lock, and the loop takes whatever
      new connection an open inner listener returns. */
  lemma {:induction false} CallsAndConnectionsComeIn(s: State, p: Policy, a: Caller, c: Conn)
    ensures a !in s.calls && s.writer == None ==>
              var r := Apply(s, p, Call(ReadLock(a)));
              r.Some? && a in r.value.calls && r.value.calls[a] == Selecting && a in r.value.readers
    ensures s.loop == Accepting(true) && c !in s.taken ==>
              var r := Apply(s, p, Loop(TakeConn(c)));
              r.Some? && c in r.value.looking && c in r.value.taken && r.value.loop == Reserving
  {
  }

  /** An error of the inner listener reaches a waiting Accept call as it is, gives its slot
      back, and ends the loop only if it says that the listener is closed. */
  lemma {:induction false} ErrorReachesAccept(s: State, p: Policy, e: InnerError, a: Caller)
    requires s.loop == Accepting(true) && s.slots > 0 && a in s.calls && s.calls[a] == Selecting
    ensures var r := Run(s, p, [Loop(TakeError(e)), Loop(ReleaseSlot), Loop(ReportTo(a))]);
            && r.Some? && r.value.slots == s.slots - 1
            && a in r.value.calls && r.value.calls[a] == Answering(Refused(e))
            && r.value.loop == if e == Closed then Stopped else Reserving
  {
    RunThree(s, p, Loop(TakeError(e)), Loop(ReleaseSlot), Loop(ReportTo(a)));
  }

  /** With no Accept call in flight a Close call goes straight through. */
  lemma {:induction false} CloseGoesThrough(s: State, p: Policy, k: Caller)
    requires k !in s.closers && s.readers == {} && s.writer == None
    ensures var r := Run(s, p, [Close(CloseDone(k)), Close(CloseInner(k)), Close(WriteLock(k))]);
            && r.Some? && r.value.done && r.value.innerClosed && r.value.writer == Some(k)
            && var r' := Apply(r.value, p, Close(WriteUnlock(k)));
               r'.Some? && k in r'.value.closers && r'.value.closers[k] == CloseReturned && r'.value.writer == None
  {
    RunThree(s, p, Close(CloseDone(k)), Close(CloseInner(k)), Close(WriteLock(k)));
  }

  lemma {:induction false} RunThree(s: State, p: Policy, t0: Step, t1: Step, t2: Step)
    requires Apply(s, p, t0).Some? && Apply(Apply(s, p, t0).value, p, t1).Some?
    requires Apply(Apply(Apply(s, p, t0).value, p, t1).value, p, t2).Some?
    ensures Run(s, p, [t0, t1, t2]) == Apply(Apply(Apply(s, p, t0).value, p, t1).value, p, t2)
  {
    hide Apply;
    var s1 := Apply(s, p, t0).value;
    var s2 := Apply(s1, p, t1).value;
    var s3 := Apply(s2, p, t2).value;
    Unroll(s, p, [t0, t1, t2]);
    assert [t0, t1, t2][1..] == [t1, t2];
    Unroll(s1, p, [t1, t2]);
    assert [t1, t2][1..] == [t2];
    Unroll(s2, p, [t2]);
    assert [t2][1..] == [];
    Unrolled(s3, p);
  }

  lemma {:induction false} Unroll(s: State, p: Policy, steps: seq<Step>)
    requires steps != [] && Apply(s, p, steps[0]).Some?
    ensures Run(s, p, steps) == Run(Apply(s, p, steps[0]).value, p, steps[1..])
  {
    hide Apply;
  }

  lemma {:induction false} Unrolled(s: State, p: Policy)
    ensures Run(s, p, []) == Some(s)
  {
  }

  /** All eight slots can be used. */
  lemma {:induction false} EightSlots(s: State, p: Policy)
    requires s.loop == Reserving
    ensures Apply(s, p, Loop(Reserve)).Some? <==> s.slots < 8
  {
  }

  lemma {:induction false} InitInv(p: Policy)
    ensures Inv(INIT, p)
  {
  }

  lemma {:induction false} HeldIsAdmitted(s: State, p: Policy, a: Caller, c: Conn)
    requires Inv(s, p) && Holds(s, a, c)
    ensures c in s.owners
    ensures var o := s.owners[c]; o == Uid(p.self) || o == Uid(0) || (!p.strict && o.Failed? && o.why != Orphaned)
  {
    hide SlotsCounted, PlacedOnce, LockDiscipline, CloseOrdered;
  }

  /** What is recorded of a connection's owner is what a lookup said. */
  lemma {:induction false} OwnersLookedUp(s: State, p: Policy, steps: seq<Step>, c: Conn)
    requires Run(s, p, steps).Some?
    ensures var s' := Run(s, p, steps).value;
            c in s'.owners ==>
              || (c in s.owners && s'.owners[c] == s.owners[c])
              || exists i :: 0 <= i < |steps| && steps[i] == Screen(FinishLookup(c, s'.owners[c]))
    decreases |steps|
  {
    hide Apply;
    if steps != [] {
      var mid := Apply(s, p, steps[0]).value;
      OwnersLookedUp(mid, p, steps[1..], c);
      OwnerStep(s, p, steps[0], c);
      var s' := Run(s, p, steps).value;
      if i :| 0 <= i < |steps[1..]| && c in s'.owners && steps[1..][i] == Screen(FinishLookup(c, s'.owners[c])) {
        assert steps[i + 1] == steps[1..][i];
      }
    }
  }

  lemma {:induction false} OwnerStep(s: State, p: Policy, t: Step, c: Conn)
    requires Apply(s, p, t).Some?
    ensures var s' := Apply(s, p, t).value;
            c in s'.owners ==>
              (c in s.owners && s'.owners[c] == s.owners[c]) || t == Screen(FinishLookup(c, s'.owners[c]))
  {
    hide Admits;
  }

  /** In every interleaving at most eight owner lookups run at once, and the slots
      in use are the loop's reservation plus the connections still in lookup. */
  lemma {:induction false} LookupsBounded(p: Policy, steps: seq<Step>)
    requires Run(INIT, p, steps).Some?
    ensures var s := Run(INIT, p, steps).value;
            |s.looking| <= LoopReservation(s) + |s.looking| + |s.looked| == s.slots <= 8
  {
    RunKeepsInv(INIT, p, steps);
  }

  /** Once some Close has returned, no later step of any interleaving makes an
      Accept call return a connection. */
  lemma {:induction false} NoDeliveryAfterClose(p: Policy, before: seq<Step>, after: seq<Step>)
    requires Run(INIT, p, before).Some? && CloseHasReturned(Run(INIT, p, before).value)
    requires Run(Run(INIT, p, before).value, p, after).Some?
    ensures NoNewDelivery(Run(INIT, p, before).value, Run(Run(INIT, p, before).value, p, after).value)
  {
    hide Apply, CloseHasReturned, NoNewDelivery;
    RunKeepsInv(INIT, p, before);
    NoDeliveryFrom(Run(INIT, p, before).value, p, after);
  }

  lemma {:induction false} StepShrinks(s: State, p: Policy, t: Step)
    requires Closing(s) && Inv(s, p) && Apply(s, p, t).Some?
    ensures Closing(Apply(s, p, t).value)
    ensures var s' := Apply(s, p, t).value; Remaining(s') <= Remaining(s)
    ensures var s' := Apply(s, p, t).value; t.Loop? || t.Screen? ==> Remaining(s') < Remaining(s)
  {
    hide SlotsCounted, HeldOnce, NoneLost, PolicyApplied, LockDiscipline, CloseOrdered;
    hide Remaining, ApplyLoop, ApplyScreen, ApplyCall, ApplyClose;
    match t {
      case Loop(l) => LoopStepShrinks(s, l);
      case Screen(x) => ScreenStepShrinks(s, p, x);
      case Call(a) => CallStepStays(s, a);
      case Close(k) => CloseStepStays(s, k);
    }
  }

  /** After done is set and the inner listener closed, every run contains at most
      `Remaining` steps of the loop and the screeners, whatever else interleaves. */
  lemma {:induction false} WindDownBounded(s: State, p: Policy, steps: seq<Step>)
    requires Closing(s) && Inv(s, p) && Run(s, p, steps).Some?
    ensures Closing(Run(s, p, steps).value) && OwnSteps(steps) + Remaining(Run(s, p, steps).value) <= Remaining(s)
    decreases |steps|
  {
    hide Inv, Apply, Remaining;
    if steps != [] {
      var mid := Apply(s, p, steps[0]).value;
      StepShrinks(s, p, steps[0]);
      StepKeepsInv(s, p, steps[0]);
      WindDownBounded(mid, p, steps[1..]);
    }
  }

  /** No deadlock on the way down: until everything has finished, the loop or some
      screener can take a step by itself. */
  lemma {:induction false} WindDownNeverStuck(s: State, p: Policy)
    requires Closing(s) && SlotsCounted(s) && PolicyApplied(s, p)
    ensures OwnStepEnabled(s, p) <==> !Finished(s)
    ensures Finished(s) <==> Remaining(s) == 0
  {
    if Finished(s) {
      assert forall t: Step | t.Loop? || t.Screen? :: Apply(s, p, t) == None;
    } else if s.loop != Stopped {
      assert Apply(s, p, Loop(match s.loop
                              case Reserving => SeeDoneReserving
                              case Accepting(_) => TakeError(Closed)
                              case Failing(_) => ReleaseSlot
                              case _ => SeeDoneReporting)) != None;
    } else if s.looking != {} {
      var c :| c in s.looking;
      assert Apply(s, p, Screen(FinishLookup(c, Uid(0)))) != None;
    } else if s.looked != {} {
      var c :| c in s.looked;
      assert Apply(s, p, Screen(FreeSlot(c))) != None;
    } else if s.deciding != {} {
      var c :| c in s.deciding;
      assert Apply(s, p, Screen(Decide(c))) != None;
    } else {
      var c :| c in s.offering;
      assert Apply(s, p, Screen(SeeDoneOffering(c))) != None;
    }
  }

  /** A Close call gets the write lock only when no Accept call is in flight. */
  lemma {:induction false} CloseWaitsForAccepts(s: State, p: Policy, k: Caller)
    requires Inv(s, p) && Apply(s, p, Close(WriteLock(k))).Some?
    ensures forall a | a in s.calls :: s.calls[a].Answered?
    ensures s.done && s.innerClosed
  {
    forall a | a in s.calls
      ensures s.calls[a].Answered?
    {
      assert a !in s.readers;
    }
  }

  /** After done, an Accept call in flight is never blocked: its own next step is
      enabled, and so is the write lock as soon as no call is in flight. */
  lemma {:induction false} AcceptUnblockedByClose(s: State, p: Policy)
    requires s.done && LockDiscipline(s)
    ensures forall a | a in s.readers :: a in s.calls && Apply(s, p, Call(NextOf(a, s.calls[a]))) != None
    ensures forall k | k in s.closers && s.closers[k] == InnerClosed && s.readers == {} && s.writer == None ::
              Apply(s, p, Close(WriteLock(k))) != None
  {
  }

  /** Every state of every interleaving satisfies the invariant. */
  lemma {:induction false} RunKeepsInv(s: State, p: Policy, steps: seq<Step>)
    requires Inv(s, p) && Run(s, p, steps).Some?
    ensures Inv(Run(s, p, steps).value, p)
    decreases |steps|
  {
    hide Inv, Apply;
    if steps != [] {
      var mid := Apply(s, p, steps[0]).value;
      StepKeepsInv(s, p, steps[0]);
      RunKeepsInv(mid, p, steps[1..]);
    }
  }

  lemma {:induction false} StepKeepsInv(s: State, p: Policy, t: Step)
    requires Inv(s, p) && Apply(s, p, t).Some?
    ensures Inv(Apply(s, p, t).value, p)
  {
    hide SlotsCounted, PlacedOnce, PolicyApplied, LockDiscipline, CloseOrdered;
    StepKeepsSlots(s, p, t);
    match t {
      case Loop(l) =>
        LoopKeepsPlaces(s, l);
        LoopKeepsPolicy(s, p, l);
        LoopKeepsLocks(s, l);
      case Screen(x) =>
        if x.HandTo? { HandKeepsPlaces(s, p, x); } else { ScreenKeepsPlaces(s, p, x); }
        ScreenKeepsPolicy(s, p, x);
        ScreenKeepsLocks(s, p, x);
      case Call(a) =>
        CallKeepsPlaces(s, a);
        CallKeepsPolicy(s, p, a);
        CallKeepsLocks(s, a);
      case Close(k) =>
        CloseKeepsPlaces(s, k);
        CloseKeepsPolicy(s, p, k);
        CloseKeepsLocks(s, k);
    }
  }

  lemma {:induction false} OnePlace(s: State, c: Conn)
    requires PlacedOnce(s)
    ensures Places(s, c) == if c in s.taken then 1 else 0
  {
    var holders := set a | a in s.calls && Holds(s, a, c);
    assert forall a | Holds(s, a, c) :: a in holders;
    if holders != {} {
      var a :| a in holders;
      assert holders == {a};
    }
  }

  // ----- Every step -----

  lemma {:induction false} SizesAfterMove(from: set<Conn>, to: set<Conn>, c: Conn)
    requires c in from && c !in to
    ensures |from - {c}| == |from| - 1 && |to + {c}| == |to| + 1
  {
    assert from == (from - {c}) + {c};
  }

  lemma {:induction false} LoopKeepsSlots(s: State, l: LoopStep)
    requires SlotsCounted(s) && s.looking <= s.taken && ApplyLoop(s, l).Some?
    ensures SlotsCounted(ApplyLoop(s, l).value)
  {
    if l.TakeConn? {
      SizesAfterMove({l.conn}, s.looking, l.conn);
    }
  }

  lemma {:induction false} LookupKeepsSlots(s: State, p: Policy, t: ScreenStep)
    requires SlotsCounted(s) && s.looking !! s.looked && (t.FinishLookup? || t.FreeSlot?)
    requires ApplyScreen(s, p, t).Some?
    ensures SlotsCounted(ApplyScreen(s, p, t).value)
  {
    hide Admits;
    if t.FinishLookup? {
      SizesAfterMove(s.looking, s.looked, t.conn);
    } else {
      SizesAfterMove(s.looked, {}, t.conn);
    }
  }

  lemma {:induction false} PolicyKeepsSlots(s: State, p: Policy, t: ScreenStep)
    requires !t.FinishLookup? && !t.FreeSlot? && ApplyScreen(s, p, t).Some?
    ensures var s' := ApplyScreen(s, p, t).value;
            s'.slots == s.slots && s'.loop == s.loop && s'.looking == s.looking && s'.looked == s.looked
  {
    hide Admits;
  }

  lemma {:induction false} ScreenKeepsSlots(s: State, p: Policy, t: ScreenStep)
    requires SlotsCounted(s) && s.looking !! s.looked && ApplyScreen(s, p, t).Some?
    ensures SlotsCounted(ApplyScreen(s, p, t).value)
  {
    hide ApplyScreen;
    if t.FinishLookup? || t.FreeSlot? {
      LookupKeepsSlots(s, p, t);
    } else {
      PolicyKeepsSlots(s, p, t);
    }
  }

  lemma {:induction false} StepKeepsSlots(s: State, p: Policy, t: Step)
    requires SlotsCounted(s) && PlacedOnce(s) && Apply(s, p, t).Some?
    ensures SlotsCounted(Apply(s, p, t).value)
  {
    hide SlotsCounted, HeldOnce, Holds;
    match t {
      case Loop(l) =>
        assert s.looking <= s.taken by { assert forall c | c in s.looking :: Listed(s, c); }
        LoopKeepsSlots(s, l);
      case Screen(x) => ScreenKeepsSlots(s, p, x);
      case Call(a) => CallKeepsSlots(s, a);
      case Close(k) => CloseKeepsSlots(s, k);
    }
  }

  lemma {:induction false} CallKeepsSlots(s: State, t: CallStep)
    requires SlotsCounted(s) && ApplyCall(s, t).Some?
    ensures SlotsCounted(ApplyCall(s, t).value)
  {
  }

  lemma {:induction false} CloseKeepsSlots(s: State, t: CloseStep)
    requires SlotsCounted(s) && ApplyClose(s, t).Some?
    ensures SlotsCounted(ApplyClose(s, t).value)
  {
  }

  lemma {:induction false} LoopKeepsPlaces(s: State, l: LoopStep)
    requires PlacedOnce(s) && ApplyLoop(s, l).Some?
    ensures PlacedOnce(ApplyLoop(s, l).value)
  {
    var s' := ApplyLoop(s, l).value;
    assert forall a, c :: Holds(s', a, c) <==> Holds(s, a, c);
  }

  lemma {:induction false} HandKeepsPlaces(s: State, p: Policy, t: ScreenStep)
    requires PlacedOnce(s) && t.HandTo? && ApplyScreen(s, p, t).Some?
    ensures PlacedOnce(ApplyScreen(s, p, t).value)
  {
    var s' := ApplyScreen(s, p, t).value;
    assert Holds(s', t.caller, t.conn);
    assert forall a, c :: Holds(s', a, c) <==> Holds(s, a, c) || (a == t.caller && c == t.conn);
  }

  lemma {:induction false} ScreenKeepsApart(s: State, p: Policy, t: ScreenStep)
    requires Apart(s) && ApplyScreen(s, p, t).Some?
    ensures Apart(ApplyScreen(s, p, t).value)
  {
    hide Admits;
  }

  lemma {:induction false} ScreenKeepsPlaces(s: State, p: Policy, t: ScreenStep)
    requires PlacedOnce(s) && !t.HandTo? && ApplyScreen(s, p, t).Some?
    ensures PlacedOnce(ApplyScreen(s, p, t).value)
  {
    hide Apart, Admits;
    var s' := ApplyScreen(s, p, t).value;
    assert forall a, c :: Holds(s', a, c) <==> Holds(s, a, c);
    assert forall c :: Listed(s', c) <==> Listed(s, c);
    ScreenKeepsApart(s, p, t);
  }

  lemma {:induction false} CallKeepsPlaces(s: State, t: CallStep)
    requires PlacedOnce(s) && ApplyCall(s, t).Some?
    ensures PlacedOnce(ApplyCall(s, t).value)
  {
    var s' := ApplyCall(s, t).value;
    if t.CheckDone? && s.done {
      assert Holds(s, t.caller, s.calls[t.caller].conn);
      assert forall a, c :: Holds(s', a, c) <==> Holds(s, a, c) && a != t.caller;
    } else {
      assert forall a, c :: Holds(s', a, c) <==> Holds(s, a, c);
    }
  }

  lemma {:induction false} CloseKeepsPlaces(s: State, t: CloseStep)
    requires PlacedOnce(s) && ApplyClose(s, t).Some?
    ensures PlacedOnce(ApplyClose(s, t).value)
  {
    var s' := ApplyClose(s, t).value;
    assert forall a, c :: Holds(s', a, c) <==> Holds(s, a, c);
  }

  lemma {:induction false} ScreenKeepsPolicy(s: State, p: Policy, t: ScreenStep)
    requires PlacedOnce(s) && PolicyApplied(s, p) && ApplyScreen(s, p, t).Some?
    ensures PolicyApplied(ApplyScreen(s, p, t).value, p)
  {
    hide Admits, NoneLost;
    var s' := ApplyScreen(s, p, t).value;
    assert forall a, c | Holds(s', a, c) :: Holds(s, a, c) || t == HandTo(c, a);
  }

  lemma {:induction false} CallKeepsPolicy(s: State, p: Policy, t: CallStep)
    requires PolicyApplied(s, p) && ApplyCall(s, t).Some?
    ensures PolicyApplied(ApplyCall(s, t).value, p)
  {
    var s' := ApplyCall(s, t).value;
    if t.CheckDone? {
      assert Holds(s, t.caller, s.calls[t.caller].conn);
    }
    assert forall a, c | Holds(s', a, c) :: Holds(s, a, c);
  }

  lemma {:induction false} LoopKeepsPolicy(s: State, p: Policy, l: LoopStep)
    requires PlacedOnce(s) && PolicyApplied(s, p) && ApplyLoop(s, l).Some?
    ensures PolicyApplied(ApplyLoop(s, l).value, p)
  {
    var s' := ApplyLoop(s, l).value;
    assert forall a, c | Holds(s', a, c) :: Holds(s, a, c);
  }

  lemma {:induction false} CloseKeepsPolicy(s: State, p: Policy, t: CloseStep)
    requires PolicyApplied(s, p) && ApplyClose(s, t).Some?
    ensures PolicyApplied(ApplyClose(s, t).value, p)
  {
    var s' := ApplyClose(s, t).value;
    assert forall a, c | Holds(s', a, c) :: Holds(s, a, c);
  }

  lemma {:induction false} CallKeepsLocks(s: State, t: CallStep)
    requires LockDiscipline(s) && CloseOrdered(s) && ApplyCall(s, t).Some?
    ensures LockDiscipline(ApplyCall(s, t).value) && CloseOrdered(ApplyCall(s, t).value)
  {
  }

  lemma {:induction false} CloseKeepsLocks(s: State, t: CloseStep)
    requires LockDiscipline(s) && CloseOrdered(s) && ApplyClose(s, t).Some?
    ensures var s' := ApplyClose(s, t).value; LockDiscipline(s') && CloseOrdered(s')
  {
    if t.WriteLock? {
      assert forall a | a in s.calls :: a !in s.readers;
    }
  }

  lemma {:induction false} LoopKeepsLocks(s: State, l: LoopStep)
    requires LockDiscipline(s) && CloseOrdered(s) && ApplyLoop(s, l).Some?
    ensures LockDiscipline(ApplyLoop(s, l).value) && CloseOrdered(ApplyLoop(s, l).value)
  {
  }

  lemma {:induction false} ScreenKeepsLocks(s: State, p: Policy, t: ScreenStep)
    requires LockDiscipline(s) && CloseOrdered(s) && ApplyScreen(s, p, t).Some?
    ensures var s' := ApplyScreen(s, p, t).value; LockDiscipline(s') && CloseOrdered(s')
  {
  }

  lemma {:induction false} LoopAfterClose(s: State, l: LoopStep)
    requires CloseHasReturned(s) && ApplyLoop(s, l).Some?
    ensures var s' := ApplyLoop(s, l).value; CloseHasReturned(s') && NoNewDelivery(s, s')
  {
  }

  lemma {:induction false} ScreenAfterClose(s: State, p: Policy, t: ScreenStep)
    requires CloseHasReturned(s) && ApplyScreen(s, p, t).Some?
    ensures var s' := ApplyScreen(s, p, t).value; CloseHasReturned(s') && NoNewDelivery(s, s')
  {
    hide Admits;
  }

  lemma {:induction false} CallAfterClose(s: State, t: CallStep)
    requires CloseOrdered(s) && CloseHasReturned(s) && ApplyCall(s, t).Some?
    ensures var s' := ApplyCall(s, t).value; CloseHasReturned(s') && NoNewDelivery(s, s')
  {
  }

  lemma {:induction false} CloserAfterClose(s: State, t: CloseStep)
    requires CloseHasReturned(s) && ApplyClose(s, t).Some?
    ensures var s' := ApplyClose(s, t).value; CloseHasReturned(s') && NoNewDelivery(s, s')
  {
    var s' := ApplyClose(s, t).value;
    var k :| k in s.closers && s.closers[k] == CloseReturned;
    assert k in s'.closers && s'.closers[k] == CloseReturned;
  }

  lemma {:induction false} StepAfterClose(s: State, p: Policy, t: Step)
    requires CloseOrdered(s) && CloseHasReturned(s) && Apply(s, p, t).Some?
    ensures var s' := Apply(s, p, t).value; CloseHasReturned(s') && NoNewDelivery(s, s')
  {
    hide CloseOrdered, CloseHasReturned, NoNewDelivery, ApplyLoop, ApplyScreen, ApplyCall, ApplyClose;
    match t {
      case Loop(l) => LoopAfterClose(s, l);
      case Screen(x) => ScreenAfterClose(s, p, x);
      case Call(a) => CallAfterClose(s, a);
      case Close(k) => CloserAfterClose(s, k);
    }
  }

  lemma {:induction false} NoDeliveryFrom(s: State, p: Policy, after: seq<Step>)
    requires Inv(s, p) && CloseHasReturned(s) && Run(s, p, after).Some?
    ensures NoNewDelivery(s, Run(s, p, after).value)
    decreases |after|
  {
    hide SlotsCounted, PlacedOnce, PolicyApplied, LockDiscipline, CloseOrdered, CloseHasReturned, Apply;
    if after != [] {
      var mid := Apply(s, p, after[0]).value;
      StepAfterClose(s, p, after[0]);
      StepKeepsInv(s, p, after[0]);
      NoDeliveryFrom(mid, p, after[1..]);
    }
  }

  lemma {:induction false} LoopStepShrinks(s: State, l: LoopStep)
    requires Closing(s) && ApplyLoop(s, l).Some?
    ensures Closing(ApplyLoop(s, l).value) && Remaining(ApplyLoop(s, l).value) < Remaining(s)
  {
  }

  lemma {:induction false} LookupStepShrinks(s: State, p: Policy, t: ScreenStep)
    requires Closing(s) && Apart(s) && (t.FinishLookup? || t.FreeSlot?) && ApplyScreen(s, p, t).Some?
    ensures var s' := ApplyScreen(s, p, t).value; Closing(s') && Remaining(s') < Remaining(s)
  {
    hide Admits, LoopRank;
    if t.FinishLookup? {
      SizesAfterMove(s.looking, s.looked, t.conn);
    } else {
      SizesAfterMove(s.looked, s.deciding, t.conn);
    }
  }

  lemma {:induction false} DecideShrinks(s: State, p: Policy, t: ScreenStep)
    requires Closing(s) && Apart(s) && t.Decide? && ApplyScreen(s, p, t).Some?
    ensures var s' := ApplyScreen(s, p, t).value; Closing(s') && Remaining(s') < Remaining(s)
  {
    hide Admits, LoopRank;
    SizesAfterMove(s.deciding, s.offering, t.conn);
  }

  lemma {:induction false} OfferStepShrinks(s: State, p: Policy, t: ScreenStep)
    requires Closing(s) && (t.HandTo? || t.SeeDoneOffering?) && ApplyScreen(s, p, t).Some?
    ensures var s' := ApplyScreen(s, p, t).value; Closing(s') && Remaining(s') < Remaining(s)
  {
    hide Admits, LoopRank;
    SizesAfterMove(s.offering, {}, t.conn);
  }

  lemma {:induction false} ScreenStepShrinks(s: State, p: Policy, t: ScreenStep)
    requires Closing(s) && Apart(s) && ApplyScreen(s, p, t).Some?
    ensures var s' := ApplyScreen(s, p, t).value; Closing(s') && Remaining(s') < Remaining(s)
  {
    hide Apart, Closing, Remaining, ApplyScreen;
    match t {
      case FinishLookup(_, _) => LookupStepShrinks(s, p, t);
      case FreeSlot(_) => LookupStepShrinks(s, p, t);
      case Decide(_) => DecideShrinks(s, p, t);
      case _ => OfferStepShrinks(s, p, t);
    }
  }

  lemma {:induction false} CallStepStays(s: State, t: CallStep)
    requires Closing(s) && ApplyCall(s, t).Some?
    ensures var s' := ApplyCall(s, t).value; Closing(s') && Remaining(s') == Remaining(s)
  {
  }

  lemma {:induction false} CloseStepStays(s: State, t: CloseStep)
    requires Closing(s) && ApplyClose(s, t).Some?
    ensures var s' := ApplyClose(s, t).value; Closing(s') && Remaining(s') == Remaining(s)
  {
  }
}
