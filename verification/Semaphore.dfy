/** The counting semaphore as a transition system: any number of threads, one mutex, one condition
    variable. Every numbered point of `wait` and `notify` is a step of its own; wake-ups may be
    spurious and a thread that has just arrived may take the mutex before a woken one. */
module Semaphore {

  type Tid = nat

  /** Where a thread is inside `wait` or `notify`; a thread that is in neither has no entry. */
  datatype Phase =
    | Arriving          // wait: about to lock, or woken and about to lock again
    | Checking          // wait: owns the mutex, about to test the count
    | Sleeping          // wait: blocked in cv.wait, mutex released
    | Notifying         // notify: about to lock
    | Raising           // notify: owns the mutex, about to increment
    | Signalling        // notify: has incremented, still owns the mutex, about to notify_one

  datatype State = State(count: int, phase: map<Tid, Phase>)

  datatype Step =
    | CallWait(t: Tid)
    | CallNotify(t: Tid)
    | Lock(t: Tid)
    | Block(t: Tid)                  // count == 0: cv.wait releases the mutex and sleeps
    | Take(t: Tid)                   // count != 0: decrement and unlock
    | Raise(t: Tid)                  // ++count
    | Signal(t: Tid, woken: Tid)     // notify_one with a sleeper, then unlock
    | SignalNobody(t: Tid)           // notify_one with no sleeper, then unlock
    | Spurious(t: Tid)

  predicate Owns(p: Phase) {
    p.Checking? || p.Raising? || p.Signalling?
  }

  ghost predicate MutexFree(s: State) {
    forall t :: t in s.phase ==> !Owns(s.phase[t])
  }

  predicate Is(s: State, t: Tid, p: Phase) {
    t in s.phase && s.phase[t] == p
  }

  ghost predicate Enabled(s: State, e: Step) {
    match e
    case CallWait(t) => t !in s.phase
    case CallNotify(t) => t !in s.phase
    case Lock(t) => (Is(s, t, Arriving) || Is(s, t, Notifying)) && MutexFree(s)
    case Block(t) => Is(s, t, Checking) && s.count == 0
    case Take(t) => Is(s, t, Checking) && s.count != 0
    case Raise(t) => Is(s, t, Raising)
    case Signal(t, woken) => Is(s, t, Signalling) && Is(s, woken, Sleeping)
    case SignalNobody(t) => Is(s, t, Signalling) && In(s, Sleeping) == {}
    case Spurious(t) => Is(s, t, Sleeping)
  }

  function Apply(s: State, e: Step): State
  {
    match e
    case CallWait(t) => s.(phase := s.phase[t := Arriving])
    case CallNotify(t) => s.(phase := s.phase[t := Notifying])
    case Lock(t) => s.(phase := s.phase[t := if Is(s, t, Arriving) then Checking else Raising])
    case Block(t) => s.(phase := s.phase[t := Sleeping])
    case Take(t) => s.(count := s.count - 1, phase := s.phase - {t})
    case Raise(t) => s.(count := s.count + 1, phase := s.phase[t := Signalling])
    case Signal(t, woken) => s.(phase := s.phase[woken := Arriving] - {t})
    case SignalNobody(t) => s.(phase := s.phase - {t})
    case Spurious(t) => s.(phase := s.phase[t := Arriving])
  }

  /** A run: every step enabled where it is taken. */
  ghost predicate IsRun(s: State, es: seq<Step>)
    decreases |es|
  {
    es == [] || (Enabled(s, es[0]) && IsRun(Apply(s, es[0]), es[1..]))
  }

  ghost function After(s: State, es: seq<Step>): State
    requires IsRun(s, es)
    decreases |es|
  {
    if es == [] then s else After(Apply(s, es[0]), es[1..])
  }

  function Init(count: int): State {
    State(count, map[])
  }

  ghost function In(s: State, p: Phase): set<Tid> {
    set t | t in s.phase && s.phase[t] == p
  }

  /** The threads inside `wait` that are awake: each will test the count again. */
  ghost function Awake(s: State): set<Tid> {
    set t | t in s.phase && (s.phase[t].Arriving? || s.phase[t].Checking?)
  }

  // ---- invariants -----------------------------------------------------------

  ghost predicate MutualExclusion(s: State) {
    forall t, u :: t in s.phase && u in s.phase && Owns(s.phase[t]) && Owns(s.phase[u]) ==> t == u
  }

  /** The threads whose phase is one of `ps`. */
  ghost function Inside(s: State, ps: set<Phase>): set<Tid> {
    set t | t in s.phase && s.phase[t] in ps
  }

  /** The awake threads inside `wait`, and a notifier that still owes a wake-up. */
  ghost function Helpers(s: State): set<Tid> {
    Inside(s, HELPING)
  }

  const HELPING: set<Phase> := {Arriving, Checking, Signalling}

  ghost predicate NoLostWakeUp(s: State) {
    In(s, Sleeping) != {} ==> s.count <= |Helpers(s)|
  }

  ghost predicate Inv(s: State) {
    MutualExclusion(s) && 0 <= s.count && NoLostWakeUp(s)
  }

  lemma StepKeepsMutex(s: State, e: Step)
    requires MutualExclusion(s) && Enabled(s, e)
    ensures MutualExclusion(Apply(s, e))
  {
  }

  lemma StepKeepsWakeUp(s: State, e: Step)
    requires 0 <= s.count && NoLostWakeUp(s) && Enabled(s, e)
    ensures NoLostWakeUp(Apply(s, e))
  {
    var r := Apply(s, e);
    if In(r, Sleeping) != {} && !e.Block? {
      SomeoneSlept(s, e);
      HelpersAfter(s, e);
    }
  }

  lemma SomeoneSlept(s: State, e: Step)
    requires Enabled(s, e) && !e.Block? && In(Apply(s, e), Sleeping) != {}
    ensures In(s, Sleeping) != {} && !e.SignalNobody?
  {
    var u :| u in In(Apply(s, e), Sleeping);
    assert u in In(s, Sleeping);
  }

  /** One thread changes its phase, or leaves. */
  lemma InsideUpdate(s: State, r: State, t: Tid, ps: set<Phase>)
    requires forall u :: u != t ==> (u in r.phase <==> u in s.phase) && (u in s.phase ==> r.phase[u] == s.phase[u])
    ensures var was := t in s.phase && s.phase[t] in ps;
            var now := t in r.phase && r.phase[t] in ps;
            |Inside(r, ps)| == |Inside(s, ps)| + (if now then 1 else 0) - (if was then 1 else 0)
  {
    forall u | u != t ensures u in Inside(r, ps) <==> u in Inside(s, ps) {
    }
    SizesDiffer(Inside(r, ps), Inside(s, ps), t);
  }

  lemma SizesDiffer(a: set<Tid>, b: set<Tid>, t: Tid)
    requires forall u :: u != t ==> (u in a <==> u in b)
    ensures |a| - |b| == (if t in a then 1 else 0) - (if t in b then 1 else 0)
  {
    if t in a && t !in b {
      assert a == b + {t};
    } else if t in b && t !in a {
      assert b == a + {t};
    } else {
      assert a == b;
    }
  }

  lemma HelpersAfter(s: State, e: Step)
    requires Enabled(s, e) && !e.Block? && !e.SignalNobody?
    ensures |Helpers(Apply(s, e))| - |Helpers(s)| >= Apply(s, e).count - s.count
  {
    InsideAfter(s, e, HELPING);
  }

  /** What a step does to the number of threads in some phases: only its own thread and the one it wakes
      change. */
  lemma InsideAfter(s: State, e: Step, ps: set<Phase>)
    requires Enabled(s, e)
    ensures var r := Apply(s, e);
            |Inside(r, ps)| - |Inside(s, ps)|
            == Entered(r, e.t, ps) - Entered(s, e.t, ps)
               + (if e.Signal? then Entered(r, e.woken, ps) - Entered(s, e.woken, ps) else 0)
  {
    var r := Apply(s, e);
    if e.Signal? {
      var mid := s.(phase := s.phase[e.woken := Arriving]);
      InsideUpdate(s, mid, e.woken, ps);
      InsideUpdate(mid, r, e.t, ps);
    } else {
      InsideUpdate(s, r, e.t, ps);
    }
  }

  function Entered(s: State, t: Tid, ps: set<Phase>): int {
    if t in s.phase && s.phase[t] in ps then 1 else 0
  }

  lemma {:induction false} RunKeepsInv(s: State, es: seq<Step>)
    requires Inv(s) && IsRun(s, es)
    ensures Inv(After(s, es))
    decreases |es|
  {
    if es != [] {
      StepKeepsMutex(s, es[0]);
      StepKeepsWakeUp(s, es[0]);
      RunKeepsInv(Apply(s, es[0]), es[1..]);
    }
  }

  // ---- what the schedule says -----------------------------------------------

  function One(b: bool): nat {
    if b then 1 else 0
  }

  /** Calls of `wait` and `notify` in a schedule, and how many of them got past their decrement or
      increment, or returned. */
  function WaitCalls(es: seq<Step>): nat {
    if es == [] then 0 else One(es[0].CallWait?) + WaitCalls(es[1..])
  }

  function Takes(es: seq<Step>): nat {
    if es == [] then 0 else One(es[0].Take?) + Takes(es[1..])
  }

  function NotifyCalls(es: seq<Step>): nat {
    if es == [] then 0 else One(es[0].CallNotify?) + NotifyCalls(es[1..])
  }

  function Raises(es: seq<Step>): nat {
    if es == [] then 0 else One(es[0].Raise?) + Raises(es[1..])
  }

  function NotifyReturns(es: seq<Step>): nat {
    if es == [] then 0 else One(es[0].Signal? || es[0].SignalNobody?) + NotifyReturns(es[1..])
  }

  /** The count is that of the schedule, whatever number it started from. */
  lemma {:induction false} CountFromSchedule(s: State, es: seq<Step>)
    requires IsRun(s, es)
    ensures After(s, es).count == s.count + Raises(es) - Takes(es)
    decreases |es|
  {
    if es != [] {
      CountFromSchedule(Apply(s, es[0]), es[1..]);
    }
  }

  const IN_WAIT: set<Phase> := {Arriving, Checking, Sleeping}
  const BEFORE_RAISE: set<Phase> := {Notifying, Raising}
  const AFTER_RAISE: set<Phase> := {Signalling}

  lemma StepAccounts(s: State, e: Step)
    requires Enabled(s, e)
    ensures var r := Apply(s, e);
            && |Inside(r, IN_WAIT)| == |Inside(s, IN_WAIT)| + One(e.CallWait?) - One(e.Take?)
            && |Inside(r, BEFORE_RAISE)| == |Inside(s, BEFORE_RAISE)| + One(e.CallNotify?) - One(e.Raise?)
            && |Inside(r, AFTER_RAISE)| == |Inside(s, AFTER_RAISE)| + One(e.Raise?)
                                           - One(e.Signal? || e.SignalNobody?)
  {
    InsideAfter(s, e, IN_WAIT);
    InsideAfter(s, e, BEFORE_RAISE);
    InsideAfter(s, e, AFTER_RAISE);
  }

  lemma {:induction false} CallsFrom(s: State, es: seq<Step>)
    requires IsRun(s, es)
    ensures var r := After(s, es);
            && WaitCalls(es) + |Inside(s, IN_WAIT)| == Takes(es) + |Inside(r, IN_WAIT)|
            && NotifyCalls(es) + |Inside(s, BEFORE_RAISE)| == Raises(es) + |Inside(r, BEFORE_RAISE)|
            && Raises(es) + |Inside(s, AFTER_RAISE)| == NotifyReturns(es) + |Inside(r, AFTER_RAISE)|
    decreases |es|
  {
    if es != [] {
      StepAccounts(s, es[0]);
      CallsFrom(Apply(s, es[0]), es[1..]);
    }
  }

  /** Every call is accounted for: a `wait` that was called has taken one from the count or is still inside,
      a `notify` that was called has added one or is still before that, and one that has added one has
      returned or owes its wake-up. */
  lemma CallsAreAccounted(initial: int, es: seq<Step>)
    requires IsRun(Init(initial), es)
    ensures var s := After(Init(initial), es);
            && WaitCalls(es) == Takes(es) + |Inside(s, IN_WAIT)|
            && NotifyCalls(es) == Raises(es) + |Inside(s, BEFORE_RAISE)|
            && Raises(es) == NotifyReturns(es) + |Inside(s, AFTER_RAISE)|
            && s.count == initial + Raises(es) - Takes(es)
  {
    CallsFrom(Init(initial), es);
    CountFromSchedule(Init(initial), es);
    assert forall ps :: Inside(Init(initial), ps) == {};
  }

  /** For any number of threads and any schedule: the count is never negative and is the initial one plus
      the increments minus the decrements of the schedule, the mutex has one owner, and unless a notifier is
      about to wake one more, a sleeper implies that the count is at most the number of awake threads inside
      `wait`. */
  lemma Safety(initial: nat, es: seq<Step>)
    requires IsRun(Init(initial), es)
    ensures var s := After(Init(initial), es);
            && 0 <= s.count == initial + Raises(es) - Takes(es)
            && MutualExclusion(s)
            && (In(s, Sleeping) != {} && In(s, Signalling) == {} ==> s.count <= |Awake(s)|)
  {
    RunKeepsInv(Init(initial), es);
    CountFromSchedule(Init(initial), es);
    var s := After(Init(initial), es);
    if In(s, Signalling) == {} {
      assert forall t :: t in s.phase && s.phase[t] == Signalling ==> t in In(s, Signalling);
      assert Helpers(s) == Awake(s);
    }
  }

  // ---- progress -------------------------------------------------------------

  /** Steps that only let the threads already inside continue: no new calls, no spurious wake-up. */
  predicate Continues(e: Step) {
    !e.CallWait? && !e.CallNotify? && !e.Spurious?
  }

  ghost predicate CanComplete(s: State) {
    exists es :: IsRun(s, es) && (forall e :: e in es ==> Continues(e)) && Takes(es) > 0
  }

  lemma CompleteByStep(s: State, e: Step)
    requires Enabled(s, e) && Continues(e) && (e.Take? || CanComplete(Apply(s, e)))
    ensures CanComplete(s)
  {
    var r := Apply(s, e);
    if e.Take? {
      var es := [e];
      assert es[1..] == [] && IsRun(r, es[1..]);
      assert IsRun(s, es) && Takes(es) == 1;
    } else {
      var rest :| IsRun(r, rest) && (forall e :: e in rest ==> Continues(e)) && Takes(rest) > 0;
      var es := [e] + rest;
      assert es[1..] == rest;
      assert IsRun(s, es) && Takes(es) > 0;
    }
  }

  /** With the mutex free and a positive count, an awake thread inside `wait` goes through. */
  lemma AwakeCompletes(s: State, t: Tid)
    requires s.count > 0 && MutexFree(s) && Is(s, t, Arriving)
    ensures CanComplete(s)
  {
    var locked := Apply(s, Lock(t));
    assert Is(locked, t, Checking);
    CompleteByStep(locked, Take(t));
    CompleteByStep(s, Lock(t));
  }

  lemma SignallerCompletes(s: State, t: Tid)
    requires s.count > 0 && MutualExclusion(s) && Is(s, t, Signalling)
    requires In(s, Sleeping) + Awake(s) != {}
    ensures CanComplete(s)
  {
    var e: Step;
    var next: Tid;
    if In(s, Sleeping) == {} {
      next :| next in Awake(s);
      e := SignalNobody(t);
    } else {
      next :| next in In(s, Sleeping);
      e := Signal(t, next);
    }
    var r := Apply(s, e);
    assert Owns(s.phase[t]);
    assert MutexFree(r) && Is(r, next, Arriving);
    AwakeCompletes(r, next);
    CompleteByStep(s, e);
  }

  /** No wake-up is ever lost: in every reachable state with a positive count and a thread inside
      `wait`, asleep or not, the threads already inside can run on until one of them completes,
      without any further call and without relying on a spurious wake-up. */
  lemma PositiveCountIsClaimable(initial: nat, es: seq<Step>)
    requires IsRun(Init(initial), es)
    requires var s := After(Init(initial), es); s.count > 0 && In(s, Sleeping) + Awake(s) != {}
    ensures CanComplete(After(Init(initial), es))
  {
    Safety(initial, es);
    var s := After(Init(initial), es);
    if t :| t in s.phase && Owns(s.phase[t]) {
      match s.phase[t]
      case Checking => CompleteByStep(s, Take(t));
      case Signalling => SignallerCompletes(s, t);
      case Raising =>
        var r := Apply(s, Raise(t));
        StepKeepsMutex(s, Raise(t));
        var u :| u in In(s, Sleeping) + Awake(s);
        assert u in In(r, Sleeping) + Awake(r);
        SignallerCompletes(r, t);
        CompleteByStep(s, Raise(t));
    } else {
      assert MutexFree(s) && In(s, Signalling) == {};
      assert Awake(s) != {};
      var u :| u in Awake(s);
      AwakeCompletes(s, u);
    }
  }

  /** No more waits complete than there were resources, in every run from `initial`. */
  ghost predicate NeverOverdrawn(initial: int) {
    forall es :: IsRun(Init(initial), es) ==> Takes(es) <= (if initial > 0 then initial else 0) + Raises(es)
  }

  /** The loop tests for zero only, so this holds exactly when the constructor was given a
      nonnegative count: from a negative one the very first `wait` goes through. */
  lemma NeverOverdrawnIffNonNegative(initial: int)
    ensures NeverOverdrawn(initial) <==> 0 <= initial
  {
    if 0 <= initial {
      forall es | IsRun(Init(initial), es) ensures Takes(es) <= initial + Raises(es) {
        Safety(initial, es);
      }
    } else {
      var s0 := Init(initial);
      var s1 := Apply(s0, CallWait(0));
      var s2 := Apply(s1, Lock(0));
      var s3 := Apply(s2, Take(0));
      assert Is(s1, 0, Arriving) && MutexFree(s1) && Is(s2, 0, Checking);
      assert IsRun(s3, []);
      var es := [CallWait(0), Lock(0), Take(0)];
      assert es[1..] == [Lock(0), Take(0)] && es[1..][1..] == [Take(0)] && es[1..][1..][1..] == [];
      assert IsRun(s2, [Take(0)]) by {
        assert [Take(0)][1..] == [];
      }
      assert IsRun(s1, [Lock(0), Take(0)]);
      assert IsRun(s0, es);
      assert Takes([Take(0)]) == 1 && Raises([Take(0)]) == 0;
      assert Takes([Lock(0), Take(0)]) == 1 && Raises([Lock(0), Take(0)]) == 0;
      assert Takes(es) == 1 && Raises(es) == 0;
    }
  }
}
