// Change notification with a wakeup source: oplus_chg_mod_changed (called by any number
// of parties) and oplus_chg_mod_changed_work (one work item) of oplus_chg_core.c. Every
// section under the spinlock is one step; the steps of all parties interleave freely.
module ModChanged {

  // Where the work item stands.
  datatype Worker =
    | Idle
    | Started    // running, before its first locked section
    | Claimed    // `changed` was set and has been cleared; the lock is free
    | Notifying  // inside the notifier call chain
    | Notified   // before the second locked section

  datatype State = State(
    changed: bool,
    awake: bool,      // the wakeup source is held
    pending: bool,    // the work item is queued
    worker: Worker,
    inFlight: nat,    // callers between their locked section and schedule_work
    marks: nat,       // calls of oplus_chg_mod_changed so far
    covered: nat,     // calls before the last notification began, or before the last claim
    delivered: nat)   // calls before the last notification that has ended began

  datatype Event = Mark | Schedule | WorkStart | FirstLock | NotifyBegin | NotifyEnd | SecondLock

  const INITIAL := State(false, false, false, Idle, 0, 0, 0, 0)

  predicate Enabled(s: State, e: Event) {
    match e
    case Mark => true
    case Schedule => s.inFlight > 0
    case WorkStart => s.pending && s.worker.Idle?
    case FirstLock => s.worker.Started?
    case NotifyBegin => s.worker.Claimed?
    case NotifyEnd => s.worker.Notifying?
    case SecondLock => s.worker.Notified?
  }

  function Step(s: State, e: Event): State
    requires Enabled(s, e)
  {
    match e
    case Mark => s.(changed := true, awake := true, inFlight := s.inFlight + 1, marks := s.marks + 1)
    case Schedule => s.(pending := true, inFlight := s.inFlight - 1)
    case WorkStart => s.(pending := false, worker := Started)
    case FirstLock =>
      if s.changed then s.(changed := false, worker := Claimed, covered := s.marks)
      else s.(awake := false, worker := Idle)
    case NotifyBegin => s.(worker := Notifying)
    case NotifyEnd => s.(worker := Notified, delivered := s.covered)
    case SecondLock => s.(awake := s.changed && s.awake, worker := Idle)
  }

  // The steps `es` can be taken, in this order, from `s`.
  predicate Reaches(s: State, es: seq<Event>)
    decreases |es|, 0
  {
    |es| == 0 ||
    var k := |es| - 1;
    Reaches(s, es[..k]) && Enabled(Run(s, es[..k]), es[k])
  }

  function Run(s: State, es: seq<Event>): State
    requires Reaches(s, es)
    decreases |es|, 1
  {
    if |es| == 0 then s else Step(Run(s, es[..|es| - 1]), es[|es| - 1])
  }

  ghost predicate Inv(s: State) {
    && s.delivered <= s.covered <= s.marks
    // A flagged change keeps the source held, and somebody is still going to look at it.
    && (s.changed ==> s.awake && (s.inFlight > 0 || s.pending || s.worker.Started?))
    // The source is held from the claim until the notification has ended.
    && (s.worker.Claimed? || s.worker.Notifying? || s.worker.Notified? ==> s.awake)
    // A mark that is no longer flagged has been claimed.
    && (!s.changed ==> s.covered == s.marks)
    // Outside the span from claim to end, everything claimed has been delivered.
    && (s.worker.Idle? || s.worker.Started? || s.worker.Notified? ==> s.delivered == s.covered)
    // Nobody holds the source for nothing.
    && (s.awake ==> s.changed || s.worker.Claimed? || s.worker.Notifying? || s.worker.Notified?)
  }

  lemma StepKeepsInv(s: State, e: Event)
    requires Inv(s) && Enabled(s, e)
    ensures Inv(Step(s, e))
  {
  }

  lemma {:induction false} RunKeepsInv(es: seq<Event>)
    requires Reaches(INITIAL, es)
    ensures Inv(Run(INITIAL, es))
  {
    if |es| > 0 {
      RunKeepsInv(es[..|es| - 1]);
      StepKeepsInv(Run(INITIAL, es[..|es| - 1]), es[|es| - 1]);
    }
  }

  // In every interleaving: a flagged change and a running notification hold the wakeup
  // source; so does every call whose notification has not ended yet; every call is still
  // flagged, or claimed by the worker, or covered by a notification begun after it; and
  // the source is not left held when nobody is going to release it.
  lemma EveryInterleavingIsSafe(es: seq<Event>)
    requires Reaches(INITIAL, es)
    ensures var s := Run(INITIAL, es);
            && (s.changed ==> s.awake)
            && (s.worker.Notifying? ==> s.awake)
            && (s.delivered < s.marks ==> s.awake)
            && (s.changed || s.covered == s.marks)
            && (s.awake && s.inFlight == 0 && !s.pending ==> !s.worker.Idle?)
  {
    RunKeepsInv(es);
  }

  // A call is delivered by a notification that began after it: once `covered` counts it,
  // the worker had claimed it, and only later began to notify.
  lemma {:induction false} CoverageIsClaimed(es: seq<Event>, i: nat)
    requires Reaches(INITIAL, es) && 1 <= i <= Run(INITIAL, es).delivered
    ensures exists c, b, e :: 0 <= c < b < e < |es|
              && es[c] == FirstLock && es[b] == NotifyBegin && es[e] == NotifyEnd
              && Reaches(INITIAL, es[..c]) && Run(INITIAL, es[..c]).marks >= i
  {
    var c, b, e := Delivery(es, i);
  }

  // The claim, the beginning and the end of a notification that covers call number `i`.
  lemma {:induction false} Delivery(es: seq<Event>, i: nat) returns (c: nat, b: nat, e: nat)
    requires Reaches(INITIAL, es) && 1 <= i <= Run(INITIAL, es).delivered
    ensures c < b < e < |es|
    ensures es[c] == FirstLock && es[b] == NotifyBegin && es[e] == NotifyEnd
    ensures Reaches(INITIAL, es[..c]) && Run(INITIAL, es[..c]).marks >= i
  {
    var k := |es| - 1;
    if i <= Run(INITIAL, es[..k]).delivered {
      c, b, e := Delivery(es[..k], i);
      assert es[..k][..c] == es[..c];
    } else {
      e := k;
      c, b := Claim(es[..k], i);
      assert es[..k][..c] == es[..c];
    }
  }

  lemma {:induction false} Claim(es: seq<Event>, i: nat) returns (c: nat, b: nat)
    requires Reaches(INITIAL, es) && i <= Run(INITIAL, es).covered && Run(INITIAL, es).worker.Notifying?
    ensures c < b < |es| && es[c] == FirstLock && es[b] == NotifyBegin
    ensures Reaches(INITIAL, es[..c]) && Run(INITIAL, es[..c]).marks >= i
  {
    var k := |es| - 1;
    if es[k].NotifyBegin? {
      b := k;
      c := FirstClaim(es[..k], i);
      assert es[..k][..c] == es[..c];
    } else {
      c, b := Claim(es[..k], i);
      assert es[..k][..c] == es[..c];
    }
  }

  lemma {:induction false} FirstClaim(es: seq<Event>, i: nat) returns (c: nat)
    requires Reaches(INITIAL, es) && i <= Run(INITIAL, es).covered && Run(INITIAL, es).worker.Claimed?
    ensures c < |es| && es[c] == FirstLock
    ensures Reaches(INITIAL, es[..c]) && Run(INITIAL, es[..c]).marks >= i
  {
    var k := |es| - 1;
    if es[k].FirstLock? {
      c := k;
    } else {
      c := FirstClaim(es[..k], i);
      assert es[..k][..c] == es[..c];
    }
  }

  // ------------------------------------------------------------ no idle notification

  function Count(es: seq<Event>, e: Event): nat {
    if |es| == 0 then 0 else Count(es[..|es| - 1], e) + if es[|es| - 1] == e then 1 else 0
  }

  // Every notification takes up a call that none before it has: those that have begun, and
  // the one that is about to, are at most as many as the calls that have been claimed. And
  // a flagged change is one that has not been claimed.
  lemma {:induction false} NotificationsNeedCalls(es: seq<Event>)
    requires Reaches(INITIAL, es)
    ensures var s := Run(INITIAL, es);
            && Count(es, NotifyBegin) + (if s.worker.Claimed? then 1 else 0) <= s.covered <= s.marks == Count(es, Mark)
            && (s.changed <==> s.covered < s.marks)
            && s.inFlight == Count(es, Mark) - Count(es, Schedule)
  {
    if |es| > 0 {
      NotificationsNeedCalls(es[..|es| - 1]);
    }
  }

  // A call is never held up, and each is followed by one that queues the work.
  lemma CallsAreNeverHeldUp(es: seq<Event>)
    requires Reaches(INITIAL, es)
    ensures Reaches(INITIAL, es + [Mark] + [Schedule])
  {
    assert (es + [Mark])[..|es|] == es && (es + [Mark] + [Schedule])[..|es| + 1] == es + [Mark];
  }

  // So a work item that finds nothing flagged notifies nobody and releases the source:
  // when all calls have been claimed, the next notification waits for a new one.
  lemma ClaimedCallsAreDone(es: seq<Event>)
    requires Reaches(INITIAL, es + [FirstLock]) && Run(INITIAL, es).covered == Run(INITIAL, es).marks
    ensures var s := Run(INITIAL, es + [FirstLock]); s.worker.Idle? && !s.awake
  {
    assert (es + [FirstLock])[..|es|] == es;
    NotificationsNeedCalls(es);
  }

  // ------------------------------------------------------------------ quiescence

  function WorkLeft(w: Worker): nat {
    match w
    case Idle => 0
    case Started => 4
    case Claimed => 3
    case Notifying => 2
    case Notified => 1
  }

  // Steps that are left at most if nobody calls again.
  function Remaining(s: State): nat {
    s.inFlight * 6 + (if s.pending then 5 else 0) + WorkLeft(s.worker)
  }

  predicate Quiet(es: seq<Event>) {
    Mark !in es
  }

  // Without further calls every schedule of the remaining steps is short ...
  lemma {:induction false} QuietRunsAreShort(s: State, es: seq<Event>)
    requires Reaches(s, es) && Quiet(es)
    ensures |es| + Remaining(Run(s, es)) <= Remaining(s)
  {
    if |es| > 0 {
      var k := |es| - 1;
      assert forall e :: e in es[..k] ==> e in es;
      assert es[k] in es;
      QuietRunsAreShort(s, es[..k]);
    }
  }

  // ... and when none is left, the source is released and every call was notified.
  lemma QuietEndsReleased(es: seq<Event>)
    requires Reaches(INITIAL, es)
    requires forall e :: Enabled(Run(INITIAL, es), e) ==> e.Mark?
    ensures var s := Run(INITIAL, es); !s.awake && !s.changed && s.delivered == s.marks
  {
    RunKeepsInv(es);
    var s := Run(INITIAL, es);
    assert !Enabled(s, Schedule) && !Enabled(s, WorkStart) && !Enabled(s, FirstLock);
    assert !Enabled(s, NotifyBegin) && !Enabled(s, NotifyEnd) && !Enabled(s, SecondLock);
  }

  // The device as an object; each method is one atomic step.
  class ChgMod {
    var changed: bool
    var awake: bool
    var pending: bool
    var worker: Worker
    ghost var inFlight: nat
    ghost var marks: nat
    ghost var covered: nat
    ghost var delivered: nat

    ghost function View(): State
      reads this
    {
      State(changed, awake, pending, worker, inFlight, marks, covered, delivered)
    }

    constructor ()
      ensures View() == INITIAL
    {
      changed, awake, pending, worker := false, false, false, Idle;
      inFlight, marks, covered, delivered := 0, 0, 0, 0;
    }

    // oplus_chg_mod_changed, its locked section and what follows it.
    method MarkChanged()
      modifies this
      ensures View() == Step(old(View()), Mark)
    {
      changed := true;
      awake := true;
      inFlight, marks := inFlight + 1, marks + 1;
    }

    method ScheduleWork()
      requires Enabled(View(), Schedule)
      modifies this
      ensures View() == Step(old(View()), Schedule)
    {
      pending := true;
      inFlight := inFlight - 1;
    }

    // The work queue dequeues the item before it runs it, and runs one instance at a time.
    method StartWork()
      requires Enabled(View(), WorkStart)
      modifies this
      ensures View() == Step(old(View()), WorkStart)
    {
      pending, worker := false, Started;
    }

    // oplus_chg_mod_changed_work up to its first unlock.
    method FirstSection()
      requires Enabled(View(), FirstLock)
      modifies this
      ensures View() == Step(old(View()), FirstLock)
    {
      if changed {
        changed := false;
        worker, covered := Claimed, marks;
        return;
      }
      if !changed {
        awake := false;
      }
      worker := Idle;
    }

    method BeginNotification()
      requires Enabled(View(), NotifyBegin)
      modifies this
      ensures View() == Step(old(View()), NotifyBegin)
    {
      worker := Notifying;
    }

    method EndNotification()
      requires Enabled(View(), NotifyEnd)
      modifies this
      ensures View() == Step(old(View()), NotifyEnd)
    {
      worker, delivered := Notified, covered;
    }

    // The second locked section.
    method SecondSection()
      requires Enabled(View(), SecondLock)
      modifies this
      ensures View() == Step(old(View()), SecondLock)
    {
      if !changed {
        awake := false;
      }
      worker := Idle;
    }
  }
}
