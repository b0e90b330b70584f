/** The embedding queue: producers, workers and the stopping caller, interleaved step by step. */
module WorkQueue {
  import opened Prelude

  /** Accepted jobs are numbered in the order in which they were accepted. */
  type Ticket = nat

  /** Where a worker stands; `draining` once it has seen the stop signal. */
  datatype Worker =
    | Idle(draining: bool)
    | Got(draining: bool, job: Ticket)
    | Working(draining: bool, job: Ticket)
    | Counted(draining: bool)
    | Exited

  /** Where the caller of Stop stands. */
  datatype Stopper = Open | SignalClosed | JobsClosed | Returned

  datatype State = State(capacity: nat, buffer: seq<Ticket>, accepted: nat, workers: seq<Worker>, stopper: Stopper,
                         running: int, completed: nat, failed: nat, processed: seq<Ticket>)

  datatype Action =
    | Enqueue
    | CloseSignal | CloseJobs | WaitDone
    | SeeSignal(w: nat) | Receive(w: nat) | SeeClosed(w: nat) | Begin(w: nat) | Finish(w: nat, ok: bool) | Leave(w: nat)

  ghost predicate Initial(s: State) {
    && s.capacity > 0 && |s.workers| > 0 && s.buffer == [] && s.accepted == 0 && s.stopper == Open
    && s.running == 0 && s.completed == 0 && s.failed == 0 && s.processed == []
    && forall i :: 0 <= i < |s.workers| ==> s.workers[i] == Idle(false)
  }

  predicate JobsAreClosed(s: State) {
    s.stopper == JobsClosed || s.stopper == Returned
  }

  /** Whether the action can happen; enqueuing does not race with Stop. */
  predicate Enabled(s: State, a: Action) {
    match a
    case Enqueue => s.stopper == Open
    case CloseSignal => s.stopper == Open
    case CloseJobs => s.stopper == SignalClosed
    case WaitDone => s.stopper == JobsClosed && forall i :: 0 <= i < |s.workers| ==> s.workers[i] == Exited
    case SeeSignal(w) => w < |s.workers| && s.workers[w] == Idle(false) && s.stopper != Open
    case Receive(w) => w < |s.workers| && s.workers[w].Idle? && s.buffer != []
    case SeeClosed(w) => w < |s.workers| && s.workers[w].Idle? && s.buffer == [] && JobsAreClosed(s)
    case Begin(w) => w < |s.workers| && s.workers[w].Got?
    case Finish(w, _) => w < |s.workers| && s.workers[w].Working?
    case Leave(w) => w < |s.workers| && s.workers[w].Counted?
  }

  function Apply(s: State, a: Action): State
    requires Enabled(s, a)
  {
    match a
    case Enqueue =>
      if |s.buffer| < s.capacity then s.(buffer := s.buffer + [s.accepted], accepted := s.accepted + 1) else s
    case CloseSignal => s.(stopper := SignalClosed)
    case CloseJobs => s.(stopper := JobsClosed)
    case WaitDone => s.(stopper := Returned)
    case SeeSignal(w) => s.(workers := s.workers[w := Idle(true)])
    case Receive(w) => s.(buffer := s.buffer[1..], workers := s.workers[w := Got(s.workers[w].draining, s.buffer[0])])
    case SeeClosed(w) => s.(workers := s.workers[w := Exited])
    case Begin(w) =>
      s.(running := s.running + 1, workers := s.workers[w := Working(s.workers[w].draining, s.workers[w].job)])
    case Finish(w, ok) =>
      s.(completed := s.completed + (if ok then 1 else 0), failed := s.failed + (if ok then 0 else 1),
         processed := s.processed + [s.workers[w].job], workers := s.workers[w := Counted(s.workers[w].draining)])
    case Leave(w) => s.(running := s.running - 1, workers := s.workers[w := Idle(s.workers[w].draining)])
  }

  ghost predicate After(s0: State, actions: seq<Action>, s: State)
    decreases |actions|
  {
    if actions == [] then s == s0 && Initial(s0) else exists mid :: AfterVia(s0, actions, mid, s)
  }

  ghost predicate AfterVia(s0: State, actions: seq<Action>, mid: State, s: State)
    requires actions != []
    decreases |actions|, 0
  {
    var last := |actions| - 1;
    After(s0, actions[..last], mid) && Enabled(mid, actions[last]) && s == Apply(mid, actions[last])
  }

  // ----- The invariant -----

  function Sum(ws: seq<Worker>, f: Worker -> nat): nat {
    if ws == [] then 0 else f(ws[0]) + Sum(ws[1..], f)
  }

  lemma {:induction false} SumUpdate(ws: seq<Worker>, i: nat, w: Worker, f: Worker -> nat)
    requires i < |ws|
    ensures Sum(ws[i := w], f) + f(ws[i]) == Sum(ws, f) + f(w)
  {
    if i == 0 {
      assert ws[0 := w][1..] == ws[1..];
    } else {
      assert ws[i := w][1..] == ws[1..][i - 1 := w];
      SumUpdate(ws[1..], i - 1, w, f);
    }
  }

  lemma {:induction false} SumZero(ws: seq<Worker>, f: Worker -> nat)
    requires forall i :: 0 <= i < |ws| ==> f(ws[i]) == 0
    ensures Sum(ws, f) == 0
  {
    if ws != [] {
      SumZero(ws[1..], f);
    }
  }

  /** Whether a worker has taken a job and not yet finished it. */
  function HasJob(w: Worker): nat {
    if w.Got? || w.Working? then 1 else 0
  }

  function HasTicket(t: Ticket): Worker -> nat {
    (w: Worker) => if (w.Got? || w.Working?) && w.job == t then 1 else 0
  }

  function IsBusy(w: Worker): nat {
    if w.Working? || w.Counted? then 1 else 0
  }

  /** Every accepted job is in exactly one place: the buffer, a worker's hands, or the processed jobs. */
  ghost predicate OnePlace(s: State, t: Ticket) {
    multiset(s.buffer)[t] + Sum(s.workers, HasTicket(t)) + multiset(s.processed)[t] == if t < s.accepted then 1 else 0
  }

  ghost predicate Counts(s: State) {
    && s.accepted == |s.buffer| + Sum(s.workers, HasJob) + s.completed + s.failed
    && |s.processed| == s.completed + s.failed
    && s.running == Sum(s.workers, IsBusy)
  }

  ghost predicate Inv(s: State) {
    && |s.workers| > 0
    && Counts(s)
    && (forall t :: OnePlace(s, t))
    && |s.buffer| <= s.capacity
    && (forall i :: 0 <= i < |s.workers| && s.workers[i] == Exited ==> JobsAreClosed(s) && s.buffer == [])
    && (s.stopper == Returned ==> forall i :: 0 <= i < |s.workers| ==> s.workers[i] == Exited)
  }

  /** The worker that acts, if any. */
  function Actor(a: Action): Option<nat> {
    match a
    case Enqueue => None
    case CloseSignal => None
    case CloseJobs => None
    case WaitDone => None
    case SeeSignal(w) => Some(w)
    case Receive(w) => Some(w)
    case SeeClosed(w) => Some(w)
    case Begin(w) => Some(w)
    case Finish(w, _) => Some(w)
    case Leave(w) => Some(w)
  }

  lemma StepCounts(s: State, a: Action)
    requires Enabled(s, a) && Counts(s)
    ensures Counts(Apply(s, a))
  {
    hide Sum;
    if Actor(a).Some? {
      var w := Actor(a).value;
      SumUpdate(s.workers, w, Apply(s, a).workers[w], HasJob);
      SumUpdate(s.workers, w, Apply(s, a).workers[w], IsBusy);
    }
  }

  /** What a worker takes out of the buffer it has in hand, and what it finishes leaves its hands. */
  lemma StepInHand(s: State, a: Action, t: Ticket)
    requires Enabled(s, a)
    ensures Sum(Apply(s, a).workers, HasTicket(t)) == Sum(s.workers, HasTicket(t)) +
            (if a.Receive? && s.buffer[0] == t then 1 else 0) - (if a.Finish? && s.workers[a.w].job == t then 1 else 0)
  {
    hide Sum;
    if Actor(a).Some? {
      var w := Actor(a).value;
      SumUpdate(s.workers, w, Apply(s, a).workers[w], HasTicket(t));
    }
  }

  lemma StepOnePlace(s: State, a: Action, t: Ticket)
    requires Enabled(s, a) && OnePlace(s, t)
    ensures OnePlace(Apply(s, a), t)
  {
    hide Sum, HasTicket;
    StepInHand(s, a, t);
    if a.Receive? {
      assert s.buffer == [s.buffer[0]] + s.buffer[1..];
    }
  }

  lemma StepKeepsInv(s: State, a: Action)
    requires Inv(s) && Enabled(s, a)
    ensures Inv(Apply(s, a))
  {
    hide Counts, OnePlace;
    StepCounts(s, a);
    forall t ensures OnePlace(Apply(s, a), t) {
      StepOnePlace(s, a, t);
    }
  }

  lemma {:induction false} ReachableInv(s0: State, actions: seq<Action>, s: State)
    requires After(s0, actions, s)
    ensures Inv(s)
    decreases |actions|
  {
    if actions == [] {
      SumZero(s.workers, HasJob);
      SumZero(s.workers, IsBusy);
      forall t ensures OnePlace(s, t) {
        SumZero(s.workers, HasTicket(t));
      }
    } else {
      var mid :| AfterVia(s0, actions, mid, s);
      ReachableInv(s0, actions[..|actions| - 1], mid);
      StepKeepsInv(mid, actions[|actions| - 1]);
    }
  }

  /** At every step: accepted = buffered + in hand + completed + failed, and no job is in two places. */
  lemma NoJobLost(s0: State, actions: seq<Action>, s: State, t: Ticket)
    requires After(s0, actions, s)
    ensures s.accepted == |s.buffer| + Sum(s.workers, HasJob) + s.completed + s.failed
    ensures multiset(s.buffer)[t] + Sum(s.workers, HasTicket(t)) + multiset(s.processed)[t] == if t < s.accepted then 1 else 0
    ensures s.running == Sum(s.workers, IsBusy) && |s.buffer| <= s.capacity
  {
    ReachableInv(s0, actions, s);
    assert OnePlace(s, t);
  }

  /** When Stop returns the channel is empty, nothing runs, and every accepted job was processed exactly once. */
  lemma StopDrains(s0: State, actions: seq<Action>, s: State, t: Ticket)
    requires After(s0, actions, s) && s.stopper == Returned
    ensures s.buffer == [] && s.running == 0 && s.completed + s.failed == s.accepted
    ensures multiset(s.processed)[t] == if t < s.accepted then 1 else 0
  {
    ReachableInv(s0, actions, s);
    assert s.workers[0] == Exited && OnePlace(s, t);
    SumZero(s.workers, HasJob);
    SumZero(s.workers, IsBusy);
    SumZero(s.workers, HasTicket(t));
  }

  // ----- Counts and order -----

  /** The actions in which a worker finished a job, with or without success. */
  ghost function Finishes(actions: seq<Action>, ok: bool): set<int> {
    set i | 0 <= i < |actions| && actions[i].Finish? && actions[i].ok == ok
  }

  /** The actions in which a worker took a job. */
  ghost function Takings(actions: seq<Action>): set<int> {
    set i | 0 <= i < |actions| && actions[i].Receive?
  }

  lemma LastAction(actions: seq<Action>, ok: bool)
    requires actions != []
    ensures var last := |actions| - 1;
            && |Finishes(actions, ok)| ==
                 |Finishes(actions[..last], ok)| + (if actions[last].Finish? && actions[last].ok == ok then 1 else 0)
            && |Takings(actions)| == |Takings(actions[..last])| + if actions[last].Receive? then 1 else 0
  {
    var last := |actions| - 1;
    var front, all := Finishes(actions[..last], ok), Finishes(actions, ok);
    assert all == if actions[last].Finish? && actions[last].ok == ok then front + {last} else front;
    var taken := Takings(actions[..last]);
    assert Takings(actions) == if actions[last].Receive? then taken + {last} else taken;
  }

  /** Over any run the two counters count the jobs finished with and without success. */
  lemma {:induction false} CountersCount(s0: State, actions: seq<Action>, s: State)
    requires After(s0, actions, s)
    ensures s.completed == |Finishes(actions, true)| && s.failed == |Finishes(actions, false)|
    decreases |actions|
  {
    hide Finishes, Takings;
    if actions == [] {
      NoActions();
    } else {
      var mid :| AfterVia(s0, actions, mid, s);
      CountersCount(s0, actions[..|actions| - 1], mid);
      LastAction(actions, true);
      LastAction(actions, false);
    }
  }

  lemma NoActions()
    ensures Finishes([], true) == {} && Finishes([], false) == {} && Takings([]) == {}
  {
  }

  /** First in, first out: the jobs taken so far are the first ones accepted, and the buffer holds all later ones in order. */
  lemma {:induction false} FirstInFirstOut(s0: State, actions: seq<Action>, s: State)
    requires After(s0, actions, s)
    ensures s.accepted == |Takings(actions)| + |s.buffer|
    ensures forall i :: 0 <= i < |s.buffer| ==> s.buffer[i] == |Takings(actions)| + i
    decreases |actions|
  {
    hide Finishes, Takings;
    if actions == [] {
      NoActions();
    } else {
      var mid :| AfterVia(s0, actions, mid, s);
      FirstInFirstOut(s0, actions[..|actions| - 1], mid);
      LastAction(actions, true);
    }
  }

  /** So a worker that takes a job takes the oldest, and an enqueue is refused exactly when the buffer is full. */
  lemma NextInOrder(s0: State, actions: seq<Action>, s: State, a: Action)
    requires After(s0, actions, s) && Enabled(s, a)
    ensures a.Receive? ==> Apply(s, a).workers[a.w] == Got(s.workers[a.w].draining, |Takings(actions)|)
    ensures a == Enqueue ==>
              if |s.buffer| == s.capacity then Apply(s, a) == s
              else Apply(s, a).buffer == s.buffer + [s.accepted] && Apply(s, a).accepted == s.accepted + 1
  {
    FirstInFirstOut(s0, actions, s);
    ReachableInv(s0, actions, s);
    hide Takings, OnePlace, Counts;
  }

  // ----- Stop ends -----

  function Rank(w: Worker): nat {
    match w
    case Idle(draining) => if draining then 1 else 2
    case Got(draining, _) => if draining then 4 else 5
    case Working(draining, _) => if draining then 3 else 4
    case Counted(draining) => if draining then 2 else 3
    case Exited => 0
  }

  /** An upper bound on the steps that remain, producers aside. */
  function Work(s: State): nat {
    4 * |s.buffer| + Sum(s.workers, Rank) +
    match s.stopper case Open => 3 case SignalClosed => 2 case JobsClosed => 1 case Returned => 0
  }

  /** Every step but an enqueue uses up some of the remaining work. */
  lemma WorkShrinks(s: State, a: Action)
    requires Enabled(s, a) && a != Enqueue
    ensures Work(Apply(s, a)) < Work(s)
  {
    hide Sum;
    if Actor(a).Some? {
      var w := Actor(a).value;
      SumUpdate(s.workers, w, Apply(s, a).workers[w], Rank);
    }
  }

  /** Once Stop has been called, something can always happen until it returns. */
  lemma StopNeverStuck(s0: State, actions: seq<Action>, s: State)
    requires After(s0, actions, s) && s.stopper != Open && s.stopper != Returned
    ensures exists a :: a != Enqueue && Enabled(s, a)
  {
    if s.stopper == SignalClosed {
      assert Enabled(s, CloseJobs);
    } else if i :| 0 <= i < |s.workers| && s.workers[i] != Exited {
      var a := match s.workers[i]
        case Idle(_) => if s.buffer == [] then SeeClosed(i) else Receive(i)
        case Got(_, _) => Begin(i)
        case Working(_, _) => Finish(i, true)
        case Counted(_) => Leave(i)
        case Exited => WaitDone;
      assert Enabled(s, a);
    } else {
      assert Enabled(s, WaitDone);
    }
  }
}
