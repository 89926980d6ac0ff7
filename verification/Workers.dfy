/** The worker pool: threads that share two request queues and a stop flag, one atomic step at a time. */
module Workers {
  import opened RequestQueues

  type Request = nat

  /** Where a thread is in its loop. `seen` counts the arrivals of its kind at its last empty poll. */
  datatype Worker = Polling | Holding(request: Request) | Sleeping(seen: nat) | Exited(seen: nat)

  /** One request queue with its history: what arrived, what was taken, and what was processed. */
  datatype Lane = Lane(queue: seq<Request>, arrivals: seq<Request>, taken: seq<Request>, done: multiset<Request>)

  datatype Pool = Pool(stimulus: Lane, correlation: Lane, workers: seq<Worker>, stop: bool) {
    function Lane(kind: RequestType): Lane {
      if kind == STIMULUS then stimulus else correlation
    }

    function WithLane(kind: RequestType, lane: Lane): Pool {
      if kind == STIMULUS then this.(stimulus := lane) else this.(correlation := lane)
    }
  }

  /** A client adds a request, a thread takes its next step, or graceful_stop raises the flag. */
  datatype Event = Arrive(kind: RequestType, request: Request) | Turn(w: nat) | RaiseStop

  function Init(n: nat): Pool {
    Pool(Lane([], [], [], multiset{}), Lane([], [], [], multiset{}), seq(n, _ => Polling), false)
  }

  function Take(lane: Lane): Lane
    requires lane.queue != []
  {
    lane.(queue := lane.queue[1..], taken := lane.taken + [lane.queue[0]])
  }

  /**
   * A thread's step: poll the queue of its kind, finish the request it holds, or, after the sleep that
   * follows an empty poll, read the stop flag.
   */
  function TurnStep(s: Pool, w: nat): Pool
    requires w < |s.workers|
  {
    var kind := KindOf(w);
    var lane := s.Lane(kind);
    match s.workers[w]
    case Polling =>
      if lane.queue == [] then s.(workers := s.workers[w := Sleeping(|lane.arrivals|)])
      else s.(workers := s.workers[w := Holding(lane.queue[0])]).WithLane(kind, Take(lane))
    case Holding(r) =>
      s.(workers := s.workers[w := Polling]).WithLane(kind, lane.(done := lane.done + multiset{r}))
    case Sleeping(seen) =>
      s.(workers := s.workers[w := if s.stop then Exited(seen) else Polling])
    case Exited(_) => s
  }

  function Step(s: Pool, e: Event): Pool {
    match e
    case Arrive(kind, r) =>
      var lane := s.Lane(kind);
      s.WithLane(kind, lane.(queue := lane.queue + [r], arrivals := lane.arrivals + [r]))
    case Turn(w) => if w < |s.workers| then TurnStep(s, w) else s
    case RaiseStop => s.(stop := true)
  }

  function Run(s: Pool, es: seq<Event>): Pool {
    if es == [] then s else Step(Run(s, es[..|es| - 1]), es[|es| - 1])
  }

  lemma RunOne(s: Pool, es: seq<Event>, e: Event)
    ensures Run(s, es + [e]) == Step(Run(s, es), e)
  {
  }

  // ---------------------------------------------------------------- conservation

  function HeldBy(w: nat, x: Worker, kind: RequestType, r: Request): nat {
    if x == Holding(r) && KindOf(w) == kind then 1 else 0
  }

  /** How many of the first `n` threads hold the request `r`, of the given kind. */
  function Held(ws: seq<Worker>, kind: RequestType, r: Request, n: nat): nat
    requires n <= |ws|
  {
    if n == 0 then 0 else Held(ws, kind, r, n - 1) + HeldBy(n - 1, ws[n - 1], kind, r)
  }

  /** Every arrival is queued or taken, in order, and every taken request is held or done, once. */
  ghost predicate Kept(s: Pool, kind: RequestType) {
    InOrder(s.Lane(kind)) && forall r :: Counted(s, kind, r)
  }

  ghost predicate InOrder(lane: Lane) {
    lane.arrivals == lane.taken + lane.queue
  }

  ghost predicate Counted(s: Pool, kind: RequestType, r: Request) {
    multiset(s.Lane(kind).taken)[r] == Held(s.workers, kind, r, |s.workers|) + s.Lane(kind).done[r]
  }

  lemma {:induction false} HeldFrame(ws: seq<Worker>, ws': seq<Worker>, kind: RequestType, r: Request, n: nat)
    requires n <= |ws| == |ws'| && forall i | 0 <= i < n :: ws[i] == ws'[i]
    ensures Held(ws, kind, r, n) == Held(ws', kind, r, n)
  {
    if n > 0 { HeldFrame(ws, ws', kind, r, n - 1); }
  }

  lemma {:induction false} HeldUpdate(ws: seq<Worker>, w: nat, x: Worker, kind: RequestType, r: Request, n: nat)
    requires w < n <= |ws|
    ensures Held(ws[w := x], kind, r, n) == Held(ws, kind, r, n) - HeldBy(w, ws[w], kind, r) + HeldBy(w, x, kind, r)
  {
    if n - 1 == w {
      HeldFrame(ws, ws[w := x], kind, r, w);
    } else {
      HeldUpdate(ws, w, x, kind, r, n - 1);
    }
  }

  lemma TakeCounts(lane: Lane, r: Request)
    requires lane.queue != []
    ensures multiset(Take(lane).taken)[r] == multiset(lane.taken)[r] + if lane.queue[0] == r then 1 else 0
  {
  }

  lemma PollCounts(s: Pool, w: nat, kind: RequestType, r: Request)
    requires Counted(s, kind, r) && w < |s.workers| && s.workers[w].Polling?
    ensures Counted(TurnStep(s, w), kind, r)
  {
    HeldUpdate(s.workers, w, TurnStep(s, w).workers[w], kind, r, |s.workers|);
    if s.Lane(kind).queue != [] {
      TakeCounts(s.Lane(kind), r);
    }
  }

  lemma FinishCounts(s: Pool, w: nat, kind: RequestType, r: Request)
    requires Counted(s, kind, r) && w < |s.workers| && s.workers[w].Holding?
    ensures Counted(TurnStep(s, w), kind, r)
  {
    HeldUpdate(s.workers, w, Polling, kind, r, |s.workers|);
  }

  lemma TurnCounts(s: Pool, w: nat, kind: RequestType, r: Request)
    requires Counted(s, kind, r) && w < |s.workers|
    ensures Counted(TurnStep(s, w), kind, r)
  {
    match s.workers[w]
    case Polling => PollCounts(s, w, kind, r);
    case Holding(_) => FinishCounts(s, w, kind, r);
    case _ => HeldUpdate(s.workers, w, TurnStep(s, w).workers[w], kind, r, |s.workers|);
  }

  lemma TakeInOrder(lane: Lane)
    requires InOrder(lane) && lane.queue != []
    ensures InOrder(Take(lane))
  {
  }

  lemma TurnKeeps(s: Pool, w: nat, kind: RequestType)
    requires Kept(s, kind) && w < |s.workers|
    ensures Kept(TurnStep(s, w), kind)
  {
    forall r
      ensures Counted(TurnStep(s, w), kind, r)
    {
      TurnCounts(s, w, kind, r);
    }
    if s.Lane(kind).queue != [] {
      TakeInOrder(s.Lane(kind));
    }
  }

  lemma ArriveKeeps(s: Pool, k: RequestType, x: Request, kind: RequestType)
    requires Kept(s, kind)
    ensures Kept(Step(s, Arrive(k, x)), kind)
  {
    forall r
      ensures Counted(Step(s, Arrive(k, x)), kind, r)
    {
      assert Counted(s, kind, r);
    }
  }

  lemma StepKeeps(s: Pool, e: Event, kind: RequestType)
    requires Kept(s, kind)
    ensures Kept(Step(s, e), kind) && |Step(s, e).workers| == |s.workers|
  {
    match e
    case Arrive(k, x) => ArriveKeeps(s, k, x, kind);
    case RaiseStop =>
      forall r
        ensures Counted(Step(s, e), kind, r)
      {
        assert Counted(s, kind, r);
      }
    case Turn(w) =>
      if w < |s.workers| {
        TurnKeeps(s, w, kind);
      }
  }

  lemma {:induction false} InitKeeps(n: nat, k: nat, kind: RequestType, r: Request)
    requires k <= n
    ensures Held(Init(n).workers, kind, r, k) == 0
  {
    if k > 0 { InitKeeps(n, k - 1, kind, r); }
  }

  lemma {:induction false} RunKeeps(n: nat, es: seq<Event>, kind: RequestType)
    ensures Kept(Run(Init(n), es), kind) && |Run(Init(n), es).workers| == n
  {
    if es == [] {
      forall r { InitKeeps(n, n, kind, r); }
    } else {
      RunKeeps(n, es[..|es| - 1], kind);
      StepKeeps(Run(Init(n), es[..|es| - 1]), es[|es| - 1], kind);
    }
  }

  /** The requests of one kind that clients have sent, in order. */
  function Requests(es: seq<Event>, kind: RequestType): seq<Request> {
    if es == [] then []
    else
      var e := es[|es| - 1];
      Requests(es[..|es| - 1], kind) + if e.Arrive? && e.kind == kind then [e.request] else []
  }

  lemma StepRecords(s: Pool, e: Event, kind: RequestType)
    ensures Step(s, e).Lane(kind).arrivals ==
            s.Lane(kind).arrivals + if e.Arrive? && e.kind == kind then [e.request] else []
    ensures Step(s, e).stop <==> s.stop || e == RaiseStop
  {
    if e.Turn? { TurnRecords(s, e.w, kind); }
  }

  lemma TurnRecords(s: Pool, w: nat, kind: RequestType)
    ensures Step(s, Turn(w)).Lane(kind).arrivals == s.Lane(kind).arrivals && Step(s, Turn(w)).stop == s.stop
  {
  }

  /** Each request arrives at the queue of its kind, and the flag is up once graceful_stop has raised it. */
  lemma {:induction false} EventsAreRecorded(n: nat, es: seq<Event>, kind: RequestType)
    ensures Run(Init(n), es).Lane(kind).arrivals == Requests(es, kind)
    ensures Run(Init(n), es).stop <==> RaiseStop in es
  {
    if es != [] {
      var front, e := es[..|es| - 1], es[|es| - 1];
      EventsAreRecorded(n, front, kind);
      StepRecords(Run(Init(n), front), e, kind);
      assert es == front + [e];
    }
  }

  /**
   * In every run, each request was sent as often as it is queued, held by a thread of its kind, or processed,
   * and requests are taken in the order in which they were sent.
   */
  lemma RequestsAreConserved(n: nat, es: seq<Event>, kind: RequestType, r: Request)
    ensures var s := Run(Init(n), es);
            && |s.workers| == n && Requests(es, kind) == s.Lane(kind).taken + s.Lane(kind).queue
            && multiset(Requests(es, kind))[r] ==
               multiset(s.Lane(kind).queue)[r] + Held(s.workers, kind, r, n) + s.Lane(kind).done[r]
  {
    RunKeeps(n, es, kind);
    EventsAreRecorded(n, es, kind);
    assert Counted(Run(Init(n), es), kind, r);
  }

  // ---------------------------------------------------------------- what is drained

  ghost predicate Awake(s: Pool, kind: RequestType, w: nat) {
    w < |s.workers| && KindOf(w) == kind && (s.workers[w].Polling? || s.workers[w].Holding?)
  }

  ghost predicate AllExited(s: Pool, kind: RequestType) {
    forall w: nat | w < |s.workers| && KindOf(w) == kind :: s.workers[w].Exited?
  }

  ghost predicate Drained(s: Pool, kind: RequestType) {
    s.Lane(kind).done == multiset(s.Lane(kind).arrivals)
  }

  lemma {:induction false} NoneHeld(s: Pool, kind: RequestType, r: Request, n: nat)
    requires AllExited(s, kind) && n <= |s.workers|
    ensures Held(s.workers, kind, r, n) == 0
  {
    if n > 0 { NoneHeld(s, kind, r, n - 1); }
  }

  lemma DoneIsTaken(s: Pool, kind: RequestType)
    requires Kept(s, kind) && AllExited(s, kind)
    ensures s.Lane(kind).done == multiset(s.Lane(kind).taken)
  {
    forall r
      ensures s.Lane(kind).done[r] == multiset(s.Lane(kind).taken)[r]
    {
      NoneHeld(s, kind, r, |s.workers|);
      assert Counted(s, kind, r);
    }
  }

  lemma DrainedWhenEmpty(s: Pool, kind: RequestType)
    requires Kept(s, kind) && AllExited(s, kind)
    ensures Drained(s, kind) <==> s.Lane(kind).queue == []
  {
    DoneIsTaken(s, kind);
    var lane := s.Lane(kind);
    if lane.queue == [] {
      assert lane.taken + lane.queue == lane.taken;
    } else {
      var r := lane.queue[0];
      assert multiset(lane.taken + lane.queue)[r] == multiset(lane.taken)[r] + multiset(lane.queue)[r];
    }
  }

  ghost predicate NoArrivals(es: seq<Event>, kind: RequestType) {
    forall i | 0 <= i < |es| :: !(es[i].Arrive? && es[i].kind == kind)
  }

  /** Somebody of this kind will still poll, or there is nothing left to poll for. */
  ghost predicate Attended(s: Pool, kind: RequestType) {
    s.Lane(kind).queue == [] || exists w :: Awake(s, kind, w)
  }

  lemma TurnAttends(s: Pool, w: nat, kind: RequestType)
    requires s.stop && w < |s.workers|
    ensures Attended(TurnStep(s, w), kind) <==> Attended(s, kind)
  {
    var s' := TurnStep(s, w);
    forall u | u != w
      ensures Awake(s, kind, u) <==> Awake(s', kind, u)
    {
    }
    if KindOf(w) == kind && Awake(s, kind, w) && s.Lane(kind).queue != [] {
      assert Awake(s', kind, w);
    }
    if exists u :: Awake(s, kind, u) {
      var u :| Awake(s, kind, u);
      assert u != w ==> Awake(s', kind, u);
    }
  }

  lemma {:induction false} StaysAttended(s: Pool, es: seq<Event>, kind: RequestType)
    requires s.stop && NoArrivals(es, kind)
    ensures Run(s, es).stop && (Attended(Run(s, es), kind) <==> Attended(s, kind))
  {
    if es != [] {
      var t, e := Run(s, es[..|es| - 1]), es[|es| - 1];
      StaysAttended(s, es[..|es| - 1], kind);
      assert es[|es| - 1] == e;
      match e
      case Turn(w) => if w < |t.workers| { TurnAttends(t, w, kind); }
      case _ =>
        assert forall u :: Awake(t, kind, u) <==> Awake(Step(t, e), kind, u);
    }
  }

  lemma {:induction false} RunAppends(s: Pool, es: seq<Event>, fs: seq<Event>)
    ensures Run(s, es + fs) == Run(Run(s, es), fs)
  {
    if fs == [] {
      assert es + fs == es;
    } else {
      assert (es + fs)[..|es + fs| - 1] == es + fs[..|fs| - 1];
      RunAppends(s, es, fs[..|fs| - 1]);
    }
  }

  /**
   * When graceful_stop drains a queue: with the flag raised after `es` and no later arrival of the kind,
   * once every thread of the kind has exited, everything that arrived has been processed if and only if
   * the queue was empty, or some thread of the kind was not in its sleep, when the flag was up.
   */
  lemma GracefulStopDrains(n: nat, es: seq<Event>, fs: seq<Event>, kind: RequestType)
    requires Run(Init(n), es).stop && NoArrivals(fs, kind) && AllExited(Run(Init(n), es + fs), kind)
    ensures Drained(Run(Init(n), es + fs), kind) <==> Attended(Run(Init(n), es), kind)
  {
    RunAppends(Init(n), es, fs);
    StaysAttended(Run(Init(n), es), fs, kind);
    RunKeeps(n, es + fs, kind);
    DrainedWhenEmpty(Run(Init(n), es + fs), kind);
  }

  // ---------------------------------------------------------------- which requests are served, arrivals included

  ghost predicate Idle(s: Pool, kind: RequestType, w: nat) {
    w < |s.workers| && KindOf(w) == kind && (s.workers[w].Sleeping? || s.workers[w].Exited?)
  }

  /** No empty poll of the kind came after more arrivals than have been taken. */
  ghost predicate PollsBefore(s: Pool, kind: RequestType) {
    forall w: nat | Idle(s, kind, w) :: s.workers[w].seen <= |s.Lane(kind).taken|
  }

  /** After a take, a thread of the kind is awake, or one has polled empty since. */
  ghost predicate LastTakeSeen(s: Pool, kind: RequestType) {
    s.Lane(kind).taken == [] || exists w: nat ::
      Awake(s, kind, w) || (Idle(s, kind, w) && s.workers[w].seen == |s.Lane(kind).taken|)
  }

  lemma TurnPollsBefore(s: Pool, w: nat, kind: RequestType)
    requires w < |s.workers| && Kept(s, kind) && PollsBefore(s, kind)
    ensures PollsBefore(TurnStep(s, w), kind)
  {
  }

  lemma TurnSeesLastTake(s: Pool, w: nat, kind: RequestType)
    requires w < |s.workers| && Kept(s, kind) && LastTakeSeen(s, kind)
    ensures LastTakeSeen(TurnStep(s, w), kind)
  {
    var s' := TurnStep(s, w);
    if KindOf(w) == kind && Awake(s, kind, w) {
      assert Awake(s', kind, w) || (Idle(s', kind, w) && s'.workers[w].seen == |s'.Lane(kind).taken|);
    } else if s.Lane(kind).taken != [] {
      var u: nat :| Awake(s, kind, u) || (Idle(s, kind, u) && s.workers[u].seen == |s.Lane(kind).taken|);
      assert Awake(s', kind, u) || (Idle(s', kind, u) && s'.workers[u].seen == |s'.Lane(kind).taken|);
    }
  }

  lemma {:induction false} RunMarksPolls(n: nat, es: seq<Event>, kind: RequestType)
    ensures PollsBefore(Run(Init(n), es), kind) && LastTakeSeen(Run(Init(n), es), kind)
  {
    if es != [] {
      RunMarksPolls(n, es[..|es| - 1], kind);
      RunKeeps(n, es[..|es| - 1], kind);
      StepMarksPolls(Run(Init(n), es[..|es| - 1]), es[|es| - 1], kind);
    }
  }

  lemma StepMarksPolls(s: Pool, e: Event, kind: RequestType)
    requires Kept(s, kind) && PollsBefore(s, kind) && LastTakeSeen(s, kind)
    ensures PollsBefore(Step(s, e), kind) && LastTakeSeen(Step(s, e), kind)
  {
    match e
    case Turn(w) =>
      if w < |s.workers| {
        TurnPollsBefore(s, w, kind);
        TurnSeesLastTake(s, w, kind);
      }
    case _ =>
      if s.Lane(kind).taken != [] {
        var u: nat :| Awake(s, kind, u) || (Idle(s, kind, u) && s.workers[u].seen == |s.Lane(kind).taken|);
        assert Awake(Step(s, e), kind, u) || Idle(Step(s, e), kind, u);
      }
      assert forall w: nat :: Idle(s, kind, w) <==> Idle(Step(s, e), kind, w);
  }

  /** The request came before the final empty poll of some thread of its kind. */
  ghost predicate Noticed(s: Pool, kind: RequestType, i: nat) {
    exists w: nat :: Idle(s, kind, w) && i < s.workers[w].seen
  }

  lemma TakenIsNoticed(s: Pool, kind: RequestType)
    requires PollsBefore(s, kind) && LastTakeSeen(s, kind) && AllExited(s, kind)
    ensures forall i: nat :: i < |s.Lane(kind).taken| <==> Noticed(s, kind, i)
  {
  }

  /**
   * Whatever arrives and whenever: when all threads of a kind have exited, exactly the requests that
   * arrived before some such thread's final empty poll have been processed; the others are still queued.
   */
  lemma ServedIffNoticed(n: nat, es: seq<Event>, kind: RequestType)
    requires AllExited(Run(Init(n), es), kind)
    ensures var s := Run(Init(n), es);
            var lane := s.Lane(kind);
            && lane.arrivals == lane.taken + lane.queue && lane.done == multiset(lane.taken)
            && forall i: nat | i < |lane.arrivals| :: i < |lane.taken| <==> Noticed(s, kind, i)
  {
    var s := Run(Init(n), es);
    RunMarksPolls(n, es, kind);
    RunKeeps(n, es, kind);
    DoneIsTaken(s, kind);
    TakenIsNoticed(s, kind);
  }

  // ---------------------------------------------------------------- progress while the flag is down

  /** The queue a thread is for. */
  function Own(s: Pool, w: nat): Lane {
    if w % 2 == 0 then s.stimulus else s.correlation
  }

  function Others(s: Pool, w: nat): Lane {
    if w % 2 == 0 then s.correlation else s.stimulus
  }

  function InHand(x: Worker): multiset<Request> {
    if x.Holding? then multiset{x.request} else multiset{}
  }

  function Turning(w: nat, k: nat): seq<Event> {
    seq(k, _ => Turn(w))
  }

  /** A thread that works, with the flag down. */
  ghost predicate Working(s: Pool, w: nat) {
    !s.stop && w < |s.workers| && !s.workers[w].Exited?
  }

  /** From `s` to `s'` only the thread `w` worked, and it lost no request. */
  ghost predicate Worked(s: Pool, w: nat, s': Pool)
    requires Working(s, w) && Working(s', w)
  {
    && |s'.workers| == |s.workers| && (forall u | 0 <= u < |s.workers| && u != w :: s'.workers[u] == s.workers[u])
    && Others(s', w) == Others(s, w) && Own(s', w).arrivals == Own(s, w).arrivals
    && Own(s', w).taken + Own(s', w).queue == Own(s, w).taken + Own(s, w).queue
    && Own(s', w).done + InHand(s'.workers[w]) + multiset(Own(s', w).queue) ==
       Own(s, w).done + InHand(s.workers[w]) + multiset(Own(s, w).queue)
  }

  /** The turns a thread needs until its queue is empty and its hands are free. */
  function Load(s: Pool, w: nat): nat
    requires w < |s.workers|
  {
    var rest := 2 * |Own(s, w).queue|;
    match s.workers[w]
    case Holding(_) => rest + 1
    case Sleeping(_) => if rest == 0 then 0 else rest + 1
    case _ => rest
  }

  lemma QueueSplits(lane: Lane)
    requires lane.queue != []
    ensures multiset(lane.queue) == multiset{lane.queue[0]} + multiset(lane.queue[1..])
    ensures Take(lane).taken + Take(lane).queue == lane.taken + lane.queue
  {
    assert lane.queue == [lane.queue[0]] + lane.queue[1..];
  }

  lemma TurnWorks(s: Pool, w: nat)
    requires Working(s, w)
    ensures var s' := TurnStep(s, w);
            Working(s', w) && Worked(s, w, s') && (Load(s', w) < Load(s, w) || Load(s', w) == Load(s, w) == 0)
  {
    if s.workers[w].Polling? && Own(s, w).queue != [] {
      TakeWorks(s, w);
    } else if s.workers[w].Holding? {
      FinishWorks(s, w);
    } else {
      assert TurnStep(s, w) == s.(workers := TurnStep(s, w).workers);
    }
  }

  lemma TakeWorks(s: Pool, w: nat)
    requires Working(s, w) && s.workers[w].Polling? && Own(s, w).queue != []
    ensures var s' := TurnStep(s, w);
            Working(s', w) && Worked(s, w, s') && Load(s', w) < Load(s, w)
  {
    var s' := TurnStep(s, w);
    QueueSplits(Own(s, w));
    assert Own(s', w) == Take(Own(s, w)) && Others(s', w) == Others(s, w);
    assert s'.workers[w] == Holding(Own(s, w).queue[0]);
  }

  lemma FinishWorks(s: Pool, w: nat)
    requires Working(s, w) && s.workers[w].Holding?
    ensures var s' := TurnStep(s, w);
            Working(s', w) && Worked(s, w, s') && Load(s', w) < Load(s, w)
  {
    var s', lane := TurnStep(s, w), Own(s, w);
    assert Own(s', w) == lane.(done := lane.done + InHand(s.workers[w])) && Others(s', w) == Others(s, w);
    assert s'.workers[w] == Polling;
  }

  lemma {:induction false} TurnsWork(s: Pool, w: nat, k: nat)
    requires Working(s, w)
    ensures var s' := Run(s, Turning(w, k));
            Working(s', w) && Worked(s, w, s') && (Load(s', w) + k <= Load(s, w) || Load(s', w) == 0)
  {
    if k > 0 {
      TurnsWork(s, w, k - 1);
      assert Turning(w, k)[..k - 1] == Turning(w, k - 1);
      TurnWorks(Run(s, Turning(w, k - 1)), w);
    }
  }

  /**
   * From every state a run reaches with the flag down, one thread alone empties the queue of its kind in the
   * order of arrival, an even one the stimulus queue and an odd one the correlation queue, and processes all
   * it takes, within two turns for each request and one more. Nothing else changes.
   */
  lemma QueueIsServed(n: nat, es: seq<Event>, w: nat, k: nat)
    requires w < n && !Run(Init(n), es).stop
    requires k > 2 * |Own(Run(Init(n), es), w).queue|
    ensures var s, s' := Run(Init(n), es), Run(Init(n), es + Turning(w, k));
            && |s'.workers| == |s.workers| == n && !s'.stop && !s'.workers[w].Holding?
            && (forall u | 0 <= u < n && u != w :: s'.workers[u] == s.workers[u]) && Others(s', w) == Others(s, w)
            && Own(s', w).queue == [] && Own(s', w).taken == Own(s', w).arrivals == Own(s, w).arrivals
            && Own(s', w).done == Own(s, w).done + InHand(s.workers[w]) + multiset(Own(s, w).queue)
  {
    var s, s' := Run(Init(n), es), Run(Init(n), es + Turning(w, k));
    RunKeeps(n, es, KindOf(w));
    ExitsNeedTheFlag(n, es, w);
    RunAppends(Init(n), es, Turning(w, k));
    TurnsWork(s, w, k);
    RunKeeps(n, es + Turning(w, k), KindOf(w));
    assert Own(s', w).taken + [] == Own(s', w).taken;
  }

  ghost predicate AllTurns(es: seq<Event>) {
    forall i | 0 <= i < |es| :: es[i].Turn?
  }

  lemma {:induction false} TurnsSendNothing(es: seq<Event>, fs: seq<Event>, kind: RequestType)
    requires AllTurns(fs)
    ensures Requests(es + fs, kind) == Requests(es, kind) && (RaiseStop in es + fs <==> RaiseStop in es)
  {
    if fs == [] {
      assert es + fs == es;
    } else {
      assert (es + fs)[..|es + fs| - 1] == es + fs[..|fs| - 1];
      TurnsSendNothing(es, fs[..|fs| - 1], kind);
    }
  }

  ghost predicate QueuesEmpty(s: Pool) {
    s.stimulus.queue == [] && s.correlation.queue == []
  }

  lemma FinishOne(s: Pool, w: nat)
    requires QueuesEmpty(s) && w < |s.workers| && s.workers[w].Holding?
    ensures var s' := TurnStep(s, w); QueuesEmpty(s') && s'.workers == s.workers[w := Polling]
  {
  }

  /** Once both queues are empty, the threads that still hold a request finish it in a turn each. */
  lemma {:induction false} FinishHeld(s: Pool, k: nat) returns (fs: seq<Event>)
    requires QueuesEmpty(s) && k <= |s.workers|
    ensures AllTurns(fs)
    ensures var s' := Run(s, fs);
            QueuesEmpty(s') && |s'.workers| == |s.workers| && forall u | 0 <= u < k :: !s'.workers[u].Holding?
  {
    fs := [];
    if k > 0 {
      fs := FinishHeld(s, k - 1);
      if Run(s, fs).workers[k - 1].Holding? {
        RunOne(s, fs, Turn(k - 1));
        FinishOne(Run(s, fs), k - 1);
        fs := fs + [Turn(k - 1)];
      }
    }
  }

  lemma {:induction false} FreeHandsHoldNone(ws: seq<Worker>, kind: RequestType, r: Request, n: nat)
    requires n <= |ws| && forall u | 0 <= u < |ws| :: !ws[u].Holding?
    ensures Held(ws, kind, r, n) == 0
  {
    if n > 0 { FreeHandsHoldNone(ws, kind, r, n - 1); }
  }

  lemma IdleIsDone(n: nat, es: seq<Event>, kind: RequestType)
    requires var s := Run(Init(n), es);
             s.Lane(kind).queue == [] && forall u | 0 <= u < |s.workers| :: !s.workers[u].Holding?
    ensures Run(Init(n), es).Lane(kind).done == multiset(Requests(es, kind))
  {
    var lane := Run(Init(n), es).Lane(kind);
    forall r
      ensures lane.done[r] == multiset(Requests(es, kind))[r]
    {
      RequestsAreConserved(n, es, kind, r);
      FreeHandsHoldNone(Run(Init(n), es).workers, kind, r, n);
    }
  }

  /** Two threads empty both queues: thread 0 the one for stimuli, thread 1 the one for correlations. */
  lemma EmptyBoth(n: nat, es: seq<Event>) returns (fs: seq<Event>)
    requires n >= 2 && !Run(Init(n), es).stop
    ensures AllTurns(fs) && QueuesEmpty(Run(Init(n), es + fs)) && |Run(Init(n), es + fs).workers| == n
  {
    var first := Turning(0, 2 * |Run(Init(n), es).stimulus.queue| + 1);
    QueueIsServed(n, es, 0, |first|);
    var second := Turning(1, 2 * |Run(Init(n), es + first).correlation.queue| + 1);
    QueueIsServed(n, es + first, 1, |second|);
    fs := first + second;
    assert es + fs == es + first + second;
  }

  lemma EmptyAndFinish(n: nat, es: seq<Event>) returns (fs: seq<Event>)
    requires n >= 2 && !Run(Init(n), es).stop
    ensures AllTurns(fs)
    ensures var s' := Run(Init(n), es + fs);
            QueuesEmpty(s') && forall u | 0 <= u < |s'.workers| :: !s'.workers[u].Holding?
  {
    var emptying := EmptyBoth(n, es);
    var finishing := FinishHeld(Run(Init(n), es + emptying), n);
    fs := emptying + finishing;
    assert es + fs == es + emptying + finishing;
    RunAppends(Init(n), es + emptying, finishing);
  }

  /**
   * With two threads or more, until the flag goes up, whatever has been sent can be processed by the steps
   * of the threads alone: every request of either kind, each once.
   */
  lemma EverythingCanBeServed(n: nat, es: seq<Event>) returns (fs: seq<Event>)
    requires n >= 2 && RaiseStop !in es
    ensures AllTurns(fs)
    ensures forall kind :: Run(Init(n), es + fs).Lane(kind).done == multiset(Requests(es, kind))
  {
    EventsAreRecorded(n, es, STIMULUS);
    fs := EmptyAndFinish(n, es);
    forall kind
      ensures Run(Init(n), es + fs).Lane(kind).done == multiset(Requests(es, kind))
    {
      TurnsSendNothing(es, fs, kind);
      IdleIsDone(n, es + fs, kind);
    }
  }

  // ---------------------------------------------------------------- graceful_stop returns

  /** No thread leaves before the flag is up, and nothing lowers it. */
  lemma {:induction false} ExitsNeedTheFlag(n: nat, es: seq<Event>, w: nat)
    ensures var s := Run(Init(n), es);
            w < |s.workers| && s.workers[w].Exited? ==> s.stop
  {
    if es != [] {
      ExitsNeedTheFlag(n, es[..|es| - 1], w);
    }
  }

  function Cost(x: Worker): nat {
    match x
    case Polling => 2
    case Holding(_) => 3
    case Sleeping(_) => 1
    case Exited(_) => 0
  }

  function Costs(ws: seq<Worker>): nat {
    if ws == [] then 0 else Cost(ws[0]) + Costs(ws[1..])
  }

  lemma {:induction false} CostsUpdate(ws: seq<Worker>, w: nat, x: Worker)
    requires w < |ws|
    ensures Costs(ws[w := x]) == Costs(ws) - Cost(ws[w]) + Cost(x)
  {
    if w == 0 {
      assert ws[w := x][1..] == ws[1..];
    } else {
      assert ws[w := x][1..] == ws[1..][w - 1 := x];
      CostsUpdate(ws[1..], w - 1, x);
    }
  }

  function StepsLeft(s: Pool): nat {
    2 * |s.stimulus.queue| + 2 * |s.correlation.queue| + Costs(s.workers)
  }

  /** With the flag up, each step of a thread that has not exited uses up one of the steps left. */
  lemma TurnsRunOut(s: Pool, w: nat)
    requires s.stop && w < |s.workers| && !s.workers[w].Exited?
    ensures StepsLeft(TurnStep(s, w)) < StepsLeft(s) && TurnStep(s, w).stop
  {
    CostsUpdate(s.workers, w, TurnStep(s, w).workers[w]);
  }

  /** The steps that threads took before they had left. */
  function Turns(s: Pool, es: seq<Event>): nat {
    if es == [] then 0
    else
      var before, e := Run(s, es[..|es| - 1]), es[|es| - 1];
      Turns(s, es[..|es| - 1]) + if e.Turn? && e.w < |before.workers| && !before.workers[e.w].Exited? then 1 else 0
  }

  function Arrivals(es: seq<Event>): nat {
    if es == [] then 0 else Arrivals(es[..|es| - 1]) + if es[|es| - 1].Arrive? then 1 else 0
  }

  /**
   * With the flag up, whatever happens, the threads take no more steps than they had left, and two for each
   * request that still arrives. So graceful_stop's joins return once requests cease to arrive.
   */
  lemma {:induction false} StopIsBounded(s: Pool, es: seq<Event>)
    requires s.stop
    ensures Run(s, es).stop && Turns(s, es) + StepsLeft(Run(s, es)) <= StepsLeft(s) + 2 * Arrivals(es)
  {
    if es != [] {
      var before, e := Run(s, es[..|es| - 1]), es[|es| - 1];
      StopIsBounded(s, es[..|es| - 1]);
      if e.Turn? && e.w < |before.workers| && !before.workers[e.w].Exited? {
        TurnsRunOut(before, e.w);
      } else if e.Turn? && e.w < |before.workers| {
        assert Run(s, es) == before;
      }
    }
  }

  /** Nothing left to do is everyone gone. */
  lemma {:induction false} NothingLeftIsGone(ws: seq<Worker>)
    ensures Costs(ws) == 0 <==> forall w | 0 <= w < |ws| :: ws[w].Exited?
  {
    if ws != [] {
      NothingLeftIsGone(ws[1..]);
      assert forall w | 1 <= w < |ws| :: ws[w] == ws[1..][w - 1];
    }
  }

  /** One request arrives while thread 0 polls; the thread takes it and finishes it. */
  function Round(r: Request): seq<Event> {
    [Arrive(STIMULUS, r), Turn(0), Turn(0)]
  }

  function Rounds(r: Request, k: nat): seq<Event> {
    if k == 0 then [] else Rounds(r, k - 1) + Round(r)
  }

  ghost predicate Busy(s: Pool) {
    s.stop && s.workers != [] && s.workers[0] == Polling && s.stimulus.queue == []
  }

  lemma RoundStaysBusy(s: Pool, r: Request)
    requires Busy(s)
    ensures Busy(Run(s, Round(r)))
  {
    var e := Round(r);
    assert e[..2] == [e[0], e[1]] && e[..2][..1] == [e[0]] && e[..2][..1][..0] == [];
    var one := Step(s, e[0]);
    assert Run(s, [e[0]]) == one && one.stimulus.queue == [r];
    assert Run(s, [e[0], e[1]]) == Step(one, e[1]);
  }

  /** While requests keep arriving a thread need never leave: any number of rounds with the flag up. */
  lemma {:induction false} ArrivalsKeepBusy(s: Pool, r: Request, k: nat)
    requires Busy(s)
    ensures Busy(Run(s, Rounds(r, k))) && |Rounds(r, k)| == 3 * k
  {
    if k > 0 {
      ArrivalsKeepBusy(s, r, k - 1);
      RunAppends(s, Rounds(r, k - 1), Round(r));
      RoundStaysBusy(Run(s, Rounds(r, k - 1)), r);
    }
  }

  lemma BusyIsReached(n: nat)
    requires n > 0
    ensures Busy(Run(Init(n), [RaiseStop]))
  {
    assert [RaiseStop][..0] == [];
  }

  // ---------------------------------------------------------------- the documented promise fails

  function Sweep(n: nat): seq<Event> {
    seq(n, i requires 0 <= i < n => Turn(i))
  }

  lemma {:induction false} AllFallAsleep(n: nat, k: nat)
    requires k <= n
    ensures Run(Init(n), Sweep(k)) == Init(n).(workers := seq(n, i => if i < k then Sleeping(0) else Polling))
  {
    if k > 0 {
      AllFallAsleep(n, k - 1);
      assert Sweep(k)[..k - 1] == Sweep(k - 1);
    } else {
      assert Init(n).workers == seq(n, i => if i < k then Sleeping(0) else Polling);
    }
  }

  lemma {:induction false} AllLeave(n: nat, s: Pool, k: nat)
    requires k <= n && s.stop && s.workers == seq(n, i => Sleeping(0))
    ensures Run(s, Sweep(k)) == s.(workers := seq(n, i => if i < k then Exited(0) else Sleeping(0)))
  {
    if k > 0 {
      AllLeave(n, s, k - 1);
      assert Sweep(k)[..k - 1] == Sweep(k - 1);
    } else {
      assert s.workers == seq(n, i => if i < k then Exited(0) else Sleeping(0));
    }
  }

  /**
   * A pool of any size can leave a request behind that arrived before the flag was raised: every thread
   * polls an empty queue and sleeps, the request arrives, the flag goes up, and every thread leaves.
   */
  lemma StopCanStrand(n: nat, kind: RequestType, r: Request)
    ensures var before := Sweep(n) + [Arrive(kind, r), RaiseStop];
            && Run(Init(n), before).stop
            && AllExited(Run(Init(n), before + Sweep(n)), kind)
            && Run(Init(n), before + Sweep(n)).Lane(kind).queue == [r]
  {
    var before := Sweep(n) + [Arrive(kind, r), RaiseStop];
    AllFallAsleep(n, n);
    var s0 := Run(Init(n), Sweep(n));
    assert s0.workers == seq(n, i => Sleeping(0));
    RunOne(Init(n), Sweep(n), Arrive(kind, r));
    RunOne(Init(n), Sweep(n) + [Arrive(kind, r)], RaiseStop);
    assert before == Sweep(n) + [Arrive(kind, r)] + [RaiseStop];
    RunAppends(Init(n), before, Sweep(n));
    AllLeave(n, Run(Init(n), before), n);
  }
}
