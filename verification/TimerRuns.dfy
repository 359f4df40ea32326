/** What the timer queue guarantees over whole runs. Which of several timers with the same expiry
    is at the front is left to the heap. */
module TimerRuns {
  import opened PreciseTime
  import opened Timers

  /** An action was run when the clock said `at`. */
  datatype Firing = Firing(timer: Timer, at: Time)

  datatype Queue = Queue(timers: multiset<Timer>, nextId: int, now: Time, fired: seq<Firing>)

  /** A call of RegisterTimer that reads the clock at `at`. */
  datatype Registration = Registration(interval: Time, action: Action, frequent: bool, delay: Time, at: Time)

  /** `Process`: the front `top` is due at `at`, its action registers timers, and the clock is read
      again at `after`. Processing when nothing is due changes nothing. */
  datatype Step = Register(r: Registration) | Remove(id: int)
                | Process(top: Timer, at: Time, during: seq<Registration>, after: Time)

  predicate Delay(t: Time) {
    Normalised(t) && t.seconds >= 0
  }

  predicate Reading(now: Time, at: Time) {
    Normalised(at) && AtMost(now, at)
  }

  predicate Proper(q: Queue, r: Registration) {
    Delay(r.interval) && Delay(r.delay) && Reading(q.now, r.at)
  }

  function Add(q: Queue, r: Registration): Queue {
    q.(timers := q.timers + multiset{NewTimer(q.nextId, r.interval, r.action, r.frequent, r.delay, r.at)},
       nextId := q.nextId + 1, now := r.at)
  }

  predicate AllProper(q: Queue, rs: seq<Registration>)
    decreases |rs|
  {
    rs == [] || (Proper(q, rs[0]) && AllProper(Add(q, rs[0]), rs[1..]))
  }

  function AddAll(q: Queue, rs: seq<Registration>): Queue
    decreases |rs|
  {
    if rs == [] then q else AddAll(Add(q, rs[0]), rs[1..])
  }

  function Without(timers: multiset<Timer>, id: int): multiset<Timer> {
    multiset(set t | t in timers && t.id != id)
  }

  ghost predicate First(timers: multiset<Timer>, top: Timer) {
    top in timers && forall t | t in timers :: AtMost(top.expiry, t.expiry)
  }

  /** The action of `top` starts. That the heap still holds it until the action has returned makes
      no difference: the front stays where it is, see TimerManager.RegisterTimer. */
  function Fire(q: Queue, top: Timer, at: Time): Queue {
    q.(timers := q.timers - multiset{top}, now := at, fired := q.fired + [Firing(top, at)])
  }

  function Finish(q: Queue, top: Timer, after: Time): Queue {
    q.(timers := q.timers + Rearmed(top, after), now := after)
  }

  function Rearmed(top: Timer, after: Time): multiset<Timer> {
    if top.frequent then multiset{top.(expiry := Plus(after, top.interval))} else multiset{}
  }

  ghost predicate Enabled(q: Queue, step: Step) {
    match step
    case Register(r) => Proper(q, r)
    case Remove(id) => true
    case Process(top, at, during, after) =>
      && First(q.timers, top) && Reading(q.now, at) && !Less(at, top.expiry)
      && AllProper(Fire(q, top, at), during) && Reading(AddAll(Fire(q, top, at), during).now, after)
  }

  function Next(q: Queue, step: Step): Queue {
    match step
    case Register(r) => Add(q, r)
    case Remove(id) => q.(timers := Without(q.timers, id))
    case Process(top, at, during, after) => Finish(AddAll(Fire(q, top, at), during), top, after)
  }

  ghost predicate Legal(q: Queue, run: seq<Step>)
    decreases |run|
  {
    run == [] || (Enabled(q, run[0]) && Legal(Next(q, run[0]), run[1..]))
  }

  function After(q: Queue, run: seq<Step>): Queue
    decreases |run|
  {
    if run == [] then q else After(Next(q, run[0]), run[1..])
  }

  // ---------------------------------------------------------------- invariants

  /** Ids identify timers and are never given out twice. */
  predicate Identified(q: Queue) {
    && (forall t | t in q.timers :: t.id < q.nextId && q.timers[t] == 1 && Delay(t.interval) && Normalised(t.expiry))
    && (forall t, u | t in q.timers && u in q.timers && t.id == u.id :: t == u)
    && (forall i | 0 <= i < |q.fired| :: q.fired[i].timer.id < q.nextId)
    && Normalised(q.now)
  }

  predicate NeverEarly(q: Queue) {
    forall i | 0 <= i < |q.fired| :: AtMost(q.fired[i].timer.expiry, q.fired[i].at)
  }

  predicate InExpiryOrder(q: Queue) {
    forall i, j | 0 <= i < j < |q.fired| :: AtMost(q.fired[i].timer.expiry, q.fired[j].timer.expiry)
  }

  /** A timer that is to be called once is gone when it has been called. */
  predicate OnceOnly(q: Queue) {
    && (forall i, j | 0 <= i < j < |q.fired| && !q.fired[i].timer.frequent :: q.fired[j].timer.id != q.fired[i].timer.id)
    && (forall i, t | 0 <= i < |q.fired| && !q.fired[i].timer.frequent && t in q.timers :: t.id != q.fired[i].timer.id)
  }

  lemma TwiceInside(s: seq<Timer>, i: nat, j: nat)
    requires i < j < |s|
    ensures s[i] == s[j] ==> multiset(s)[s[i]] >= 2
  {
    assert s == s[..j] + s[j..];
    assert s[i] in s[..j] && s[j] in s[j..];
  }

  /** The heap holds each id once. */
  lemma DistinctIds(q: Queue, heap: seq<Timer>)
    requires Identified(q) && multiset(heap) == q.timers
    ensures forall i, j | 0 <= i < j < |heap| :: heap[i].id != heap[j].id
  {
    forall i, j | 0 <= i < j < |heap|
      ensures heap[i].id != heap[j].id
    {
      assert heap[i] in multiset(heap) && heap[j] in multiset(heap);
      TwiceInside(heap, i, j);
    }
  }

  /** What is left of distinct timers when those of one id are taken out. */
  lemma WithoutIs(q: Queue, id: int, left: multiset<Timer>)
    requires Identified(q)
    requires forall t: Timer :: left[t] == if t.id == id then 0 else q.timers[t]
    ensures left == Without(q.timers, id)
  {
    forall t: Timer
      ensures left[t] == Without(q.timers, id)[t]
    {
      assert t in q.timers ==> q.timers[t] == 1;
    }
  }

  /** Nothing that is still to come expires before what has been called. */
  predicate NotBefore(q: Queue, expiry: Time) {
    AtMost(expiry, q.now) && forall t | t in q.timers :: AtMost(expiry, t.expiry)
  }

  predicate Pending(q: Queue) {
    forall i | 0 <= i < |q.fired| :: NotBefore(q, q.fired[i].timer.expiry)
  }

  ghost function Good(): iset<Queue> {
    iset q: Queue | Identified(q) && NeverEarly(q) && InExpiryOrder(q) && OnceOnly(q) && Pending(q)
  }

  /** A timer with a new id, or with that of a frequent timer that is not in the queue. */
  predicate MayJoin(q: Queue, t: Timer) {
    && t !in q.timers && t.id < q.nextId && Delay(t.interval) && Normalised(t.expiry) && AtMost(q.now, t.expiry)
    && (forall u | u in q.timers :: u.id != t.id)
    && (forall i | 0 <= i < |q.fired| && !q.fired[i].timer.frequent :: q.fired[i].timer.id != t.id)
  }

  lemma JoinKeeps(q: Queue, t: Timer)
    requires q in Good() && MayJoin(q, t)
    ensures q.(timers := q.timers + multiset{t}) in Good()
  {
    var q' := q.(timers := q.timers + multiset{t});
    forall i | 0 <= i < |q'.fired|
      ensures NotBefore(q', q'.fired[i].timer.expiry)
    {
      assert NotBefore(q, q.fired[i].timer.expiry);
    }
  }

  /** Time passes and ids are given out. */
  lemma Later(q: Queue, now: Time, nextId: int)
    requires q in Good() && Reading(q.now, now) && q.nextId <= nextId
    ensures q.(now := now, nextId := nextId) in Good()
  {
    var q' := q.(now := now, nextId := nextId);
    forall i | 0 <= i < |q'.fired|
      ensures NotBefore(q', q'.fired[i].timer.expiry)
    {
      assert NotBefore(q, q.fired[i].timer.expiry);
    }
  }

  lemma FewerTimers(q: Queue, timers: multiset<Timer>)
    requires q in Good() && timers <= q.timers
    ensures q.(timers := timers) in Good()
  {
    var q' := q.(timers := timers);
    forall i | 0 <= i < |q'.fired|
      ensures NotBefore(q', q'.fired[i].timer.expiry)
    {
      assert NotBefore(q, q.fired[i].timer.expiry);
    }
  }

  lemma AddKeeps(q: Queue, r: Registration)
    requires q in Good() && Proper(q, r)
    ensures Add(q, r) in Good()
  {
    var delay := if r.delay.seconds == 0 then r.interval else r.delay;
    PlusIsLater(r.at, delay);
    PlusIsExact(r.at, delay);
    var q1 := q.(now := r.at, nextId := q.nextId + 1);
    Later(q, r.at, q.nextId + 1);
    JoinKeeps(q1, NewTimer(q.nextId, r.interval, r.action, r.frequent, r.delay, r.at));
  }

  lemma {:induction false} AddAllKeeps(q: Queue, rs: seq<Registration>)
    requires q in Good() && AllProper(q, rs)
    ensures AddAll(q, rs) in Good()
    decreases |rs|
  {
    if rs != [] {
      AddKeeps(q, rs[0]);
      AddAllKeeps(Add(q, rs[0]), rs[1..]);
    }
  }

  /** What registrations leave alone. */
  lemma {:induction false} AddAllAdds(q: Queue, rs: seq<Registration>)
    ensures var q' := AddAll(q, rs);
            && q'.fired == q.fired && q'.nextId >= q.nextId && q.timers <= q'.timers
            && (forall t | t in q'.timers :: t in q.timers || t.id >= q.nextId)
    decreases |rs|
  {
    if rs != [] {
      AddAllAdds(Add(q, rs[0]), rs[1..]);
    }
  }

  lemma FireKeeps(q: Queue, top: Timer, at: Time)
    requires q in Good() && First(q.timers, top) && Reading(q.now, at) && !Less(at, top.expiry)
    ensures Fire(q, top, at) in Good()
  {
    var q1 := q.(timers := q.timers - multiset{top}, now := at);
    Later(q, at, q.nextId);
    FewerTimers(q.(now := at), q1.timers);
    FiredNow(q1, top);
  }

  lemma FiredOnce(q: Queue, top: Timer)
    requires OnceOnly(q) && forall t | t in q.timers :: t.id != top.id
    requires forall i | 0 <= i < |q.fired| && !q.fired[i].timer.frequent :: q.fired[i].timer.id != top.id
    ensures OnceOnly(q.(fired := q.fired + [Firing(top, q.now)]))
  {
  }

  /** `top` has just left the queue. */
  lemma FiredInOrder(q: Queue, q': Queue, top: Timer)
    requires q in Good() && top.id < q.nextId && AtMost(top.expiry, q.now)
    requires forall i | 0 <= i < |q.fired| :: AtMost(q.fired[i].timer.expiry, top.expiry)
    requires q' == q.(fired := q.fired + [Firing(top, q.now)])
    ensures InExpiryOrder(q') && NeverEarly(q') && Identified(q')
  {
    hide AtMost, NotBefore, OnceOnly;
  }

  lemma FiredNow(q: Queue, top: Timer)
    requires q in Good() && top.id < q.nextId && NotBefore(q, top.expiry)
    requires forall t | t in q.timers :: t.id != top.id
    requires forall i | 0 <= i < |q.fired| :: AtMost(q.fired[i].timer.expiry, top.expiry)
    requires forall i | 0 <= i < |q.fired| && !q.fired[i].timer.frequent :: q.fired[i].timer.id != top.id
    ensures q.(fired := q.fired + [Firing(top, q.now)]) in Good()
  {
    var q' := q.(fired := q.fired + [Firing(top, q.now)]);
    FiredOnce(q, top);
    FiredInOrder(q, q', top);
    hide InExpiryOrder, OnceOnly, NeverEarly, Identified, AtMost;
    forall i | 0 <= i < |q'.fired|
      ensures NotBefore(q', q'.fired[i].timer.expiry)
    {
      assert i < |q.fired| ==> NotBefore(q, q.fired[i].timer.expiry);
    }
  }

  lemma FinishKeeps(q: Queue, top: Timer, after: Time)
    requires q in Good() && Reading(q.now, after)
    requires top.id < q.nextId && Delay(top.interval) && (forall t | t in q.timers :: t.id != top.id)
    requires forall i | 0 <= i < |q.fired| && !q.fired[i].timer.frequent && top.frequent :: q.fired[i].timer.id != top.id
    ensures Finish(q, top, after) in Good()
  {
    Later(q, after, q.nextId);
    if top.frequent {
      PlusIsLater(after, top.interval);
      PlusIsExact(after, top.interval);
      JoinKeeps(q.(now := after), top.(expiry := Plus(after, top.interval)));
    }
  }

  lemma NextKeeps(q: Queue, step: Step)
    requires q in Good() && Enabled(q, step)
    ensures Next(q, step) in Good() && Next(q, step).nextId >= q.nextId
  {
    match step
    case Register(r) =>
      AddKeeps(q, r);
    case Remove(id) =>
      assert Without(q.timers, id) <= q.timers;
      FewerTimers(q, Without(q.timers, id));
    case Process(top, at, during, after) => ProcessKeeps(q, top, at, during, after);
  }

  lemma ProcessKeeps(q: Queue, top: Timer, at: Time, during: seq<Registration>, after: Time)
    requires q in Good() && Enabled(q, Process(top, at, during, after))
    ensures Finish(AddAll(Fire(q, top, at), during), top, after) in Good()
    ensures Finish(AddAll(Fire(q, top, at), during), top, after).nextId >= q.nextId
  {
    FireKeeps(q, top, at);
    AddAllAdds(Fire(q, top, at), during);
    AddAllKeeps(Fire(q, top, at), during);
    hide AllProper, AtMost, Less, NeverEarly, InExpiryOrder, Pending;
    FinishKeeps(AddAll(Fire(q, top, at), during), top, after);
  }

  lemma {:induction false} RunKeeps(q: Queue, run: seq<Step>)
    requires q in Good() && Legal(q, run)
    ensures After(q, run) in Good() && After(q, run).nextId >= q.nextId
    decreases |run|
  {
    if run != [] {
      NextKeeps(q, run[0]);
      RunKeeps(Next(q, run[0]), run[1..]);
    }
  }

  // ------------------------------------------------------------------ theorems

  function Empty(now: Time): Queue {
    Queue(multiset{}, 1, now, [])
  }

  /** Over every run: no action runs before its expiry time, actions run in the order of their
      expiry times, and a timer that is to be called once is called at most once. */
  lemma TimersKeepTheirWord(now: Time, run: seq<Step>)
    requires Normalised(now) && Legal(Empty(now), run)
    ensures var fired := After(Empty(now), run).fired;
            && (forall i | 0 <= i < |fired| :: !Less(fired[i].at, fired[i].timer.expiry))
            && (forall i, j | 0 <= i < j < |fired| :: AtMost(fired[i].timer.expiry, fired[j].timer.expiry))
            && (forall i, j | 0 <= i < j < |fired| && !fired[i].timer.frequent :: fired[j].timer.id != fired[i].timer.id)
  {
    assert Empty(now) in Good();
    RunKeeps(Empty(now), run);
  }

  predicate Gone(q: Queue, id: int) {
    id < q.nextId && forall t | t in q.timers :: t.id != id
  }

  lemma GoneStep(q: Queue, step: Step, id: int)
    requires Enabled(q, step) && Gone(q, id)
    ensures Gone(Next(q, step), id)
    ensures forall i | |q.fired| <= i < |Next(q, step).fired| :: Next(q, step).fired[i].timer.id != id
    ensures q.fired <= Next(q, step).fired
  {
    if step.Process? {
      AddAllAdds(Fire(q, step.top, step.at), step.during);
    }
  }

  lemma {:induction false} GoneStaysGone(q: Queue, run: seq<Step>, id: int)
    requires Legal(q, run) && Gone(q, id)
    ensures q.fired <= After(q, run).fired
    ensures forall i | |q.fired| <= i < |After(q, run).fired| :: After(q, run).fired[i].timer.id != id
    decreases |run|
  {
    if run != [] {
      GoneStep(q, run[0], id);
      GoneStaysGone(Next(q, run[0]), run[1..], id);
    }
  }

  /** A timer that has been removed never runs again. */
  lemma RemovedNeverRuns(now: Time, before: seq<Step>, id: int, later: seq<Step>)
    requires Normalised(now) && Legal(Empty(now), before) && id < After(Empty(now), before).nextId
    requires Legal(Next(After(Empty(now), before), Remove(id)), later)
    ensures var q := After(Empty(now), before);
            var fired := After(Next(q, Remove(id)), later).fired;
            q.fired <= fired && forall i | |q.fired| <= i < |fired| :: fired[i].timer.id != id
  {
    GoneStaysGone(Next(After(Empty(now), before), Remove(id)), later, id);
  }

  /** In the queue, whatever its current expiry time. */
  ghost predicate Armed(q: Queue, t: Timer) {
    exists expiry :: t.(expiry := expiry) in q.timers
  }

  lemma ArmedStep(q: Queue, step: Step, t: Timer)
    requires q in Good() && Enabled(q, step) && Armed(q, t) && t.frequent && step != Remove(t.id)
    ensures Armed(Next(q, step), t)
  {
    var expiry :| t.(expiry := expiry) in q.timers;
    var u := t.(expiry := expiry);
    match step
    case Register(r) =>
      assert u in Next(q, step).timers;
    case Remove(id) =>
      assert u in Next(q, step).timers;
    case Process(top, at, during, after) =>
      AddAllAdds(Fire(q, top, at), during);
      if u == top {
        assert t.(expiry := Plus(after, top.interval)) in Next(q, step).timers;
      } else {
        assert u in Fire(q, top, at).timers;
        assert u in Next(q, step).timers;
      }
  }

  /** A frequent timer stays armed until it is removed, however often it has run. */
  lemma {:induction false} FrequentTimersStay(q: Queue, run: seq<Step>, t: Timer)
    requires q in Good() && Legal(q, run) && Armed(q, t) && t.frequent
    requires Remove(t.id) !in run
    ensures Armed(After(q, run), t)
    decreases |run|
  {
    if run != [] {
      ArmedStep(q, run[0], t);
      NextKeeps(q, run[0]);
      FrequentTimersStay(Next(q, run[0]), run[1..], t);
    }
  }
  // ------------------------------------------------------------- when it is due

  /** A timer that is registered after any run is due a delay after the clock reading, or an interval
      after it when the delay is below a second. */
  lemma FirstDue(now: Time, run: seq<Step>, r: Registration)
    requires Normalised(now) && Legal(Empty(now), run) && Proper(After(Empty(now), run), r)
    ensures var q := After(Empty(now), run);
            var q' := Next(q, Register(r));
            && q'.nextId == q.nextId + 1 && q'.now == r.at
            && (forall t | t in q'.timers :: t in q.timers || t.id == q.nextId)
            && exists t :: t in q'.timers && t.id == q.nextId && t.action == r.action && t.interval == r.interval
                           && t.frequent == r.frequent
                           && Nanos(t.expiry) == Nanos(r.at) + if Nanos(r.delay) < NANOSECONDS_OF_SECOND then Nanos(r.interval)
                                                               else Nanos(r.delay)
  {
    var q := After(Empty(now), run);
    var t := NewTimer(q.nextId, r.interval, r.action, r.frequent, r.delay, r.at);
    PlusIsExact(r.at, r.interval);
    PlusIsExact(r.at, r.delay);
    assert t in Next(q, Register(r)).timers;
  }

  /** A frequent timer that has run is due again an interval after the clock reading that follows its
      action; a timer to be called once is gone. */
  lemma NextDue(now: Time, run: seq<Step>, top: Timer, at: Time, during: seq<Registration>, after: Time)
    requires Normalised(now) && Legal(Empty(now), run) && Enabled(After(Empty(now), run), Process(top, at, during, after))
    ensures var q' := Next(After(Empty(now), run), Process(top, at, during, after));
            && (forall t | t in q'.timers && t.id == top.id ::
                  top.frequent && t.frequent && t.action == top.action && t.interval == top.interval
                  && Nanos(t.expiry) == Nanos(after) + Nanos(top.interval))
            && (top.frequent ==> exists t :: t in q'.timers && t.id == top.id)
  {
    var q := After(Empty(now), run);
    assert Empty(now) in Good();
    RunKeeps(Empty(now), run);
    NoneOfItsId(q, top, at);
    AddAllAdds(Fire(q, top, at), during);
    if top.frequent {
      ReadingsFollow(q, top, at, during, after);
      PlusIsExact(after, top.interval);
      assert top.(expiry := Plus(after, top.interval)) in Next(q, Process(top, at, during, after)).timers;
    }
  }

  lemma NoneOfItsId(q: Queue, top: Timer, at: Time)
    requires q in Good() && top in q.timers
    ensures top.id < q.nextId && Delay(top.interval) && forall t | t in Fire(q, top, at).timers :: t.id != top.id
  {
    assert q.timers[top] == 1;
  }

  lemma {:induction false} ReadingsGrow(q: Queue, rs: seq<Registration>)
    requires AllProper(q, rs) && Normalised(q.now)
    ensures Reading(q.now, AddAll(q, rs).now)
    decreases |rs|
  {
    if rs != [] {
      ReadingsGrow(Add(q, rs[0]), rs[1..]);
    }
  }

  lemma ReadingsFollow(q: Queue, top: Timer, at: Time, during: seq<Registration>, after: Time)
    requires Enabled(q, Process(top, at, during, after))
    ensures Normalised(after) && AtMost(at, after) && AtMost(q.now, at) && Normalised(at)
  {
    ReadingsGrow(Fire(q, top, at), during);
  }

  /** `b` comes an interval or more after `a`, if they are of one timer. */
  predicate Apart(a: Firing, b: Timer) {
    a.timer.id == b.id ==> b.interval == a.timer.interval && Nanos(b.expiry) >= Nanos(a.at) + Nanos(b.interval)
  }

  predicate Spaced(q: Queue) {
    && (forall i | 0 <= i < |q.fired| :: Nanos(q.fired[i].timer.expiry) <= Nanos(q.fired[i].at) <= Nanos(q.now))
    && (forall i, j | 0 <= i < j < |q.fired| :: Apart(q.fired[i], q.fired[j].timer))
    && (forall i, t | 0 <= i < |q.fired| && t in q.timers :: Apart(q.fired[i], t))
  }

  lemma AddSpaced(q: Queue, r: Registration)
    requires q in Good() && Spaced(q) && Proper(q, r)
    ensures Spaced(Add(q, r))
  {
    OrderIsExact(q.now, r.at);
  }

  lemma {:induction false} AddAllSpaced(q: Queue, rs: seq<Registration>)
    requires q in Good() && Spaced(q) && AllProper(q, rs)
    ensures Spaced(AddAll(q, rs))
    decreases |rs|
  {
    if rs != [] {
      AddKeeps(q, rs[0]);
      AddSpaced(q, rs[0]);
      AddAllSpaced(Add(q, rs[0]), rs[1..]);
    }
  }

  lemma FireSpaced(q: Queue, top: Timer, at: Time)
    requires q in Good() && Spaced(q) && top in q.timers && Reading(q.now, at) && !Less(at, top.expiry)
    ensures Spaced(Fire(q, top, at))
  {
    NoneOfItsId(q, top, at);
    OrderIsExact(q.now, at);
    OrderIsExact(at, top.expiry);
    hide Spaced, Good;
    JoinsFired(q, top, at);
  }

  lemma JoinsFired(q: Queue, top: Timer, at: Time)
    requires Spaced(q) && top in q.timers && Nanos(q.now) <= Nanos(at) && Nanos(top.expiry) <= Nanos(at)
    requires forall t | t in Fire(q, top, at).timers :: t.id != top.id
    ensures Spaced(Fire(q, top, at))
  {
    hide Apart;
    var q' := Fire(q, top, at);
    forall t | t in q'.timers
      ensures Apart(Firing(top, at), t)
    {
      OthersAreApart(Firing(top, at), t);
    }
  }

  lemma OthersAreApart(a: Firing, b: Timer)
    ensures a.timer.id != b.id ==> Apart(a, b)
  {
  }

  /** `top` was the last to be called of its id. */
  lemma FinishSpaced(q: Queue, top: Timer, after: Time)
    requires Spaced(q) && Reading(q.now, after) && Normalised(q.now) && Delay(top.interval)
    requires forall i | 0 <= i < |q.fired| && q.fired[i].timer.id == top.id :: q.fired[i].timer.interval == top.interval
    ensures Spaced(Finish(q, top, after))
  {
    OrderIsExact(q.now, after);
    PlusIsExact(after, top.interval);
  }

  lemma ProcessSpaced(q: Queue, top: Timer, at: Time, during: seq<Registration>, after: Time)
    requires q in Good() && Spaced(q) && Enabled(q, Process(top, at, during, after))
    ensures Spaced(Next(q, Process(top, at, during, after)))
  {
    var q1 := Fire(q, top, at);
    NoneOfItsId(q, top, at);
    FireKeeps(q, top, at);
    FireSpaced(q, top, at);
    AddAllKeeps(q1, during);
    AddAllSpaced(q1, during);
    AddAllAdds(q1, during);
    forall i | 0 <= i < |q1.fired| && q1.fired[i].timer.id == top.id
      ensures q1.fired[i].timer.interval == top.interval
    {
      assert i < |q.fired| ==> Apart(q.fired[i], top);
    }
    hide Spaced, AllProper;
    FinishSpaced(AddAll(q1, during), top, after);
  }

  lemma {:induction false} RunSpaced(q: Queue, run: seq<Step>)
    requires q in Good() && Spaced(q) && Legal(q, run)
    ensures Spaced(After(q, run))
    decreases |run|
  {
    if run != [] {
      match run[0] {
        case Register(r) => AddSpaced(q, r);
        case Remove(_) =>
        case Process(top, at, during, after) => ProcessSpaced(q, top, at, during, after);
      }
      NextKeeps(q, run[0]);
      RunSpaced(Next(q, run[0]), run[1..]);
    }
  }

  /** Over every run: two calls of one timer are an interval or more apart. */
  lemma FiringsAreSpaced(now: Time, run: seq<Step>, i: nat, j: nat)
    requires Normalised(now) && Legal(Empty(now), run)
    requires i < j < |After(Empty(now), run).fired|
    requires After(Empty(now), run).fired[i].timer.id == After(Empty(now), run).fired[j].timer.id
    ensures var fired := After(Empty(now), run).fired;
            && fired[j].timer.interval == fired[i].timer.interval
            && Nanos(fired[j].at) >= Nanos(fired[i].at) + Nanos(fired[i].timer.interval)
  {
    var q := After(Empty(now), run);
    assert Empty(now) in Good();
    RunKeeps(Empty(now), run);
    RunSpaced(Empty(now), run);
    assert Apart(q.fired[i], q.fired[j].timer);
  }
}
