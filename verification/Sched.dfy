/** The scheduler of `sched.c` as a state machine: every step is one section under the
    scheduler lock on one processor, for a fixed set of threads. */
module Sched {
  import opened Bits

  datatype Status = RUNNABLE | ZOMBIE | BLOCKED | FREE | RUNNING

  datatype Reason = NONE | CHILD | CONSOLE | PIPE

  /** `home` is the only processor that may run the thread, or -1; `wakeAt` the tick at which
      it wakes by itself, or 0. */
  datatype Thread = Thread(
    state: Status, home: int, reason: Reason, pipe: nat, wakeAt: nat, id: int, pgid: int, pending: set<nat>)

  /** `cur` and `idle` of each processor, as slots. */
  datatype Cpu = Cpu(cur: nat, idle: nat)

  datatype Machine = Machine(threads: seq<Thread>, cpus: seq<Cpu>)

  // ---- choosing ----

  predicate Eligible(t: Thread, me: nat)
  {
    t.state == RUNNABLE && (t.home >= 0 ==> t.home == me)
  }

  /** The slot `i` places after `start`, round the table. */
  function Slot(start: nat, i: nat, n: nat): (k: nat)
    requires n > 0
    ensures k < n
  {
    (start + i) % n
  }

  /** How many places after `start` the next thread for this processor is, looking from the
      `i`-th on; more than `n` if there is none. */
  function NextPlace(ts: seq<Thread>, start: nat, me: nat, i: nat): (r: nat)
    requires |ts| > 0
    ensures i <= r && (i <= |ts| + 1 ==> r <= |ts| + 1)
    decreases |ts| + 1 - i
  {
    if i > |ts| || Eligible(ts[Slot(start, i, |ts|)], me) then i else NextPlace(ts, start, me, i + 1)
  }

  /** It is eligible, and nobody nearer is. */
  lemma {:induction false} NextPlaceIs(ts: seq<Thread>, start: nat, me: nat, i: nat)
    requires |ts| > 0
    ensures var r := NextPlace(ts, start, me, i);
            (r <= |ts| ==> Eligible(ts[Slot(start, r, |ts|)], me))
            && forall j :: i <= j < r && j <= |ts| ==> !Eligible(ts[Slot(start, j, |ts|)], me)
    decreases |ts| + 1 - i
  {
    if !(i > |ts| || Eligible(ts[Slot(start, i, |ts|)], me)) { NextPlaceIs(ts, start, me, i + 1); }
  }

  // ---- steps ----

  /** Anyone whose sleep has run out. */
  function Expired(t: Thread, now: nat): Thread
  {
    if t.state == BLOCKED && t.wakeAt != 0 && now >= t.wakeAt then t.(wakeAt := 0, state := RUNNABLE) else t
  }

  function Expire(ts: seq<Thread>, now: nat): (r: seq<Thread>)
    ensures |r| == |ts| && forall i :: 0 <= i < |ts| ==> r[i] == Expired(ts[i], now)
  {
    seq(|ts|, i requires 0 <= i < |ts| => Expired(ts[i], now))
  }

  /** The processor leaves one thread for another. */
  function Switched(m: Machine, c: nat, next: nat): (r: Machine)
    requires c < |m.cpus| && m.cpus[c].cur < |m.threads| && next < |m.threads|
    ensures |r.threads| == |m.threads| && |r.cpus| == |m.cpus|
  {
    var prev := m.cpus[c].cur;
    var ts := m.threads;
    var ts1 := if ts[prev].state == RUNNING then ts[prev := ts[prev].(state := RUNNABLE)] else ts;
    Machine(ts1[next := ts1[next].(state := RUNNING)], m.cpus[c := m.cpus[c].(cur := next)])
  }

  ghost predicate Shape(m: Machine)
  {
    |m.threads| > 0 && forall c :: 0 <= c < |m.cpus| ==> m.cpus[c].cur < |m.threads| && m.cpus[c].idle < |m.threads|
  }

  /** `schedule_locked` on processor `c` at tick `now`. */
  function Decide(m: Machine, c: nat, now: nat): (r: Machine)
    requires Shape(m) && c < |m.cpus|
    ensures |r.threads| == |m.threads| && |r.cpus| == |m.cpus|
  {
    var e := m.(threads := Expire(m.threads, now));
    var n := |e.threads|;
    var prev := e.cpus[c].cur;
    var place := NextPlace(e.threads, prev, c, 1);
    if place > n then
      if e.threads[prev].state == RUNNING || e.cpus[c].idle == prev then e else Switched(e, c, e.cpus[c].idle)
    else
      var next := Slot(prev, place, n);
      if next == prev then e else Switched(e, c, next)
  }

  /** The current thread says what it waits for; not if it is not running. */
  function Asleep(t: Thread, reason: Reason, pipe: nat, wakeAt: nat): Thread
  {
    t.(state := BLOCKED, reason := reason, pipe := pipe, wakeAt := wakeAt)
  }

  function Block(m: Machine, c: nat, t: Thread, now: nat): (r: Machine)
    requires Shape(m) && c < |m.cpus|
    ensures |r.threads| == |m.threads| && |r.cpus| == |m.cpus|
  {
    var prev := m.cpus[c].cur;
    if m.threads[prev].state != RUNNING then m else Decide(m.(threads := m.threads[prev := t]), c, now)
  }

  function WokenPipe(t: Thread, pipe: nat): Thread
  {
    if t.state == BLOCKED && t.reason == PIPE && t.pipe == pipe then t.(wakeAt := 0, state := RUNNABLE) else t
  }

  function WokenConsole(t: Thread): Thread
  {
    if t.state == BLOCKED && t.reason == CONSOLE then t.(state := RUNNABLE) else t
  }

  predicate Addressed(t: Thread, pid: int)
  {
    t.state != FREE && t.state != ZOMBIE && if pid < 0 then t.pgid == -pid else t.id == pid
  }

  function Signalled(t: Thread, pid: int, sig: nat): Thread
  {
    if !Addressed(t, pid) then t
        else t.(pending := t.pending + {sig}, state := if t.state == BLOCKED then RUNNABLE else t.state)
  }

  /** How many of the first `k` threads a signal is for. */
  function Reached(ts: seq<Thread>, pid: int, k: nat): nat
    requires k <= |ts|
  {
    if k == 0 then 0 else Reached(ts, pid, k - 1) + if Addressed(ts[k - 1], pid) then 1 else 0
  }

  function Each(ts: seq<Thread>, f: Thread -> Thread): (r: seq<Thread>)
    ensures |r| == |ts| && forall i :: 0 <= i < |ts| ==> r[i] == f(ts[i])
  {
    seq(|ts|, i requires 0 <= i < |ts| => f(ts[i]))
  }

  /** What happens under the lock, and on which processor. Ticks are whatever the timer says
      when the deadlines are looked at. */
  datatype Step =
    | Schedule(cpu: nat, now: nat)
    | BlockConsole(cpu: nat, now: nat)
    | BlockChild(cpu: nat, now: nat)
    | BlockPipe(cpu: nat, pipe: nat, now: nat)
    | BlockPipeUntil(cpu: nat, pipe: nat, ticks: nat, asked: nat, now: nat)
    | WakePipe(pipe: nat)
    | WakeConsole
    | Signal(pid: int, sig: nat)

  /** The processor a step is taken on, if it matters. */
  function Where(st: Step): int
  {
    if st.WakePipe? || st.WakeConsole? || st.Signal? then -1 else st.cpu
  }

  /** Idle threads only ever schedule: their loop has nothing that blocks. */
  predicate Possible(m: Machine, st: Step)
  {
    (Where(st) >= 0 ==> Where(st) < |m.cpus|)
    && (st.BlockConsole? || st.BlockChild? || st.BlockPipe? || st.BlockPipeUntil? ==>
        m.cpus[st.cpu].cur != m.cpus[st.cpu].idle)
  }

  function Current(m: Machine, c: nat): Thread
    requires Shape(m) && c < |m.cpus|
  {
    m.threads[m.cpus[c].cur]
  }

  function Apply(m: Machine, st: Step): (r: Machine)
    requires Shape(m) && Possible(m, st)
    ensures |r.threads| == |m.threads| && |r.cpus| == |m.cpus|
  {
    match st
    case Schedule(c, now) => Decide(m, c, now)
    case BlockConsole(c, now) =>
        Block(m, c, Asleep(Current(m, c), CONSOLE, Current(m, c).pipe, Current(m, c).wakeAt), now)
    case BlockChild(c, now) => Block(m, c, Asleep(Current(m, c), CHILD, Current(m, c).pipe, Current(m, c).wakeAt), now)
    case BlockPipe(c, pipe, now) => Block(m, c, Asleep(Current(m, c), PIPE, pipe, 0), now)
    case BlockPipeUntil(c, pipe, ticks, asked, now) =>
        Block(m, c, Asleep(Current(m, c), PIPE, pipe, asked + if ticks != 0 then ticks else 1), now)
    case WakePipe(pipe) => m.(threads := Each(m.threads, t => WokenPipe(t, pipe)))
    case WakeConsole => m.(threads := Each(m.threads, t => WokenConsole(t)))
    case Signal(pid, sig) => m.(threads := Each(m.threads, t => Signalled(t, pid, sig)))
  }

  // ---- the invariant ----

  /** Some processor is on thread `t`. */
  ghost predicate OnCpu(m: Machine, t: nat)
  {
    exists c :: 0 <= c < |m.cpus| && m.cpus[c].cur == t
  }

  /** No thread is current on two processors. */
  ghost predicate Apart(m: Machine)
  {
    forall c, e :: 0 <= c < e < |m.cpus| ==> m.cpus[c].cur != m.cpus[e].cur
  }

  /** Each processor has its own idler, and only idlers have a home. */
  ghost predicate Homes(m: Machine)
    requires Shape(m)
  {
    (forall c :: 0 <= c < |m.cpus| ==> m.threads[m.cpus[c].idle].home == c)
    && (forall t :: 0 <= t < |m.threads| && m.threads[t].home >= 0 ==>
        m.threads[t].home < |m.cpus| && m.cpus[m.threads[t].home].idle == t)
  }

  /** A thread is RUNNING exactly when a processor is on it. */
  ghost predicate RunningIff(m: Machine)
    requires Shape(m)
  {
    forall t :: 0 <= t < |m.threads| ==> (m.threads[t].state == RUNNING <==> OnCpu(m, t))
  }

  /** Idlers run at home, and are always ready. */
  ghost predicate Idlers(m: Machine)
    requires Shape(m)
  {
    (forall c :: 0 <= c < |m.cpus| ==> m.threads[m.cpus[c].cur].home < 0 || m.threads[m.cpus[c].cur].home == c)
    && (forall c :: 0 <= c < |m.cpus| ==>
        m.threads[m.cpus[c].idle].state == RUNNABLE || m.cpus[c].cur == m.cpus[c].idle)
  }

  ghost predicate Inv(m: Machine)
  {
    Shape(m) && Apart(m) && Homes(m) && RunningIff(m) && Idlers(m)
  }

  // ---- waking ----

  /** Threads may be woken, and nothing else about who runs where. */
  ghost predicate Woken(m: Machine, n: Machine)
  {
    n.cpus == m.cpus && |n.threads| == |m.threads|
    && forall t :: 0 <= t < |m.threads| ==>
      n.threads[t].home == m.threads[t].home
      && (n.threads[t].state == m.threads[t].state || (m.threads[t].state == BLOCKED && n.threads[t].state == RUNNABLE))
  }

  lemma {:induction false} WokenInv(m: Machine, n: Machine)
    requires Inv(m) && Woken(m, n)
    ensures Inv(n)
  {
    assert forall t :: OnCpu(n, t) <==> OnCpu(m, t);
    hide OnCpu;
  }

  lemma {:induction false} ExpireWakes(m: Machine, now: nat)
    ensures Woken(m, m.(threads := Expire(m.threads, now)))
  {
  }

  // ---- switching ----

  /** What holds inside a scheduling section: the invariant, but that the current thread of
      `c` may have stopped running. */
  ghost predicate Inside(m: Machine, c: nat)
  {
    Shape(m) && c < |m.cpus| && Apart(m) && Homes(m)
    && (forall t :: 0 <= t < |m.threads| && t != m.cpus[c].cur ==> (m.threads[t].state == RUNNING <==> OnCpu(m, t)))
    && Idlers(m)
    && (m.threads[m.cpus[c].cur].state != RUNNING ==> m.cpus[c].cur != m.cpus[c].idle)
  }

  lemma {:induction false} WokenInside(m: Machine, n: Machine, c: nat)
    requires Inside(m, c) && Woken(m, n)
    ensures Inside(n, c)
  {
    assert forall t :: OnCpu(n, t) <==> OnCpu(m, t);
    hide OnCpu;
  }

  /** While the current thread is not running, its processor's idler is there to be chosen:
      the search finds it or somebody nearer, and never comes round to the current thread. */
  lemma {:induction false} IdlerFound(m: Machine, c: nat)
    requires Inside(m, c) && m.threads[m.cpus[c].cur].state != RUNNING
    ensures var n := |m.threads|; var prev := m.cpus[c].cur; var place := NextPlace(m.threads, prev, c, 1);
            place < n && Slot(prev, place, n) != prev && Eligible(m.threads[Slot(prev, place, n)], c)
  {
    hide OnCpu, NextPlace;
    var n, prev, idle := |m.threads|, m.cpus[c].cur, m.cpus[c].idle;
    assert idle != prev && Eligible(m.threads[idle], c);
    var d := Dist(prev, idle, n);
    Reaches(prev, idle, n);
    NextPlaceIs(m.threads, prev, c, 1);
    var place := NextPlace(m.threads, prev, c, 1);
    assert place <= d;
    NotBack(prev, place, n);
  }

  lemma {:induction false} Wrap(x: nat, n: nat)
    requires n > 0 && x < 2 * n
    ensures x % n == if x < n then x else x - n
  {
    if x < n { DivUnique(x, n, 0, x); } else { DivUnique(x, n, 1, x - n); }
  }

  /** How many places after slot `a` slot `b` comes, from 1 to `n`. */
  function Dist(a: nat, b: nat, n: nat): (d: nat)
    requires a < n && b < n
    ensures 1 <= d <= n
  {
    if b > a then b - a else b + n - a
  }

  /** Going the cyclic distance from one slot reaches the other. */
  lemma {:induction false} Reaches(a: nat, b: nat, n: nat)
    requires a < n && b < n
    ensures Slot(a, Dist(a, b, n), n) == b
  {
    Wrap(a + Dist(a, b, n), n);
  }

  lemma {:induction false} NotBack(a: nat, i: nat, n: nat)
    requires a < n && 0 < i < n
    ensures Slot(a, i, n) != a
  {
    Wrap(a + i, n);
  }

  /** A runnable thread is on no processor. */
  lemma {:induction false} SwitchedInv(m: Machine, c: nat, next: nat)
    requires Inside(m, c) && next < |m.threads| && next != m.cpus[c].cur && Eligible(m.threads[next], c)
    ensures Inv(Switched(m, c, next))
  {
    var n := Switched(m, c, next);
    var prev := m.cpus[c].cur;
    assert !OnCpu(m, next);
    forall t | 0 <= t < |m.threads| ensures n.threads[t].state == RUNNING <==> OnCpu(n, t) {
      SwitchedOn(m, c, next, t);
      assert t != prev ==> (m.threads[t].state == RUNNING <==> OnCpu(m, t));
    }
    hide OnCpu;
  }

  lemma {:induction false} SwitchedOn(m: Machine, c: nat, next: nat, t: nat)
    requires Shape(m) && c < |m.cpus| && next < |m.threads| && t < |m.threads| && next != m.cpus[c].cur && Apart(m)
    ensures OnCpu(Switched(m, c, next), t) <==> t == next || (t != m.cpus[c].cur && OnCpu(m, t))
  {
    var n := Switched(m, c, next);
    assert n.cpus[c].cur == next;
    if t != m.cpus[c].cur && OnCpu(m, t) {
      var e :| 0 <= e < |m.cpus| && m.cpus[e].cur == t;
      assert n.cpus[e].cur == t;
    }
  }

  /** A scheduling decision restores the invariant, whatever state the current thread was put
      in: it does not return into a thread that is not running. */
  lemma {:induction false} DecideInv(m: Machine, c: nat, now: nat)
    requires Inside(m, c)
    ensures Inv(Decide(m, c, now))
  {
    var e := m.(threads := Expire(m.threads, now));
    ExpireWakes(m, now);
    WokenInside(m, e, c);
    hide Expire, OnCpu;
    var n, prev := |e.threads|, e.cpus[c].cur;
    var place := NextPlace(e.threads, prev, c, 1);
    NextPlaceIs(e.threads, prev, c, 1);
    if e.threads[prev].state != RUNNING {
      IdlerFound(e, c);
      SwitchedInv(e, c, Slot(prev, place, n));
    } else {
      StillInv(e, c);
      if place <= n && Slot(prev, place, n) != prev { SwitchedInv(e, c, Slot(prev, place, n)); }
    }
  }

  lemma {:induction false} StillInv(m: Machine, c: nat)
    requires Inside(m, c) && m.threads[m.cpus[c].cur].state == RUNNING
    ensures Inv(m)
  {
    assert OnCpu(m, m.cpus[c].cur);
    hide OnCpu;
  }

  lemma {:induction false} InvInside(m: Machine, c: nat)
    requires Inv(m) && c < |m.cpus|
    ensures Inside(m, c) && m.threads[m.cpus[c].cur].state == RUNNING
  {
    assert OnCpu(m, m.cpus[c].cur);
    hide OnCpu;
  }

  lemma {:induction false} BlockInv(m: Machine, c: nat, t: Thread, now: nat)
    requires Inv(m) && c < |m.cpus| && m.cpus[c].cur != m.cpus[c].idle && t.state == BLOCKED
    requires t.home == m.threads[m.cpus[c].cur].home
    ensures Inv(Block(m, c, t, now))
  {
    InvInside(m, c);
    var n := m.(threads := m.threads[m.cpus[c].cur := t]);
    assert forall k :: OnCpu(n, k) <==> OnCpu(m, k);
    hide OnCpu;
    assert Inside(n, c);
    DecideInv(n, c, now);
  }

  /** Every step keeps it: a thread runs on at most one processor, and exactly those that a
      processor is on are RUNNING. */
  lemma {:induction false} ApplyInv(m: Machine, st: Step)
    requires Inv(m) && Possible(m, st)
    ensures Inv(Apply(m, st))
  {
    hide Apart, Homes, RunningIff, Idlers, Decide, Inside, Block;
    match st
    case Schedule(c, now) =>
      InvInside(m, c);
      DecideInv(m, c, now);
    case BlockConsole(c, now) =>
        BlockInv(m, c, Asleep(Current(m, c), CONSOLE, Current(m, c).pipe, Current(m, c).wakeAt), now);
    case BlockChild(c, now) =>
        BlockInv(m, c, Asleep(Current(m, c), CHILD, Current(m, c).pipe, Current(m, c).wakeAt), now);
    case BlockPipe(c, pipe, now) => BlockInv(m, c, Asleep(Current(m, c), PIPE, pipe, 0), now);
    case BlockPipeUntil(c, pipe, ticks, asked, now) =>
      BlockInv(m, c, Asleep(Current(m, c), PIPE, pipe, asked + if ticks != 0 then ticks else 1), now);
    case WakePipe(_) => WokenInv(m, Apply(m, st));
    case WakeConsole => WokenInv(m, Apply(m, st));
    case Signal(_, _) => WokenInv(m, Apply(m, st));
  }

  // ---- every run ----

  /** A run: each step is possible when it is taken. */
  ghost predicate IsRun(ms: seq<Machine>, sts: seq<Step>)
  {
    |ms| == |sts| + 1 && forall i {:trigger sts[i]} :: 0 <= i < |sts| ==>
        Shape(ms[i]) && Possible(ms[i], sts[i]) && ms[i + 1] == Apply(ms[i], sts[i])
  }

  /** Over every run from a state that has it, a thread is RUNNING exactly when it is current
      on exactly one processor, and idlers run only at home. */
  lemma {:induction false} Exclusion(ms: seq<Machine>, sts: seq<Step>, k: nat)
    requires IsRun(ms, sts) && Inv(ms[0]) && k < |ms|
    ensures Inv(ms[k]) && |ms[k].threads| == |ms[0].threads| && |ms[k].cpus| == |ms[0].cpus|
    decreases k
  {
    hide Inv, Apply;
    if k > 0 {
      Exclusion(ms, sts, k - 1);
      var st := sts[k - 1];
      ApplyInv(ms[k - 1], st);
    }
  }

  // ---- bounded waiting ----

  /** A thread that processor `c` may run, from where `c` is now. */
  ghost predicate Waiting(m: Machine, t: nat, c: nat)
  {
    Inv(m) && c < |m.cpus| && t < |m.threads| && Eligible(m.threads[t], c)
  }

  ghost function Ahead(m: Machine, t: nat, c: nat): nat
    requires Shape(m) && c < |m.cpus| && t < |m.threads|
  {
    Dist(m.cpus[c].cur, t, |m.threads|)
  }

  /** The search stops no later than at an eligible thread. */
  lemma {:induction false} FoundBy(ts: seq<Thread>, prev: nat, c: nat, t: nat)
    requires prev < |ts| && t < |ts| && Eligible(ts[t], c)
    ensures NextPlace(ts, prev, c, 1) <= Dist(prev, t, |ts|)
  {
    hide NextPlace;
    Reaches(prev, t, |ts|);
    NextPlaceIs(ts, prev, c, 1);
  }

  /** Nearer by the places passed. */
  lemma {:induction false} Nearer(a: nat, t: nat, place: nat, n: nat)
    requires a < n && t < n && 1 <= place < Dist(a, t, n)
    ensures Dist(Slot(a, place, n), t, n) == Dist(a, t, n) - place && Slot(a, place, n) != t
  {
    Wrap(a + place, n);
  }

  /** At each decision of its processor a waiting thread is chosen, or comes strictly nearer
      while it goes on waiting. */
  lemma {:induction false} DecideNearer(m: Machine, c: nat, now: nat, t: nat)
    requires Inside(m, c) && t < |m.threads| && Eligible(m.threads[t], c) && t != m.cpus[c].cur
    ensures var n := Decide(m, c, now);
            |n.threads| == |m.threads| && |n.cpus| == |m.cpus|
            && (n.cpus[c].cur == t
                || (Eligible(n.threads[t], c) && n.cpus[c].cur < |m.threads|
                    && Dist(n.cpus[c].cur, t, |m.threads|) < Dist(m.cpus[c].cur, t, |m.threads|)))
  {
    hide OnCpu, NextPlace, Apart, Homes, Idlers;
    var e := m.(threads := Expire(m.threads, now));
    var k, prev := |e.threads|, e.cpus[c].cur;
    FoundBy(e.threads, prev, c, t);
    var place := NextPlace(e.threads, prev, c, 1);
    assert place <= Dist(prev, t, k) < k by { Short(prev, t, k); }
    NotBack(prev, place, k);
    if place < Dist(prev, t, k) { Nearer(prev, t, place, k); } else { Reaches(prev, t, k); }
  }

  lemma {:induction false} Short(a: nat, t: nat, n: nat)
    requires a < n && t < n && a != t
    ensures Dist(a, t, n) < n
  {
  }

  /** What any step does for a thread that waits for processor `c`: somebody takes it, or it
      waits on, strictly nearer if the step was a decision of `c`. */
  lemma {:induction false} StepNearer(m: Machine, st: Step, t: nat, c: nat)
    requires Waiting(m, t, c) && Possible(m, st)
    ensures var n := Apply(m, st);
            Shape(n) && |n.cpus| == |m.cpus| && |n.threads| == |m.threads|
            && (n.threads[t].state == RUNNING
                || (Waiting(n, t, c) && Ahead(n, t, c) + (if Where(st) == c then 1 else 0) <= Ahead(m, t, c)))
  {
    ApplyInv(m, st);
    hide Apart, Homes, RunningIff, Idlers, Decide, Block, Inside, NextPlace;
    var n := Apply(m, st);
    if Where(st) >= 0 {
      SectionNearer(m, st, t, c);
    }
  }

  /** A runnable thread is not current anywhere. */
  lemma {:induction false} NotCurrent(m: Machine, t: nat, e: nat)
    requires Inv(m) && e < |m.cpus| && t < |m.threads| && m.threads[t].state == RUNNABLE
    ensures m.cpus[e].cur != t
  {
    InvInside(m, e);
  }

  /** The state in which a section's decision is taken. */
  ghost predicate Enters(m: Machine, st: Step, e: Machine, now: nat)
    requires Shape(m) && Possible(m, st) && Where(st) >= 0
  {
    Inside(e, Where(st)) && e.cpus == m.cpus && |e.threads| == |m.threads| && Apply(m, st) == Decide(e, Where(st), now)
    && forall k :: 0 <= k < |m.threads| && k != m.cpus[Where(st)].cur ==> e.threads[k] == m.threads[k]
  }

  lemma {:induction false} BlockEnters(m: Machine, c: nat, t: Thread, now: nat) returns (e: Machine)
    requires Inv(m) && c < |m.cpus| && m.cpus[c].cur != m.cpus[c].idle && t.state == BLOCKED
    requires t.home == m.threads[m.cpus[c].cur].home
    ensures Inside(e, c) && e.cpus == m.cpus && |e.threads| == |m.threads| && Block(m, c, t, now) == Decide(e, c, now)
    ensures forall k :: 0 <= k < |m.threads| && k != m.cpus[c].cur ==> e.threads[k] == m.threads[k]
  {
    InvInside(m, c);
    e := m.(threads := m.threads[m.cpus[c].cur := t]);
    assert forall k :: OnCpu(e, k) <==> OnCpu(m, k);
    hide OnCpu, Decide;
  }

  lemma {:induction false} SectionEnters(m: Machine, st: Step) returns (e: Machine, now: nat)
    requires Inv(m) && Possible(m, st) && Where(st) >= 0
    ensures Enters(m, st, e, now)
  {
    hide Apart, Homes, RunningIff, Idlers, Decide, Block, Inside;
    now := st.now;
    match st
    case Schedule(c, _) =>
      InvInside(m, c);
      e := m;
    case BlockConsole(c, _) =>
        e := BlockEnters(m, c, Asleep(Current(m, c), CONSOLE, Current(m, c).pipe, Current(m, c).wakeAt), now);
    case BlockChild(c, _) => e :=
        BlockEnters(m, c, Asleep(Current(m, c), CHILD, Current(m, c).pipe, Current(m, c).wakeAt), now);
    case BlockPipe(c, pipe, _) => e := BlockEnters(m, c, Asleep(Current(m, c), PIPE, pipe, 0), now);
    case BlockPipeUntil(c, pipe, ticks, asked, _) =>
      e := BlockEnters(m, c, Asleep(Current(m, c), PIPE, pipe, asked + if ticks != 0 then ticks else 1), now);
  }

  /** Decisions elsewhere: the thread is taken or left alone. */
  lemma {:induction false} DecideElsewhere(m: Machine, e: nat, now: nat, t: nat, c: nat)
    requires Inside(m, e) && t < |m.threads| && m.threads[t].state == RUNNABLE && t != m.cpus[e].cur && c < |m.cpus|
    requires c != e
    ensures var n := Decide(m, e, now);
            |n.threads| == |m.threads| && |n.cpus| == |m.cpus| && n.cpus[c] == m.cpus[c]
            && (n.threads[t].state == RUNNING || n.threads[t] == m.threads[t])
  {
    hide OnCpu, NextPlace, Apart, Homes, Idlers;
  }

  lemma {:induction false} SectionNearer(m: Machine, st: Step, t: nat, c: nat)
    requires Waiting(m, t, c) && Possible(m, st) && Where(st) >= 0 && Inv(Apply(m, st))
    ensures var n := Apply(m, st);
            |n.cpus| == |m.cpus| && |n.threads| == |m.threads|
            && (n.threads[t].state == RUNNING
                || (Waiting(n, t, c) && Ahead(n, t, c) + (if Where(st) == c then 1 else 0) <= Ahead(m, t, c)))
  {
    hide Apart, Homes, RunningIff, Idlers, Decide, Apply, NextPlace;
    var e, now := SectionEnters(m, st);
    NotCurrent(m, t, Where(st));
    var n := Apply(m, st);
    if Where(st) == c {
      DecideNearer(e, c, now, t);
      if n.cpus[c].cur == t { InvInside(n, c); }
    } else {
      DecideElsewhere(e, Where(st), now, t, c);
    }
  }

  /** The decisions of processor `c` among the first `k` steps. */
  function Decisions(sts: seq<Step>, c: nat, k: nat): nat
    requires k <= |sts|
  {
    if k == 0 then 0 else Decisions(sts, c, k - 1) + if Where(sts[k - 1]) == c then 1 else 0
  }

  /** While a thread waits for processor `c` and nobody takes it, each decision of `c` brings
      it nearer. */
  lemma {:induction false} WaitShrinks(ms: seq<Machine>, sts: seq<Step>, t: nat, c: nat, k: nat)
    requires IsRun(ms, sts) && k <= |sts| && Waiting(ms[0], t, c)
    requires forall i :: 0 <= i <= k ==> t < |ms[i].threads| && ms[i].threads[t].state != RUNNING
    ensures Waiting(ms[k], t, c) && |ms[k].threads| == |ms[0].threads|
    ensures Ahead(ms[k], t, c) + Decisions(sts, c, k) <= Ahead(ms[0], t, c)
    decreases k
  {
    hide Apart, Homes, RunningIff, Idlers, Apply;
    if k > 0 {
      WaitShrinks(ms, sts, t, c, k - 1);
      var st := sts[k - 1];
      StepNearer(ms[k - 1], st, t, c);
    }
  }

  /** Round robin: a runnable thread that processor `c` may run is running somewhere before `c`
      has taken as many scheduling decisions as there are slots. */
  lemma {:induction false} BoundedWaiting(ms: seq<Machine>, sts: seq<Step>, t: nat, c: nat)
    requires IsRun(ms, sts) && Waiting(ms[0], t, c) && Decisions(sts, c, |sts|) >= |ms[0].threads|
    ensures exists i :: 0 <= i <= |sts| && t < |ms[i].threads| && ms[i].threads[t].state == RUNNING
  {
    hide Apart, Homes, RunningIff, Idlers, Apply;
    forall i | 0 <= i < |ms| ensures |ms[i].threads| == |ms[0].threads| { Exclusion(ms, sts, i); }
    if forall i :: 0 <= i <= |sts| ==> ms[i].threads[t].state != RUNNING {
      WaitShrinks(ms, sts, t, c, |sts|);
      assert false;
    }
  }
}
