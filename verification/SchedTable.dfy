/** The slot table of `sched.c` as its functions change it, each under the scheduler lock. */
module SchedTable {
  import opened Sched

  class Table {
    const threads: array<Thread>
    var cpus: seq<Cpu>

    ghost predicate Valid()
      reads this, threads
    {
      Shape(View())
    }

    ghost function View(): Machine
      reads this, threads
    {
      Machine(threads[..], cpus)
    }

    constructor (slots: array<Thread>, processors: seq<Cpu>)
      requires Shape(Machine(slots[..], processors))
      ensures Valid() && threads == slots && View() == Machine(slots[..], processors)
    {
      threads, cpus := slots, processors;
    }

    /** `next_runnable`: the slot, or -1. */
    method NextRunnable(after: nat, me: nat) returns (k: int)
      requires Valid() && after < threads.Length
      ensures var place := NextPlace(threads[..], after, me, 1);
              k == if place > threads.Length then -1 else Slot(after, place, threads.Length)
    {
      var n := threads.Length;
      var i := 1;
      while i <= n
        invariant 1 <= i <= n + 1 && NextPlace(threads[..], after, me, 1) == NextPlace(threads[..], after, me, i)
      {
        var t := threads[Slot(after, i, n)];
        if t.state == RUNNABLE && !(t.home >= 0 && t.home != me) { return Slot(after, i, n); }
        i := i + 1;
      }
      return -1;
    }

    /** Deadlines first. */
    method WakeExpired(now: nat)
      requires Valid()
      modifies threads
      ensures Valid() && threads[..] == Expire(old(threads[..]), now)
    {
      var i := 0;
      while i < threads.Length
        invariant i <= threads.Length
        invariant forall j :: 0 <= j < i ==> threads[j] == Expired(old(threads[..])[j], now)
        invariant forall j :: i <= j < threads.Length ==> threads[j] == old(threads[..])[j]
      {
        var t := threads[i];
        if t.state == BLOCKED && t.wakeAt != 0 && now >= t.wakeAt {
          threads[i] := t.(wakeAt := 0, state := RUNNABLE);
        }
        i := i + 1;
      }
      assert threads[..] == Expire(old(threads[..]), now);
    }

    /** `schedule_locked` on processor `c`. */
    method ScheduleLocked(c: nat, now: nat)
      requires Valid() && c < |cpus|
      modifies this, threads
      ensures Valid() && View() == Decide(old(View()), c, now)
    {
      hide Expire, NextPlace;
      WakeExpired(now);
      var prev := cpus[c].cur;
      var next := NextRunnable(prev, c);
      if next < 0 {
        if threads[prev].state == RUNNING { return; }
        next := cpus[c].idle;
        if next == prev { return; }
      }
      if next == prev { return; }
      if threads[prev].state == RUNNING { threads[prev] := threads[prev].(state := RUNNABLE); }
      threads[next] := threads[next].(state := RUNNING);
      cpus := cpus[c := cpus[c].(cur := next)];
    }

    /** The shape of the three ways to block: only a running thread may be put to sleep. */
    method BlockAs(c: nat, t: Thread, now: nat)
      requires Valid() && c < |cpus| && threads[cpus[c].cur].state == RUNNING
      modifies this, threads
      ensures Valid() && View() == Block(old(View()), c, t, now)
    {
      hide Decide;
      threads[cpus[c].cur] := t;
      assert View() == old(View()).(threads := old(View()).threads[old(cpus[c].cur) := t]);
      ScheduleLocked(c, now);
    }

    method BlockOnConsole(c: nat, now: nat)
      requires Valid() && c < |cpus|
      modifies this, threads
      ensures Valid()
      ensures View() == Block(old(View()), c,
          Asleep(Current(old(View()), c), CONSOLE, Current(old(View()), c).pipe, Current(old(View()), c).wakeAt), now)
    {
      hide Decide;
      var t := threads[cpus[c].cur];
      if t.state != RUNNING { return; }
      BlockAs(c, t.(reason := CONSOLE, state := BLOCKED), now);
    }

    method BlockOnPipe(c: nat, pipe: nat, now: nat)
      requires Valid() && c < |cpus|
      modifies this, threads
      ensures Valid() && View() == Block(old(View()), c, Asleep(Current(old(View()), c), PIPE, pipe, 0), now)
    {
      hide Decide;
      var t := threads[cpus[c].cur];
      if t.state != RUNNING { return; }
      BlockAs(c, t.(reason := PIPE, pipe := pipe, wakeAt := 0, state := BLOCKED), now);
    }

    method BlockOnPipeUntil(c: nat, pipe: nat, ticks: nat, asked: nat, now: nat)
      requires Valid() && c < |cpus|
      modifies this, threads
      ensures Valid()
      ensures View() == Block(old(View()), c,
          Asleep(Current(old(View()), c), PIPE, pipe, asked + if ticks != 0 then ticks else 1), now)
    {
      hide Decide;
      var t := threads[cpus[c].cur];
      if t.state != RUNNING { return; }
      BlockAs(c,
        t.(reason := PIPE, pipe := pipe, wakeAt := asked + (if ticks != 0 then ticks else 1), state := BLOCKED), now);
    }

    method WakeOnPipe(pipe: nat)
      requires Valid()
      modifies threads
      ensures Valid() && View() == Apply(old(View()), WakePipe(pipe))
    {
      var i := 0;
      while i < threads.Length
        invariant i <= threads.Length
        invariant forall j :: 0 <= j < i ==> threads[j] == WokenPipe(old(threads[..])[j], pipe)
        invariant forall j :: i <= j < threads.Length ==> threads[j] == old(threads[..])[j]
      {
        var t := threads[i];
        if t.state == BLOCKED && t.reason == PIPE && t.pipe == pipe {
          threads[i] := t.(wakeAt := 0, state := RUNNABLE);
        }
        i := i + 1;
      }
      assert threads[..] == Each(old(threads[..]), t => WokenPipe(t, pipe));
    }

    method WakeOnConsole()
      requires Valid()
      modifies threads
      ensures Valid() && View() == Apply(old(View()), WakeConsole)
    {
      var i := 0;
      while i < threads.Length
        invariant i <= threads.Length
        invariant forall j :: 0 <= j < i ==> threads[j] == WokenConsole(old(threads[..])[j])
        invariant forall j :: i <= j < threads.Length ==> threads[j] == old(threads[..])[j]
      {
        var t := threads[i];
        if t.state == BLOCKED && t.reason == CONSOLE { threads[i] := t.(state := RUNNABLE); }
        i := i + 1;
      }
      assert threads[..] == Each(old(threads[..]), t => WokenConsole(t));
    }

    /** `thread_signal`: how many it reached. */
    method SignalTo(pid: int, sig: nat) returns (reached: nat)
      requires Valid()
      modifies threads
      ensures Valid() && View() == Apply(old(View()), Signal(pid, sig))
      ensures reached == Reached(old(threads[..]), pid, |old(threads[..])|)
    {
      reached := 0;
      var i := 0;
      ghost var was := threads[..];
      while i < threads.Length
        invariant i <= threads.Length && |was| == threads.Length
        invariant forall j :: 0 <= j < i ==> threads[j] == Signalled(was[j], pid, sig)
        invariant forall j :: i <= j < threads.Length ==> threads[j] == was[j]
        invariant reached == Reached(was, pid, i)
      {
        reached := SignalOne(i, pid, sig, reached);
        i := i + 1;
      }
      assert threads[..] == Each(was, t => Signalled(t, pid, sig));
    }

    method SignalOne(i: nat, pid: int, sig: nat, reached: nat) returns (r: nat)
      requires i < threads.Length
      modifies threads
      ensures threads[i] == Signalled(old(threads[i]), pid, sig)
      ensures forall j :: 0 <= j < threads.Length && j != i ==> threads[j] == old(threads[j])
      ensures r == reached + if Addressed(old(threads[i]), pid) then 1 else 0
    {
      var t := threads[i];
      if t.state == FREE || t.state == ZOMBIE { return reached; }
      if (if pid < 0 then t.pgid != -pid else t.id != pid) { return reached; }
      threads[i] := t.(pending := t.pending + {sig}, state := if t.state == BLOCKED then RUNNABLE else t.state);
      return reached + 1;
    }
  }
}
