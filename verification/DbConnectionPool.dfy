/**
  The connection pool as the program keeps it: the queue and the flag are fields, and
  each method is one critical section, proved to be the step it stands for.
 */
module DbConnectionPoolObject {
  import opened DbConnectionPoolModel

  /** How a pass of getConnection through its mutex ends. */
  datatype Outcome = Threw | Waits | Took(conn: Conn)

  /** How the check outside the lock ends. */
  datatype Check = Passes | Throws

  class DbConnectionPool {
    var connections: seq<Conn>
    var initialized: bool
    ghost var blocked: set<Thread>
    ghost var notified: set<Thread>
    ghost var checking: map<Thread, Conn>
    ghost var failing: set<Thread>
    ghost var handles: map<Handle, Conn>
    ghost var all: set<Conn>

    ghost function View(): State
      reads this
    {
      State(connections, initialized, blocked, notified, checking, failing, handles, all)
    }

    constructor ()
      ensures View() == FRESH && Invariant(View())
    {
      connections, initialized := [], false;
      blocked, notified, checking, failing, handles, all := {}, {}, map[], {}, map[], {};
    }

    /** Pushes one new connection after the other; `completes` is false when the
        constructor of the next one throws, which leaves the flag unset. */
    method Init(created: seq<Conn>, completes: bool)
      requires Enabled(View(), Step.Init(created, completes))
      modifies this
      ensures View() == Next(old(View()), Step.Init(created, completes))
      ensures initialized <==> old(initialized) || completes
      ensures connections == old(connections) + if old(initialized) then [] else created
    {
      if initialized {
        return;
      }
      for i := 0 to |created|
        invariant connections == old(connections) + created[..i]
        invariant all == old(all) + set c | c in created[..i]
        invariant View() == old(View()).(queue := connections, all := all)
      {
        connections := connections + [created[i]];
        all := all + {created[i]};
        assert created[..i + 1] == created[..i] + [created[i]];
      }
      assert created[..|created|] == created;
      if completes {
        initialized := true;
      }
    }

    /** The test of the wait loop, for a caller that holds the mutex. */
    method TakeOrWait(ghost t: Thread) returns (outcome: Outcome)
      modifies this
      ensures View() == Test(old(View()), t)
      ensures outcome.Took? <==> old(connections) != []
      ensures outcome.Took? ==> outcome.conn == old(connections)[0]
      ensures outcome.Threw? <==> old(connections) == [] && !old(initialized)
    {
      if connections == [] {
        if !initialized {
          return Threw;
        }
        blocked := blocked + {t};
        return Waits;
      }
      var conn := connections[0];
      connections := connections[1..];
      checking := checking[t := conn];
      return Took(conn);
    }

    method GetConnection(ghost t: Thread) returns (outcome: Outcome)
      requires Enabled(View(), Enter(t))
      modifies this
      ensures View() == Next(old(View()), Enter(t))
      ensures outcome ==
                if old(connections) != [] then Took(old(connections)[0]) else if old(initialized) then Waits else Threw
      ensures Invariant(old(View())) ==> Invariant(View())
    {
      if Invariant(View()) { StepKeeps(View(), Enter(t)); }
      outcome := TakeOrWait(t);
    }

    /** A waiter is back under the mutex and tests the queue again. */
    method WakeUp(ghost t: Thread) returns (outcome: Outcome)
      requires Enabled(View(), Resume(t))
      modifies this
      ensures View() == Next(old(View()), Resume(t))
      ensures outcome ==
                if old(connections) != [] then Took(old(connections)[0]) else if old(initialized) then Waits else Threw
      ensures Invariant(old(View())) ==> Invariant(View()) && !outcome.Threw?
    {
      if Invariant(View()) { StepKeeps(View(), Resume(t)); }
      notified := notified - {t};
      outcome := TakeOrWait(t);
    }

    /** The ping, or the reconnect after it, went well: the caller gets its handle. */
    method HandOut(ghost t: Thread, ghost h: Handle)
      requires Enabled(View(), CheckPasses(t, h))
      modifies this
      ensures View() == Next(old(View()), CheckPasses(t, h))
    {
      handles := handles[h := checking[t]];
      checking := checking - {t};
    }

    /** Pushes a connection back under the mutex and notifies one waiter. */
    method PushBack(conn: Conn, ghost wake: Wake)
      modifies `connections, `blocked, `notified
      ensures View() == PushAndNotify(old(View()), conn, wake)
    {
      connections := connections + [conn];
      if wake.Somebody? {
        blocked, notified := blocked - {wake.thread}, notified + {wake.thread};
      }
    }

    /** The catch block: the connection goes back before the exception goes on. */
    method CheckFailed(ghost t: Thread, conn: Conn, ghost wake: Wake)
      requires Enabled(View(), CheckThrows(t, wake)) && checking[t] == conn
      modifies this
      ensures View() == Next(old(View()), CheckThrows(t, wake))
      ensures Invariant(old(View())) ==> Invariant(View())
    {
      if Invariant(View()) { StepKeeps(View(), CheckThrows(t, wake)); }
      checking, failing := checking - {t}, failing - {t};
      PushBack(conn, wake);
    }

    /** The handle cannot be made: its deleter runs, and the exception goes to the catch block. */
    method MakeFailed(ghost t: Thread, conn: Conn, ghost wake: Wake)
      requires Enabled(View(), MakeFails(t, wake)) && checking[t] == conn
      modifies this
      ensures View() == Next(old(View()), MakeFails(t, wake))
    {
      failing := failing + {t};
      PushBack(conn, wake);
    }

    /** The handle's deleter. */
    method Released(ghost h: Handle, conn: Conn, ghost wake: Wake)
      requires Enabled(View(), Release(h, wake)) && handles[h] == conn
      modifies this
      ensures View() == Next(old(View()), Release(h, wake))
      ensures Invariant(old(View())) ==> Invariant(View())
    {
      if Invariant(View()) { StepKeeps(View(), Release(h, wake)); }
      handles := handles - {h};
      PushBack(conn, wake);
    }

    /** A caller that has the front connection checks it outside the lock, and gets a handle
        or leaves the connection in the queue again. */
    method FinishCheck(ghost t: Thread, conn: Conn, check: Check, ghost h: Handle, ghost wake: Wake)
      returns (handed: bool)
      requires t in checking && checking[t] == conn && t !in failing
      requires if check == Passes then h !in handles else MayWake(View(), wake)
      modifies this
      ensures handed <==> check == Passes
      ensures View() == Next(old(View()), if check == Passes then CheckPasses(t, h) else CheckThrows(t, wake))
      ensures Invariant(old(View())) ==> Invariant(View())
    {
      handed := check == Passes;
      if handed {
        if Invariant(View()) { StepKeeps(View(), CheckPasses(t, h)); }
        HandOut(t, h);
      } else {
        CheckFailed(t, conn, wake);
      }
    }

    /** A whole call by a caller that finds a connection: with a handle it holds that connection
        alone; without one, the connection is back and the pool is as full as before. */
    method Borrow(ghost t: Thread, check: Check, ghost h: Handle, ghost wake: Wake)
      returns (outcome: Outcome, handed: bool)
      requires Invariant(View()) && Enabled(View(), Enter(t)) && connections != [] && h !in handles
      requires MayWake(View(), wake)
      modifies this
      ensures Invariant(View()) && outcome == Took(old(connections)[0]) && (handed <==> check == Passes)
      ensures handed ==> h in handles && handles[h] == outcome.conn && connections == old(connections)[1..]
      ensures handed ==> forall g :: g in handles && g != h ==> handles[g] != outcome.conn
      ensures !handed ==> connections == old(connections)[1..] + [outcome.conn] && handles == old(handles)
    {
      outcome := GetConnection(t);
      handed := FinishCheck(t, outcome.conn, check, h, wake);
      hide Enabled, Next, WaitersOk, At;
      OnePlaceMeans(View());
    }
  }
}
