/** The database connection pool of threadpool/sqlconnpool.h and
    threadpool/sqlconnpool.cpp: a FIFO of open connection handles, a
    counting semaphore and three counters. Connections are opaque handles
    of type `H`, the null handle is `None`, and opening or closing a
    connection is recorded rather than performed. */
module ConnPool {
  import opened Common

  /** The counters of the pool: connections made by `Init`, connections
      free in the pool and connections handed out. */
  datatype Counters = Counters(max: int, free: int, use: int)

  /** The counters after a connection is handed out, as written: only
      `use` moves. */
  function TakeAsWritten(c: Counters): (r: Counters)
    ensures r.use == c.use + 1 && r.free == c.free && r.max == c.max
  {
    c.(use := c.use + 1)
  }

  /** The counters after a connection is given back, as written: only
      `free` moves. */
  function GiveAsWritten(c: Counters): (r: Counters)
    ensures r.free == c.free + 1 && r.use == c.use && r.max == c.max
  {
    c.(free := c.free + 1)
  }

  /** The counters after a connection is handed out, as evidently
      intended: one connection moves from free to used. */
  function Take(c: Counters): (r: Counters)
    ensures r.free + r.use == c.free + c.use && r.max == c.max
    ensures r.free == c.free - 1
  {
    Counters(c.max, c.free - 1, c.use + 1)
  }

  /** The counters after a connection is given back, as evidently
      intended: one connection moves from used to free. */
  function Give(c: Counters): (r: Counters)
    ensures r.free + r.use == c.free + c.use && r.max == c.max
    ensures r.free == c.free + 1
  {
    Counters(c.max, c.free + 1, c.use - 1)
  }

  /** `free` counts the pooled connections and `free + use` is the number
      of connections made. */
  predicate Accounts(c: Counters, pooled: nat)
  {
    c.free == pooled && c.free + c.use == c.max && c.use >= 0
  }

  /** The corrected counters keep their meaning through a take and a give. */
  lemma TakeGiveKeepAccounts(c: Counters, pooled: nat)
    requires Accounts(c, pooled)
    ensures pooled > 0 ==> Accounts(Take(c), pooled - 1)
    ensures c.use > 0 ==> Accounts(Give(c), pooled + 1)
    ensures Give(Take(c)) == c
  {
  }

  /** With the literal counters, taking a connection and giving it back
      leaves one more "free" connection than the pool holds and than were
      ever made, and a connection still counted as in use. */
  lemma TakeGiveAsWrittenDrifts(c: Counters, pooled: nat)
    requires Accounts(c, pooled) && pooled > 0
    ensures var r := GiveAsWritten(TakeAsWritten(c));
      r.free == pooled + 1 && r.free + r.use == c.max + 2 && !Accounts(r, pooled)
  {
  }

  /** `k` take-and-give rounds of the literal counters. */
  function RoundsAsWritten(c: Counters, k: nat): Counters
  {
    if k == 0 then c else GiveAsWritten(TakeAsWritten(RoundsAsWritten(c, k - 1)))
  }

  /** The literal counters drift by one per round: after `k` rounds of
      taking a connection and giving it back, the pool still holds the same
      connections but counts `k` more free and `k` more in use. */
  lemma {:induction false} RoundsAsWrittenDrift(c: Counters, k: nat)
    ensures RoundsAsWritten(c, k) == Counters(c.max, c.free + k, c.use + k)
    decreases k
  {
    if k > 0 {
      RoundsAsWrittenDrift(c, k - 1);
    }
  }

  class SqlConnPool<H> {
    /** The pooled connections, front first. */
    var queue: seq<H>
    var maxNum: int
    var freeNum: int
    var useNum: int
    /** The value of the semaphore. */
    var sem: int
    /** Connections closed so far, in closing order. */
    var closedHandles: seq<H>

    function Tally(): Counters
      reads this
    {
      Counters(maxNum, freeNum, useNum)
    }

    /** The semaphore and the free counter both count the pooled
        connections, and every connection made is pooled or in use: the
        semaphore counts the queue and `Tally()` keeps its `Accounts` for
        `|queue|` pooled connections. */
    ghost predicate Balanced()
      reads this
    {
      sem == |queue| && freeNum == |queue| && freeNum + useNum == maxNum && useNum >= 0
    }

    /** The private constructor of the singleton: no connections, counters
        at zero. */
    constructor ()
      ensures queue == [] && closedHandles == [] && sem == 0
      ensures Tally() == Counters(0, 0, 0) && Balanced()
    {
      queue := [];
      maxNum, freeNum, useNum := 0, 0, 0;
      sem := 0;
      closedHandles := [];
    }

    /** Pools `handles`, the `connNum` connections opened to the server
        (every open succeeds; the source aborts otherwise), and sets the
        semaphore and the counters to `connNum`. On an empty pool the result
        is balanced. */
    method Init(handles: seq<H>, port: int, connNum: int)
      requires connNum > 0 && |handles| == connNum
      requires 1025 < port < 65535
      modifies this`queue, this`sem, this`maxNum, this`freeNum
      ensures queue == old(queue) + handles
      ensures sem == connNum && maxNum == connNum && freeNum == connNum && useNum == old(useNum)
      ensures old(queue) == [] && old(useNum) == 0 ==> Balanced()
    {
      var i := 0;
      while i < connNum
        invariant 0 <= i <= connNum
        invariant queue == old(queue) + handles[..i]
      {
        queue := queue + [handles[i]];
        i := i + 1;
      }
      assert handles[..connNum] == handles;
      sem := connNum;
      maxNum := connNum;
      freeNum := connNum;
    }

    /** Hands out the front connection, or `None` when the pool is empty.
        A caller finding the semaphore at zero waits; in a balanced pool
        that never happens while a connection is pooled. */
    method GetSqlConn() returns (conn: Option<H>)
      requires queue != [] ==> sem > 0
      modifies this`queue, this`sem, this`freeNum, this`useNum
      ensures old(queue) == [] ==> conn == None && queue == old(queue) && Tally() == old(Tally()) && sem == old(sem)
      ensures old(queue) != [] ==>
        conn == Some(old(queue)[0]) && queue == old(queue)[1..] &&
        sem == old(sem) - 1 && Tally() == Take(old(Tally()))
      ensures old(Balanced()) ==> Balanced()
    {
      if queue == [] {
        return None;
      }
      sem := sem - 1;
      conn := Some(queue[0]);
      queue := queue[1..];
      useNum := useNum + 1;
      freeNum := freeNum - 1;
    }

    /** Gives a connection back to the end of the pool; the null handle is
        ignored. */
    method FreeConn(conn: Option<H>)
      modifies this`queue, this`sem, this`freeNum, this`useNum
      ensures conn.None? ==> queue == old(queue) && Tally() == old(Tally()) && sem == old(sem)
      ensures conn.Some? ==>
        queue == old(queue) + [conn.value] && sem == old(sem) + 1 && Tally() == Give(old(Tally()))
      ensures old(Balanced()) && old(useNum) > 0 ==> Balanced()
    {
      if conn.None? {
        return;
      }
      queue := queue + [conn.value];
      freeNum := freeNum + 1;
      useNum := useNum - 1;
      sem := sem + 1;
    }

    /** The number of pooled connections. */
    method GetFreeConnCount() returns (count: nat)
      ensures count == |queue|
      ensures Balanced() ==> count == freeNum && count == sem
    {
      count := |queue|;
    }

    /** Closes every pooled connection, front first, and empties the pool;
        the counters and the semaphore stay as they were. */
    method Close()
      modifies this`queue, this`closedHandles
      ensures queue == [] && closedHandles == old(closedHandles) + old(queue)
    {
      while queue != []
        invariant closedHandles + queue == old(closedHandles) + old(queue)
        decreases |queue|
      {
        var conn := queue[0];
        queue := queue[1..];
        closedHandles := closedHandles + [conn];
      }
      assert closedHandles + [] == closedHandles;
    }
  }

  /** Corrected (through `Take` and `Give`): a session of the pool: made, filled with two connections `a` and
      `b`, one connection taken and given back, then closed. The first
      connection goes out, comes back behind the second, the counters
      balance again, and closing closes `b` first, then `a`. */
  method Session<H>(a: H, b: H) returns (pool: SqlConnPool<H>, taken: Option<H>)
    ensures taken == Some(a)
    ensures pool.Tally() == Counters(2, 2, 0) && pool.sem == 2
    ensures pool.queue == [] && pool.closedHandles == [b, a]
  {
    pool := new SqlConnPool();
    pool.Init([a, b], 3306, 2);
    taken := pool.GetSqlConn();
    pool.FreeConn(taken);
    pool.Close();
  }

  /** A call that moves connections: `GetSqlConn` or `FreeConn` of a
      non-null handle. */
  datatype Call<H> = Get | Free(conn: H)

  /** The pool after a sequence of calls, paired with the connections the
      calls handed out; `Drive` proves the class's `GetSqlConn` and
      `FreeConn` follow it. */
  function Replay<H>(queue: seq<H>, calls: seq<Call<H>>): (r: (seq<H>, seq<H>))
    decreases |calls|
  {
    if calls == [] then (queue, [])
    else
      var last := calls[|calls| - 1];
      var (q, out) := Replay(queue, calls[..|calls| - 1]);
      match last
      case Get => if q == [] then (q, out) else (q[1..], out + [q[0]])
      case Free(c) => (q + [c], out)
  }

  /** Makes the calls `calls` on `pool` through `GetSqlConn` and
      `FreeConn`, collecting the connections handed out: the pool and the
      connections handed out end as `Replay` says, so `ReplayConserves`
      holds of the pool object. The semaphore keeps counting the pooled
      connections, so no `GetSqlConn` on a non-empty pool would wait. */
  method Drive<H>(pool: SqlConnPool<H>, calls: seq<Call<H>>) returns (out: seq<H>)
    requires pool.sem == |pool.queue|
    modifies pool`queue, pool`sem, pool`freeNum, pool`useNum
    ensures (pool.queue, out) == Replay(old(pool.queue), calls)
    ensures pool.sem == |pool.queue|
  {
    out := [];
    var i := 0;
    assert calls[..0] == [];
    while i < |calls|
      invariant 0 <= i <= |calls|
      invariant pool.sem == |pool.queue|
      invariant (pool.queue, out) == Replay(old(pool.queue), calls[..i])
    {
      assert calls[..i + 1][..i] == calls[..i];
      match calls[i] {
        case Get =>
          var conn := pool.GetSqlConn();
          if conn.Some? {
            out := out + [conn.value];
          }
        case Free(c) =>
          pool.FreeConn(Some(c));
      }
      i := i + 1;
    }
    assert calls[..|calls|] == calls;
  }

  /** Connections go out first in, first out, and none is lost or
      duplicated: the connections handed out, followed by those still
      pooled, are the connections pooled at the start followed by those
      given back, in order. */
  lemma {:induction false} ReplayConserves<H>(queue: seq<H>, calls: seq<Call<H>>)
    ensures Replay(queue, calls).1 + Replay(queue, calls).0 == queue + Returned(calls)
    decreases |calls|
  {
    if calls != [] {
      var init := calls[..|calls| - 1];
      ReplayConserves(queue, init);
      var (q, out) := Replay(queue, init);
      match calls[|calls| - 1]
      case Get =>
        if q != [] {
          assert out + [q[0]] + q[1..] == out + q;
        }
      case Free(c) =>
        assert out + (q + [c]) == (out + q) + [c];
    }
  }

  /** The connections one call gives back. */
  function ReturnedBy<H>(call: Call<H>): seq<H>
  {
    if call.Free? then [call.conn] else []
  }

  /** The connections a sequence of calls gives back, in order. */
  function Returned<H>(calls: seq<Call<H>>): seq<H>
    decreases |calls|
  {
    if calls == [] then [] else Returned(calls[..|calls| - 1]) + ReturnedBy(calls[|calls| - 1])
  }
}
