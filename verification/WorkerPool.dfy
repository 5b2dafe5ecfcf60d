/** Worker processes, the pool that reuses them, and the leases that hold them, as mutable objects. */
module WorkerPoolClass {
  import opened Basics
  import opened Codec
  import opened Reader
  import opened Supervision

  /** What the rest of the system sees of an ending. */
  function Core(e: Ending): (Option<WorkerOutcome>, bool, Bytes) {
    (e.outcome, e.gone, e.buffer)
  }

  class WorkerProcess {
    const engineId: Bytes
    const reader: IncrementalFrameReader
    var gone: bool
    var busy: bool
    var lastUsed: int

    constructor (engineId: Bytes)
      ensures this.engineId == engineId && !gone && !busy
      ensures fresh(reader) && reader.buffer == []
    {
      this.engineId := engineId;
      reader := new IncrementalFrameReader();
      gone, busy, lastUsed := false, false, 0;
    }

    /** Asks the operating system; a process that was seen to have exited stays gone. */
    method Alive(exited: set<WorkerProcess>) returns (alive: bool)
      modifies this`gone
      ensures alive <==> !gone
      ensures gone <==> old(gone) || this in exited
    {
      if this in exited {
        gone := true;
      }
      alive := !gone;
    }

    method Terminate()
      modifies this`gone
      ensures gone
    {
      gone := true;
    }

    /** One supervised call: the writing loop, then the reading loop. */
    method Execute(c: Call) returns (outcome: Option<WorkerOutcome>)
      requires forall k :: k in c.keys ==> k in c.request.metadata
      requires c.aliveAtStart ==> !gone
      modifies this`gone, reader
      ensures var e := Supervision.Execute(old(reader.buffer), c);
              outcome == e.outcome && reader.buffer == e.buffer && (gone <==> old(gone) || e.gone)
    {
      if !c.aliveAtStart {
        gone := true;
        return Some(Crashed);
      }
      var request := EncodeFrameBuffer(c.request, c.keys);
      if request.Err? {
        Terminate();
        return Some(ProtocolFailure(BadRequest(request.error)));
      }
      var sending, sent := Send(request.value, c);
      match sending
      case SendPending =>
        outcome := None;
      case SendEnded(o) =>
        Terminate();
        outcome := Some(o);
      case Sent =>
        outcome := Await(c, sent);
    }

    static method Send(bytes: Bytes, c: Call) returns (sending: Sending, offset: nat)
      ensures (sending, offset) == SendFrom(|bytes|, 0, c.stopAt, c.sends)
    {
      offset := 0;
      var i := 0;
      while offset < |bytes|
        invariant 0 <= i <= |c.sends| && offset <= |bytes|
        invariant SendFrom(|bytes|, offset, c.stopAt, c.sends[i..]) == SendFrom(|bytes|, 0, c.stopAt, c.sends)
        decreases |c.sends| - i
      {
        if i == |c.sends| {
          return SendPending, offset;
        }
        var r := c.sends[i];
        assert c.sends[i..][0] == r && c.sends[i..][1..] == c.sends[i + 1..];
        i := i + 1;
        if r.stopping {
          return SendEnded(Stopped), offset;
        }
        if r.cancelled {
          return SendEnded(Cancelled), offset;
        }
        if StopTimeReached(c.stopAt, r.now) {
          return SendEnded(TimedOut), offset;
        }
        if !r.alive {
          return SendEnded(Crashed), offset;
        }
        match r.step
        case Wrote(n) =>
          offset := offset + Min(n, |bytes| - offset);
        case WouldBlock(pollFails) =>
          if pollFails {
            return SendEnded(ProtocolFailure(PollFailed)), offset;
          }
        case WriteError(alive) =>
          return SendEnded(if alive then ProtocolFailure(WriteFailed) else Crashed), offset;
      }
      sending := Sent;
    }

    method Await(c: Call, sent: nat) returns (outcome: Option<WorkerOutcome>)
      modifies this`gone, reader
      ensures (outcome, reader.buffer) ==
                (var e := AwaitFrom(old(reader.buffer), c.request.correlation, c.stopAt, c.waits, sent); (e.outcome, e.buffer))
      ensures gone <==> old(gone) || AwaitFrom(old(reader.buffer), c.request.correlation, c.stopAt, c.waits, sent).gone
    {
      ghost var id := c.request.correlation;
      ghost var whole := AwaitFrom(reader.buffer, id, c.stopAt, c.waits, sent);
      hide TakeTurn, FinishResponse;
      for j := 0 to |c.waits|
        invariant Core(AwaitFrom(reader.buffer, id, c.stopAt, c.waits[j..], sent)) == Core(whole)
        invariant gone == old(gone)
      {
        var r := c.waits[j];
        assert c.waits[j..][0] == r && c.waits[j..][1..] == c.waits[j + 1..];
        var ended;
        ended, outcome := Look(r.first, c.request.correlation, r.aliveOnError, sent);
        if ended {
          return;
        }
        if r.stopping {
          Terminate();
          return Some(Stopped);
        }
        if r.cancelled || StopTimeReached(c.stopAt, r.now) {
          ended, outcome := Look(r.again, c.request.correlation, r.aliveOnError, sent);
          if ended {
            return;
          }
          Terminate();
          return Some(if r.cancelled then Cancelled else TimedOut);
        }
        if !r.alive {
          gone := true;
          return Some(Crashed);
        }
        if r.pollFails {
          Terminate();
          return Some(ProtocolFailure(PollFailed));
        }
      }
      outcome := None;
    }

    /** One look at the pipe, and what it ends. */
    method Look(t: Turn, correlation: U64, aliveOnError: bool, ghost sent: nat)
      returns (ended: bool, outcome: Option<WorkerOutcome>)
      modifies this`gone, reader
      ensures var look := TakeTurn(old(reader.buffer), t);
              var e := Looked(look, Joined(t.chunks), correlation, aliveOnError, sent);
              && reader.buffer == look.1
              && (ended <==> e.Some?)
              && (ended ==> outcome == e.value.outcome && (gone <==> old(gone) || e.value.gone))
              && (!ended ==> gone == old(gone))
    {
      var r := reader.ReadAvailable(t);
      hide TakeTurn;
      match r
      case Nothing =>
        ended, outcome := false, None;
      case Delivered(f) =>
        var (o, ends) := FinishResponse(f, correlation);
        if ends {
          Terminate();
        }
        ended, outcome := true, Some(o);
      case Raised(e) =>
        gone := true;
        ended, outcome := true, Some(if aliveOnError then ProtocolFailure(BadResponse(e)) else Crashed);
    }
  }

  /** A lease without a pool holds nothing: it is moved from, or already reset. */
  class WorkerLease {
    var pool: WorkerPool?
    var worker: WorkerProcess?

    constructor Grant(pool: WorkerPool, worker: WorkerProcess)
      ensures this.pool == pool && this.worker == worker
    {
      this.pool, this.worker := pool, worker;
    }

    constructor Empty()
      ensures pool == null && worker == null
    {
      pool, worker := null, null;
    }

    ghost predicate Held()
      reads this, pool
    {
      pool != null ==> this in pool.leases
    }

    method Reset(now: int, exited: set<WorkerProcess>)
      requires Held() && (pool != null ==> pool.Valid())
      modifies this, if pool == null then {} else {pool}, if pool == null || worker == null then {} else {worker}
      ensures pool == null && worker == null
      ensures old(pool) != null ==> old(pool).Valid() && old(pool).leases == old(pool.leases) - {this}
    {
      if pool != null {
        pool.Release(this, now, exited);
      }
      pool, worker := null, null;
    }

    /** Move assignment: the old worker is given back, the other's is taken over, and the other lease is left empty. */
    method Take(other: WorkerLease, now: int, exited: set<WorkerProcess>)
      requires Held() && other.Held()
      requires pool != null ==> pool.Valid()
      requires other.pool != null ==> other.pool.Valid()
      requires pool != null && other.pool != null && pool != other.pool ==>
                 worker !in other.pool.workers && worker !in other.pool.leases.Values
      modifies this, other, if pool == null then {} else {pool}, if other.pool == null then {} else {other.pool}
      modifies if pool == null || worker == null || this == other then {} else {worker}
      ensures pool == old(other.pool) && Held() && (pool != null ==> pool.Valid())
      ensures this == other ==> unchanged(this) && (pool != null ==> unchanged(pool))
      ensures this != other ==> other.pool == null && other.worker == null
      ensures this != other && pool != null ==>
                && worker == old(other.worker)
                && pool.leases == (old(other.pool.leases) - {this, other})[this := worker]
      ensures this != other && old(pool) != null && pool != old(pool) ==>
                old(pool).Valid() && old(pool).leases == old(pool.leases) - {this}
    {
      if this == other {
        return;
      }
      assert other.pool != null && other.pool != pool ==> this !in other.pool.leases;
      Reset(now, exited);
      hide WorkerPool.Valid;
      Adopt(other);
    }

    /** A move into an empty lease: the worker changes hands and the other lease is left empty. */
    method Adopt(other: WorkerLease)
      requires pool == null && this != other && other.Held()
      requires other.pool != null ==> other.pool.Valid() && this !in other.pool.leases
      modifies this, other, if other.pool == null then {} else {other.pool}
      ensures pool == old(other.pool) && other.pool == null && other.worker == null && Held()
      ensures pool != null ==>
                && pool.Valid() && worker == old(other.worker)
                && pool.leases == (old(other.pool.leases) - {other})[this := worker]
    {
      worker := other.worker;
      if other.pool != null {
        var p := other.pool;
        p.leases := (p.leases - {other})[this := p.leases[other]];
        pool := p;
        other.pool := null;
        assert forall w :: w in old(p.leases).Values ==> w in p.leases.Values by {
          forall w | w in old(p.leases).Values
            ensures w in p.leases.Values
          {
            var l :| l in old(p.leases) && old(p.leases)[l] == w;
            assert l == other ==> this in p.leases && p.leases[this] == w;
            assert l != other ==> l in p.leases && p.leases[l] == w;
          }
        }
      }
      other.worker := null;
    }
  }

  lemma {:induction false} Around<T>(s: seq<T>, i: nat)
    requires i < |s|
    ensures s == s[..i] + [s[i]] + s[i + 1..]
    ensures s[i..] == [s[i]] + s[i + 1..] && s[..i + 1] == s[..i] + [s[i]]
  {
  }

  class WorkerPool {
    const launchable: set<Bytes>
    const idleTimeout: int
    var workers: seq<WorkerProcess>
    ghost var leases: map<WorkerLease, WorkerProcess>

    /**
     No two live leases share a worker, every leased worker is busy, and every busy worker of the pool is leased. A
     leased worker may have dropped out of the pool: the reaper erases it when it finds it dead.
     */
    ghost predicate Valid()
      reads this, workers`busy, leases.Keys, leases.Values`busy
    {
      && (forall i, j :: 0 <= i < j < |workers| ==> workers[i] != workers[j])
      && (forall l :: l in leases ==> l.pool == this && l.worker == leases[l] && leases[l].busy)
      && (forall l, m :: l in leases && m in leases && leases[l] == leases[m] ==> l == m)
      && (forall w :: w in workers && w.busy ==> w in leases.Values)
    }

    constructor (launchable: set<Bytes>, idleTimeout: int)
      requires idleTimeout >= 0
      ensures Valid() && workers == [] && leases == map[]
      ensures this.launchable == launchable && this.idleTimeout == idleTimeout
    {
      this.launchable, this.idleTimeout := launchable, idleTimeout;
      workers, leases := [], map[];
    }

    /**
     Reuses the first idle live worker of the engine, or launches a new one when there is none. The lease is exclusive:
     its worker was in nobody's hands. Where the source throws, because there is no launch configuration or because the
     process cannot be created, there is no lease and nobody's worker is touched.
     */
    method Acquire(engineId: Bytes, exited: set<WorkerProcess>, launches: bool) returns (lease: WorkerLease?)
      requires Valid()
      modifies this, workers
      ensures Valid()
      ensures lease != null ==>
                && fresh(lease) && lease.worker != null && leases == old(leases)[lease := lease.worker]
                && lease.worker !in old(leases).Values
                && lease.worker.engineId == engineId && !lease.worker.gone
                && (lease.worker in old(workers) || (fresh(lease.worker) && lease.worker.reader.buffer == []))
      ensures lease != null && lease.worker in old(workers) ==>
                exists i :: 0 <= i < |old(workers)| && old(workers)[i] == lease.worker &&
                            forall w :: w in old(workers)[..i] ==> old(w.busy) || old(w.gone) || w in exited || w.engineId != engineId
      ensures lease == null || lease.worker !in old(workers) ==>
                forall w :: w in old(workers) ==> old(w.busy) || old(w.gone) || w in exited || w.engineId != engineId
      ensures lease == null ==> leases == old(leases) && (engineId !in launchable || !launches)
      ensures lease != null && lease.worker !in old(workers) ==> engineId in launchable && launches
      ensures forall w :: w in old(workers) && w !in workers ==> !old(w.busy) && w.gone
      ensures forall w :: w in old(workers) && old(w.busy) ==> w.busy && w.gone == old(w.gone)
    {
      hide Valid;
      var w := FindUsable(engineId, exited);
      if w != null {
        lease := Grant(w);
      } else if engineId in launchable && launches {
        w := Launch(engineId);
        lease := Grant(w);
      } else {
        lease := null;
      }
    }

    /** The loop over the pool: it drops idle dead workers on its way to the first idle live one of the engine. */
    method FindUsable(engineId: Bytes, exited: set<WorkerProcess>) returns (found: WorkerProcess?)
      requires Valid()
      modifies this`workers, workers`gone
      ensures Valid()
      ensures forall w :: w in workers ==> w in old(workers)
      ensures forall w :: w in old(workers) && w !in workers ==> !w.busy && w.gone
      ensures forall w :: w in old(workers) && w.busy ==> w.gone == old(w.gone)
      ensures found != null ==>
                && found in workers && !found.busy && !found.gone && found.engineId == engineId
                && exists i :: 0 <= i < |old(workers)| && old(workers)[i] == found &&
                               forall w :: w in old(workers)[..i] ==> w.busy || old(w.gone) || w in exited || w.engineId != engineId
      ensures found == null ==> forall w :: w in old(workers) ==> w.busy || old(w.gone) || w in exited || w.engineId != engineId
    {
      hide Valid;
      ghost var before := workers;
      ghost var seen := 0;
      var i := 0;
      while i < |workers|
        invariant 0 <= i <= |workers| && 0 <= seen <= |before|
        invariant Valid()
        invariant workers[i..] == before[seen..]
        invariant forall w :: w in before[..seen] ==> w.busy || old(w.gone) || w in exited || w.engineId != engineId
        invariant forall w :: w in before[seen..] ==> w.gone == old(w.gone)
        invariant forall w :: w in workers ==> w in before
        invariant forall w :: w in before && w !in workers ==> !w.busy && w.gone
        invariant forall w :: w in before && w.busy ==> w.gone == old(w.gone)
        decreases |workers| - i
      {
        Around(workers, i);
        Around(before, seen);
        OnlyHere(i);
        var w := workers[i];
        assert w == before[seen] && w in workers && w in before;
        var alive := true;
        if !w.busy {
          alive := w.Alive(exited);
        }
        if alive && !w.busy && w.engineId == engineId {
          return w;
        }
        if alive {
          i := i + 1;
        } else {
          Drop(i);
        }
        seen := seen + 1;
      }
      found := null;
    }

    /** Starts a process and puts it into the pool. */
    method Launch(engineId: Bytes) returns (w: WorkerProcess)
      requires Valid()
      modifies this`workers
      ensures Valid() && workers == old(workers) + [w]
      ensures fresh(w) && w.engineId == engineId && !w.busy && !w.gone && w.reader.buffer == []
    {
      w := new WorkerProcess(engineId);
      workers := workers + [w];
    }

    lemma {:induction false} OnlyHere(i: nat)
      requires Valid() && i < |workers|
      ensures workers[i] !in workers[..i] && workers[i] !in workers[i + 1..]
    {
    }

    /** `erase` of one position of the vector. */
    method Drop(i: nat)
      requires Valid() && i < |workers|
      modifies this`workers
      ensures Valid()
      ensures workers == old(workers)[..i] + old(workers)[i + 1..]
      ensures workers[..i] == old(workers)[..i] && workers[i..] == old(workers)[i + 1..]
      ensures old(workers)[i] !in workers
    {
      workers := workers[..i] + workers[i + 1..];
    }

    /** Hands an idle worker of the pool over to a new lease. */
    method Grant(w: WorkerProcess) returns (lease: WorkerLease)
      requires Valid() && w in workers && !w.busy
      modifies this`leases, w`busy
      ensures Valid() && w.busy
      ensures fresh(lease) && lease.worker == w && lease.pool == this && leases == old(leases)[lease := w]
      ensures w !in old(leases).Values
    {
      w.busy := true;
      lease := new WorkerLease.Grant(this, w);
      leases := leases[lease := w];
      assert lease in leases && leases[lease] == w;
      assert forall l :: l in old(leases) ==> leases[l] == old(leases)[l];
    }

    /** Takes the worker back; a dead one is dropped, and one that already dropped out stays out. */
    method Release(lease: WorkerLease, now: int, exited: set<WorkerProcess>)
      requires Valid() && lease in leases
      modifies this, leases[lease]
      ensures Valid() && leases == old(leases) - {lease}
      ensures var w := old(leases)[lease];
              if w in old(workers) then
                && !w.busy && w.lastUsed == now
                && (w in workers <==> !w.gone)
              else workers == old(workers)
      ensures forall w :: w in workers ==> w in old(workers)
      ensures forall w :: w in old(workers) && w != old(leases)[lease] ==> w in workers
    {
      var w: WorkerProcess := lease.worker;
      leases := leases - {lease};
      assert forall l :: l in old(leases) && l != lease ==> l in leases && leases[l] == old(leases)[l];
      var i := IndexOf(w);
      if i == |workers| {
        return;
      }
      w.busy := false;
      w.lastUsed := now;
      var alive := w.Alive(exited);
      if !alive {
        Drop(i);
      }
    }

    method IndexOf(w: WorkerProcess) returns (i: nat)
      ensures i <= |workers|
      ensures i < |workers| ==> workers[i] == w
      ensures i == |workers| ==> w !in workers
    {
      i := 0;
      while i < |workers| && workers[i] != w
        invariant i <= |workers|
        invariant w !in workers[..i]
      {
        i := i + 1;
      }
    }

    /**
     Drops dead workers, leased or not, and terminates workers that have been idle too long. A worker that is in use is
     never terminated, and every lease stays what it was.
     */
    method ReapIdle(now: int, exited: set<WorkerProcess>)
      requires Valid()
      modifies this`workers, workers`gone
      ensures Valid() && leases == old(leases)
      ensures forall w :: w in workers ==> w in old(workers) && !w.gone
      ensures forall w :: w in old(workers) ==>
                            (w.gone <==> old(w.gone) || w in exited || (!w.busy && now - w.lastUsed >= idleTimeout))
      ensures forall w :: w in old(workers) && w !in workers ==> w.gone
    {
      hide Valid;
      ghost var before := workers;
      var i := 0;
      while i < |workers|
        invariant 0 <= i <= |workers|
        invariant Valid()
        invariant forall w :: w in workers ==> w in before
        invariant forall w :: w in before && w in workers[..i] ==>
                                !w.gone && !old(w.gone) && w !in exited && !(!w.busy && now - w.lastUsed >= idleTimeout)
        invariant forall w :: w in before && w in workers[i..] ==> w.gone == old(w.gone)
        invariant forall w :: w in before && w !in workers ==>
                                w.gone && (old(w.gone) || w in exited || (!w.busy && now - w.lastUsed >= idleTimeout))
        decreases |workers| - i
      {
        var w := workers[i];
        ghost var was := workers;
        assert w in workers && w in before;
        Around(was, i);
        OnlyHere(i);
        var alive := w.Alive(exited);
        if alive && !w.busy && now - w.lastUsed >= idleTimeout {
          w.Terminate();
          alive := false;
        }
        if alive {
          i := i + 1;
        } else {
          Drop(i);
        }
      }
    }

    /** Whether the engine has a live worker, busy or not; dead workers on the way there are dropped. */
    method IsWarm(engineId: Bytes, exited: set<WorkerProcess>) returns (warm: bool)
      requires Valid()
      modifies this`workers, workers`gone
      ensures Valid() && leases == old(leases)
      ensures forall w :: w in old(workers) ==> (w.gone ==> old(w.gone) || w in exited)
      ensures forall w :: w in old(workers) && w !in workers ==> w.gone
      ensures warm <==> exists w :: w in old(workers) && w.engineId == engineId && !old(w.gone) && w !in exited
    {
      ghost var before := workers;
      var i := 0;
      while i < |workers|
        invariant 0 <= i <= |workers|
        invariant Valid()
        invariant forall w :: w in workers ==> w in before
        invariant forall w :: w in before ==> (w.gone ==> old(w.gone) || w in exited)
        invariant forall w :: w in workers[..i] ==> w.engineId != engineId
        invariant forall w :: w in before && w in workers[i..] ==> w.gone == old(w.gone)
        invariant forall w :: w in before && w !in workers ==> w.gone && (old(w.gone) || w in exited)
        decreases |workers| - i
      {
        var w := workers[i];
        ghost var was := workers;
        assert w in workers && w in before;
        Around(was, i);
        OnlyHere(i);
        var alive := w.Alive(exited);
        if !alive {
          Drop(i);
        } else if w.engineId == engineId {
          return true;
        } else {
          i := i + 1;
        }
      }
      warm := false;
    }

    /** Every process ends, in use or not. */
    method Shutdown()
      requires Valid()
      modifies this`workers, workers`gone
      ensures Valid() && leases == old(leases) && workers == []
      ensures forall w :: w in old(workers) ==> w.gone
    {
      for i := 0 to |workers|
        invariant workers == old(workers) && Valid()
        invariant forall j :: 0 <= j < i ==> workers[j].gone
      {
        workers[i].Terminate();
      }
      workers := [];
    }
  }
}
