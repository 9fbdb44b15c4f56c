/** The writer thread's drain of one tick batch, as code, against the durability state machine. */
module TickWriting {
  import opened Rows
  import opened WriteAheadLog
  import opened TickTable
  import opened Durability

  /** What becomes of a database write: an answer, or none, and then it may have been applied or not. */
  datatype Reply = Answered | Lost(applied: bool)

  class TickWriter {
    const wal: Wal<TickRow>
    const db: TickDb
    ghost var acked: seq<seq<TickRow>>

    /** The state between two batches. */
    ghost function Abs(): System
      reads this, wal, wal.file, db
    {
      System(wal.codec, Idle, wal.file.cache, wal.file.stable, wal.pending, db.ticks, acked)
    }

    constructor (wal: Wal<TickRow>, db: TickDb)
      ensures this.wal == wal && this.db == db && acked == []
    {
      this.wal, this.db, acked := wal, db, [];
    }

    /**
     Log, store everything pending, commit.  A batch that could not be logged is returned for
     requeueing; a database failure leaves the rows in the log for the next batch.
     */
    method WriteTickBatch(batch: seq<TickRow>, reply: Reply)
      returns (written: nat, requeue: seq<TickRow>, ghost logged: bool, ghost evs: seq<Event>)
      modifies this, wal`pending, wal`sizeBytes, wal.file`cache, wal.file`stable, db
      ensures Abs() == Run(old(Abs()), evs)
      ensures batch == [] || (!wal.file.writesMayFail && !wal.file.syncFails) ==> logged
      ensures batch != [] && wal.file.syncFails ==> !logged
      ensures !logged ==> requeue == batch && acked == old(acked) && written == 0
                          && wal.pending == old(wal.pending) && db.ticks == old(db.ticks)
      ensures logged ==> requeue == [] && acked == old(acked) + (if batch == [] then [] else [batch])
      ensures logged ==> db.ticks == Stored(old(db.ticks), old(wal.pending) + batch, reply)
      ensures logged ==> wal.pending == if Committed(reply) then [] else old(wal.pending) + batch
      ensures logged && Committed(reply) ==> wal.file.cache == "" && written == |db.ticks| - |old(db.ticks)|
      ensures logged && !Committed(reply) ==> written == 0
    {
      ghost var s0 := Abs();
      var res, kept := wal.WriteBatch(batch);
      if !res.Appended? {
        evs := [AppendFails(batch, kept)];
        assert Run(s0, evs[..0]) == s0;
        return 0, batch, false, evs;
      }
      if |batch| != 0 {
        acked := acked + [batch];
      } else {
        assert Block(wal.codec, batch) == "" && old(wal.file.cache) + "" == old(wal.file.cache);
      }
      requeue, logged := [], true;
      ghost var s1 := Step(s0, Append(batch));
      assert Abs() == s1.(phase := Idle);
      written, evs := Drain(s1, reply);
      RunPrepend(s0, Append(batch), evs);
      evs := [Append(batch)] + evs;
    }

    /** Replay at start-up: whatever the log recovered is stored and committed. */
    method Recover(reply: Reply) returns (ghost evs: seq<Event>)
      modifies wal`pending, wal`sizeBytes, wal.file`cache, wal.file`stable, db
      ensures Abs() == Run(old(Abs()).(phase := if old(wal.pending) == [] then Idle else Logged), evs)
      ensures db.ticks == if old(wal.pending) == [] then old(db.ticks)
                          else Stored(old(db.ticks), old(wal.pending), reply)
      ensures wal.pending == if Committed(reply) then [] else old(wal.pending)
    {
      if wal.pending == [] {
        evs := [];
        return;
      }
      var written;
      written, evs := Drain(Abs().(phase := Logged), reply);
    }

    /** The table after a write that was answered, or that was not and may have been applied all the same. */
    ghost function Stored(t: Table, rows: seq<TickRow>, reply: Reply): Table {
      if reply == Lost(false) then t else Write(t, rows)
    }

    /** The write was answered and the log could be truncated. */
    predicate Committed(reply: Reply)
      reads wal.file
    {
      reply.Answered? && !wal.file.truncateFails
    }

    method Drain(ghost s: System, reply: Reply) returns (written: nat, ghost evs: seq<Event>)
      requires s == Abs().(phase := Logged)
      modifies wal`pending, wal`sizeBytes, wal.file`cache, wal.file`stable, db
      ensures Abs() == Run(s, evs)
      ensures db.ticks == Stored(old(db.ticks), old(wal.pending), reply)
      ensures wal.pending == if Committed(reply) then [] else old(wal.pending)
      ensures Committed(reply) ==> wal.file.cache == ""
      ensures written == if Committed(reply) then |db.ticks| - |old(db.ticks)| else 0
    {
      if reply.Lost? {
        if reply.applied {
          var n := db.WriteBatch(wal.pending);
        }
        evs := [DbFails(reply.applied)];
        assert Run(s, evs[..0]) == s;
        return 0, evs;
      }
      var n := db.WriteBatch(wal.pending);
      ghost var s1 := Step(s, DbWrites);
      var ok := wal.Commit();
      ghost var e := if ok then Commits(!wal.file.syncFails) else CommitFails;
      evs := [DbWrites, e];
      assert Run(s, evs[..1]) == s1 by {
        assert Run(s, evs[..1][..0]) == s;
      }
      written := if ok then n else 0;
    }
  }
}
