/**
 The snapshot job rows of one sending region (internal/repository/postgres/state_snapshots.go) and
 how the snapshot service records an applied chunk (internal/service/snapshot/service.go:233-297).
 */
module SnapshotJobs {
  import opened PrimaryKeys
  import opened SnapshotSend

  datatype Status = Pending | Snapshotting | CatchingUp | Done

  /** An empty checkpoint key means that nothing is recorded. */
  datatype Job = Job(status: Status, checkpoint: Key, watermark: Option<int>, finished: bool)

  type Jobs = map<string, Job>

  const NO_JOB: Job := Job(Pending, [], None, false)

  /** Status, checkpoint and watermark of a write. */
  datatype JobWrite = JobWrite(status: Status, checkpoint: Key, watermark: Option<int>)

  function Watermark(jobs: Jobs, table: string, w: JobWrite): Option<int> {
    if w.watermark.Some? || table !in jobs then w.watermark else jobs[table].watermark
  }

  /** Creates or resets a job: it is unfinished afterwards. */
  function Upserted(jobs: Jobs, table: string, w: JobWrite): Jobs {
    jobs[table := Job(w.status, w.checkpoint, Watermark(jobs, table, w), false)]
  }

  predicate IsFinished(jobs: Jobs, table: string) {
    table in jobs && jobs[table].finished
  }

  /** Records progress, unless the job is finished. */
  function Checkpointed(jobs: Jobs, table: string, w: JobWrite): Jobs {
    if IsFinished(jobs, table) then jobs else Upserted(jobs, table, w)
  }

  function MarkedFinished(jobs: Jobs, table: string): Jobs {
    if table in jobs then jobs[table := jobs[table].(status := Done, finished := true)] else jobs
  }

  function CheckpointOf(jobs: Jobs, table: string): Key {
    if table in jobs then jobs[table].checkpoint else []
  }

  class JobStore {
    var jobs: Jobs

    constructor ()
      ensures jobs == map[]
    {
      jobs := map[];
    }

    method GetStateSnapshotJob(table: string) returns (job: Job)
      ensures job.checkpoint == CheckpointOf(jobs, table) && (job.finished <==> IsFinished(jobs, table))
      ensures table !in jobs ==> job == NO_JOB
    {
      job := if table in jobs then jobs[table] else NO_JOB;
    }

    method UpsertStateSnapshotJob(table: string, w: JobWrite)
      modifies this
      ensures jobs == Upserted(old(jobs), table, w)
    {
      var watermark := w.watermark;
      if watermark.None? && table in jobs {
        watermark := jobs[table].watermark;
      }
      jobs := jobs[table := Job(w.status, w.checkpoint, watermark, false)];
    }

    method CommitStateSnapshotCheckpoint(table: string, w: JobWrite) returns (updated: bool)
      modifies this
      ensures jobs == Checkpointed(old(jobs), table, w)
      ensures updated <==> !IsFinished(old(jobs), table)
    {
      updated := !(table in jobs && jobs[table].finished);
      if updated {
        UpsertStateSnapshotJob(table, w);
      }
    }

    method MarkStateSnapshotFinished(table: string)
      modifies this
      ensures jobs == MarkedFinished(old(jobs), table)
    {
      if table in jobs {
        jobs := jobs[table := jobs[table].(status := Done, finished := true)];
      }
    }

    /**
     ApplyIncomingChunk after its rows were applied: the table's job is unfinished afterwards, and
     its checkpoint is the chunk's last key or, without rows, the one it had.
     */
    method RecordChunk(table: string, chunk: Chunk, watermark: Option<int>)
      modifies this
      ensures forall other :: other != table ==> (other in jobs <==> other in old(jobs))
      ensures forall other :: other != table && other in jobs ==> jobs[other] == old(jobs)[other]
      ensures chunk.rows == [] && !chunk.last ==> jobs == old(jobs)
      ensures chunk.rows != [] || chunk.last ==>
                && table in jobs && !jobs[table].finished
                && jobs[table].checkpoint == LastKey(CheckpointOf(old(jobs), table), chunk.rows)
                && jobs[table].status == if chunk.last then CatchingUp else Snapshotting
    {
      if |chunk.rows| > 0 {
        var key := chunk.rows[|chunk.rows| - 1].key;
        var updated := CommitStateSnapshotCheckpoint(table, JobWrite(Snapshotting, key, watermark));
        if !updated {
          UpsertStateSnapshotJob(table, JobWrite(Pending, [], None));
          updated := CommitStateSnapshotCheckpoint(table, JobWrite(Snapshotting, key, watermark));
        }
      }
      if chunk.last {
        if |chunk.rows| == 0 {
          var existing := GetStateSnapshotJob(table);
          UpsertStateSnapshotJob(table, JobWrite(CatchingUp, existing.checkpoint, watermark));
        } else {
          var key := chunk.rows[|chunk.rows| - 1].key;
          var updated := CommitStateSnapshotCheckpoint(table, JobWrite(CatchingUp, key, watermark));
        }
      }
    }
  }
}
