/** The background flusher of desired-action records (agent/actions.go): a dirty flag around an unlocked write. */
module RecordFlusher {
  datatype Record = Record(signature: string, success: bool)
  type Records = map<string, Record>

  /** Where the flusher goroutine is: between flushes, writing a snapshot, or about to look at the revision again. */
  datatype Phase =
    | Resting
    | Writing(snapshot: Records, revision: nat)
    | Written(revision: nat, ok: bool)

  // ------------------------------------------------------------------ the flusher

  class Flusher {
    var mem: Records
    /** What a restarted agent would load. */
    var disk: Records
    var dirty: bool
    var revision: nat
    var phase: Phase
    /** The one-slot wake channel, and the debounce timer. */
    var wake: bool
    var timer: bool
    /** The records after each revision, and the revision on disk. */
    ghost var history: seq<Records>
    ghost var synced: nat

    ghost predicate Valid()
      reads this
    {
      && |history| == revision + 1 && history[revision] == mem
      && synced <= revision && history[synced] == disk
      && (!dirty ==> synced == revision)
      && (dirty && phase.Resting? ==> wake || timer)
      && match phase {
           case Resting => true
           case Writing(snapshot, r) => dirty && synced <= r <= revision && history[r] == snapshot
           case Written(r, ok) => dirty && r <= revision && (ok ==> synced == r)
         }
    }

    constructor (loaded: Records)
      ensures Valid() && mem == disk == loaded && !dirty && history == [loaded]
    {
      mem, disk, dirty, revision := loaded, loaded, false, 0;
      phase, wake, timer := Resting, false, false;
      history, synced := [loaded], 0;
    }

    /** Any change to the records under the lock. */
    method Mutate(records: Records)
      requires Valid()
      modifies `mem, `revision, `dirty, `wake, `history
      ensures Valid()
      ensures mem == records && dirty && history == old(history) + [records]
    {
      mem, revision, dirty, wake := records, revision + 1, true, true;
      history := history + [records];
    }

    method WakeUp()
      requires Valid() && phase.Resting? && wake
      modifies `wake, `timer
      ensures Valid() && timer && !wake
    {
      wake, timer := false, true;
    }

    /** The timer or the five-second ticker begins a flush; a clean cache is left alone. */
    method BeginFlush(fromTimer: bool)
      requires Valid() && phase.Resting? && (fromTimer ==> timer)
      modifies `phase, `timer
      ensures Valid()
      ensures phase == if dirty then Writing(mem, revision) else Resting
    {
      if fromTimer {
        timer := false;
      }
      if !dirty {
        return;
      }
      phase := Writing(mem, revision);
    }

    /** The write and rename, without the lock; a failure leaves the old file. */
    method Write(ok: bool)
      requires Valid() && phase.Writing?
      modifies `disk, `phase, `synced
      ensures Valid() && phase == Written(old(phase.revision), ok)
      ensures disk == if ok then old(phase.snapshot) else old(disk)
      ensures old(synced) <= synced && (ok ==> synced == old(phase.revision))
    {
      if ok {
        disk, synced := phase.snapshot, phase.revision;
      }
      phase := Written(phase.revision, ok);
    }

    method EndFlush()
      requires Valid() && phase.Written?
      modifies `dirty, `wake, `phase
      ensures Valid() && phase.Resting?
      ensures dirty == !(old(phase.ok) && old(phase.revision) == revision)
    {
      if phase.ok && revision == phase.revision {
        dirty := false;
      }
      if dirty {
        wake := true;
      }
      phase := Resting;
    }
  }

  // ------------------------------------------------------------------- whole runs

  datatype Step = Change(records: Records) | Wake | Begin(fromTimer: bool) | Save(ok: bool) | End

  /** The records as loaded and after each change. */
  function Versions(loaded: Records, steps: seq<Step>): (versions: seq<Records>)
    ensures versions != []
  {
    if steps == [] then [loaded]
    else
      var before := Versions(loaded, steps[..|steps| - 1]);
      match steps[|steps| - 1] {
        case Change(records) => before + [records]
        case _ => before
      }
  }

  /**
   * Changes and the single flusher, in any interleaving and with any failures; a step that is
   * not possible does nothing. The file always holds some version, and a clean cache equals it.
   */
  method Serve(loaded: Records, steps: seq<Step>) returns (mem: Records, disk: Records, dirty: bool)
    ensures var versions := Versions(loaded, steps);
            && mem == versions[|versions| - 1]
            && disk in versions
            && (!dirty ==> disk == mem)
  {
    var f := new Flusher(loaded);
    for i := 0 to |steps|
      invariant fresh(f) && f.Valid()
      invariant f.history == Versions(loaded, steps[..i])
    {
      assert steps[..i + 1][..i] == steps[..i];
      match steps[i] {
        case Change(records) =>
          f.Mutate(records);
        case Wake =>
          if f.phase.Resting? && f.wake {
            f.WakeUp();
          }
        case Begin(fromTimer) =>
          if f.phase.Resting? && (fromTimer ==> f.timer) {
            f.BeginFlush(fromTimer);
          }
        case Save(ok) =>
          if f.phase.Writing? {
            f.Write(ok);
          }
        case End =>
          if f.phase.Written? {
            f.EndFlush();
          }
      }
    }
    assert steps[..|steps|] == steps;
    return f.mem, f.disk, f.dirty;
  }

  /**
   * From any reachable state, once changes and failures stop, the wake channel and the timer
   * alone bring the file up to date: the ticker is needed for nothing but failures.
   */
  method Settle(f: Flusher)
    requires f.Valid()
    modifies f
    ensures f.Valid() && f.phase.Resting? && !f.dirty
    ensures f.disk == f.mem == old(f.mem)
  {
    if f.phase.Writing? {
      f.Write(true);
    }
    if f.phase.Written? {
      f.EndFlush();
    }
    if f.dirty {
      if f.wake {
        f.WakeUp();
      }
      f.BeginFlush(true);
      f.Write(true);
      f.EndFlush();
    }
  }
}
