/** `CapacitorValueMatcher.save_checkpoint` and `load_checkpoint`: the
    run's progress (`processed_rows` and the matched and unmatched result
    lists) written to, and read back from, three files in the output
    directory. The files are modelled as three slots of an abstract store;
    a slot is missing (the file does not exist), unreadable (opening or
    decoding it raises) or holds what was last written to it. */
module Checkpointing {
  import opened Wrappers

  datatype Slot<T> = Missing | Unreadable | Stored(content: T)

  /** The metadata file `checkpoint.json`. `processed_rows` may be absent
      from a file written by someone else; the timestamp is not modelled. */
  datatype CheckpointRecord = CheckpointRecord(processedRows: Option<int>, matchedCount: int, unmatchedCount: int)

  /** The three files: `checkpoint.json`, `matched_temp.pkl` and
      `unmatched_temp.pkl`. */
  datatype Store<R> = Store(checkpoint: Slot<CheckpointRecord>, matchedTemp: Slot<seq<R>>, unmatchedTemp: Slot<seq<R>>)

  /** The fields of the matcher that a checkpoint saves and restores. */
  datatype RunState<R> = RunState(processedRows: int, matched: seq<R>, unmatched: seq<R>)

  /** What `save_checkpoint` leaves in the three files. */
  function Saved<R>(s: RunState<R>): Store<R> {
    Store(Stored(CheckpointRecord(Some(s.processedRows), |s.matched|, |s.unmatched|)),
          Stored(s.matched), Stored(s.unmatched))
  }

  /** Reading one payload file: its content when it exists, the list as
      it was when it does not, and nothing when reading it raises. */
  function ReadPayload<T>(current: T, slot: Slot<T>): (r: Option<T>)
    ensures r.None? <==> slot.Unreadable?
  {
    match slot
    case Missing => Some(current)
    case Unreadable => None
    case Stored(content) => Some(content)
  }

  /** What `load_checkpoint` returns and the state it leaves, step by step:
      no readable metadata changes nothing; otherwise `processed_rows` is
      taken from it at once (0 when absent), then each payload that exists
      replaces its list, and an unreadable one stops the load with `False`
      and whatever was restored so far. */
  function Load<R>(s: RunState<R>, store: Store<R>): (bool, RunState<R>) {
    match store.checkpoint
    case Missing => (false, s)
    case Unreadable => (false, s)
    case Stored(rec) =>
      var counted := s.(processedRows := rec.processedRows.GetOr(0));
      match ReadPayload(s.matched, store.matchedTemp)
      case None => (false, counted)
      case Some(matched) =>
        match ReadPayload(s.unmatched, store.unmatchedTemp)
        case None => (false, counted.(matched := matched))
        case Some(unmatched) => (true, counted.(matched := matched, unmatched := unmatched))
  }

  /** The three files of one output directory. */
  class CheckpointFiles<R> {
    var checkpoint: Slot<CheckpointRecord>
    var matchedTemp: Slot<seq<R>>
    var unmatchedTemp: Slot<seq<R>>

    constructor (initial: Store<R>)
      ensures Contents() == initial
    {
      checkpoint := initial.checkpoint;
      matchedTemp := initial.matchedTemp;
      unmatchedTemp := initial.unmatchedTemp;
    }

    function Contents(): Store<R>
      reads this
    {
      Store(checkpoint, matchedTemp, unmatchedTemp)
    }
  }

  /** The checkpointing part of the matcher object: its progress fields and
      the files of its output directory. */
  class CapacitorValueMatcher<R> {
    var processedRows: int
    var matchedResults: seq<R>
    var unmatchedResults: seq<R>
    const files: CheckpointFiles<R>

    function State(): RunState<R>
      reads this
    {
      RunState(processedRows, matchedResults, unmatchedResults)
    }

    /** `__init__`: nothing processed and no results yet. */
    constructor (files: CheckpointFiles<R>)
      ensures State() == RunState(0, [], []) && this.files == files
    {
      this.files := files;
      processedRows := 0;
      matchedResults := [];
      unmatchedResults := [];
    }

    /** `save_checkpoint`: overwrites the metadata, then both payloads. */
    method SaveCheckpoint()
      modifies files
      ensures files.Contents() == Saved(State())
      ensures State() == old(State())
    {
      files.checkpoint := Stored(CheckpointRecord(Some(processedRows), |matchedResults|, |unmatchedResults|));
      files.matchedTemp := Stored(matchedResults);
      files.unmatchedTemp := Stored(unmatchedResults);
    }

    /** `load_checkpoint`: every exception after the metadata is found ends
        the load with `False`, keeping what was assigned before it. */
    method LoadCheckpoint() returns (ok: bool)
      modifies this
      ensures (ok, State()) == Load(old(State()), files.Contents())
    {
      if !files.checkpoint.Stored? {
        return false;
      }
      processedRows := files.checkpoint.content.processedRows.GetOr(0);
      if files.matchedTemp.Unreadable? {
        return false;
      }
      if files.matchedTemp.Stored? {
        matchedResults := files.matchedTemp.content;
      }
      if files.unmatchedTemp.Unreadable? {
        return false;
      }
      if files.unmatchedTemp.Stored? {
        unmatchedResults := files.unmatchedTemp.content;
      }
      return true;
    }
  }

  /** Resuming: a matcher that saves a checkpoint, and then a matcher over
      the same output directory (typically a fresh one after a restart)
      that loads it, ends with the loading one holding exactly the saved
      progress. */
  method ResumeAfterSave<R>(running: CapacitorValueMatcher<R>, resumed: CapacitorValueMatcher<R>) returns (ok: bool)
    requires resumed.files == running.files
    modifies running.files, resumed
    ensures ok && resumed.State() == old(running.State())
  {
    running.SaveCheckpoint();
    ok := resumed.LoadCheckpoint();
    LoadAfterSave(old(resumed.State()), old(running.State()));
  }

  /** After a save, a load succeeds and restores exactly the saved state,
      whatever the state it starts from. */
  lemma LoadAfterSave<R>(before: RunState<R>, s: RunState<R>)
    ensures Load(before, Saved(s)) == (true, s)
  {
  }

  /** The counts saved in the metadata are the lengths of the saved lists,
      so a state whose lists account for every processed row is saved with
      counts that add up to `processed_rows`. */
  lemma SavedCounts<R>(s: RunState<R>)
    ensures Saved(s).checkpoint.Stored?
    ensures Saved(s).checkpoint.content.matchedCount == |s.matched|
    ensures Saved(s).checkpoint.content.unmatchedCount == |s.unmatched|
    ensures |s.matched| + |s.unmatched| == s.processedRows ==>
              Saved(s).checkpoint.content.matchedCount + Saved(s).checkpoint.content.unmatchedCount
                == Saved(s).checkpoint.content.processedRows.value
  {
  }

  /** The load succeeds exactly when the metadata is readable and neither
      payload is unreadable; `processed_rows` comes from readable metadata,
      and a list is replaced only by a payload that was read. */
  lemma LoadOutcome<R>(s: RunState<R>, store: Store<R>)
    ensures Load(s, store).0 <==>
              store.checkpoint.Stored? && !store.matchedTemp.Unreadable? && !store.unmatchedTemp.Unreadable?
    ensures Load(s, store).1.processedRows ==
              if store.checkpoint.Stored? then store.checkpoint.content.processedRows.GetOr(0) else s.processedRows
    ensures Load(s, store).1.matched ==
              if store.checkpoint.Stored? && store.matchedTemp.Stored? then store.matchedTemp.content else s.matched
    ensures Load(s, store).1.unmatched ==
              if Load(s, store).0 && store.unmatchedTemp.Stored? then store.unmatchedTemp.content else s.unmatched
  {
  }

  /** Without readable metadata the load fails and changes nothing. */
  lemma LoadWithoutCheckpoint<R>(s: RunState<R>, store: Store<R>)
    requires !store.checkpoint.Stored?
    ensures Load(s, store) == (false, s)
  {
  }

  /** A payload file that does not exist leaves its list as it was, and the
      load still succeeds when everything else is readable. */
  lemma MissingPayloadKeepsList<R>(s: RunState<R>, store: Store<R>)
    requires store.checkpoint.Stored?
    requires store.matchedTemp.Missing? || store.unmatchedTemp.Missing?
    requires !store.matchedTemp.Unreadable? && !store.unmatchedTemp.Unreadable?
    ensures Load(s, store).0
    ensures store.matchedTemp.Missing? ==> Load(s, store).1.matched == s.matched
    ensures store.unmatchedTemp.Missing? ==> Load(s, store).1.unmatched == s.unmatched
  {
  }

  /** A failing load is not always harmless: once the metadata is read, an
      unreadable payload makes the load fail with `processed_rows` already
      replaced, while the results stay as they were. */
  lemma FailedLoadKeepsCount<R>(s: RunState<R>, rec: CheckpointRecord, unmatchedTemp: Slot<seq<R>>)
    ensures Load(s, Store(Stored(rec), Unreadable, unmatchedTemp)) ==
              (false, RunState(rec.processedRows.GetOr(0), s.matched, s.unmatched))
  {
  }

  /** Loading the same files twice is loading them once. */
  lemma LoadTwice<R>(s: RunState<R>, store: Store<R>)
    ensures Load(Load(s, store).1, store) == Load(s, store)
  {
  }
}
