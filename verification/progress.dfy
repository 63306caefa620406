/** The progress store: a process-wide map from task identifier to the state
    of that task's judging job, read by pollers and overwritten by the job. */
module Progress {
  import opened Optional
  import opened Verdict

  /** A job is either the placeholder written when the submission is accepted
      or the list of records judged so far. */
  datatype Job =
    | Started(current: int, total: int, progress: int)
    | Results(records: seq<TestRecord>)

  type Store = map<string, Job>

  /** The placeholder entry; its total is always 1, whatever the test file holds. */
  const Initial: Job := Started(0, 1, 0)

  /** `progress_status.get(task_id, {})`: `None` is the empty dictionary
      answered for an unknown identifier. */
  function Lookup(store: Store, id: string): (j: Option<Job>)
    ensures j.Some? <==> id in store
    ensures j.Some? ==> j.value == store[id]
  {
    if id in store then Some(store[id]) else None
  }

  /** Writes the placeholder for a newly accepted submission. */
  function Register(store: Store, id: string): (s: Store)
    ensures Lookup(s, id) == Some(Initial)
    ensures forall other | other != id :: Lookup(s, other) == Lookup(store, other)
  {
    store[id := Initial]
  }

  /** Overwrites a task's entry with the records judged so far. */
  function Publish(store: Store, id: string, records: seq<TestRecord>): (s: Store)
    ensures Lookup(s, id) == Some(Results(records))
    ensures forall other | other != id :: Lookup(s, other) == Lookup(store, other)
  {
    store[id := Results(records)]
  }

  /** Only the latest write to an entry is visible. */
  lemma {:induction false} PublishOverwrites(store: Store, id: string, a: seq<TestRecord>, b: seq<TestRecord>)
    ensures Publish(Publish(store, id, a), id, b) == Publish(store, id, b)
  {
  }
}
