/** `Producer.addTask` of src/producer.ts: one `enqueue` run against the
    queue's namespaced stream and dedup set. */
module Producer {
  import opened Wrappers
  import opened Store
  import opened Payload
  import Defaults
  import Commands

  /** How the client sends an optional text argument: a missing value
      becomes the empty string. */
  function ArgText(v: Option<string>): string {
    if v.None? then "" else v.value
  }

  /** `addTask(data, dedupKey)`; `encode` is `JSON.stringify`. */
  function AddTask(s: Store, qname: string, data: Json, dedupKey: Option<string>, encode: Json -> string): (r: (Store, Option<string>))
    // the reply of the script is handed back as it is
    ensures r == Commands.Enqueue(s, Defaults.QueueKey(qname), Defaults.DedupSetKey(qname), encode(data), ArgText(dedupKey), "0")
    // only the queue's own stream changes, and a new entry always starts at retry 0
    ensures forall k :: k != Defaults.QueueKey(qname) ==> StreamAt(r.0, k) == StreamAt(s, k)
    ensures r.1.Some? ==>
              var st := StreamAt(s, Defaults.QueueKey(qname));
              StreamAt(r.0, Defaults.QueueKey(qname)).entries
                == st.entries + [Entry(st.lastId + 1, Fields(encode(data), ArgText(dedupKey), "0"))]
    ensures Defaults.QueueKey(qname) in Members(r.0, Defaults.QueueNames)
  {
    Commands.Enqueue(s, Defaults.QueueKey(qname), Defaults.DedupSetKey(qname), encode(data), ArgText(dedupKey), "0")
  }

  /** The queue's dedup set is never the global queue-names set. */
  lemma DedupSetIsNotQueueNames(qname: string)
    ensures Defaults.DedupSetKey(qname) != Defaults.QueueNames
  {
    assert Defaults.DedupSetKey(qname)[8] == 'q';
    assert Defaults.QueueNames[8] == '_';
  }

  /** Without a dedup key, or with one nobody holds, a task is always added
      and its id returned. */
  lemma AddTaskReturnsId(s: Store, qname: string, data: Json, dedupKey: Option<string>, encode: Json -> string)
    requires dedupKey.None? || ArgText(dedupKey) == "" || ArgText(dedupKey) !in Members(s, Defaults.DedupSetKey(qname))
    ensures AddTask(s, qname, data, dedupKey, encode).1 == Some(IdText(StreamAt(s, Defaults.QueueKey(qname)).lastId + 1))
  {
    DedupSetIsNotQueueNames(qname);
  }

  /** A second task with the same non-empty dedup key is refused with nil,
      whatever its data, and leaves the stream as it was. */
  lemma SecondAddWithSameKeyIsNil(s: Store, qname: string, data1: Json, data2: Json, key: string, encode: Json -> string)
    requires key != ""
    ensures var s1 := AddTask(s, qname, data1, Some(key), encode).0;
            var r2 := AddTask(s1, qname, data2, Some(key), encode);
            r2.1 == None && StreamAt(r2.0, Defaults.QueueKey(qname)) == StreamAt(s1, Defaults.QueueKey(qname))
  {
  }
}
