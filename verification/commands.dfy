/** The four server-side scripts of src/commands.ts. Each runs atomically,
    so each is one transition of the store. Arguments arrive as text: the
    client turns a missing dedup key into "" and a number into its decimal
    form, so the scripts' `nil` checks never fire. */
module Commands {
  import opened Wrappers
  import opened Store
  import Defaults
  import Transformers

  /** The insert shared by `enqueue` and `requeue`: register the queue, then
      append unless a non-empty dedup key is already held. The reply is the
      new entry's id, or nil. */
  function Enqueue(s: Store, qkey: string, dedupSetKey: string, data: string, dedupKey: string, retryCount: string): (r: (Store, Option<string>))
    ensures qkey in Members(r.0, Defaults.QueueNames)
    ensures forall k :: k != Defaults.QueueNames && k != dedupSetKey ==> Members(r.0, k) == Members(s, k)
    ensures forall k :: k != qkey ==> StreamAt(r.0, k) == StreamAt(s, k)
    // which branch is taken
    ensures dedupKey == "" ==> r.1.Some?
    ensures dedupKey != "" && dedupKey in Members(s, dedupSetKey) ==> r.1 == None
    ensures dedupKey != "" && dedupKey !in Members(s, dedupSetKey) && dedupSetKey != Defaults.QueueNames ==> r.1.Some?
    // the dedup set
    ensures dedupKey != "" ==> dedupKey in Members(r.0, dedupSetKey)
    ensures dedupSetKey != Defaults.QueueNames ==>
              Members(r.0, dedupSetKey) == Members(s, dedupSetKey) + (if dedupKey == "" then {} else {dedupKey})
    // the stream
    ensures r.1.None? ==> StreamAt(r.0, qkey) == StreamAt(s, qkey)
    ensures r.1.Some? ==>
              var st := StreamAt(s, qkey);
              && r.1 == Some(IdText(st.lastId + 1))
              && StreamAt(r.0, qkey) == st.(lastId := st.lastId + 1,
                                            entries := st.entries + [Entry(st.lastId + 1, Fields(data, dedupKey, retryCount))])
  {
    var s1 := SAdd(s, Defaults.QueueNames, qkey);
    if dedupKey == "" then
      var (s2, id) := XAdd(s1, qkey, Fields(data, dedupKey, retryCount));
      (s2, Some(IdText(id)))
    else if dedupKey in Members(s1, dedupSetKey) then
      (s1, None)
    else
      var s2 := SAdd(s1, dedupSetKey, dedupKey);
      var (s3, id) := XAdd(s2, qkey, Fields(data, dedupKey, retryCount));
      (s3, Some(IdText(id)))
  }

  /** The `requeue` script: the insert of `enqueue`, then the original entry
      is acknowledged and deleted whatever the insert did. */
  function Requeue(s: Store, qkey: string, dedupSetKey: string, group: string, taskId: string,
                   data: string, dedupKey: string, retryCount: string): (r: (Store, Option<string>))
    ensures r.1 == Enqueue(s, qkey, dedupSetKey, data, dedupKey, retryCount).1
    ensures forall k :: Members(r.0, k) == Members(Enqueue(s, qkey, dedupSetKey, data, dedupKey, retryCount).0, k)
    ensures forall k :: k != qkey ==> StreamAt(r.0, k) == StreamAt(s, k)
    ensures ParseId(taskId).Some? ==>
              forall e :: e in StreamAt(r.0, qkey).entries ==> e.id != ParseId(taskId).value
    ensures ParseId(taskId).Some? && HasGroup(s, qkey, group) ==>
              HasGroup(r.0, qkey, group) && forall p :: p in GroupAt(r.0, qkey, group).pel ==> p.id != ParseId(taskId).value
    // only the acknowledged item leaves the pending list; the group is otherwise kept
    ensures ParseId(taskId).Some? && HasGroup(s, qkey, group) ==>
              && (forall p :: p in GroupAt(r.0, qkey, group).pel <==> p in GroupAt(s, qkey, group).pel && p.id != ParseId(taskId).value)
              && GroupAt(r.0, qkey, group).lastDelivered == GroupAt(s, qkey, group).lastDelivered
              && GroupAt(r.0, qkey, group).consumers == GroupAt(s, qkey, group).consumers
    ensures forall h :: h != group && HasGroup(s, qkey, h) ==> HasGroup(r.0, qkey, h) && GroupAt(r.0, qkey, h) == GroupAt(s, qkey, h)
    // the stream keeps every other entry and gains at most the inserted one
    ensures r.1.Some? && ParseId(taskId).Some? ==>
              forall e :: e in StreamAt(r.0, qkey).entries <==>
                (e in StreamAt(s, qkey).entries || e == Entry(StreamAt(s, qkey).lastId + 1, Fields(data, dedupKey, retryCount)))
                && e.id != ParseId(taskId).value
    // an entry that was already there when the script ran is the one deleted, never the new one
    ensures ParseId(taskId).Some? && ParseId(taskId).value <= StreamAt(s, qkey).lastId && r.1.Some? ==>
              Entry(StreamAt(s, qkey).lastId + 1, Fields(data, dedupKey, retryCount)) in StreamAt(r.0, qkey).entries
    ensures r.1.None? && ParseId(taskId).Some? ==>
              forall e :: e in StreamAt(r.0, qkey).entries <==> e in StreamAt(s, qkey).entries && e.id != ParseId(taskId).value
  {
    var (s1, reply) := Enqueue(s, qkey, dedupSetKey, data, dedupKey, retryCount);
    EnqueueKeepsGroups(s, qkey, dedupSetKey, data, dedupKey, retryCount);
    (AckThenDelete(s1, qkey, group, taskId), reply)
  }

  /** The insert leaves every consumer group as it was. */
  lemma EnqueueKeepsGroups(s: Store, qkey: string, dedupSetKey: string, data: string, dedupKey: string, retryCount: string)
    ensures var r := Enqueue(s, qkey, dedupSetKey, data, dedupKey, retryCount).0;
            forall h :: HasGroup(s, qkey, h) ==> HasGroup(r, qkey, h) && GroupAt(r, qkey, h) == GroupAt(s, qkey, h)
  {
  }

  /** XACK then XDEL of one id, the tail both `requeue` and `dequeue` end
      with: the id leaves the pending list and the stream, and nothing else
      in the store changes. */
  function AckThenDelete(s: Store, qkey: string, group: string, taskId: string): (r: Store)
    ensures r.sets == s.sets
    ensures forall k :: k != qkey ==> StreamAt(r, k) == StreamAt(s, k)
    ensures StreamAt(r, qkey).lastId == StreamAt(s, qkey).lastId
    ensures ParseId(taskId).Some? ==>
              forall e :: e in StreamAt(r, qkey).entries <==> e in StreamAt(s, qkey).entries && e.id != ParseId(taskId).value
    ensures ParseId(taskId).None? ==> r == s
    ensures forall h :: HasGroup(s, qkey, h) ==> HasGroup(r, qkey, h)
    ensures ParseId(taskId).Some? && HasGroup(s, qkey, group) ==>
              && HasGroup(r, qkey, group)
              && (forall p :: p in GroupAt(r, qkey, group).pel <==> p in GroupAt(s, qkey, group).pel && p.id != ParseId(taskId).value)
              && GroupAt(r, qkey, group).lastDelivered == GroupAt(s, qkey, group).lastDelivered
              && GroupAt(r, qkey, group).consumers == GroupAt(s, qkey, group).consumers
    ensures forall h :: h != group && HasGroup(s, qkey, h) ==> HasGroup(r, qkey, h) && GroupAt(r, qkey, h) == GroupAt(s, qkey, h)
  {
    var s2 := XAck(s, qkey, group, taskId);
    XDel(s2, qkey, taskId).0
  }

  /** A retry the `requeue` script refuses: a task that still holds its
      dedup key is acknowledged and deleted, nothing replaces it, and the
      key stays held with no entry left to release it. */
  lemma HeldKeyRequeueDropsTask(s: Store, qkey: string, dedupSetKey: string, group: string, taskId: string,
                                data: string, dedupKey: string, retryCount: string)
    requires dedupKey != "" && dedupKey in Members(s, dedupSetKey)
    requires ParseId(taskId).Some?
    ensures var r := Requeue(s, qkey, dedupSetKey, group, taskId, data, dedupKey, retryCount);
            && r.1 == None
            && dedupKey in Members(r.0, dedupSetKey)
            && (forall e :: e in StreamAt(r.0, qkey).entries <==> e in StreamAt(s, qkey).entries && e.id != ParseId(taskId).value)
            && (HasGroup(s, qkey, group) ==>
                  forall p :: p in GroupAt(r.0, qkey, group).pel ==> p.id != ParseId(taskId).value)
  {
  }

  /** `requeue` as evidently intended: the retry always goes back on the
      queue and keeps the dedup key held, then the original entry is
      acknowledged and deleted. The reply is the new entry's id. */
  function RequeueCorrected(s: Store, qkey: string, dedupSetKey: string, group: string, taskId: string,
                            data: string, dedupKey: string, retryCount: string): (r: (Store, string))
    ensures qkey in Members(r.0, Defaults.QueueNames)
    ensures dedupKey != "" ==> dedupKey in Members(r.0, dedupSetKey)
    ensures forall k :: k != Defaults.QueueNames && k != dedupSetKey ==> Members(r.0, k) == Members(s, k)
    ensures forall k :: k != qkey ==> StreamAt(r.0, k) == StreamAt(s, k)
    ensures r.1 == IdText(StreamAt(s, qkey).lastId + 1)
    ensures ParseId(taskId).Some? && ParseId(taskId).value <= StreamAt(s, qkey).lastId ==>
              forall e :: e in StreamAt(r.0, qkey).entries <==>
                (e in StreamAt(s, qkey).entries && e.id != ParseId(taskId).value)
                || e == Entry(StreamAt(s, qkey).lastId + 1, Fields(data, dedupKey, retryCount))
    ensures ParseId(taskId).Some? && HasGroup(s, qkey, group) ==>
              HasGroup(r.0, qkey, group) &&
              forall p :: p in GroupAt(r.0, qkey, group).pel <==> p in GroupAt(s, qkey, group).pel && p.id != ParseId(taskId).value
    // the only entry added is the copy, under the next id; the group only loses items
    ensures StreamAt(r.0, qkey).lastId == StreamAt(s, qkey).lastId + 1
    ensures forall e :: e in StreamAt(r.0, qkey).entries ==> e in StreamAt(s, qkey).entries || e.id == StreamAt(s, qkey).lastId + 1
    ensures HasGroup(s, qkey, group) ==>
              HasGroup(r.0, qkey, group) && forall p :: p in GroupAt(r.0, qkey, group).pel ==> p in GroupAt(s, qkey, group).pel
  {
    var (s1, id) := InsertHeld(s, qkey, dedupSetKey, data, dedupKey, retryCount);
    (AckThenDelete(s1, qkey, group, taskId), IdText(id))
  }

  /** The corrected insert: register the queue, hold the dedup key, append. */
  function InsertHeld(s: Store, qkey: string, dedupSetKey: string, data: string, dedupKey: string, retryCount: string)
    : (r: (Store, nat))
    ensures qkey in Members(r.0, Defaults.QueueNames)
    ensures dedupKey != "" ==> dedupKey in Members(r.0, dedupSetKey)
    ensures forall k :: k != Defaults.QueueNames && k != dedupSetKey ==> Members(r.0, k) == Members(s, k)
    ensures forall k :: k != qkey ==> StreamAt(r.0, k) == StreamAt(s, k)
    ensures r.1 == StreamAt(s, qkey).lastId + 1
    ensures StreamAt(r.0, qkey) == StreamAt(s, qkey).(lastId := r.1, entries := StreamAt(s, qkey).entries + [Entry(r.1, Fields(data, dedupKey, retryCount))])
    ensures forall h :: HasGroup(s, qkey, h) ==> HasGroup(r.0, qkey, h) && GroupAt(r.0, qkey, h) == GroupAt(s, qkey, h)
  {
    var s1 := SAdd(s, Defaults.QueueNames, qkey);
    var s2 := if dedupKey == "" then s1 else SAdd(s1, dedupSetKey, dedupKey);
    XAdd(s2, qkey, Fields(data, dedupKey, retryCount))
  }

  /** Without a dedup key the corrected script does what `requeue` does. */
  lemma RequeueCorrectedAgrees(s: Store, qkey: string, dedupSetKey: string, group: string, taskId: string,
                               data: string, retryCount: string)
    ensures var c := RequeueCorrected(s, qkey, dedupSetKey, group, taskId, data, "", retryCount);
            var w := Requeue(s, qkey, dedupSetKey, group, taskId, data, "", retryCount);
            c.0 == w.0 && w.1 == Some(c.1)
  {
  }

  /** The `dequeue` script: release the dedup key, then acknowledge and
      delete the entry; the reply is XDEL's count. */
  function Dequeue(s: Store, qkey: string, dedupSetKey: string, group: string, taskId: string, dedupKey: string): (r: (Store, nat))
    ensures dedupKey != "" ==> Members(r.0, dedupSetKey) == Members(s, dedupSetKey) - {dedupKey}
    ensures forall k :: dedupKey == "" || k != dedupSetKey ==> Members(r.0, k) == Members(s, k)
    ensures forall k :: k != qkey ==> StreamAt(r.0, k) == StreamAt(s, k)
    ensures ParseId(taskId).Some? ==>
              forall e :: e in StreamAt(r.0, qkey).entries <==> e in StreamAt(s, qkey).entries && e.id != ParseId(taskId).value
    ensures ParseId(taskId).Some? && HasGroup(s, qkey, group) ==>
              HasGroup(r.0, qkey, group) &&
              forall p :: p in GroupAt(r.0, qkey, group).pel <==> p in GroupAt(s, qkey, group).pel && p.id != ParseId(taskId).value
    ensures r.1 > 0 <==> ParseId(taskId).Some? && exists e :: e in StreamAt(s, qkey).entries && e.id == ParseId(taskId).value
    ensures ParseId(taskId).None? ==> r.0.streams == s.streams
    // nothing is added: the last id stays and the group only loses items
    ensures StreamAt(r.0, qkey).lastId == StreamAt(s, qkey).lastId
    ensures forall e :: e in StreamAt(r.0, qkey).entries ==> e in StreamAt(s, qkey).entries
    ensures HasGroup(s, qkey, group) ==>
              HasGroup(r.0, qkey, group) && forall p :: p in GroupAt(r.0, qkey, group).pel ==> p in GroupAt(s, qkey, group).pel
  {
    var s1 := if dedupKey != "" && dedupKey in Members(s, dedupSetKey) then SRem(s, dedupSetKey, dedupKey) else s;
    var s2 := XAck(s1, qkey, group, taskId);
    XDel(s2, qkey, taskId)
  }

  /** The Lua table the `delconsumer` script builds: consumer name to its
      XINFO record, a later record with the same name replacing an earlier. */
  function ConsumerMap(stats: seq<ConsumerStat>): map<string, ConsumerStat> {
    Transformers.Assign(seq(|stats|, i requires 0 <= i < |stats| => (stats[i].name, stats[i])))
  }

  /** The table lists exactly the registered consumers, each with its true
      pending count. */
  lemma ConsumerMapOfStats(g: Group, name: string)
    ensures var m := ConsumerMap(Stats(g, g.consumers));
            && (name in m <==> name in Names(g.consumers))
            && (name in m ==> m[name].pending == PendingCount(g, name))
  {
    var stats := Stats(g, g.consumers);
    var pairs := seq(|stats|, i requires 0 <= i < |stats| => (stats[i].name, stats[i]));
    var m := Transformers.Assign(pairs);
    Transformers.AssignLastWins(pairs, name);
    if name in m {
      Transformers.AssignFrom(pairs, name);
      var j :| 0 <= j < |pairs| && pairs[j] == (name, m[name]);
      assert g.consumers[j] in g.consumers;
    }
    if name in Names(g.consumers) {
      var x :| x in g.consumers && x.name == name;
      var i :| 0 <= i < |g.consumers| && g.consumers[i] == x;
      assert pairs[i].0 == name;
    }
  }

  /** The `delconsumer` script: XINFO CONSUMERS, then delete the consumer
      only when it is listed with no pending entries. XINFO fails on a
      missing key or group, and so does the script. */
  function DelConsumer(s: Store, qkey: string, group: string, name: string): (r: Result<Store, StoreError>)
    ensures r.Success? <==> HasGroup(s, qkey, group)
    ensures r.Success? ==> HasGroup(r.value, qkey, group)
    ensures r.Success? ==> StreamAt(r.value, qkey).entries == StreamAt(s, qkey).entries
    ensures r.Success? ==> StreamAt(r.value, qkey).lastId == StreamAt(s, qkey).lastId
    ensures r.Success? ==> forall k :: k != qkey ==> StreamAt(r.value, k) == StreamAt(s, k)
    ensures r.Success? ==> r.value.sets == s.sets
    // nothing pending is ever lost
    ensures r.Success? ==> GroupAt(r.value, qkey, group).pel == GroupAt(s, qkey, group).pel
    ensures r.Success? ==>
              var g := GroupAt(s, qkey, group);
              if name in Names(g.consumers) && PendingCount(g, name) == 0
              then
                && Names(GroupAt(r.value, qkey, group).consumers) == Names(g.consumers) - {name}
                // only the registration goes: the other registrations, the pending
                // list, the delivery mark and the other groups are kept
                && GroupAt(r.value, qkey, group) == g.(consumers := GroupAt(r.value, qkey, group).consumers)
                && (forall x :: x in GroupAt(r.value, qkey, group).consumers <==> x in g.consumers && x.name != name)
                && StreamAt(r.value, qkey).lastId == StreamAt(s, qkey).lastId
                && (forall h :: h != group && HasGroup(s, qkey, h) ==> HasGroup(r.value, qkey, h) && GroupAt(r.value, qkey, h) == GroupAt(s, qkey, h))
              else r.value == s
  {
    var stats :- XInfoConsumers(s, qkey, group);
    var consumers := ConsumerMap(stats);
    ConsumerMapOfStats(GroupAt(s, qkey, group), name);
    PendingCountZero(GroupAt(s, qkey, group).pel, name);
    if name in consumers && consumers[name].pending == 0 then
      Success(XGroupDelConsumer(s, qkey, group, name))
    else
      Success(s)
  }

  // -----------------------------------------------------------------------
  // Dedup exclusivity across any sequence of script runs

  /** One run of a script with its keys and arguments. */
  datatype Script =
    | EnqueueRun(qkey: string, dedupSetKey: string, data: string, dedupKey: string, retryCount: string)
    | RequeueRun(qkey: string, dedupSetKey: string, group: string, taskId: string, data: string, dedupKey: string, retryCount: string)
    | DequeueRun(qkey: string, dedupSetKey: string, group: string, taskId: string, dedupKey: string)
    | DelConsumerRun(qkey: string, group: string, name: string)

  /** A script's effect; a script that fails leaves the store as it was. */
  function Apply(s: Store, op: Script): Store {
    match op
    case EnqueueRun(q, d, data, k, c) => Enqueue(s, q, d, data, k, c).0
    case RequeueRun(q, d, g, id, data, k, c) => Requeue(s, q, d, g, id, data, k, c).0
    case DequeueRun(q, d, g, id, k) => Dequeue(s, q, d, g, id, k).0
    case DelConsumerRun(q, g, n) => match DelConsumer(s, q, g, n) case Success(s') => s' case Failure(_) => s
  }

  function Run(s: Store, ops: seq<Script>): Store
    decreases |ops|
  {
    if ops == [] then s else Run(Apply(s, ops[0]), ops[1..])
  }

  /** The only script that gives a dedup key back. */
  predicate Releases(op: Script, dedupSetKey: string, dedupKey: string) {
    op.DequeueRun? && op.dedupSetKey == dedupSetKey && op.dedupKey == dedupKey
  }

  /** A held key stays held until a `dequeue` of that key. */
  lemma {:induction false} HeldUntilReleased(s: Store, ops: seq<Script>, dedupSetKey: string, dedupKey: string)
    requires dedupKey in Members(s, dedupSetKey)
    requires forall i :: 0 <= i < |ops| ==> !Releases(ops[i], dedupSetKey, dedupKey)
    ensures dedupKey in Members(Run(s, ops), dedupSetKey)
    decreases |ops|
  {
    if ops != [] {
      var s1 := Apply(s, ops[0]);
      match ops[0] {
        case EnqueueRun(q, d, data, k, c) =>
        case RequeueRun(q, d, g, id, data, k, c) =>
          assert dedupKey in Members(Enqueue(s, q, d, data, k, c).0, dedupSetKey);
        case DequeueRun(q, d, g, id, k) =>
        case DelConsumerRun(q, g, n) =>
      }
      assert dedupKey in Members(s1, dedupSetKey);
      HeldUntilReleased(s1, ops[1..], dedupSetKey, dedupKey);
    }
  }

  /** Once an `enqueue` with a non-empty dedup key succeeds, every later
      `enqueue` with that key, into any queue, answers nil until a
      `dequeue` releases the key. */
  lemma DedupExclusive(s: Store, qkey: string, dedupSetKey: string, data: string, dedupKey: string, retryCount: string,
                       ops: seq<Script>, qkey': string, data': string, retryCount': string)
    requires dedupKey != ""
    requires Enqueue(s, qkey, dedupSetKey, data, dedupKey, retryCount).1.Some?
    requires forall i :: 0 <= i < |ops| ==> !Releases(ops[i], dedupSetKey, dedupKey)
    ensures Enqueue(Run(Enqueue(s, qkey, dedupSetKey, data, dedupKey, retryCount).0, ops),
                    qkey', dedupSetKey, data', dedupKey, retryCount').1 == None
  {
    HeldUntilReleased(Enqueue(s, qkey, dedupSetKey, data, dedupKey, retryCount).0, ops, dedupSetKey, dedupKey);
  }

  /** A `dequeue` of the key lets the next `enqueue` with it through again. */
  lemma ReleasedKeyEnqueues(s: Store, qkey: string, dedupSetKey: string, group: string, taskId: string,
                            dedupKey: string, data: string, retryCount: string)
    requires dedupKey != "" && dedupSetKey != Defaults.QueueNames
    ensures Enqueue(Dequeue(s, qkey, dedupSetKey, group, taskId, dedupKey).0, qkey, dedupSetKey, data, dedupKey, retryCount).1.Some?
  {
  }
}
