/** One consumer unit of src/consumer-unit.ts: a named reader of the
    queue's consumer group that cleans up, reads its own pending entries,
    waits for a new one when it has none, and runs the handler on each
    task, recording the outcome. */
module ConsumerUnit {
  import opened Wrappers
  import opened Resp
  import opened Store
  import opened Payload
  import opened TaskModel
  import opened Outcomes
  import Defaults
  import Decimal
  import Transformers
  import Commands
  import Cleanup

  /** The consumer options a unit reads. */
  datatype Config = Config(workerFnTimeoutMs: int, taskBufferSize: int, maxRetry: int)

  /** The loop flags, and how many invocations of the processing loop are
      running. */
  datatype Control = Control(paused: bool, loopStarted: bool, loops: nat)

  datatype Unit = Unit(qname: string, name: string, config: Config, control: Control,
                       pendingTasks: seq<Task>, totalTasks: nat)
  {
    function QKey(): string { Defaults.QueueKey(qname) }
    function DedupSet(): string { Defaults.DedupSetKey(qname) }
    function GroupName(): string { Defaults.GroupName(qname) }
  }

  /** The store and the outcome lists. */
  datatype World = World(store: Store, lists: Lists)

  /** Why a round of the loop stops with an exception. */
  datatype UnitError =
    | StoreFailed(storeError: StoreError)
    | ReplyFailed(jsError: JsError)
    | BadTask(taskError: TaskError)

  /** Redis reads a negative COUNT as 0, which sets no limit. */
  function Count(n: int): nat {
    if n < 0 then 0 else n
  }

  // ---------------------------------------------------------------------
  // Reading the unit's own pending entries

  /** `new Task(t.id, t.data)` for every message; the first failure throws. */
  function TasksOf(messages: seq<Transformers.Message>, decode: string -> Option<Json>): (r: Result<seq<Task>, TaskError>)
    ensures r.Success? <==> forall i :: 0 <= i < |messages| ==> New(messages[i].id, messages[i].data, decode).Success?
    ensures r.Success? ==> |r.value| == |messages|
    ensures r.Success? ==> forall i :: 0 <= i < |messages| ==> Success(r.value[i]) == New(messages[i].id, messages[i].data, decode)
    decreases |messages|
  {
    if messages == [] then Success([])
    else
      match New(messages[0].id, messages[0].data, decode)
      case Failure(e) => Failure(e)
      case Success(head) =>
        match TasksOf(messages[1..], decode)
        case Failure(e) => Failure(e)
        case Success(tail) =>
          assert forall i :: 1 <= i < |messages| ==> messages[i] == messages[1..][i - 1];
          Success([head] + tail)
  }

  /** `[].concat(...Object.values(taskObj))`: the reply names only the
      queue's stream, so its values are that stream's messages;
      `Object.values` of nil throws. */
  function StreamValues(parsed: Transformers.StreamReply, qkey: string): Result<seq<Transformers.Message>, JsError> {
    match parsed
    case PassedThrough(_) => Failure(ReadOfNull)
    case Streams(byName) => Success(if qkey in byName then byName[qkey] else [])
  }

  /** `_getPendingTasks()`: XREADGROUP ... STREAMS key 0 for at most
      `taskBufferSize` of the unit's pending entries, each appended to the
      buffer as a task; the count is the number read. Once the read has
      reached the server its effect stays, even when the reply then fails
      to parse into tasks: a failure carries the store as it is left. */
  function GetPendingTasks(u: Unit, s: Store, decode: string -> Option<Json>)
    : (r: Result<(Store, Unit, nat), (UnitError, Store)>)
    ensures !HasGroup(s, u.QKey(), u.GroupName()) ==> r.Failure? && r.error.1 == s
    ensures r.Success? ==>
              var (s', u', n) := r.value;
              && u' == u.(pendingTasks := u'.pendingTasks)
              && |u'.pendingTasks| == |u.pendingTasks| + n
              && u'.pendingTasks[..|u.pendingTasks|] == u.pendingTasks
              && n <= |Owned(GroupAt(s, u.QKey(), u.GroupName()).pel, u.name)|
              && (Count(u.config.taskBufferSize) > 0 ==> n <= Count(u.config.taskBufferSize))
    // every task read names one of the unit's own pending entries
    ensures r.Success? ==>
              forall i :: |u.pendingTasks| <= i < |r.value.1.pendingTasks| ==>
                NamedBy(r.value.1.pendingTasks[i], Owned(GroupAt(s, u.QKey(), u.GroupName()).pel, u.name))
    // the read only registers the unit and delivers its entries again
    ensures var s' := if r.Success? then r.value.0 else r.error.1;
            && s'.sets == s.sets
            && (forall k :: StreamAt(s', k).entries == StreamAt(s, k).entries && StreamAt(s', k).lastId == StreamAt(s, k).lastId)
            && (HasGroup(s, u.QKey(), u.GroupName()) ==>
                  var g := GroupAt(s, u.QKey(), u.GroupName());
                  && HasGroup(s', u.QKey(), u.GroupName())
                  && GroupAt(s', u.QKey(), u.GroupName()).lastDelivered == g.lastDelivered
                  && u.name in Names(GroupAt(s', u.QKey(), u.GroupName()).consumers)
                  && GroupAt(s', u.QKey(), u.GroupName()).pel
                       == Redeliver(g.pel, u.name, Count(u.config.taskBufferSize), StreamAt(s, u.QKey()).entries))
  {
    HistoryReadStore(u, s);
    match XReadGroupHistory(s, u.QKey(), u.GroupName(), u.name, Count(u.config.taskBufferSize))
    case Failure(e) => Failure((StoreFailed(e), s))
    case Success((s1, reply)) =>
      match HistoryTasks(reply, u.QKey(), decode)
      case Failure(e) => Failure((e, s1))
      case Success(tasks) =>
        HistoryTasksFromOwn(u, s, decode);
        Success((s1, u.(pendingTasks := u.pendingTasks + tasks), |tasks|))
  }

  /** The store the history read leaves, as the unit sees it. */
  lemma HistoryReadStore(u: Unit, s: Store)
    ensures HasGroup(s, u.QKey(), u.GroupName()) ==>
              var g := GroupAt(s, u.QKey(), u.GroupName());
              var s' := XReadGroupHistory(s, u.QKey(), u.GroupName(), u.name, Count(u.config.taskBufferSize)).value.0;
              && s'.sets == s.sets
              && (forall k :: StreamAt(s', k).entries == StreamAt(s, k).entries && StreamAt(s', k).lastId == StreamAt(s, k).lastId)
              && HasGroup(s', u.QKey(), u.GroupName())
              && GroupAt(s', u.QKey(), u.GroupName()).lastDelivered == g.lastDelivered
              && u.name in Names(GroupAt(s', u.QKey(), u.GroupName()).consumers)
              && GroupAt(s', u.QKey(), u.GroupName()).pel
                   == Redeliver(g.pel, u.name, Count(u.config.taskBufferSize), StreamAt(s, u.QKey()).entries)
  {
  }

  /** The history reply turned into tasks: parsed, the queue's messages
      taken out, and each built into a task. */
  function HistoryTasks(reply: Reply, qkey: string, decode: string -> Option<Json>): Result<seq<Task>, UnitError> {
    match Transformers.ParseStreamResponse(Some(reply))
    case Failure(e) => Failure(ReplyFailed(e))
    case Success(parsed) =>
      match StreamValues(parsed, qkey)
      case Failure(e) => Failure(ReplyFailed(e))
      case Success(messages) =>
        match TasksOf(messages, decode)
        case Failure(e) => Failure(BadTask(e))
        case Success(tasks) => Success(tasks)
  }

  /** What the history read returns becomes tasks named by the unit's own
      pending entries, at most one buffer's worth. */
  lemma HistoryTasksFromOwn(u: Unit, s: Store, decode: string -> Option<Json>)
    requires HasGroup(s, u.QKey(), u.GroupName())
    ensures var reply := XReadGroupHistory(s, u.QKey(), u.GroupName(), u.name, Count(u.config.taskBufferSize)).value.1;
            var r := HistoryTasks(reply, u.QKey(), decode);
            var mine := Owned(GroupAt(s, u.QKey(), u.GroupName()).pel, u.name);
            r.Success? ==>
              && |r.value| <= |mine|
              && (Count(u.config.taskBufferSize) > 0 ==> |r.value| <= Count(u.config.taskBufferSize))
              && var buffer := u.pendingTasks + r.value;
                 forall i :: |u.pendingTasks| <= i < |buffer| ==> NamedBy(buffer[i], mine)
  {
    var reply := XReadGroupHistory(s, u.QKey(), u.GroupName(), u.name, Count(u.config.taskBufferSize)).value.1;
    HistoryMessages(s, u.QKey(), u.GroupName(), u.name, Count(u.config.taskBufferSize));
    var messages := StreamValues(Transformers.ParseStreamResponse(Some(reply)).value, u.QKey()).value;
    if TasksOf(messages, decode).Success? {
      TasksFromOwn(u, s, messages, decode);
      AppendedNamed(u.pendingTasks, TasksOf(messages, decode).value, Owned(GroupAt(s, u.QKey(), u.GroupName()).pel, u.name));
    }
  }

  /** The task carries the id of one of these pending entries. */
  predicate NamedBy(t: Task, mine: seq<Pending>) {
    exists p :: p in mine && t.id == Bulk(IdText(p.id))
  }

  lemma AppendedNamed(buffered: seq<Task>, tasks: seq<Task>, mine: seq<Pending>)
    requires forall i :: 0 <= i < |tasks| ==> NamedBy(tasks[i], mine)
    ensures var buffer := buffered + tasks;
            forall i :: |buffered| <= i < |buffer| ==> NamedBy(buffer[i], mine)
  {
    var buffer := buffered + tasks;
    forall i | |buffered| <= i < |buffer| ensures NamedBy(buffer[i], mine) {
      assert buffer[i] == tasks[i - |buffered|];
    }
  }

  /** The tasks built from the history reply carry the ids of the unit's
      own pending entries. */
  lemma TasksFromOwn(u: Unit, s: Store, messages: seq<Transformers.Message>, decode: string -> Option<Json>)
    requires HasGroup(s, u.QKey(), u.GroupName())
    requires var mine := Take(Owned(GroupAt(s, u.QKey(), u.GroupName()).pel, u.name), Count(u.config.taskBufferSize));
             && |messages| == |mine|
             && forall i :: 0 <= i < |mine| ==> messages[i].id == Some(Bulk(IdText(mine[i].id)))
    requires TasksOf(messages, decode).Success?
    ensures var tasks := TasksOf(messages, decode).value;
            forall i :: 0 <= i < |tasks| ==>
              NamedBy(tasks[i], Owned(GroupAt(s, u.QKey(), u.GroupName()).pel, u.name))
  {
    var mine := Take(Owned(GroupAt(s, u.QKey(), u.GroupName()).pel, u.name), Count(u.config.taskBufferSize));
    var tasks := TasksOf(messages, decode).value;
    forall i | 0 <= i < |tasks|
      ensures NamedBy(tasks[i], Owned(GroupAt(s, u.QKey(), u.GroupName()).pel, u.name))
    {
      assert Success(tasks[i]) == New(messages[i].id, messages[i].data, decode);
      assert mine[i] in Owned(GroupAt(s, u.QKey(), u.GroupName()).pel, u.name);
    }
  }

  /** The history reply parses into one message per entry read. */
  lemma HistoryMessages(s: Store, key: string, group: string, name: string, count: nat)
    requires HasGroup(s, key, group)
    ensures var reply := XReadGroupHistory(s, key, group, name, count).value.1;
            var mine := Take(Owned(GroupAt(s, key, group).pel, name), count);
            var parsed := Transformers.ParseStreamResponse(Some(reply));
            && parsed.Success?
            && StreamValues(parsed.value, key).Success?
            && var messages := StreamValues(parsed.value, key).value;
               && |messages| == |mine|
               && forall i :: 0 <= i < |mine| ==>
                    messages[i] == Transformers.Message(Some(Bulk(IdText(mine[i].id))),
                                                         Transformers.ParseObjectResponse(At(MessageReply(s.streams[key].entries, mine[i].id), 1)))
  {
    var mine := Take(Owned(GroupAt(s, key, group).pel, name), count);
    var msgs := seq(|mine|, i requires 0 <= i < |mine| => MessageReply(s.streams[key].entries, mine[i].id));
    var stream := Array([Bulk(key), Array(msgs)]);
    assert XReadGroupHistory(s, key, group, name, count).value.1 == Array([stream]);
    var messages := Transformers.ParseMessages(msgs);
    assert forall i :: 0 <= i < |msgs| ==> msgs[i].Array?;
    assert messages.Success?;
    assert At(stream, 1) == Some(Array(msgs)) && SlotText(At(stream, 0)) == key;
    assert Transformers.ParseMessageResponse(At(stream, 1)) == messages;
    assert [stream][1..] == [];
    assert Transformers.StreamPairs([]) == Success([]);
    assert !stream.Nil? && [stream][0] == stream;
    var pairs := Transformers.StreamPairs([stream]);
    assert pairs.Success?;
    assert pairs.value[0] == (key, messages.value);
    assert pairs.value == [(key, messages.value)];
    assert [(key, messages.value)][..0] == [];
    assert Transformers.Assign([(key, messages.value)]) == map[key := messages.value];
  }

  /** A stored entry the task schema accepts: decodable data and a retry
      count written in decimal digits, within the safe-integer range. */
  predicate Readable(f: Fields, decode: string -> Option<Json>) {
    && decode(f.data).Some? && |f.retryCount| >= 1 && Decimal.AllDigits(f.retryCount)
    && Decimal.Value(f.retryCount) <= MaxSafeInteger
  }

  /** The task an entry reads back as. */
  function TaskOfEntry(id: nat, f: Fields, decode: string -> Option<Json>): Task
    requires Readable(f, decode)
  {
    Task(Bulk(IdText(id)), f.data, decode(f.data).value, f.dedupKey, Decimal.Value(f.retryCount))
  }

  lemma FieldsObject(f: Fields)
    ensures Transformers.ParseObjectResponse(Some(FieldsReply(f)))
              == Transformers.Object(map["data" := Some(Bulk(f.data)), "dedupKey" := Some(Bulk(f.dedupKey)),
                                         "retryCount" := Some(Bulk(f.retryCount))])
  {
    var pairs := Transformers.FieldPairs(FieldsReply(f).items);
    assert pairs == [("data", Some(Bulk(f.data))), ("dedupKey", Some(Bulk(f.dedupKey))), ("retryCount", Some(Bulk(f.retryCount)))];
    var m1 := map["data" := Some(Bulk(f.data))];
    var m2 := m1["dedupKey" := Some(Bulk(f.dedupKey))];
    assert pairs[..2][..1] == [("data", Some(Bulk(f.data)))];
    assert pairs[..2][..1][..0] == [];
    assert Transformers.Assign(pairs[..2][..1]) == m1;
    assert Transformers.Assign(pairs[..2]) == m2;
    assert Transformers.Assign(pairs) == m2["retryCount" := Some(Bulk(f.retryCount))];
  }

  lemma ReadsBack(id: nat, f: Fields, decode: string -> Option<Json>)
    requires Readable(f, decode)
    ensures New(Some(Bulk(IdText(id))), Transformers.ParseObjectResponse(Some(FieldsReply(f))), decode)
              == Success(TaskOfEntry(id, f, decode))
  {
    FieldsObject(f);
    assert IdText(id)[|IdText(id)| - 1] == '0';
  }

  /** Wire round trip: when every entry read is still stored in a form the
      schema accepts, the buffer gains exactly those entries' tasks, in the
      order of the pending list. */
  lemma GetPendingTasksReadsEntries(u: Unit, s: Store, decode: string -> Option<Json>)
    requires HasGroup(s, u.QKey(), u.GroupName())
    requires var mine := Take(Owned(GroupAt(s, u.QKey(), u.GroupName()).pel, u.name), Count(u.config.taskBufferSize));
             forall i :: 0 <= i < |mine| ==>
               var f := Lookup(s.streams[u.QKey()].entries, mine[i].id);
               f.Some? && Readable(f.value, decode)
    ensures var mine := Take(Owned(GroupAt(s, u.QKey(), u.GroupName()).pel, u.name), Count(u.config.taskBufferSize));
            var r := GetPendingTasks(u, s, decode);
            && r.Success?
            && r.value.1.pendingTasks == u.pendingTasks + seq(|mine|, i requires 0 <= i < |mine| =>
                 TaskOfEntry(mine[i].id, Lookup(s.streams[u.QKey()].entries, mine[i].id).value, decode))
  {
    var key := u.QKey();
    var mine := Take(Owned(GroupAt(s, key, u.GroupName()).pel, u.name), Count(u.config.taskBufferSize));
    HistoryMessages(s, key, u.GroupName(), u.name, Count(u.config.taskBufferSize));
    var reply := XReadGroupHistory(s, key, u.GroupName(), u.name, Count(u.config.taskBufferSize)).value.1;
    var messages := StreamValues(Transformers.ParseStreamResponse(Some(reply)).value, key).value;
    var entries := s.streams[key].entries;
    forall i | 0 <= i < |mine|
      ensures New(messages[i].id, messages[i].data, decode) == Success(TaskOfEntry(mine[i].id, Lookup(entries, mine[i].id).value, decode))
    {
      ReadsBack(mine[i].id, Lookup(entries, mine[i].id).value, decode);
    }
    var tasks := TasksOf(messages, decode);
    assert tasks.Success?;
    assert tasks.value == seq(|mine|, i requires 0 <= i < |mine| => TaskOfEntry(mine[i].id, Lookup(entries, mine[i].id).value, decode));
  }

  /** An entry written with retry count n reads back with retry count n. */
  lemma WrittenCountReadsBack(id: nat, data: string, dedupKey: string, n: nat, decode: string -> Option<Json>)
    requires decode(data).Some? && n <= MaxSafeInteger
    ensures Readable(Fields(data, dedupKey, Decimal.Show(n)), decode)
    ensures TaskOfEntry(id, Fields(data, dedupKey, Decimal.Show(n)), decode)
              == Task(Bulk(IdText(id)), data, decode(data).value, dedupKey, n)
  {
    Decimal.ParseNatOfShow(n);
    Decimal.ValueOfShow(n);
  }

  // ---------------------------------------------------------------------
  // Waiting for new work

  /** `_waitForTask()`: XREADGROUP ... BLOCK 0 COUNT 1 STREAMS key >. The
      entry read is not buffered; it joins the unit's pending list and the
      next round's history read picks it up. An empty read stands for a
      wait that has not ended yet. */
  function WaitForTask(u: Unit, s: Store): (r: Result<Store, UnitError>)
    ensures r.Success? <==> HasGroup(s, u.QKey(), u.GroupName())
    ensures r.Success? ==>
              && HasGroup(r.value, u.QKey(), u.GroupName())
              && var g := GroupAt(s, u.QKey(), u.GroupName());
                 var pel' := GroupAt(r.value, u.QKey(), u.GroupName()).pel;
                 // at most one entry, one never delivered before, becomes this unit's
                 && |g.pel| <= |pel'| <= |g.pel| + 1
                 && pel'[..|g.pel|] == g.pel
                 && (|pel'| == |g.pel| <==> forall e :: e in StreamAt(s, u.QKey()).entries ==> e.id <= g.lastDelivered)
                 && (|pel'| > |g.pel| ==>
                       && pel'[|g.pel|].owner == u.name && pel'[|g.pel|].deliveries == 1
                       && exists e :: e in StreamAt(s, u.QKey()).entries && e.id == pel'[|g.pel|].id && e.id > g.lastDelivered)
    // the group's mark moves to the entry handed out, and the unit is registered
    ensures r.Success? ==>
              var g := GroupAt(s, u.QKey(), u.GroupName());
              var g' := GroupAt(r.value, u.QKey(), u.GroupName());
              && (|g'.pel| == |g.pel| ==> g'.lastDelivered == g.lastDelivered)
              && (|g'.pel| > |g.pel| ==> g'.lastDelivered == g'.pel[|g.pel|].id)
              && u.name in Names(g'.consumers)
  {
    match XReadGroupNew(s, u.QKey(), u.GroupName(), u.name, 1)
    case Failure(e) => Failure(StoreFailed(e))
    case Success((s', delivered)) =>
      var g := GroupAt(s, u.QKey(), u.GroupName());
      var unread := Undelivered(s.streams[u.QKey()].entries, g.lastDelivered);
      assert |delivered| <= 1;
      assert delivered == [] <==> unread == [];
      assert unread != [] ==> unread[0] in unread;
      Success(s')
  }

  // ---------------------------------------------------------------------
  // Running one task

  /** What the handler is told besides the payload. */
  datatype Metadata = Metadata(id: Reply, qname: string, retryCount: nat, consumerName: string)

  /** The task id as the client sends it. */
  function IdArg(t: Task): string {
    Cleanup.ArgOf(Some(t.id))
  }

  function ResultRecord(u: Unit, t: Task, result: Json, at: string): Record {
    Record(t.id, u.qname, t.dataObj, t.dedupKey, t.retryCount, Returned(result), at)
  }

  /** The failure record carries the retry count the task ran with. */
  function FailureRecord(u: Unit, t: Task, e: ErrorInfo, at: string): Record {
    Record(t.id, u.qname, t.dataObj, t.dedupKey, t.retryCount, Raised(e), at)
  }

  /** `_processSuccess`: the `dequeue` script, then the result record at the
      head of the global and the per-queue result list. */
  function ProcessSuccess(u: Unit, w: World, t: Task, result: Json, at: string): (r: World)
    ensures var rec := ResultRecord(u, t, result, at);
            && |ListAt(r.lists, Defaults.ResultList)| >= 1 && ListAt(r.lists, Defaults.ResultList)[0] == rec
            && |ListAt(r.lists, Defaults.PerQueue(Defaults.ResultList, u.qname))| >= 1 && ListAt(r.lists, Defaults.PerQueue(Defaults.ResultList, u.qname))[0] == rec
            && |ListAt(r.lists, Defaults.ResultList)| <= Defaults.MaxResultListSize
            && |ListAt(r.lists, Defaults.PerQueue(Defaults.ResultList, u.qname))| <= Defaults.MaxIndividualQueueResultSize
    ensures forall k :: k != Defaults.ResultList && k != Defaults.PerQueue(Defaults.ResultList, u.qname) ==>
              ListAt(r.lists, k) == ListAt(w.lists, k)
    // the entry leaves the queue and the dedup key is released
    ensures ParseId(IdArg(t)).Some? ==>
              forall e :: e in StreamAt(r.store, u.QKey()).entries <==>
                e in StreamAt(w.store, u.QKey()).entries && e.id != ParseId(IdArg(t)).value
    ensures ParseId(IdArg(t)).Some? && HasGroup(w.store, u.QKey(), u.GroupName()) ==>
              HasGroup(r.store, u.QKey(), u.GroupName()) &&
              forall p :: p in GroupAt(r.store, u.QKey(), u.GroupName()).pel <==>
                p in GroupAt(w.store, u.QKey(), u.GroupName()).pel && p.id != ParseId(IdArg(t)).value
    ensures t.dedupKey != "" ==> Members(r.store, u.DedupSet()) == Members(w.store, u.DedupSet()) - {t.dedupKey}
  {
    var rec := ResultRecord(u, t, result, at);
    var (s', _) := Commands.Dequeue(w.store, u.QKey(), u.DedupSet(), u.GroupName(), IdArg(t), t.dedupKey);
    PushBothHeads(w.lists, Defaults.ResultList, Defaults.MaxResultListSize, u.qname, rec);
    World(s', PushBoth(w.lists, Defaults.ResultList, Defaults.MaxResultListSize, u.qname, rec))
  }

  /** The store side of a retry: the `requeue` script as called, with the
      bare queue name as its stream key, or as evidently intended. */
  function Retry(u: Unit, s: Store, t: Task, build: Cleanup.Build): Store {
    var next := IncrRetry(t);
    if build.AsWritten? then
      Commands.Requeue(s, u.qname, u.DedupSet(), u.GroupName(), IdArg(next), next.dataString, next.dedupKey,
                       Decimal.Show(next.retryCount)).0
    else
      Commands.RequeueCorrected(s, u.QKey(), u.DedupSet(), u.GroupName(), IdArg(next), next.dataString, next.dedupKey,
                                Decimal.Show(next.retryCount)).0
  }

  /** A task out of retries: the `dequeue` script, then the record at the
      head of the dead lists. */
  function Expire(u: Unit, w: World, t: Task, rec: Record): (r: World)
    ensures && |ListAt(r.lists, Defaults.DeadList)| >= 1 && ListAt(r.lists, Defaults.DeadList)[0] == rec
            && |ListAt(r.lists, Defaults.PerQueue(Defaults.DeadList, u.qname))| >= 1 && ListAt(r.lists, Defaults.PerQueue(Defaults.DeadList, u.qname))[0] == rec
            && |ListAt(r.lists, Defaults.DeadList)| <= Defaults.MaxDeadListSize
            && |ListAt(r.lists, Defaults.PerQueue(Defaults.DeadList, u.qname))| <= Defaults.MaxIndividualQueueResultSize
    ensures forall k :: k != Defaults.DeadList && k != Defaults.PerQueue(Defaults.DeadList, u.qname) ==>
              ListAt(r.lists, k) == ListAt(w.lists, k)
    ensures ParseId(IdArg(t)).Some? ==>
              forall x :: x in StreamAt(r.store, u.QKey()).entries <==>
                x in StreamAt(w.store, u.QKey()).entries && x.id != ParseId(IdArg(t)).value
    ensures ParseId(IdArg(t)).Some? && HasGroup(w.store, u.QKey(), u.GroupName()) ==>
              HasGroup(r.store, u.QKey(), u.GroupName()) &&
              forall p :: p in GroupAt(r.store, u.QKey(), u.GroupName()).pel <==>
                p in GroupAt(w.store, u.QKey(), u.GroupName()).pel && p.id != ParseId(IdArg(t)).value
    ensures t.dedupKey != "" ==> Members(r.store, u.DedupSet()) == Members(w.store, u.DedupSet()) - {t.dedupKey}
  {
    var (s', _) := Commands.Dequeue(w.store, u.QKey(), u.DedupSet(), u.GroupName(), IdArg(t), t.dedupKey);
    PushBothHeads(w.lists, Defaults.DeadList, Defaults.MaxDeadListSize, u.qname, rec);
    World(s', PushBoth(w.lists, Defaults.DeadList, Defaults.MaxDeadListSize, u.qname, rec))
  }

  /** `_processFailure`: below `maxRetry` the task is sent back with its
      retry count raised; otherwise it is dequeued and recorded as dead.
      Either way the failure is recorded. */
  function ProcessFailure(u: Unit, w: World, t: Task, e: ErrorInfo, at: string, build: Cleanup.Build): (r: World)
    ensures var rec := FailureRecord(u, t, e, at);
            && |ListAt(r.lists, Defaults.FailedList)| >= 1 && ListAt(r.lists, Defaults.FailedList)[0] == rec
            && |ListAt(r.lists, Defaults.PerQueue(Defaults.FailedList, u.qname))| >= 1 && ListAt(r.lists, Defaults.PerQueue(Defaults.FailedList, u.qname))[0] == rec
            && |ListAt(r.lists, Defaults.FailedList)| <= Defaults.MaxFailedListSize
            && |ListAt(r.lists, Defaults.PerQueue(Defaults.FailedList, u.qname))| <= Defaults.MaxIndividualQueueResultSize
    ensures ListAt(r.lists, Defaults.ResultList) == ListAt(w.lists, Defaults.ResultList)
    ensures ListAt(r.lists, Defaults.PerQueue(Defaults.ResultList, u.qname)) == ListAt(w.lists, Defaults.PerQueue(Defaults.ResultList, u.qname))
    ensures t.retryCount < u.config.maxRetry ==>
              && ListAt(r.lists, Defaults.DeadList) == ListAt(w.lists, Defaults.DeadList)
              && ListAt(r.lists, Defaults.PerQueue(Defaults.DeadList, u.qname)) == ListAt(w.lists, Defaults.PerQueue(Defaults.DeadList, u.qname))
              && r.store == Retry(u, w.store, t, build)
    ensures t.retryCount >= u.config.maxRetry ==>
              var rec := FailureRecord(u, t, e, at);
              && |ListAt(r.lists, Defaults.DeadList)| >= 1 && ListAt(r.lists, Defaults.DeadList)[0] == rec
              && |ListAt(r.lists, Defaults.PerQueue(Defaults.DeadList, u.qname))| >= 1 && ListAt(r.lists, Defaults.PerQueue(Defaults.DeadList, u.qname))[0] == rec
              && |ListAt(r.lists, Defaults.DeadList)| <= Defaults.MaxDeadListSize
              && |ListAt(r.lists, Defaults.PerQueue(Defaults.DeadList, u.qname))| <= Defaults.MaxIndividualQueueResultSize
              && (ParseId(IdArg(t)).Some? ==>
                    forall x :: x in StreamAt(r.store, u.QKey()).entries <==>
                      x in StreamAt(w.store, u.QKey()).entries && x.id != ParseId(IdArg(t)).value)
              && (ParseId(IdArg(t)).Some? && HasGroup(w.store, u.QKey(), u.GroupName()) ==>
                    HasGroup(r.store, u.QKey(), u.GroupName()) &&
                    forall p :: p in GroupAt(r.store, u.QKey(), u.GroupName()).pel <==>
                      p in GroupAt(w.store, u.QKey(), u.GroupName()).pel && p.id != ParseId(IdArg(t)).value)
              && (t.dedupKey != "" ==> Members(r.store, u.DedupSet()) == Members(w.store, u.DedupSet()) - {t.dedupKey})
  {
    var rec := FailureRecord(u, t, e, at);
    var failed := Defaults.FailedList;
    var dead := Defaults.DeadList;
    ListKeysApart(failed, Defaults.ResultList, u.qname, u.qname);
    ListKeysApart(Defaults.ResultList, failed, u.qname, u.qname);
    ListKeysApart(failed, dead, u.qname, u.qname);
    ListKeysApart(dead, failed, u.qname, u.qname);
    ListKeysApart(dead, Defaults.ResultList, u.qname, u.qname);
    ListKeysApart(Defaults.ResultList, dead, u.qname, u.qname);
    var w1 := if t.retryCount < u.config.maxRetry then World(Retry(u, w.store, t, build), w.lists)
              else Expire(u, w, t, rec);
    PushBothHeads(w1.lists, failed, Defaults.MaxFailedListSize, u.qname, rec);
    World(w1.store, PushBoth(w1.lists, failed, Defaults.MaxFailedListSize, u.qname, rec))
  }

  /** A retry as written sends the `requeue` script the bare queue name as
      its stream key. The namespaced stream the task came from is left
      exactly as it was: the entry is neither acknowledged nor deleted, so
      the unit reads it back from its history at the same retry count. */
  lemma RetryAsWrittenLeavesTaskPending(u: Unit, w: World, t: Task, e: ErrorInfo, at: string)
    requires t.retryCount < u.config.maxRetry
    ensures var r := ProcessFailure(u, w, t, e, at, Cleanup.AsWritten);
            && StreamAt(r.store, u.QKey()) == StreamAt(w.store, u.QKey())
            && (HasGroup(w.store, u.QKey(), u.GroupName()) ==>
                  GroupAt(r.store, u.QKey(), u.GroupName()).pel == GroupAt(w.store, u.QKey(), u.GroupName()).pel)
  {
    Defaults.KeysDistinct(u.qname);
  }

  /** The corrected retry: in the task's own stream the delivered entry is
      replaced by a copy whose retry count is one higher, the delivery is
      acknowledged, and a dedup key stays held by the copy. */
  lemma RetryCorrectedRequeues(u: Unit, w: World, t: Task, e: ErrorInfo, at: string, tid: nat)
    requires t.retryCount < u.config.maxRetry
    requires ParseId(IdArg(t)) == Some(tid) && tid <= StreamAt(w.store, u.QKey()).lastId
    ensures var r := ProcessFailure(u, w, t, e, at, Cleanup.Corrected);
            var before := StreamAt(w.store, u.QKey());
            var copy := Entry(before.lastId + 1, Fields(t.dataString, t.dedupKey, Decimal.Show(t.retryCount + 1)));
            && (forall x :: x in StreamAt(r.store, u.QKey()).entries <==> (x in before.entries && x.id != tid) || x == copy)
            && (HasGroup(w.store, u.QKey(), u.GroupName()) ==>
                  HasGroup(r.store, u.QKey(), u.GroupName()) &&
                  forall p :: p in GroupAt(r.store, u.QKey(), u.GroupName()).pel <==>
                    p in GroupAt(w.store, u.QKey(), u.GroupName()).pel && p.id != tid)
            && (t.dedupKey != "" ==> t.dedupKey in Members(r.store, u.DedupSet()))
  {
    var next := IncrRetry(t);
    assert IdArg(next) == IdArg(t);
  }

  /** Where a finished delivery ends up. */
  datatype Route = Succeeded | Retried | Dead

  function RouteOf(u: Unit, t: Task, o: Outcome): Route {
    if o.Returned? then Succeeded
    else if t.retryCount < u.config.maxRetry then Retried
    else Dead
  }

  /** The handler sees the payload and this metadata. A timeout is folded
      into the handler's outcome: it is one more way to raise. */
  function MetadataOf(u: Unit, t: Task): Metadata {
    Metadata(t.id, u.qname, t.retryCount, u.name)
  }

  /** `_processTask`: the oldest buffered task is taken off, counted, run,
      and its outcome recorded; an empty buffer does nothing. */
  function ProcessTask(u: Unit, w: World, handler: (Json, Metadata) -> Outcome, at: string, build: Cleanup.Build)
    : (r: (Unit, World))
    ensures u.pendingTasks == [] ==> r == (u, w)
    ensures u.pendingTasks != [] ==>
              r.0 == u.(pendingTasks := u.pendingTasks[1..], totalTasks := u.totalTasks + 1)
  {
    if u.pendingTasks == [] then (u, w)
    else
      var t := u.pendingTasks[0];
      var u' := u.(pendingTasks := u.pendingTasks[1..], totalTasks := u.totalTasks + 1);
      match handler(t.dataObj, MetadataOf(u, t))
      case Returned(result) => (u', ProcessSuccess(u, w, t, result, at))
      case Raised(e) => (u', ProcessFailure(u, w, t, e, at, build))
  }

  /** The global and the per-queue copy of one terminal list. */
  predicate ListsKept(before: Lists, after: Lists, global: string, qname: string) {
    && ListAt(after, global) == ListAt(before, global)
    && ListAt(after, Defaults.PerQueue(global, qname)) == ListAt(before, Defaults.PerQueue(global, qname))
  }

  /** The record heads the global and the per-queue copy of a list. */
  predicate Heads(after: Lists, global: string, qname: string, rec: Record) {
    && |ListAt(after, global)| >= 1 && ListAt(after, global)[0] == rec
    && |ListAt(after, Defaults.PerQueue(global, qname))| >= 1 && ListAt(after, Defaults.PerQueue(global, qname))[0] == rec
  }

  /** Every processed task is recorded on exactly the lists of its route: a
      returned task on the result lists only, a failed one on the failed
      lists, and also on the dead lists once it is out of retries. */
  lemma ProcessTaskRoutes(u: Unit, w: World, handler: (Json, Metadata) -> Outcome, at: string, build: Cleanup.Build)
    requires u.pendingTasks != []
    ensures var t := u.pendingTasks[0];
            var o := handler(t.dataObj, MetadataOf(u, t));
            var after := ProcessTask(u, w, handler, at, build).1.lists;
            match RouteOf(u, t, o)
            case Succeeded =>
              && Heads(after, Defaults.ResultList, u.qname, ResultRecord(u, t, o.result, at))
              && ListsKept(w.lists, after, Defaults.FailedList, u.qname)
              && ListsKept(w.lists, after, Defaults.DeadList, u.qname)
            case Retried =>
              && Heads(after, Defaults.FailedList, u.qname, FailureRecord(u, t, o.error, at))
              && ListsKept(w.lists, after, Defaults.ResultList, u.qname)
              && ListsKept(w.lists, after, Defaults.DeadList, u.qname)
            case Dead =>
              && Heads(after, Defaults.FailedList, u.qname, FailureRecord(u, t, o.error, at))
              && Heads(after, Defaults.DeadList, u.qname, FailureRecord(u, t, o.error, at))
              && ListsKept(w.lists, after, Defaults.ResultList, u.qname)
  {
    var t := u.pendingTasks[0];
    var o := handler(t.dataObj, MetadataOf(u, t));
    var r, f, d := Defaults.ResultList, Defaults.FailedList, Defaults.DeadList;
    ListKeysApart(r, f, u.qname, u.qname);
    ListKeysApart(f, r, u.qname, u.qname);
    ListKeysApart(r, d, u.qname, u.qname);
    ListKeysApart(d, r, u.qname, u.qname);
    ListKeysApart(f, d, u.qname, u.qname);
    ListKeysApart(d, f, u.qname, u.qname);
    PerQueueIsNotGlobal(r, u.qname);
    PerQueueIsNotGlobal(f, u.qname);
    PerQueueIsNotGlobal(d, u.qname);
  }

  /** The inner loop: tasks are taken off the buffer until it is empty.
      `clock` gives the time stamp of the n-th task the unit finishes. */
  function Drain(u: Unit, w: World, handler: (Json, Metadata) -> Outcome, clock: nat -> string, build: Cleanup.Build)
    : (r: (Unit, World))
    ensures r.0 == u.(pendingTasks := [], totalTasks := u.totalTasks + |u.pendingTasks|)
    decreases |u.pendingTasks|
  {
    if u.pendingTasks == [] then (u, w)
    else
      var (u', w') := ProcessTask(u, w, handler, clock(u.totalTasks), build);
      Drain(u', w', handler, clock, build)
  }

  /** One pass of `_processLoop`'s outer loop: clean up, read the unit's
      own pending entries, wait for a new one when there are none, else run
      every buffered task. A round that throws carries the world as its
      completed commands left it: cleanup's claims and deletions, and the
      history read, are not undone. */
  function Round(u: Unit, w: World, clientList: string, decode: string -> Option<Json>,
                 handler: (Json, Metadata) -> Outcome, clock: nat -> string, build: Cleanup.Build)
    : (r: Result<(Unit, World), (UnitError, World)>)
    ensures !HasGroup(w.store, u.QKey(), u.GroupName()) ==> r.Failure? && r.error.1 == w
    ensures r.Success? ==>
              var u' := r.value.0;
              && u' == u.(pendingTasks := [], totalTasks := u'.totalTasks)
              // everything buffered before is run, and at most one buffer's worth of entries read
              && u'.totalTasks >= u.totalTasks + |u.pendingTasks|
              && (Count(u.config.taskBufferSize) > 0 ==>
                    u'.totalTasks <= u.totalTasks + |u.pendingTasks| + Count(u.config.taskBufferSize))
    // a failed round changes no list, and every pending entry keeps the
    // owner cleanup gave it: claims made for this unit stay with it
    ensures r.Failure? ==> r.error.1.lists == w.lists
    ensures r.Failure? && HasGroup(w.store, u.QKey(), u.GroupName()) ==>
              var cleaned := Cleanup.Run(w.store, u.QKey(), u.GroupName(), u.name, u.config.workerFnTimeoutMs, clientList, build).value.0;
              var pel := GroupAt(cleaned, u.QKey(), u.GroupName()).pel;
              && HasGroup(r.error.1.store, u.QKey(), u.GroupName())
              && var pel' := GroupAt(r.error.1.store, u.QKey(), u.GroupName()).pel;
                 && |pel'| == |pel|
                 && forall i :: 0 <= i < |pel| ==> pel'[i].id == pel[i].id && pel'[i].owner == pel[i].owner
  {
    match Cleanup.Run(w.store, u.QKey(), u.GroupName(), u.name, u.config.workerFnTimeoutMs, clientList, build)
    case Failure(e) => Failure((StoreFailed(e), w))
    case Success((s1, _)) =>
      match GetPendingTasks(u, s1, decode)
      case Failure((e, s2)) => Failure((e, World(s2, w.lists)))
      case Success((s2, u2, _)) =>
        if u2.pendingTasks == [] then
          match WaitForTask(u2, s2)
          case Failure(e) => Failure((e, World(s2, w.lists)))
          case Success(s3) => Success((u2, World(s3, w.lists)))
        else
          Success(Drain(u2, World(s2, w.lists), handler, clock, build))
  }

  /** The tasks a round runs: its buffer after the history read, or none
      when the round fails or goes on to wait. */
  function Batch(u: Unit, w: World, clientList: string, decode: string -> Option<Json>, build: Cleanup.Build): seq<Task> {
    match Cleanup.Run(w.store, u.QKey(), u.GroupName(), u.name, u.config.workerFnTimeoutMs, clientList, build)
    case Failure(_) => []
    case Success((s1, _)) =>
      match GetPendingTasks(u, s1, decode)
      case Failure(_) => []
      case Success((_, u2, _)) => u2.pendingTasks
  }

  // ---------------------------------------------------------------------
  // What processing leaves behind

  /** The six lists a unit writes stay within their caps. */
  predicate Capped(lists: Lists, qname: string) {
    && |ListAt(lists, Defaults.ResultList)| <= Defaults.MaxResultListSize
    && |ListAt(lists, Defaults.FailedList)| <= Defaults.MaxFailedListSize
    && |ListAt(lists, Defaults.DeadList)| <= Defaults.MaxDeadListSize
    && |ListAt(lists, Defaults.PerQueue(Defaults.ResultList, qname))| <= Defaults.MaxIndividualQueueResultSize
    && |ListAt(lists, Defaults.PerQueue(Defaults.FailedList, qname))| <= Defaults.MaxIndividualQueueResultSize
    && |ListAt(lists, Defaults.PerQueue(Defaults.DeadList, qname))| <= Defaults.MaxIndividualQueueResultSize
  }

  lemma ProcessTaskKeepsCaps(u: Unit, w: World, handler: (Json, Metadata) -> Outcome, at: string, build: Cleanup.Build)
    requires Capped(w.lists, u.qname)
    ensures Capped(ProcessTask(u, w, handler, at, build).1.lists, u.qname)
  {
    var r, f, d := Defaults.ResultList, Defaults.FailedList, Defaults.DeadList;
    ListKeysApart(r, f, u.qname, u.qname);
    ListKeysApart(f, r, u.qname, u.qname);
    ListKeysApart(r, d, u.qname, u.qname);
    ListKeysApart(d, r, u.qname, u.qname);
    PerQueueIsNotGlobal(r, u.qname);
  }

  /** However many tasks a drain runs, no list outgrows its cap. */
  lemma {:induction false} DrainKeepsCaps(u: Unit, w: World, handler: (Json, Metadata) -> Outcome, clock: nat -> string,
                                          build: Cleanup.Build)
    requires Capped(w.lists, u.qname)
    ensures Capped(Drain(u, w, handler, clock, build).1.lists, u.qname)
    decreases |u.pendingTasks|
  {
    if u.pendingTasks != [] {
      var (u', w') := ProcessTask(u, w, handler, clock(u.totalTasks), build);
      ProcessTaskKeepsCaps(u, w, handler, clock(u.totalTasks), build);
      DrainKeepsCaps(u', w', handler, clock, build);
    }
  }

  /** A round, failed or not, leaves every list within its cap. */
  lemma RoundKeepsCaps(u: Unit, w: World, clientList: string, decode: string -> Option<Json>,
                       handler: (Json, Metadata) -> Outcome, clock: nat -> string, build: Cleanup.Build)
    requires Capped(w.lists, u.qname)
    ensures var r := Round(u, w, clientList, decode, handler, clock, build);
            Capped(if r.Success? then r.value.1.lists else r.error.1.lists, u.qname)
  {
    var r := Round(u, w, clientList, decode, handler, clock, build);
    if r.Success? {
      if Batch(u, w, clientList, decode, build) == [] {
        RoundWaits(u, w, clientList, decode, handler, clock, build);
      } else {
        RoundDrains(u, w, clientList, decode, handler, clock, build);
        var got := GetPendingTasks(u, Cleanup.Run(w.store, u.QKey(), u.GroupName(), u.name, u.config.workerFnTimeoutMs,
                                                  clientList, build).value.0, decode);
        DrainKeepsCaps(got.value.1, World(got.value.0, w.lists), handler, clock, build);
      }
    }
  }

  /** A round that finds nothing buffered only waits: no list changes. */
  lemma RoundWaits(u: Unit, w: World, clientList: string, decode: string -> Option<Json>,
                   handler: (Json, Metadata) -> Outcome, clock: nat -> string, build: Cleanup.Build)
    requires Round(u, w, clientList, decode, handler, clock, build).Success?
    requires Batch(u, w, clientList, decode, build) == []
    ensures Round(u, w, clientList, decode, handler, clock, build).value.1.lists == w.lists
  {
  }

  /** A round that finds nothing buffered ends with the wait's `>` read:
      the store is the one WaitForTask leaves after the history read. */
  lemma RoundWaitReads(u: Unit, w: World, clientList: string, decode: string -> Option<Json>,
                       handler: (Json, Metadata) -> Outcome, clock: nat -> string, build: Cleanup.Build)
    requires Round(u, w, clientList, decode, handler, clock, build).Success?
    requires Batch(u, w, clientList, decode, build) == []
    ensures var run := Cleanup.Run(w.store, u.QKey(), u.GroupName(), u.name, u.config.workerFnTimeoutMs, clientList, build);
            && run.Success?
            && var got := GetPendingTasks(u, run.value.0, decode);
               && got.Success?
               && got.value.1.pendingTasks == []
               && WaitForTask(got.value.1, got.value.0).Success?
               && Round(u, w, clientList, decode, handler, clock, build).value
                    == (got.value.1, World(WaitForTask(got.value.1, got.value.0).value, w.lists))
  {
  }

  /** The wait hands the unit the first entry not yet delivered, if there
      is one: it joins the unit's pending list, where the next round's
      history read finds it, and the group's mark moves to it. `s` is the
      store the round's history read left. */
  lemma WaitHandsOutFirst(u: Unit, s: Store)
    requires HasGroup(s, u.QKey(), u.GroupName())
    ensures var g := GroupAt(s, u.QKey(), u.GroupName());
            var unread := Undelivered(StreamAt(s, u.QKey()).entries, g.lastDelivered);
            var s' := WaitForTask(u, s).value;
            var g' := GroupAt(s', u.QKey(), u.GroupName());
            && HasGroup(s', u.QKey(), u.GroupName())
            && (unread == [] ==> g'.pel == g.pel && g'.lastDelivered == g.lastDelivered)
            && (unread != [] ==>
                  && g'.pel == g.pel + [Pending(unread[0].id, u.name, 0, 1)]
                  && g'.lastDelivered == unread[0].id
                  && Owned(g'.pel, u.name) == Owned(g.pel, u.name) + [Pending(unread[0].id, u.name, 0, 1)])
  {
    var g := GroupAt(s, u.QKey(), u.GroupName());
    var unread := Undelivered(StreamAt(s, u.QKey()).entries, g.lastDelivered);
    var delivered := XReadGroupNew(s, u.QKey(), u.GroupName(), u.name, 1).value.1;
    if unread != [] {
      assert delivered == [unread[0]];
      OwnedCons(Pending(unread[0].id, u.name, 0, 1), [], u.name);
      OwnedAppend(g.pel, [Pending(unread[0].id, u.name, 0, 1)], u.name);
    } else {
      assert delivered == [];
    }
  }

  /** The group exists and the stream has issued the id. */
  predicate Issued(s: Store, key: string, group: string, id: nat) {
    HasGroup(s, key, group) && id <= StreamAt(s, key).lastId
  }

  /** The entry has left the queue for good: the stream no longer stores
      it, the group no longer holds it pending, and since the stream has
      issued the id no later entry can take it. */
  predicate Retired(s: Store, key: string, group: string, id: nat) {
    && Issued(s, key, group, id)
    && (forall e :: e in StreamAt(s, key).entries ==> e.id != id)
    && (forall p :: p in GroupAt(s, key, group).pel ==> p.id != id)
  }

  /** The queue only moves forward: the group stays, every entry is an old
      one or newly issued, and nothing becomes pending. */
  predicate Advances(s: Store, s': Store, key: string, group: string) {
    && HasGroup(s, key, group)
    && HasGroup(s', key, group)
    && StreamAt(s, key).lastId <= StreamAt(s', key).lastId
    && (forall e :: e in StreamAt(s', key).entries ==> e in StreamAt(s, key).entries || e.id > StreamAt(s, key).lastId)
    && (forall p :: p in GroupAt(s', key, group).pel ==> p in GroupAt(s, key, group).pel)
  }

  lemma RetiredStays(s: Store, s': Store, key: string, group: string, id: nat)
    requires Retired(s, key, group, id) && Advances(s, s', key, group)
    ensures Retired(s', key, group, id)
  {
  }

  lemma AdvancesTwice(s: Store, s': Store, s'': Store, key: string, group: string)
    requires Advances(s, s', key, group) && Advances(s', s'', key, group)
    ensures Advances(s, s'', key, group)
  {
  }

  /** A task's route ends it: it succeeded, ran out of retries, or is
      retried by the corrected script, which deletes the delivered entry. */
  predicate Ends(u: Unit, t: Task, handler: (Json, Metadata) -> Outcome, build: Cleanup.Build) {
    RouteOf(u, t, handler(t.dataObj, MetadataOf(u, t))) != Retried || build.Corrected?
  }

  lemma ProcessTaskAdvances(u: Unit, w: World, handler: (Json, Metadata) -> Outcome, at: string, build: Cleanup.Build)
    requires HasGroup(w.store, u.QKey(), u.GroupName())
    ensures Advances(w.store, ProcessTask(u, w, handler, at, build).1.store, u.QKey(), u.GroupName())
  {
    if u.pendingTasks != [] {
      var t := u.pendingTasks[0];
      var o := handler(t.dataObj, MetadataOf(u, t));
      if o.Raised? && t.retryCount < u.config.maxRetry {
        if build.AsWritten? {
          RetryAsWrittenLeavesTaskPending(u, w, t, o.error, at);
        } else {
          var next := IncrRetry(t);
          assert Retry(u, w.store, t, build)
                   == Commands.RequeueCorrected(w.store, u.QKey(), u.DedupSet(), u.GroupName(), IdArg(next), next.dataString,
                                                next.dedupKey, Decimal.Show(next.retryCount)).0;
        }
      }
    }
  }

  /** A task whose route ends it leaves the queue: its entry is deleted and
      its delivery acknowledged. */
  lemma ProcessTaskRetires(u: Unit, w: World, handler: (Json, Metadata) -> Outcome, at: string, build: Cleanup.Build)
    requires u.pendingTasks != []
    requires ParseId(IdArg(u.pendingTasks[0])).Some? && Issued(w.store, u.QKey(), u.GroupName(), ParseId(IdArg(u.pendingTasks[0])).value)
    requires Ends(u, u.pendingTasks[0], handler, build)
    ensures Retired(ProcessTask(u, w, handler, at, build).1.store, u.QKey(), u.GroupName(), ParseId(IdArg(u.pendingTasks[0])).value)
  {
    var t := u.pendingTasks[0];
    var o := handler(t.dataObj, MetadataOf(u, t));
    ProcessTaskAdvances(u, w, handler, at, build);
    if o.Raised? && t.retryCount < u.config.maxRetry {
      RetryCorrectedRequeues(u, w, t, o.error, at, ParseId(IdArg(t)).value);
    }
  }

  lemma {:induction false} DrainAdvances(u: Unit, w: World, handler: (Json, Metadata) -> Outcome, clock: nat -> string,
                                         build: Cleanup.Build)
    requires HasGroup(w.store, u.QKey(), u.GroupName())
    ensures Advances(w.store, Drain(u, w, handler, clock, build).1.store, u.QKey(), u.GroupName())
    decreases |u.pendingTasks|
  {
    if u.pendingTasks != [] {
      var (u', w') := ProcessTask(u, w, handler, clock(u.totalTasks), build);
      ProcessTaskAdvances(u, w, handler, clock(u.totalTasks), build);
      DrainAdvances(u', w', handler, clock, build);
      AdvancesTwice(w.store, w'.store, Drain(u', w', handler, clock, build).1.store, u.QKey(), u.GroupName());
    }
  }

  /** Every buffered task whose route ends it, and whose id the stream had
      issued, has left the queue once the buffer is drained: later tasks
      never bring it back. */
  lemma {:induction false} DrainRetires(u: Unit, w: World, handler: (Json, Metadata) -> Outcome, clock: nat -> string,
                                        build: Cleanup.Build, i: nat)
    requires i < |u.pendingTasks|
    requires ParseId(IdArg(u.pendingTasks[i])).Some? && Issued(w.store, u.QKey(), u.GroupName(), ParseId(IdArg(u.pendingTasks[i])).value)
    requires Ends(u, u.pendingTasks[i], handler, build)
    ensures Retired(Drain(u, w, handler, clock, build).1.store, u.QKey(), u.GroupName(), ParseId(IdArg(u.pendingTasks[i])).value)
    decreases |u.pendingTasks|, 1
  {
    DrainStep(u, w, handler, clock, build);
    if i == 0 {
      DrainRetiresFirst(u, w, handler, clock, build);
    } else {
      DrainRetiresLater(u, w, handler, clock, build, i);
    }
  }

  /** A later task: the first one run moves the queue forward, which keeps
      the later task's id issued. */
  lemma {:induction false} DrainRetiresLater(u: Unit, w: World, handler: (Json, Metadata) -> Outcome, clock: nat -> string,
                                             build: Cleanup.Build, i: nat)
    requires 0 < i < |u.pendingTasks|
    requires ParseId(IdArg(u.pendingTasks[i])).Some? && Issued(w.store, u.QKey(), u.GroupName(), ParseId(IdArg(u.pendingTasks[i])).value)
    requires Ends(u, u.pendingTasks[i], handler, build)
    ensures var next := ProcessTask(u, w, handler, clock(u.totalTasks), build);
            Retired(Drain(next.0, next.1, handler, clock, build).1.store, u.QKey(), u.GroupName(),
                    ParseId(IdArg(u.pendingTasks[i])).value)
    decreases |u.pendingTasks|, 0
  {
    var next := ProcessTask(u, w, handler, clock(u.totalTasks), build);
    var t, id := u.pendingTasks[i], ParseId(IdArg(u.pendingTasks[i])).value;
    ProcessTaskAdvances(u, w, handler, clock(u.totalTasks), build);
    assert next.0 == u.(pendingTasks := u.pendingTasks[1..], totalTasks := u.totalTasks + 1);
    assert next.0.pendingTasks[i - 1] == t;
    assert next.0.QKey() == u.QKey() && next.0.GroupName() == u.GroupName();
    assert Ends(next.0, t, handler, build) && Issued(next.1.store, u.QKey(), u.GroupName(), id);
    DrainRetires(next.0, next.1, handler, clock, build, i - 1);
  }

  lemma DrainRetiresFirst(u: Unit, w: World, handler: (Json, Metadata) -> Outcome, clock: nat -> string,
                          build: Cleanup.Build)
    requires u.pendingTasks != []
    requires ParseId(IdArg(u.pendingTasks[0])).Some? && Issued(w.store, u.QKey(), u.GroupName(), ParseId(IdArg(u.pendingTasks[0])).value)
    requires Ends(u, u.pendingTasks[0], handler, build)
    ensures var next := ProcessTask(u, w, handler, clock(u.totalTasks), build);
            Retired(Drain(next.0, next.1, handler, clock, build).1.store, u.QKey(), u.GroupName(), ParseId(IdArg(u.pendingTasks[0])).value)
  {
    var next := ProcessTask(u, w, handler, clock(u.totalTasks), build);
    ProcessTaskRetires(u, w, handler, clock(u.totalTasks), build);
    DrainKeepsRetired(next.0, next.1, handler, clock, build, ParseId(IdArg(u.pendingTasks[0])).value);
  }

  lemma DrainStep(u: Unit, w: World, handler: (Json, Metadata) -> Outcome, clock: nat -> string, build: Cleanup.Build)
    requires u.pendingTasks != []
    ensures var next := ProcessTask(u, w, handler, clock(u.totalTasks), build);
            Drain(u, w, handler, clock, build) == Drain(next.0, next.1, handler, clock, build)
  {
  }

  lemma DrainKeepsRetired(u: Unit, w: World, handler: (Json, Metadata) -> Outcome, clock: nat -> string,
                          build: Cleanup.Build, id: nat)
    requires Retired(w.store, u.QKey(), u.GroupName(), id)
    ensures Retired(Drain(u, w, handler, clock, build).1.store, u.QKey(), u.GroupName(), id)
  {
    DrainAdvances(u, w, handler, clock, build);
    RetiredStays(w.store, Drain(u, w, handler, clock, build).1.store, u.QKey(), u.GroupName(), id);
  }

  /** Lifted to a round: when the group's pending ids and the buffered
      tasks' ids are ones the stream has issued, every task a successful
      round runs whose route ends it has left the queue afterwards. */
  lemma RoundRetires(u: Unit, w: World, clientList: string, decode: string -> Option<Json>,
                     handler: (Json, Metadata) -> Outcome, clock: nat -> string, build: Cleanup.Build, i: nat)
    requires HasGroup(w.store, u.QKey(), u.GroupName())
    requires var pel := GroupAt(w.store, u.QKey(), u.GroupName()).pel;
             && UniqueIds(pel)
             && forall p :: p in pel ==> p.id <= StreamAt(w.store, u.QKey()).lastId
    requires forall t :: t in u.pendingTasks ==>
               ParseId(IdArg(t)).Some? && ParseId(IdArg(t)).value <= StreamAt(w.store, u.QKey()).lastId
    requires Round(u, w, clientList, decode, handler, clock, build).Success?
    requires i < |Batch(u, w, clientList, decode, build)|
    requires Ends(u, Batch(u, w, clientList, decode, build)[i], handler, build)
    ensures ParseId(IdArg(Batch(u, w, clientList, decode, build)[i])).Some?
    ensures Retired(Round(u, w, clientList, decode, handler, clock, build).value.1.store, u.QKey(), u.GroupName(),
                    ParseId(IdArg(Batch(u, w, clientList, decode, build)[i])).value)
  {
    BatchIssued(u, w, clientList, decode, build, i);
    RoundDrains(u, w, clientList, decode, handler, clock, build);
    var s1 := Cleanup.Run(w.store, u.QKey(), u.GroupName(), u.name, u.config.workerFnTimeoutMs, clientList, build).value.0;
    var (s2, u2, _) := GetPendingTasks(u, s1, decode).value;
    DrainRetires(u2, World(s2, w.lists), handler, clock, build, i);
  }

  /** A round that runs tasks drains its buffer after the history read. */
  lemma RoundDrains(u: Unit, w: World, clientList: string, decode: string -> Option<Json>,
                    handler: (Json, Metadata) -> Outcome, clock: nat -> string, build: Cleanup.Build)
    requires Round(u, w, clientList, decode, handler, clock, build).Success?
    requires Batch(u, w, clientList, decode, build) != []
    ensures var run := Cleanup.Run(w.store, u.QKey(), u.GroupName(), u.name, u.config.workerFnTimeoutMs, clientList, build);
            && run.Success?
            && var got := GetPendingTasks(u, run.value.0, decode);
               && got.Success?
               && got.value.1.pendingTasks == Batch(u, w, clientList, decode, build)
               && Round(u, w, clientList, decode, handler, clock, build).value
                    == Drain(got.value.1, World(got.value.0, w.lists), handler, clock, build)
  {
  }

  /** Every task in a round's buffer carries an id the stream has issued:
      the ones buffered before by assumption, the ones read back because
      cleanup keeps every pending id. */
  lemma BatchIssued(u: Unit, w: World, clientList: string, decode: string -> Option<Json>, build: Cleanup.Build, i: nat)
    requires HasGroup(w.store, u.QKey(), u.GroupName())
    requires var pel := GroupAt(w.store, u.QKey(), u.GroupName()).pel;
             && UniqueIds(pel)
             && forall p :: p in pel ==> p.id <= StreamAt(w.store, u.QKey()).lastId
    requires forall t :: t in u.pendingTasks ==>
               ParseId(IdArg(t)).Some? && ParseId(IdArg(t)).value <= StreamAt(w.store, u.QKey()).lastId
    requires i < |Batch(u, w, clientList, decode, build)|
    ensures var run := Cleanup.Run(w.store, u.QKey(), u.GroupName(), u.name, u.config.workerFnTimeoutMs, clientList, build);
            && run.Success?
            && var got := GetPendingTasks(u, run.value.0, decode);
               && got.Success?
               && var t := Batch(u, w, clientList, decode, build)[i];
                  ParseId(IdArg(t)).Some? && Issued(got.value.0, u.QKey(), u.GroupName(), ParseId(IdArg(t)).value)
  {
    var key, group := u.QKey(), u.GroupName();
    var s1 := Cleanup.Run(w.store, key, group, u.name, u.config.workerFnTimeoutMs, clientList, build).value.0;
    var (s2, u2, _) := GetPendingTasks(u, s1, decode).value;
    var t := u2.pendingTasks[i];
    if i < |u.pendingTasks| {
      assert t == u2.pendingTasks[..|u.pendingTasks|][i];
      assert t in u.pendingTasks;
    } else {
      var pel, pel1 := GroupAt(w.store, key, group).pel, GroupAt(s1, key, group).pel;
      assert forall k :: 0 <= k < |pel| ==> pel1[k].id == pel[k].id;
      ReadIdIssued(pel, pel1, u.name, StreamAt(w.store, key).lastId, t);
    }
  }

  /** A task read back from the history names an item of the pending list,
      whose id, kept by cleanup, the stream had issued. */
  lemma ReadIdIssued(pel: seq<Pending>, pel1: seq<Pending>, name: string, lastId: nat, t: Task)
    requires forall p :: p in pel ==> p.id <= lastId
    requires |pel1| == |pel| && forall k :: 0 <= k < |pel| ==> pel1[k].id == pel[k].id
    requires NamedBy(t, Owned(pel1, name))
    ensures ParseId(IdArg(t)).Some? && ParseId(IdArg(t)).value <= lastId
  {
    var p :| p in Owned(pel1, name) && t.id == Bulk(IdText(p.id));
    ParseIdText(p.id);
    var k :| 0 <= k < |pel1| && pel1[k] == p;
    assert pel[k] in pel;
  }

  // ---------------------------------------------------------------------
  // Starting and pausing

  /** What can happen to the loop flags: a call of `start()` (which
      `resume()` makes) or `pause()`, a running loop testing `_paused`, or a
      round of a running loop throwing. `_processLoop` catches nothing, so a
      round that throws ends the loop without clearing `_loopStarted`. */
  datatype Event = StartCall | PauseCall | LoopCheck | RoundFailed

  /** The flags after one event. `start()` clears the pause and calls the
      loop, which returns at once when `_loopStarted` is set. Only a running
      loop checks the pause or fails a round. */
  function Step(c: Control, ev: Event): (r: Control)
    ensures ev == StartCall ==> !r.paused && r.loopStarted
    ensures ev == PauseCall ==> r.paused && r.loopStarted == c.loopStarted && r.loops == c.loops
    ensures ev == LoopCheck || ev == RoundFailed ==> r.paused == c.paused
    // a loop ends only when it finds the unit paused or a round throws
    ensures r.loops < c.loops ==> (ev == LoopCheck && c.paused) || ev == RoundFailed
    // only a loop that found the unit paused clears the flag
    ensures c.loopStarted && !r.loopStarted ==> ev == LoopCheck && c.paused && c.loops > 0
    // a loop begins only when the flag is clear
    ensures r.loops > c.loops ==> ev == StartCall && !c.loopStarted
  {
    match ev
    case StartCall =>
      if c.loopStarted then c.(paused := false)
      else Control(false, true, c.loops + 1)
    case PauseCall => c.(paused := true)
    case LoopCheck =>
      if c.loops > 0 && c.paused then Control(true, false, c.loops - 1)
      else c
    case RoundFailed =>
      if c.loops > 0 then c.(loops := c.loops - 1) else c
  }

  /** A unit as constructed: paused, with no loop until `start()`. */
  const Idle := Control(true, false, 0)

  /** At most one loop, and none unless the flag is set. */
  predicate Consistent(c: Control) {
    c.loops <= (if c.loopStarted then 1 else 0)
  }

  /** The flag is set but no loop runs: what a failed round leaves. */
  predicate Stuck(c: Control) {
    c.loopStarted && c.loops == 0
  }

  function Steps(c: Control, evs: seq<Event>): Control
    decreases |evs|
  {
    if evs == [] then c else Steps(Step(c, evs[0]), evs[1..])
  }

  /** However `start`, `pause` and `resume` are interleaved, and whichever
      rounds fail, at most one processing loop runs per unit. */
  lemma {:induction false} AtMostOneLoop(c: Control, evs: seq<Event>)
    requires Consistent(c)
    ensures Consistent(Steps(c, evs)) && Steps(c, evs).loops <= 1
    decreases |evs|
  {
    if evs != [] {
      var c1 := Step(c, evs[0]);
      assert Consistent(c1);
      AtMostOneLoop(c1, evs[1..]);
    }
  }

  /** A round that throws leaves the running loop's unit stuck. */
  lemma FailedRoundSticks(c: Control)
    requires Consistent(c) && c.loops == 1
    ensures Stuck(Step(c, RoundFailed))
  {
  }

  /** Once stuck, a unit stays stuck: no later `start()` or `resume()`
      starts a loop again, so it never processes another task. */
  lemma {:induction false} StuckForever(c: Control, evs: seq<Event>)
    requires Stuck(c)
    ensures Stuck(Steps(c, evs))
    decreases |evs|
  {
    if evs != [] {
      var c1 := Step(c, evs[0]);
      assert Stuck(c1);
      StuckForever(c1, evs[1..]);
    }
  }

  /** `start()` then `pause()` leaves the loop to stop at its next check;
      `resume()` before that check keeps the same loop running. */
  lemma PauseThenResumeKeepsLoop(c: Control)
    requires Consistent(c) && c.loops == 1
    ensures Steps(c, [PauseCall, StartCall]) == c.(paused := false)
    ensures Steps(c, [PauseCall, LoopCheck]) == Control(true, false, 0)
  {
    assert [PauseCall, StartCall][1..] == [StartCall];
    assert [PauseCall, LoopCheck][1..] == [LoopCheck];
  }
}
