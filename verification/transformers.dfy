/** The reply parsers of src/redis-transformers.ts: they turn raw stream,
    message and pending-entry replies into records. */
module Transformers {
  import opened Wrappers
  import opened Resp

  /** The JavaScript object `o` after running `o[k] = v` for every pair in
      order, starting from `{}`. */
  function Assign<V>(pairs: seq<(string, V)>): map<string, V>
    decreases |pairs|
  {
    if pairs == [] then map[]
    else Assign(pairs[..|pairs| - 1])[pairs[|pairs| - 1].0 := pairs[|pairs| - 1].1]
  }

  /** A property exists iff some pair assigned it, and it holds the value of
      the last pair that did. */
  lemma {:induction false} AssignLastWins<V>(pairs: seq<(string, V)>, k: string)
    ensures k in Assign(pairs) <==> exists j :: 0 <= j < |pairs| && pairs[j].0 == k
    ensures forall j :: 0 <= j < |pairs| && pairs[j].0 == k && (forall l :: j < l < |pairs| ==> pairs[l].0 != k)
                  ==> Assign(pairs)[k] == pairs[j].1
    decreases |pairs|
  {
    if pairs != [] {
      var n := |pairs| - 1;
      AssignLastWins(pairs[..n], k);
      assert forall j :: 0 <= j < n ==> pairs[..n][j] == pairs[j];
    }
  }

  /** Whatever a property holds was assigned to it by some pair. */
  lemma {:induction false} AssignFrom<V>(pairs: seq<(string, V)>, k: string)
    requires k in Assign(pairs)
    ensures exists j :: 0 <= j < |pairs| && pairs[j] == (k, Assign(pairs)[k])
    decreases |pairs|
  {
    var n := |pairs| - 1;
    if pairs[n].0 != k {
      AssignFrom(pairs[..n], k);
      var j :| 0 <= j < n && pairs[..n][j] == (k, Assign(pairs[..n])[k]);
      assert pairs[j] == (k, Assign(pairs)[k]);
    }
  }

  // ---------------------------------------------------------------------
  // parseObjectResponse

  /** Either the non-array input, returned as is, or the object built from
      an alternating key/value array. */
  datatype ObjectReply = Unchanged(value: Slot) | Object(fields: map<string, Slot>)

  /** The assignments `data[reply[i]] = reply[i + 1]` for i = 0, 2, 4, ...;
      an odd trailing key gets `undefined`. */
  function FieldPairs(items: seq<Reply>): (pairs: seq<(string, Slot)>)
    ensures |pairs| == (|items| + 1) / 2
  {
    seq((|items| + 1) / 2, j requires 0 <= j < (|items| + 1) / 2 =>
      (ToText(items[2 * j]), if 2 * j + 1 < |items| then Some(items[2 * j + 1]) else None))
  }

  function ParseObjectResponse(reply: Slot): (r: ObjectReply)
    ensures !(reply.Some? && reply.value.Array?) ==> r == Unchanged(reply)
    ensures reply.Some? && reply.value.Array? ==> r.Object?
  {
    if reply.Some? && reply.value.Array? then Object(Assign(FieldPairs(reply.value.items)))
    else Unchanged(reply)
  }

  /** On an array `[k1, v1, k2, v2, ...]` the object has exactly the keys
      `String(k_i)`, each holding the value paired with its last occurrence. */
  lemma ObjectResponseFields(items: seq<Reply>, k: string)
    ensures var fields := ParseObjectResponse(Some(Array(items))).fields;
            var pairs := FieldPairs(items);
            && (k in fields <==> exists j :: 0 <= j < |pairs| && ToText(items[2 * j]) == k)
            && forall j :: 0 <= j < |pairs| && ToText(items[2 * j]) == k
                           && (forall l :: j < l < |pairs| ==> ToText(items[2 * l]) != k)
                           ==> fields[k] == (if 2 * j + 1 < |items| then Some(items[2 * j + 1]) else None)
  {
    var pairs := FieldPairs(items);
    AssignLastWins(pairs, k);
    assert forall j :: 0 <= j < |pairs| ==>
      pairs[j].0 == ToText(items[2 * j]) && pairs[j].1 == (if 2 * j + 1 < |items| then Some(items[2 * j + 1]) else None);
  }

  // ---------------------------------------------------------------------
  // parseMessageResponse

  /** A stream message: its id and its parsed field object. */
  datatype Message = Message(id: Slot, data: ObjectReply)

  /** `{id: message[0], data: parseObjectResponse(message[1])}`. */
  function ParseMessage(message: Reply): (r: Result<Message, JsError>)
    ensures r.Failure? <==> message.Nil?
    ensures message.Array? ==> r == Success(Message(At(message, 0), ParseObjectResponse(At(message, 1))))
  {
    if message.Nil? then Failure(ReadOfNull)
    else Success(Message(At(message, 0), ParseObjectResponse(At(message, 1))))
  }

  /** `reply.map(parse)`: the first null message throws. */
  function ParseMessages(items: seq<Reply>): (r: Result<seq<Message>, JsError>)
    ensures r.Success? <==> forall i :: 0 <= i < |items| ==> !items[i].Nil?
    ensures r.Success? ==> |r.value| == |items|
    ensures r.Success? ==> forall i :: 0 <= i < |items| ==> Success(r.value[i]) == ParseMessage(items[i])
    decreases |items|
  {
    if items == [] then Success([])
    else
      var head :- ParseMessage(items[0]);
      var tail :- ParseMessages(items[1..]);
      Success([head] + tail)
  }

  function ParseMessageResponse(reply: Slot): (r: Result<seq<Message>, JsError>)
    ensures !(reply.Some? && reply.value.Array?) ==> r == Success([])
    ensures reply.Some? && reply.value.Array? ==> r == ParseMessages(reply.value.items)
  {
    if reply.Some? && reply.value.Array? then ParseMessages(reply.value.items) else Success([])
  }

  // ---------------------------------------------------------------------
  // parseStreamResponse

  /** Either the non-array input passed through (nil when nothing was read)
      or the messages of each stream, by stream name. */
  datatype StreamReply = PassedThrough(value: Slot) | Streams(byName: map<string, seq<Message>>)

  /** The assignments `object[stream[0]] = parseMessageResponse(stream[1])`. */
  function StreamPairs(items: seq<Reply>): (r: Result<seq<(string, seq<Message>)>, JsError>)
    ensures r.Success? <==> forall i :: 0 <= i < |items| ==> !items[i].Nil? && ParseMessageResponse(At(items[i], 1)).Success?
    ensures r.Success? ==> |r.value| == |items|
    ensures r.Success? ==> forall i :: 0 <= i < |items| ==>
              && !items[i].Nil?
              && r.value[i].0 == SlotText(At(items[i], 0))
              && Success(r.value[i].1) == ParseMessageResponse(At(items[i], 1))
    decreases |items|
  {
    if items == [] then Success([])
    else
      if items[0].Nil? then Failure(ReadOfNull)
      else
        var messages :- ParseMessageResponse(At(items[0], 1));
        assert forall i :: 1 <= i < |items| ==> items[i] == items[1..][i - 1];
        var tail :- StreamPairs(items[1..]);
        Success([(SlotText(At(items[0], 0)), messages)] + tail)
  }

  /** An array reply becomes an object keyed by stream name, holding the
      parsed messages of the last stream of that name; a null stream or a
      null message throws. */
  function ParseStreamResponse(reply: Slot): (r: Result<StreamReply, JsError>)
    ensures !(reply.Some? && reply.value.Array?) ==> r == Success(PassedThrough(reply))
    ensures reply.Some? && reply.value.Array? ==>
              (r.Success? <==> forall i :: 0 <= i < |reply.value.items| ==>
                 !reply.value.items[i].Nil? && ParseMessageResponse(At(reply.value.items[i], 1)).Success?)
    ensures reply.Some? && reply.value.Array? && r.Success? ==>
              var items := reply.value.items;
              && r.value.Streams?
              && (forall name :: name in r.value.byName <==> exists i :: 0 <= i < |items| && SlotText(At(items[i], 0)) == name)
              && (forall i :: 0 <= i < |items| && (forall j :: i < j < |items| ==> SlotText(At(items[j], 0)) != SlotText(At(items[i], 0)))
                    ==> Success(r.value.byName[SlotText(At(items[i], 0))]) == ParseMessageResponse(At(items[i], 1)))
  {
    if reply.Some? && reply.value.Array? then
      var pairs :- StreamPairs(reply.value.items);
      StreamsByName(pairs);
      Success(Streams(Assign(pairs)))
    else Success(PassedThrough(reply))
  }

  /** `AssignLastWins` for every name at once. */
  lemma StreamsByName(pairs: seq<(string, seq<Message>)>)
    ensures forall name :: name in Assign(pairs) <==> exists j :: 0 <= j < |pairs| && pairs[j].0 == name
    ensures forall j :: 0 <= j < |pairs| && (forall l :: j < l < |pairs| ==> pairs[l].0 != pairs[j].0)
              ==> Assign(pairs)[pairs[j].0] == pairs[j].1
  {
    forall name
      ensures name in Assign(pairs) <==> exists j :: 0 <= j < |pairs| && pairs[j].0 == name
    {
      AssignLastWins(pairs, name);
    }
    forall j | 0 <= j < |pairs| && (forall l :: j < l < |pairs| ==> pairs[l].0 != pairs[j].0)
      ensures Assign(pairs)[pairs[j].0] == pairs[j].1
    {
      AssignLastWins(pairs, pairs[j].0);
    }
  }

  // ---------------------------------------------------------------------
  // parseXPendingResponse

  /** One entry of the detailed XPENDING form. */
  datatype PendingRecord = PendingRecord(id: Slot, consumerName: Slot, elapsedMilliseconds: Option<int>, deliveryCount: Option<int>)

  datatype ConsumerCount = ConsumerCount(name: Slot, count: Option<int>)

  /** The summary form, or the list of detailed records (`[]` included);
      `None` among the numbers is NaN. */
  datatype PendingReply =
    | Summary(count: Option<int>, minId: Slot, maxId: Slot, consumers: seq<ConsumerCount>)
    | Records(records: seq<PendingRecord>)

  function ParseConsumerCount(consumer: Reply): Result<ConsumerCount, JsError> {
    if consumer.Nil? then Failure(ReadOfNull)
    else Success(ConsumerCount(At(consumer, 0), ParseInt(At(consumer, 1))))
  }

  function ParseConsumerCounts(items: seq<Reply>): (r: Result<seq<ConsumerCount>, JsError>)
    ensures r.Success? <==> forall i :: 0 <= i < |items| ==> !items[i].Nil?
    ensures r.Success? ==> |r.value| == |items|
    decreases |items|
  {
    if items == [] then Success([])
    else
      var head :- ParseConsumerCount(items[0]);
      var tail :- ParseConsumerCounts(items[1..]);
      Success([head] + tail)
  }

  function ParsePendingRecord(message: Reply): (r: Result<PendingRecord, JsError>)
    ensures r.Failure? <==> message.Nil?
  {
    if message.Nil? then Failure(ReadOfNull)
    else Success(PendingRecord(At(message, 0), At(message, 1), ParseInt(At(message, 2)), ParseInt(At(message, 3))))
  }

  function ParsePendingRecords(items: seq<Reply>): (r: Result<seq<PendingRecord>, JsError>)
    ensures r.Success? <==> forall i :: 0 <= i < |items| ==> !items[i].Nil?
    ensures r.Success? ==> |r.value| == |items|
    ensures r.Success? ==> forall i :: 0 <= i < |items| ==> Success(r.value[i]) == ParsePendingRecord(items[i])
    decreases |items|
  {
    if items == [] then Success([])
    else
      var head :- ParsePendingRecord(items[0]);
      var tail :- ParsePendingRecords(items[1..]);
      Success([head] + tail)
  }

  /** `(reply[3] || []).map(...)` of the summary branch. */
  function SummaryConsumers(third: Slot): Result<seq<ConsumerCount>, JsError> {
    if !Truthy(third) then Success([])
    else if third.value.Array? then ParseConsumerCounts(third.value.items)
    else Failure(NotAFunction)
  }

  /** A reply of length 4 always takes the summary branch: `Number.isNaN`
      is false for anything that is not the number NaN, and no reply is. */
  function ParseXPendingResponse(reply: Slot): (r: Result<PendingReply, JsError>)
    ensures !Truthy(reply) ==> r == Success(Records([]))
    ensures Truthy(reply) && Length(reply.value) == Some(0) ==> r == Success(Records([]))
    ensures Truthy(reply) && Length(reply.value) == Some(4) && r.Success? ==> r.value.Summary?
    ensures Truthy(reply) && reply.value.Array? && |reply.value.items| != 4
            ==> r == (var recs :- ParsePendingRecords(reply.value.items); Success(Records(recs)))
  {
    if !Truthy(reply) || Length(reply.value) == Some(0) then Success(Records([]))
    else
      var v := reply.value;
      if Length(v) == Some(4) then
        var consumers :- SummaryConsumers(At(v, 3));
        Success(Summary(ParseInt(At(v, 0)), At(v, 1), At(v, 2), consumers))
      else if v.Array? then
        var recs :- ParsePendingRecords(v.items);
        Success(Records(recs))
      else Failure(NotAFunction)
  }

  /** The ids the cleanup pass claims: those of the records when the parsed
      reply is an array, none otherwise (src/consumer-unit.ts:253-256). */
  function PendingIds(p: PendingReply): (ids: seq<Slot>)
    ensures p.Summary? ==> ids == []
    ensures p.Records? ==> |ids| == |p.records| && forall i :: 0 <= i < |ids| ==> ids[i] == p.records[i].id
  {
    if p.Summary? then [] else seq(|p.records|, i requires 0 <= i < |p.records| => p.records[i].id)
  }

  /** The summary test as evidently meant: a four-element reply is the
      summary form only when its first element is the count. */
  function ParseXPendingCorrected(reply: Slot): (r: Result<PendingReply, JsError>)
    ensures Truthy(reply) && reply.value.Array? && |reply.value.items| > 0 && !reply.value.items[0].Integer?
            ==> r == (var recs :- ParsePendingRecords(reply.value.items); Success(Records(recs)))
    ensures !(Truthy(reply) && reply.value.Array? && |reply.value.items| == 4 && !reply.value.items[0].Integer?)
            ==> r == ParseXPendingResponse(reply)
  {
    if Truthy(reply) && reply.value.Array? && |reply.value.items| == 4 && !reply.value.items[0].Integer? then
      var recs :- ParsePendingRecords(reply.value.items);
      Success(Records(recs))
    else ParseXPendingResponse(reply)
  }
}
