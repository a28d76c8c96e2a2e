/** The outcome lists of src/consumer-unit.ts: every finished delivery is
    recorded at the head of a global list and of a per-queue list, each cut
    to a fixed length right after the push. */
module Outcomes {
  import opened Resp
  import opened Payload
  import Defaults

  /** The `error` part of a failure record: name, message and stack of
      whatever the handler threw. */
  datatype ErrorInfo = ErrorInfo(name: string, message: string, stack: string)

  datatype Outcome = Returned(result: Json) | Raised(error: ErrorInfo)

  /** One list element. The element is the JSON text of these fields; the
      text form is not modelled. `at` is the time stamp. */
  datatype Record = Record(id: Reply, qname: string, data: Json, dedupKey: string, retryCount: nat,
                           outcome: Outcome, at: string)

  /** The lists, by key. */
  type Lists = map<string, seq<Record>>

  function ListAt(lists: Lists, key: string): seq<Record> {
    if key in lists then lists[key] else []
  }

  /** LTRIM key 0 stop: keep the elements 0..stop, where a negative stop
      counts from the end. */
  function LTrimHead(list: seq<Record>, stop: int): (r: seq<Record>)
    ensures stop >= 0 ==> r == list[..if stop + 1 < |list| then stop + 1 else |list|]
    ensures stop < 0 && -stop <= |list| ==> r == list[..|list| + stop + 1]
    ensures stop < 0 && -stop > |list| ==> r == []
  {
    var last := if stop < 0 then |list| + stop else stop;
    if last < 0 then [] else list[..if last + 1 < |list| then last + 1 else |list|]
  }

  /** LPUSH key record, then LTRIM key 0 (cap - 1). */
  function PushTrim(lists: Lists, key: string, rec: Record, cap: nat): (r: Lists)
    ensures forall k :: k != key ==> ListAt(r, k) == ListAt(lists, k)
  {
    lists[key := LTrimHead([rec] + ListAt(lists, key), cap - 1)]
  }

  /** The record is now first, the list holds at most `cap` elements, and
      what follows the record is the old list with its oldest elements cut. */
  lemma PushTrimBounded(lists: Lists, key: string, rec: Record, cap: nat)
    requires cap >= 1
    ensures var after := ListAt(PushTrim(lists, key, rec, cap), key);
            var before := ListAt(lists, key);
            && |after| == (if |before| + 1 < cap then |before| + 1 else cap)
            && after[0] == rec
            && after[1..] == before[..|after| - 1]
  {
    var before := ListAt(lists, key);
    var after := ListAt(PushTrim(lists, key, rec, cap), key);
    assert after == ([rec] + before)[..|after|];
    assert after[1..] == ([rec] + before)[1..|after|];
  }

  /** A record goes to a global list and to the queue's own copy of it. */
  function PushBoth(lists: Lists, global: string, globalCap: nat, qname: string, rec: Record): (r: Lists)
    ensures forall k :: k != global && k != Defaults.PerQueue(global, qname) ==> ListAt(r, k) == ListAt(lists, k)
  {
    var l1 := PushTrim(lists, global, rec, globalCap);
    PushTrim(l1, Defaults.PerQueue(global, qname), rec, Defaults.MaxIndividualQueueResultSize)
  }

  /** The per-queue name never coincides with its global list. */
  lemma PerQueueIsNotGlobal(global: string, qname: string)
    ensures Defaults.PerQueue(global, qname) != global
  {
    assert |Defaults.PerQueue(global, qname)| > |global|;
  }

  /** After recording, both lists start with the record and stay within
      their caps. */
  lemma PushBothHeads(lists: Lists, global: string, globalCap: nat, qname: string, rec: Record)
    requires globalCap >= 1
    ensures var r := PushBoth(lists, global, globalCap, qname, rec);
            && |ListAt(r, global)| >= 1 && ListAt(r, global)[0] == rec && |ListAt(r, global)| <= globalCap
            && |ListAt(r, Defaults.PerQueue(global, qname))| >= 1
            && ListAt(r, Defaults.PerQueue(global, qname))[0] == rec
            && |ListAt(r, Defaults.PerQueue(global, qname))| <= Defaults.MaxIndividualQueueResultSize
  {
    var l1 := PushTrim(lists, global, rec, globalCap);
    PushTrimBounded(lists, global, rec, globalCap);
    PushTrimBounded(l1, Defaults.PerQueue(global, qname), rec, Defaults.MaxIndividualQueueResultSize);
    PerQueueIsNotGlobal(global, qname);
  }

  /** The three global lists and their per-queue copies are six different
      keys: the global names already differ at their 21st character. */
  lemma ListKeysApart(l1: string, l2: string, a: string, b: string)
    requires l1 == Defaults.ResultList || l1 == Defaults.FailedList || l1 == Defaults.DeadList
    requires l2 == Defaults.ResultList || l2 == Defaults.FailedList || l2 == Defaults.DeadList
    requires l1 != l2
    ensures Defaults.PerQueue(l1, a) != l2
    ensures Defaults.PerQueue(l1, a) != Defaults.PerQueue(l2, b)
  {
    assert l1[20] != l2[20];
    assert Defaults.PerQueue(l1, a)[20] == l1[20];
    assert Defaults.PerQueue(l2, b)[20] == l2[20];
  }
}
