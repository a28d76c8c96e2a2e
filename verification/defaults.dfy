/** Constants of src/defaults.ts and the key names every component derives
    from a queue name. */
module Defaults {

  const Namespace: string := "__orkid"
  const ResultList: string := "__orkid:__internals:results"
  const FailedList: string := "__orkid:__internals:failed"
  const DeadList: string := "__orkid:__internals:dead"
  const QueueNames: string := "__orkid:__internals:qnames"

  /** List caps; the library offers no way to override them. */
  const MaxIndividualQueueResultSize: nat := 10000
  const MaxResultListSize: nat := 100000
  const MaxFailedListSize: nat := 100000
  const MaxDeadListSize: nat := 100000

  /** Consumer option defaults. */
  const DefaultWorkerFnTimeoutMs: int := 24 * 60 * 60 * 1000
  const DefaultTaskBufferSize: int := 10
  const DefaultMaxRetry: int := 0
  const DefaultConcurrency: int := 1

  /** `${NAMESPACE}:queue:${qname}`: the queue's stream. */
  function QueueKey(qname: string): string {
    Namespace + ":queue:" + qname
  }

  function DedupSetKey(qname: string): string {
    QueueKey(qname) + ":dedupset"
  }

  function GroupName(qname: string): string {
    QueueKey(qname) + ":cg"
  }

  /** The per-queue copy of a global outcome list. */
  function PerQueue(list: string, qname: string): string {
    list + ":" + qname
  }

  /** The derived names never coincide with each other nor with the bare
      queue name. */
  lemma KeysDistinct(qname: string)
    ensures QueueKey(qname) != qname
    ensures QueueKey(qname) != DedupSetKey(qname)
    ensures QueueKey(qname) != GroupName(qname)
  {
    assert |QueueKey(qname)| == |qname| + 14;
  }

  /** Different queues get different streams. */
  lemma QueueKeyInjective(a: string, b: string)
    ensures QueueKey(a) == QueueKey(b) ==> a == b
  {
    if QueueKey(a) == QueueKey(b) {
      assert a == QueueKey(a)[14..];
    }
  }
}
