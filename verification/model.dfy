/** The replicated state, the requests that change it and the answers it gives. */
module Model {
  import opened Collections

  const DEDUP_CAPACITY: nat := 100_000
  const DEFAULT_RETAIN_MAX_MESSAGES: nat := 1_000_000
  const GROUP_GC_THRESHOLD: nat := 1024
  const GROUP_IDLE_EXPIRE_MS: nat := 7 * 24 * 60 * 60 * 1000
  const MAX_NAME_BYTES: nat := 256
  const MAX_PRODUCER_ID_BYTES: nat := 256
  const MAX_TOPICS: nat := 10_000
  const MAX_GROUPS_PER_TOPIC: nat := 1_000
  const MAX_VISIBILITY_MS: nat := 12 * 60 * 60 * 1000
  const MAX_COUNTER: nat := 0x4000_0000_0000_0000

  newtype byte = b: int | 0 <= b < 256

  type Name = string
  type Bytes = seq<byte>

  datatype ContentType = Raw | Text | Json | MsgPack

  datatype Message = Message(offset: nat, priority: nat, contentType: ContentType, payload: Bytes, tsMs: nat)

  datatype Lease = Lease(offset: nat, deadlineMs: nat)

  datatype GroupState = GroupState(
    watermark: nat,
    ackedAbove: set<nat>,
    inFlight: map<nat, Lease>,
    leasedOffsets: map<nat, nat>,
    pollCount: nat,
    lastActiveMs: nat)

  type DedupKey = (Name, nat)

  /** The table of remembered produces and the queue that evicts from it. */
  datatype Dedup = Dedup(entries: map<DedupKey, nat>, order: seq<DedupKey>)

  datatype TopicState = TopicState(
    nextOffset: nat,
    messages: map<nat, Message>,
    dedup: Dedup,
    groups: map<Name, GroupState>,
    rateMilliPerSec: nat,
    burst: nat,
    retainMaxMessages: nat,
    retainMaxAgeMs: nat)

  datatype QueueState = QueueState(topics: map<Name, TopicState>, nextLeaseId: nat)

  const EMPTY_TOPIC := TopicState(0, map[], Dedup(map[], []), map[], 0, 0, 0, 0)

  const EMPTY_QUEUE := QueueState(map[], 0)

  datatype ProduceItem = ProduceItem(
    topic: Name,
    priority: nat,
    contentType: ContentType,
    payload: Bytes,
    producerId: Name,
    seqNo: nat,
    tsMs: u64)

  datatype Request =
    | Produce(item: ProduceItem)
    | ProduceMany(items: seq<ProduceItem>)
    | Poll(topic: Name, group: Name, max: u32, visibilityMs: u64, tsMs: u64)
    | PollAuto(topic: Name, group: Name, max: u32, visibilityMs: u64, tsMs: u64)
    | Ack(topic: Name, group: Name, leaseId: nat)
    | AckMany(topic: Name, group: Name, leaseIds: seq<nat>)
    | Nack(topic: Name, group: Name, leaseId: nat)
    | NackMany(topic: Name, group: Name, leaseIds: seq<nat>)
    | CommitOffset(topic: Name, group: Name, offset: nat)
    | CommitOffsetAt(topic: Name, group: Name, offset: nat, tsMs: u64)
    | CreateTopic(topic: Name)
    | DeleteTopic(topic: Name)
    | SetRateLimit(topic: Name, rateMilliPerSec: nat, burst: nat)
    | SetRetention(topic: Name, maxMessages: nat, maxAgeMs: nat)

  datatype Delivered = Delivered(
    leaseId: nat,
    offset: nat,
    priority: nat,
    contentType: ContentType,
    payload: Bytes,
    tsMs: nat)

  datatype Response =
    | Produced(offset: nat)
    | ProducedMany(offsets: seq<nat>)
    | Polled(items: seq<Delivered>)
    | Acked
    | Nacked
    | Committed
    | TopicCreated
    | TopicDeleted
    | RateLimitSet
    | RetentionSet
    | NoOp
    | Rejected
}
