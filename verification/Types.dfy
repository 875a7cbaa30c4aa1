/** The values every part of lclq passes around. Instants are nanoseconds on one clock that
    never runs backwards; durations given in seconds are scaled by SECOND. */
module Types {
  const SECOND: nat := 1_000_000_000
  const U32_LIMIT: nat := 0x1_0000_0000

  type u32 = x: nat | x < U32_LIMIT witness 0
  type bytes = seq<bv8>

  datatype Option<+T> = None | Some(value: T)

  datatype QueueType = SqsStandard | SqsFifo | PubSubTopic

  datatype DlqConfig = DlqConfig(target: string, maxReceiveCount: u32)

  datatype QueueConfig = QueueConfig(
    id: string,
    queueType: QueueType,
    visibilityTimeout: u32,
    delaySeconds: u32,
    dlq: Option<DlqConfig>,
    contentBasedDedup: bool)

  datatype Attribute = Attribute(dataType: string, stringValue: Option<string>, binaryValue: Option<bytes>)

  datatype Message = Message(
    id: string,
    body: string,
    attributes: map<string, Attribute>,
    queueId: string,
    sentAt: nat,
    receiveCount: u32,
    groupId: Option<string>,
    dedupId: Option<string>,
    sequence: Option<nat>,
    delay: Option<u32>)

  /** The part of a message that no operation after the send may change. */
  function Payload(m: Message): Message {
    m.(queueId := "", sentAt := 0, receiveCount := 0)
  }

  /** u32 addition of one, as the release build computes it. */
  function Increment(c: u32): u32 {
    (c + 1) % U32_LIMIT
  }

  datatype EvictionPolicy = Lru | Fifo | RejectNew

  datatype Signature = Missing | NotHex(text: string) | Bytes(value: bytes)

  /** A receipt handle, up to what it decodes to: `spelling` tells apart the texts that decode
      to the same fields, 0 being the one the server writes. */
  datatype Handle =
    | Undecodable(text: string)
    | Decoded(queueId: string, messageId: string, nonce: nat, signature: Signature, spelling: nat)

  /** What the server was started with. `digest` stands for the hash of a message body and `mac`
      for the keyed hash over the unsigned fields of a receipt handle. */
  datatype Params = Params(
    maxMessages: nat,
    policy: EvictionPolicy,
    digest: string -> string,
    mac: (string, string, nat) -> bytes)

  datatype RetryPolicy = RetryPolicy(minBackoff: u32, maxBackoff: u32, maxAttempts: u32)

  const DEFAULT_RETRY := RetryPolicy(10, 600, 5)

  datatype PushConfig = PushConfig(endpoint: string, retryPolicy: Option<RetryPolicy>)

  datatype Subscription = Subscription(
    id: string,
    name: string,
    topicId: string,
    deadLetterTopic: Option<string>,
    push: Option<PushConfig>)

  /** One HTTP delivery to make. `ticket` is the identity of the delivery, the same for all its
      retries; it is not in the program's data and no step depends on it. */
  datatype Task = Task(ticket: nat, message: Message, subscription: Subscription, attempt: u32, due: nat)
}
