/** Messages, enqueue requests and the delay arithmetic (pkg/model/message.go). */
module Model {

  datatype Option<+T> = None | Some(value: T)

  datatype Result<+T, +E> = Ok(value: T) | Err(error: E)

  /** The two recognised queue modes. */
  datatype Mode = FIFO | LIFO

  const STATUS_PENDING := "PENDING"

  /** Instants are integer nanoseconds. */
  type Time = int

  datatype Message = Message(
    id: string,
    seqNo: nat,
    payload: string,
    priority: int,
    enqueuedAt: Time,
    availableAt: Time,
    status: string)
  {
    predicate Available(now: Time) {
      !(now < availableAt)
    }
  }

  /** One list of a view with the flag that tells whether the limit cut it. */
  datatype Page = Page(messages: seq<Message>, truncated: bool)

  datatype QueueStats = QueueStats(total: int, available: int, delayed: int)

  datatype QueueSnapshot = QueueSnapshot(mode: Mode, now: Time, stats: QueueStats, ready: Page, delayed: Page)

  const NANOS_PER_SECOND := 1_000_000_000

  const MAX_DELAY_SECONDS := 10 * 365 * 24 * 60 * 60

  const TWO_63 := 0x8000_0000_0000_0000

  const TWO_64 := 0x1_0000_0000_0000_0000

  datatype RequestError = EmptyPayload | NegativeDelay(got: int) | DelayTooLong(got: int)

  datatype EnqueueRequest = EnqueueRequest(payload: string, priority: int, delaySeconds: int) {

    /** The first problem found, in the order the checks are made. */
    function Validate(): Option<RequestError> {
      if payload == "" then Some(EmptyPayload)
      else if delaySeconds < 0 then Some(NegativeDelay(delaySeconds))
      else if delaySeconds > MAX_DELAY_SECONDS then Some(DelayTooLong(delaySeconds))
      else None
    }
  }

  /**
   * A request is accepted exactly with a payload and a delay of none to ten years of 365 days; a refused
   * one is told its first fault, the payload before the delay.
   */
  lemma AcceptedRequests(req: EnqueueRequest)
    ensures req.Validate() == None <==> req.payload != "" && 0 <= req.delaySeconds <= 315_360_000
    ensures req.Validate() == Some(EmptyPayload) <==> |req.payload| == 0
    ensures |req.payload| > 0 && req.delaySeconds <= -1 ==> req.Validate() == Some(NegativeDelay(req.delaySeconds))
    ensures |req.payload| > 0 && req.delaySeconds >= 315_360_001 ==> req.Validate() == Some(DelayTooLong(req.delaySeconds))
  {
  }

  /** What a 64-bit two's complement register holds after computing x. */
  function WrapInt64(x: int): int {
    (x + TWO_63) % TWO_64 - TWO_63
  }

  /** now.Add(time.Duration(delaySeconds) * time.Second), with the product in int64. */
  function AvailableFrom(now: Time, delaySeconds: int): Time {
    now + WrapInt64(delaySeconds * NANOS_PER_SECOND)
  }

  /**
   * The delay product is exact precisely for products that fit in 63 bits. Every accepted request is
   * among them, so an accepted delay is never shortened.
   */
  lemma DelayIsExact(now: Time, delaySeconds: int)
    ensures AvailableFrom(now, delaySeconds) == now + delaySeconds * NANOS_PER_SECOND
       <==> -TWO_63 <= delaySeconds * NANOS_PER_SECOND < TWO_63
    ensures 0 <= delaySeconds <= MAX_DELAY_SECONDS ==>
              now <= AvailableFrom(now, delaySeconds) == now + delaySeconds * NANOS_PER_SECOND
  {
    var p := delaySeconds * NANOS_PER_SECOND;
    if -TWO_63 <= p < TWO_63 {
      assert (p + TWO_63) % TWO_64 == p + TWO_63;
    }
  }

  /**
   * Without the cap the product wraps: 292 years and a bit asked for, and the message is
   * available at once.
   */
  lemma UncappedDelayWraps(now: Time)
    ensures AvailableFrom(now, 9_223_372_037) < now
  {
    assert (9_223_372_037 * NANOS_PER_SECOND + TWO_63) % TWO_64 < TWO_63;
  }
}
