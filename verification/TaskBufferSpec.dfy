/** What the overflow buffer promises, over the sequence of its tasks. */
module TaskBufferSpec {

  const MAX_CHUNK_LEN := 100_000
  const BATCH_SIZE := 8

  datatype PushResult = BufferAccepted | BufferClosed | BufferFull

  function PushOutcome(len: nat, closed: bool): PushResult {
    if closed then BufferClosed
    else if len >= MAX_CHUNK_LEN then BufferFull
    else BufferAccepted
  }

  /** The tasks that PopBatch hands out for a destination of size n, and the tasks that stay. */
  function TakeBatch<T>(q: seq<T>, n: nat): seq<T> {
    if |q| <= n then q else q[..n]
  }

  function LeaveBatch<T>(q: seq<T>, n: nat): seq<T> {
    if |q| <= n then [] else q[n..]
  }
}
