/** NewPool's sizing as the configuration of the protocol. */
module NewPool {
  import opened Shards
  import opened Scaling
  import opened Protocol
  import opened Capacity

  datatype Sizing = Sized(config: Config) | NeverReturns

  /** The options that reach the sizing: the queue size is at least 1 once the options are applied. */
  method Size(taskQueueShards: int, taskQueueSize: int, maxprocs: nat, nonblock: bool, knobs: Knobs) returns (r: Sizing)
    requires taskQueueSize >= 1 && knobs.Valid()
    ensures r.NeverReturns? <==> taskQueueShards > TOP_SHIFT
    ensures r.Sized? ==> r.config.Valid() && r.config.knobs == knobs && r.config.nonblock == nonblock
    ensures r.Sized? ==> PowerOfTwo(r.config.shards) && Fits(r.config.shards, taskQueueShards, taskQueueSize, maxprocs)
    ensures r.Sized? ==> r.config.shards <= taskQueueSize <= r.config.shards * r.config.shardCap < taskQueueSize + r.config.shards
  {
    var n := ResolveTaskQueueShards(taskQueueShards, taskQueueSize, maxprocs);
    if n.Diverges? {
      return NeverReturns;
    }
    ghost var k: nat :| n.shards == Pow2(k);
    TotalCapacity(taskQueueSize, n.shards);
    r := Sized(Config(n.shards, PerShardCap(taskQueueSize, n.shards), nonblock, knobs));
  }

  /** Backpressure in the terms of the options: the configured queue size, less than one slot more per shard, the buffer and the batches. */
  lemma SizedBackpressure(c: Config, s: State, taskQueueSize: int)
    requires c.Valid() && Reachable(c, s)
    requires c.shards <= taskQueueSize && c.shards * c.shardCap < taskQueueSize + c.shards
    ensures |Outstanding(s)| < taskQueueSize + c.shards + 100_000 + 8 * (c.knobs.capacity + 1)
    ensures |Outstanding(s)| < 2 * taskQueueSize + 100_000 + 8 * (c.knobs.capacity + 1)
  {
    BackpressureBound(c, s);
  }
}
