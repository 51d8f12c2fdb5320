/** What passes through the queues: first in, first out over whole runs, and when a worker gives up looking. */
module QueueLaws {
  import opened Shards
  import opened Protocol
  import opened Invariant
  import opened Steps
  import opened LastActive
  import opened Rotation

  // ---- what each action puts into a queue and what it hands out ----

  /** The task that the action sends to shard k. */
  function ShardIn(c: Config, s: State, a: Action, k: nat): seq<Id>
    requires Enabled(c, s, a)
  {
    if a.Sub? && HasShard(s.jobs[a.id].pc) && s.jobs[a.id].pc.k == k && k < |s.shards| && |s.shards[k]| < c.shardCap
    then [if s.jobs[a.id].pc.FwdSend? then s.buffer[0] else a.id]
    else []
  }

  /** The tasks that a worker comes to hold by this action. */
  function Gets(c: Config, s: State, a: Action): seq<Id>
    requires Enabled(c, s, a)
  {
    var t := Apply(c, s, a);
    if a.Work? && a.g < |t.gors| && !s.gors[a.g].pc.Run? && t.gors[a.g].pc.Run? then t.gors[a.g].pc.batch else []
  }

  /** The task that a worker receives from shard k: what it comes to hold by probing that shard. */
  function ShardOut(c: Config, s: State, a: Action, k: nat): seq<Id>
    requires Enabled(c, s, a)
  {
    if a.Work? && s.gors[a.g].pc.Scan? && s.gors[a.g].pc.i < c.shards && Probe(c, s, a.g) == k then Gets(c, s, a) else []
  }

  function BufferIn(c: Config, s: State, a: Action): seq<Id>
    requires Enabled(c, s, a)
  {
    if a.Sub? && s.jobs[a.id].pc.Push? && (s.closer == Open || s.closer == Flagged) && |s.buffer| < 100_000 then [a.id] else []
  }

  /** The head that a forward has sent, or the batch that a worker takes. */
  function BufferOut(c: Config, s: State, a: Action): seq<Id>
    requires Enabled(c, s, a)
  {
    if a.Sub? && s.jobs[a.id].pc.FwdPop? then [s.buffer[0]]
    else if a.Work? && s.gors[a.g].pc.Batch? then Gets(c, s, a)
    else []
  }

  lemma SubQueues(c: Config, s: State, id: Id, k: nat)
    requires SubEnabled(c, s, id) && k < |s.shards|
    ensures var t := SubStep(c, s, id);
      |t.shards| == |s.shards| && t.shards[k] == s.shards[k] + ShardIn(c, s, Sub(id), k)
      && s.buffer + BufferIn(c, s, Sub(id)) == BufferOut(c, s, Sub(id)) + t.buffer
  {
  }

  /** The head of the probed shard, if there is one, is a task. */
  predicate HeadIsTask(c: Config, s: State, g: Gid)
    requires WorkEnabled(c, s, g)
  {
    (s.gors[g].pc.Scan? && s.gors[g].pc.i < c.shards && s.shards[Probe(c, s, g)] != [])
    ==> !s.jobs[s.shards[Probe(c, s, g)][0]].body.NilInterface?
  }

  lemma HeadsAreTasks(c: Config, s: State, g: Gid)
    requires Inv(c, s) && WorkEnabled(c, s, g)
    ensures HeadIsTask(c, s, g)
  {
    if s.gors[g].pc.Scan? && s.gors[g].pc.i < c.shards && s.shards[Probe(c, s, g)] != [] {
      assert JobOk(c, s.jobs[s.shards[Probe(c, s, g)][0]]);
    }
  }

  lemma ScanQueues(c: Config, s: State, g: Gid, now: int, panics: bool, k: nat)
    requires WorkEnabled(c, s, g) && HeadIsTask(c, s, g) && s.gors[g].pc.Scan? && k < |s.shards|
    ensures var t := WorkStep(c, s, g, now, panics);
      |t.shards| == |s.shards| && t.buffer == s.buffer
      && s.shards[k] == ShardOut(c, s, Work(g, now, panics), k) + t.shards[k]
  {
  }

  lemma BatchQueues(c: Config, s: State, g: Gid)
    requires WorkEnabled(c, s, g) && s.gors[g].pc.Batch?
    ensures var t := BatchStep(s, g);
      t.shards == s.shards && s.buffer == BufferOut(c, s, Work(g, 0, false)) + t.buffer
      && |BufferOut(c, s, Work(g, 0, false))| == if |s.buffer| < 8 then |s.buffer| else 8
  {
  }

  lemma OtherWorkQueues(c: Config, s: State, g: Gid, now: int, panics: bool)
    requires WorkEnabled(c, s, g) && !s.gors[g].pc.Scan? && !s.gors[g].pc.Batch?
    ensures WorkStep(c, s, g, now, panics).shards == s.shards && WorkStep(c, s, g, now, panics).buffer == s.buffer
  {
  }

  lemma WorkQueues(c: Config, s: State, g: Gid, now: int, panics: bool, k: nat)
    requires WorkEnabled(c, s, g) && HeadIsTask(c, s, g) && k < |s.shards|
    ensures var t, a := WorkStep(c, s, g, now, panics), Work(g, now, panics);
      |t.shards| == |s.shards| && s.shards[k] == ShardOut(c, s, a, k) + t.shards[k] && s.buffer == BufferOut(c, s, a) + t.buffer
  {
    if s.gors[g].pc.Scan? {
      ScanQueues(c, s, g, now, panics, k);
    } else if s.gors[g].pc.Batch? {
      BatchQueues(c, s, g);
    } else {
      OtherWorkQueues(c, s, g, now, panics);
    }
  }

  /** Every action appends what it puts in at the end and hands out from the front. */
  lemma StepFifo(c: Config, s: State, a: Action, k: nat)
    requires Enabled(c, s, a) && (a.Work? ==> HeadIsTask(c, s, a.g)) && k < |s.shards|
    ensures var t := Apply(c, s, a);
      |t.shards| == |s.shards| && s.shards[k] + ShardIn(c, s, a, k) == ShardOut(c, s, a, k) + t.shards[k]
      && s.buffer + BufferIn(c, s, a) == BufferOut(c, s, a) + t.buffer
  {
    if a.Sub? {
      SubQueues(c, s, a.id, k);
    } else if a.Work? {
      WorkQueues(c, s, a.g, a.now, a.panics, k);
    }
  }

  // ---- whole runs ----

  function AllIn(c: Config, s: State, run: seq<Action>, k: nat): seq<Id>
    requires Fires(c, s, run)
    decreases |run|
  {
    if run == [] then [] else ShardIn(c, s, run[0], k) + AllIn(c, Apply(c, s, run[0]), run[1..], k)
  }

  function AllOut(c: Config, s: State, run: seq<Action>, k: nat): seq<Id>
    requires Fires(c, s, run)
    decreases |run|
  {
    if run == [] then [] else ShardOut(c, s, run[0], k) + AllOut(c, Apply(c, s, run[0]), run[1..], k)
  }

  function AllPushed(c: Config, s: State, run: seq<Action>): seq<Id>
    requires Fires(c, s, run)
    decreases |run|
  {
    if run == [] then [] else BufferIn(c, s, run[0]) + AllPushed(c, Apply(c, s, run[0]), run[1..])
  }

  function AllTaken(c: Config, s: State, run: seq<Action>): seq<Id>
    requires Fires(c, s, run)
    decreases |run|
  {
    if run == [] then [] else BufferOut(c, s, run[0]) + AllTaken(c, Apply(c, s, run[0]), run[1..])
  }

  lemma Chain(q: seq<Id>, x: seq<Id>, y: seq<Id>, r: seq<Id>, xs: seq<Id>, ys: seq<Id>, t: seq<Id>)
    requires q + x == y + r && r + xs == ys + t
    ensures q + (x + xs) == (y + ys) + t
  {
    assert q + (x + xs) == (q + x) + xs == (y + r) + xs == y + (r + xs);
  }

  /**
   First in, first out, over every run: what workers have received from a shard, followed by what it holds, is
   what it held at first followed by what was sent to it; and likewise for the overflow buffer.
   */
  lemma {:induction false} QueuesAreFifo(c: Config, s: State, run: seq<Action>, k: nat)
    requires c.Valid() && Inv(c, s) && Fires(c, s, run) && k < |s.shards|
    ensures k < |After(c, s, run).shards|
    ensures s.shards[k] + AllIn(c, s, run, k) == AllOut(c, s, run, k) + After(c, s, run).shards[k]
    ensures s.buffer + AllPushed(c, s, run) == AllTaken(c, s, run) + After(c, s, run).buffer
    decreases |run|
  {
    if run != [] {
      var a, rest := run[0], run[1..];
      var t := Apply(c, s, a);
      if a.Work? {
        HeadsAreTasks(c, s, a.g);
      }
      StepFifo(c, s, a, k);
      StepKeepsInv(c, s, a);
      QueuesAreFifo(c, t, rest, k);
      Chain(s.shards[k], ShardIn(c, s, a, k), ShardOut(c, s, a, k), t.shards[k], AllIn(c, t, rest, k), AllOut(c, t, rest, k), After(c, t, rest).shards[k]);
      Chain(s.buffer, BufferIn(c, s, a), BufferOut(c, s, a), t.buffer, AllPushed(c, t, rest), AllTaken(c, t, rest), After(c, t, rest).buffer);
    }
  }

  /** From the new pool: received so far, then still there, is everything sent. */
  lemma PoolIsFifo(c: Config, run: seq<Action>, k: nat)
    requires c.Valid() && Fires(c, Init(c), run) && k < c.shards
    ensures var s := After(c, Init(c), run);
      k < |s.shards| && AllIn(c, Init(c), run, k) == AllOut(c, Init(c), run, k) + s.shards[k]
      && AllPushed(c, Init(c), run) == AllTaken(c, Init(c), run) + s.buffer
  {
    InitInv(c);
    QueuesAreFifo(c, Init(c), run, k);
    assert [] + AllIn(c, Init(c), run, k) == AllIn(c, Init(c), run, k) && [] + AllPushed(c, Init(c), run) == AllPushed(c, Init(c), run);
  }

  // ---- a worker's own order ----

  /**
   A worker works off what it holds in the order in which it took it: the task in front is the only one it advances,
   it leaves the front exactly when it is finished, and after the last one the next scan starts at the shard of the last receipt.
   */
  lemma WorksInOrder(c: Config, s: State, g: Gid, now: int, panics: bool)
    requires WorkEnabled(c, s, g) && s.gors[g].pc.Run?
    ensures var batch, t := s.gors[g].pc.batch, WorkStep(c, s, g, now, panics);
      |t.gors| == |s.gors| && |t.jobs| == |s.jobs| && t.gors[g].cursor == s.gors[g].cursor
      && (forall x :: 0 <= x < |s.jobs| && x != batch[0] ==> t.jobs[x] == s.jobs[x])
      && (s.gors[g].pc.phase == Running ==> t.jobs[batch[0]].log == s.jobs[batch[0]].log + [Ran(panics)])
      && if t.finished == s.finished then t.gors[g].pc.Run? && t.gors[g].pc.batch == batch
         else t.finished == s.finished + [batch[0]]
              && if |batch| == 1 then t.gors[g].pc == Scan(0) else t.gors[g].pc == Run(batch[1..], Touching)
  {
  }

  /** A worker that receives from a shard starts its next scan there. */
  lemma CursorFollows(c: Config, s: State, g: Gid, now: int, panics: bool)
    requires WorkEnabled(c, s, g) && s.gors[g].pc.Scan? && s.gors[g].pc.i < c.shards
    ensures var t := WorkStep(c, s, g, now, panics);
      |t.gors| == |s.gors| && t.gors[g].cursor == if t.gors[g].pc.Run? then Probe(c, s, g) else s.gors[g].cursor
  {
  }

  // ---- giving up ----

  /** The shard that the action of g finds empty, if it is a probe that does. */
  function FindsEmpty(c: Config, s: State, a: Action, g: Gid): set<nat>
    requires Enabled(c, s, a)
  {
    if a.Work? && a.g == g && s.gors[g].pc.Scan? && s.gors[g].pc.i < c.shards && s.shards[Probe(c, s, g)] == []
    then {Probe(c, s, g)} else {}
  }

  /** The shards that g has found empty since it was started or last held a task. */
  function FoundEmpty(c: Config, s: State, run: seq<Action>, g: Gid, found: set<nat>): set<nat>
    requires Fires(c, s, run)
    decreases |run|
  {
    if run == [] then found
    else
      var anew := g >= |s.gors| || s.gors[g].pc.Begin? || s.gors[g].pc.Run?;
      FoundEmpty(c, Apply(c, s, run[0]), run[1..], g, (if anew then {} else found) + FindsEmpty(c, s, run[0], g))
  }

  /** How far the scan of g has come, in shards found empty. */
  predicate Scanned(c: Config, s: State, g: Gid, found: set<nat>)
    requires c.shards >= 1
  {
    g < |s.gors| ==>
      match s.gors[g].pc
      case Scan(i) => forall j :: 0 <= j < i && j < c.shards ==> ProbeShard(s.gors[g].cursor, j, c.shards) in found
      case Batch => forall k :: 0 <= k < c.shards ==> k in found
      case ParkDec => forall k :: 0 <= k < c.shards ==> k in found
      case ParkIdle => forall k :: 0 <= k < c.shards ==> k in found
      case _ => true
  }

  /** After a whole scan every shard has been found empty. */
  lemma WholeScan(c: Config, cursor: nat, found: set<nat>)
    requires c.Valid() && c.shards >= 1 && forall j :: 0 <= j < c.shards ==> ProbeShard(cursor, j, c.shards) in found
    ensures forall k :: 0 <= k < c.shards ==> k in found
  {
    forall k | 0 <= k < c.shards
      ensures k in found
    {
      var i := ScanCovers(cursor, c.shards, k);
    }
  }

  /** Where g's own steps lead: through the probes to the buffer, and away only past an empty buffer. */
  lemma OwnPath(c: Config, s: State, g: Gid, now: int, panics: bool)
    requires WorkEnabled(c, s, g) && !s.gors[g].pc.Run?
    ensures var w, t := s.gors[g], WorkStep(c, s, g, now, panics);
      |t.gors| == |s.gors|
      && match w.pc
         case Begin => t.gors[g].pc == Scan(0)
         case Scan(i) =>
           if i >= c.shards then t.gors[g].pc == Batch
           else if s.shards[Probe(c, s, g)] == [] then t.gors[g] == w.(pc := Scan(i + 1))
           else t.gors[g].pc.Run? || t.gors[g] == w.(pc := Scan(i + 1))
         case Batch => if s.buffer == [] then t.gors[g].pc == ParkDec else t.gors[g].pc.Run?
         case ParkDec => t.gors[g].pc == ParkIdle
         case ParkIdle => t.gors[g].pc == Exited
         case _ => true
  {
  }

  lemma OwnScanned(c: Config, s: State, g: Gid, now: int, panics: bool, found: set<nat>)
    requires c.Valid() && c.shards >= 1 && Inv(c, s) && WorkEnabled(c, s, g) && !s.gors[g].pc.Run? && Scanned(c, s, g, found)
    ensures Scanned(c, WorkStep(c, s, g, now, panics), g, found + FindsEmpty(c, s, Work(g, now, panics), g))
  {
    OwnPath(c, s, g, now, panics);
    if s.gors[g].pc.Scan? {
      if s.gors[g].pc.i >= c.shards {
        WholeScan(c, s.gors[g].cursor, found);
      } else {
        ReceivesHead(c, s, g, now, panics);
      }
    }
  }

  /** A probe of a shard that is not empty receives its head. */
  lemma ReceivesHead(c: Config, s: State, g: Gid, now: int, panics: bool)
    requires Inv(c, s) && WorkEnabled(c, s, g) && s.gors[g].pc.Scan? && s.gors[g].pc.i < c.shards && |s.shards| == c.shards
    ensures s.shards[Probe(c, s, g)] != [] ==> WorkStep(c, s, g, now, panics).gors[g].pc == Run([s.shards[Probe(c, s, g)][0]], Touching)
  {
    HeadsAreTasks(c, s, g);
  }

  lemma StepScanned(c: Config, s: State, a: Action, g: Gid, found: set<nat>)
    requires c.Valid() && c.shards >= 1 && Inv(c, s) && Enabled(c, s, a) && Scanned(c, s, g, found)
    ensures var anew := g >= |s.gors| || s.gors[g].pc.Begin? || s.gors[g].pc.Run?;
      Scanned(c, Apply(c, s, a), g, (if anew then {} else found) + FindsEmpty(c, s, a, g))
  {
    if a.Work? && a.g == g {
      if s.gors[g].pc.Run? {
        WorksInOrder(c, s, g, a.now, a.panics);
      } else {
        OwnScanned(c, s, g, a.now, a.panics, if s.gors[g].pc.Begin? then {} else found);
      }
    } else {
      OthersStep(c, s, a, g);
    }
  }

  lemma {:induction false} RunScanned(c: Config, s: State, run: seq<Action>, g: Gid, found: set<nat>)
    requires c.Valid() && c.shards >= 1 && Inv(c, s) && Fires(c, s, run) && Scanned(c, s, g, found)
    ensures Scanned(c, After(c, s, run), g, FoundEmpty(c, s, run, g, found))
    decreases |run|
  {
    if run != [] {
      StepScanned(c, s, run[0], g, found);
      StepKeepsInv(c, s, run[0]);
      var anew := g >= |s.gors| || s.gors[g].pc.Begin? || s.gors[g].pc.Run?;
      RunScanned(c, Apply(c, s, run[0]), run[1..], g, (if anew then {} else found) + FindsEmpty(c, s, run[0], g));
    }
  }

  /** A worker looks at the overflow buffer, and so parks, only after it has found every shard empty since its last task. */
  lemma GivesUpAfterWholeScan(c: Config, run: seq<Action>, g: Gid, k: nat)
    requires c.Valid() && Fires(c, Init(c), run) && g < |After(c, Init(c), run).gors| && k < c.shards
    requires var pc := After(c, Init(c), run).gors[g].pc; pc.Batch? || pc.ParkDec? || pc.ParkIdle?
    ensures k in FoundEmpty(c, Init(c), run, g, {})
  {
    InitInv(c);
    ShardInRange(0, c.shards);
    RunScanned(c, Init(c), run, g, {});
  }

  /** And it decides to park exactly when it then finds the buffer empty. */
  lemma ParksExactly(c: Config, s: State, a: Action, g: Gid)
    requires Enabled(c, s, a) && g < |s.gors| && !s.gors[g].pc.ParkDec?
    ensures g < |Apply(c, s, a).gors|
    ensures Apply(c, s, a).gors[g].pc.ParkDec? <==> a.Work? && a.g == g && s.gors[g].pc.Batch? && s.buffer == []
  {
    if a.Work? && a.g == g {
      if s.gors[g].pc.Run? {
        WorksInOrder(c, s, g, a.now, a.panics);
      } else {
        OwnPath(c, s, g, a.now, a.panics);
      }
    } else {
      OthersStep(c, s, a, g);
    }
  }
}
