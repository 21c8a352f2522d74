/**
 * The consumer loop itself: an object that owns the cache and the start
 * offsets, updated in place by the rebalance listener and the poll loop.
 * Every method is proved to follow the functions of module Consumption.
 */
module ConsumerLoop {
  import opened KafkaModel
  import opened Consumption

  class ConsumerAtLeastOnce {
    /** The cache, shared with the read API; `run` does not clear it. */
    var cache: Cache
    /** The start offset of each assigned partition, reset by every run. */
    var nextUncommitted: Offsets
    /** The calls made on the broker and on the `OnUpdate` port, in order. */
    ghost var log: seq<Call>

    ghost function State(): Snapshot
      reads this
    {
      Snapshot(cache, nextUncommitted, log)
    }

    constructor (cache: Cache)
      ensures State() == Snapshot(cache, map[], [])
    {
      this.cache := cache;
      nextUncommitted := map[];
      log := [];
    }

    /** The revocation listener only logs. */
    method OnPartitionsRevoked(partitions: seq<TopicPartition>)
      ensures State() == old(State())
    {
    }

    /**
     * The assignment listener: for each partition, read its position and
     * record it as the start offset; then seek all of them to the beginning.
     */
    method OnPartitionsAssigned(partitions: seq<TopicPartition>, position: TopicPartition -> int)
      modifies this
      ensures cache == old(cache)
      ensures nextUncommitted == Assign(old(nextUncommitted), partitions, position)
      ensures log == old(log) + AssignCalls(partitions, position)
    {
      var i := 0;
      while i < |partitions|
        invariant 0 <= i <= |partitions|
        invariant cache == old(cache)
        invariant nextUncommitted == Assign(old(nextUncommitted), partitions[..i], position)
        invariant log == old(log) + PositionCalls(partitions[..i], position)
      {
        var p := partitions[i];
        var next := position(p);
        log := log + [Position(p, next)];
        AssignStep(old(nextUncommitted), partitions, position, i);
        nextUncommitted := nextUncommitted[p := next];
        assert partitions[..i + 1][..i] == partitions[..i];
        i := i + 1;
      }
      assert partitions[..i] == partitions;
      log := log + [SeekToBeginning(partitions)];
    }

    /** Deliver the listener callbacks of one rebalance, revocation first. */
    method OnRebalance(rb: Option<Rebalance>)
      modifies this
      ensures State() == Rebalanced(old(State()), rb)
    {
      if rb.Some? {
        OnPartitionsRevoked(rb.value.revoked);
        OnPartitionsAssigned(rb.value.assignment, rb.value.position);
      }
    }

    /**
     * The body of one poll iteration, given the polled batch and whether
     * `handle` throws for each update (an exception from `handle` leaves the
     * record loop before `commitSync`).
     */
    method ProcessPoll(records: seq<Record>, handleThrows: HandleThrows) returns (result: PollResult)
      modifies this
      ensures Step(State(), result) == Poll(old(State()), records, handleThrows)
    {
      ghost var s0 := State();
      var count := |records|;
      if nextUncommitted == map[] {
        PollBeforeAssignment(s0, records, handleThrows);
        if count > 0 {
          return Failed(RecordsBeforeAssignment(count));
        }
        return Skipped;
      }
      var i := 0;
      while i < |records|
        invariant 0 <= i <= |records|
        invariant PrefixPasses(s0.nextUncommitted, handleThrows, records, i)
        invariant nextUncommitted == s0.nextUncommitted != map[]
        invariant State() == Processed(s0, records, i)
      {
        var record := records[i];
        var update := record.Update();
        cache := cache[record.key := record.value];
        var tp := update.Partition();
        if tp !in nextUncommitted {
          AbortAt(s0, records, handleThrows, i);
          return Failed(NoStartOffset(tp, update.offset, update.key));
        }
        assert tp == records[i].Partition();
        ProcessOne(s0, records, i);
        var start := nextUncommitted[tp];
        if record.offset >= start {
          log := log + [Handle(update)];
          if handleThrows(update) {
            ThrowAt(s0, records, handleThrows, i);
            return Failed(HandleThrew(update));
          }
        }
        PrefixPassesStep(s0.nextUncommitted, handleThrows, records, i);
        i := i + 1;
      }
      CompleteAll(s0, records, handleThrows);
      log := log + [CommitSync];
      return Committed;
    }

    /**
     * One run: fresh start offsets, one initial poll whose records are
     * dropped, then `polls` iterations of the loop, stopping at the first
     * iteration that throws. `broker(0)` is what the initial poll delivers,
     * `broker(n + 1)` what iteration `n` delivers.
     */
    method Run(polls: int, broker: nat -> PollEvent) returns (error: Option<PollError>)
      modifies this
      ensures State() == RunSpec(old(State()), polls, broker).state
      ensures error == RunSpec(old(State()), polls, broker).error
    {
      nextUncommitted := map[];
      OnRebalance(broker(0).rebalance);
      var n: nat := 0;
      while polls > 0 && n < polls
        invariant n <= Iterations(polls)
        invariant Iterate(Iteration, State(), polls, broker, n) == RunSpec(old(State()), polls, broker)
        decreases Iterations(polls) - n
      {
        var polled := broker(n + 1);
        OnRebalance(polled.rebalance);
        var result := ProcessPoll(polled.records, polled.handleThrows);
        if result.Failed? {
          return Some(result.error);
        }
        n := n + 1;
      }
      return None;
    }

    /** Readiness is not implemented: the consumer never reports ready. */
    method IsReady() returns (ready: bool)
      ensures !ready
    {
      return false;
    }
  }
}
