/**
 * The replay-and-suppress rule of the at-least-once consumer, as functions
 * over snapshots of its state. The class in module ConsumerLoop is proved
 * to follow these functions; the lemmas here state what they promise.
 */
module Consumption {
  import opened KafkaModel

  /** The in-memory cache: a Java `Map<String, byte[]>` whose values may be null. */
  type Cache = map<string, Option<Bytes>>

  /** `nextUncommitted`: the start offset recorded for each assigned partition. */
  type Offsets = map<TopicPartition, int>

  /** Side effects the loop performs on the broker and on the `OnUpdate` port, in order. */
  datatype Call =
    | Position(tp: TopicPartition, next: int)
    | SeekToBeginning(partitions: seq<TopicPartition>)
    | Handle(update: UpdateRecord)
    | CommitSync

  /** The loop's state: the cache, the start offsets and the calls made so far. */
  datatype Snapshot = Snapshot(cache: Cache, nextUncommitted: Offsets, log: seq<Call>)

  /** Why a poll iteration throws: `IllegalStateException` from the loop, or whatever `handle` throws. */
  datatype PollError =
    | RecordsBeforeAssignment(count: nat)
    | NoStartOffset(tp: TopicPartition, offset: int, key: string)
    | HandleThrew(update: UpdateRecord)

  /** How one poll iteration ends. */
  datatype PollResult = Committed | Skipped | Failed(error: PollError)

  datatype Step = Step(state: Snapshot, result: PollResult)

  /**
   * A rebalance delivered to the listener during a poll: the revoked
   * partitions, then the assigned ones together with the broker's answer to
   * `consumer.position(p)` for each of them at that moment.
   */
  datatype Rebalance = Rebalance(revoked: seq<TopicPartition>, assignment: seq<TopicPartition>, position: TopicPartition -> int)

  /**
   * What one `consumer.poll` does: maybe a rebalance, then a batch of
   * records; `handleThrows` says for which updates of this batch `handle`
   * throws.
   */
  datatype PollEvent = PollEvent(rebalance: Option<Rebalance>, records: seq<Record>, handleThrows: HandleThrows)

  /** The end of a run: the state, how many loop iterations started, and the error that ended it, if any. */
  datatype Outcome = Outcome(state: Snapshot, iterations: nat, error: Option<PollError>)

  // ---------------------------------------------------------------------------
  // Projections of the call log

  /** The updates passed to `handle`, in call order. */
  function Handled(log: seq<Call>): seq<UpdateRecord>
  {
    if log == [] then []
    else Handled(log[..|log| - 1]) + (if log[|log| - 1].Handle? then [log[|log| - 1].update] else [])
  }

  /** The number of `commitSync` calls. */
  function Commits(log: seq<Call>): nat
  {
    if log == [] then 0
    else Commits(log[..|log| - 1]) + (if log[|log| - 1].CommitSync? then 1 else 0)
  }

  /** One `handle` call per update, in order. */
  function HandleCalls(us: seq<UpdateRecord>): (calls: seq<Call>)
  {
    if us == [] then [] else HandleCalls(us[..|us| - 1]) + [Handle(us[|us| - 1])]
  }

  lemma {:induction false} LogAppend(a: seq<Call>, b: seq<Call>)
    ensures Handled(a + b) == Handled(a) + Handled(b)
    ensures Commits(a + b) == Commits(a) + Commits(b)
    decreases |b|
  {
    if b == [] {
      assert a + b == a;
    } else {
      var b' := b[..|b| - 1];
      assert (a + b)[..|a + b| - 1] == a + b';
      LogAppend(a, b');
    }
  }

  lemma {:induction false} HandleCallsProjection(us: seq<UpdateRecord>)
    ensures |HandleCalls(us)| == |us|
    ensures Handled(HandleCalls(us)) == us
    ensures Commits(HandleCalls(us)) == 0
    decreases |us|
  {
    if us != [] {
      var us' := us[..|us| - 1];
      HandleCallsProjection(us');
      LogAppend(HandleCalls(us'), [Handle(us[|us| - 1])]);
      assert [Handle(us[|us| - 1])][..0] == [];
    }
  }

  lemma {:induction false} HandleCallsAppend(a: seq<UpdateRecord>, b: seq<UpdateRecord>)
    ensures HandleCalls(a + b) == HandleCalls(a) + HandleCalls(b)
    decreases |b|
  {
    if b == [] {
      assert a + b == a;
    } else {
      var b' := b[..|b| - 1];
      assert (a + b)[..|a + b| - 1] == a + b';
      HandleCallsAppend(a, b');
    }
  }

  // ---------------------------------------------------------------------------
  // The cache

  /** The cache after `cache.put(record.key(), record.value())` for each record, in order. */
  function CacheAfter(c: Cache, rs: seq<Record>): Cache
  {
    if rs == [] then c
    else CacheAfter(c, rs[..|rs| - 1])[rs[|rs| - 1].key := rs[|rs| - 1].value]
  }

  /** A key is in the cache after a batch exactly when it was there before or some record of the batch carried it. */
  lemma {:induction false} CacheAfterKeys(c: Cache, rs: seq<Record>, k: string)
    ensures k in CacheAfter(c, rs) <==> k in c || exists i :: 0 <= i < |rs| && rs[i].key == k
    decreases |rs|
  {
    if rs != [] {
      var n := |rs| - 1;
      var rs' := rs[..n];
      CacheAfterKeys(c, rs', k);
      if k in CacheAfter(c, rs) && k !in c && rs[n].key != k {
        var i :| 0 <= i < n && rs'[i].key == k;
        assert rs[i].key == k;
      }
      if exists i :: 0 <= i < |rs| && rs[i].key == k {
        var i :| 0 <= i < |rs| && rs[i].key == k;
        if i < n {
          assert rs'[i].key == k;
        }
      }
    }
  }

  /** Last write wins: the cached value of a key is that of the last record of the batch that carried it. */
  lemma {:induction false} LastWriteWins(c: Cache, rs: seq<Record>, k: string, i: nat)
    requires i < |rs| && rs[i].key == k
    requires forall j :: i < j < |rs| ==> rs[j].key != k
    ensures k in CacheAfter(c, rs) && CacheAfter(c, rs)[k] == rs[i].value
    decreases |rs|
  {
    var n := |rs| - 1;
    if i < n {
      var rs' := rs[..n];
      assert rs'[i] == rs[i];
      LastWriteWins(c, rs', k, i);
    }
  }

  /** A key that no record of the batch carried keeps its old entry, or its absence. */
  lemma {:induction false} CacheAfterUntouched(c: Cache, rs: seq<Record>, k: string)
    requires forall i :: 0 <= i < |rs| ==> rs[i].key != k
    ensures k in CacheAfter(c, rs) <==> k in c
    ensures k in c ==> CacheAfter(c, rs)[k] == c[k]
    decreases |rs|
  {
    if rs != [] {
      var n := |rs| - 1;
      var rs' := rs[..n];
      assert forall i :: 0 <= i < n ==> rs'[i] == rs[i];
      CacheAfterUntouched(c, rs', k);
    }
  }

  // ---------------------------------------------------------------------------
  // Suppression

  /** `handle` is called for a record when its partition has a start offset and its offset is at or above it. */
  predicate Forwarded(nu: Offsets, r: Record)
  {
    r.Partition() in nu && r.offset >= nu[r.Partition()]
  }

  /** The updates forwarded to `handle` for a sequence of records, in iteration order. */
  function Notified(nu: Offsets, rs: seq<Record>): seq<UpdateRecord>
  {
    if rs == [] then []
    else Notified(nu, rs[..|rs| - 1]) + (if Forwarded(nu, rs[|rs| - 1]) then [rs[|rs| - 1].Update()] else [])
  }

  /**
   * Notifications follow record order: the updates for a concatenation are
   * those of the first part followed by those of the second, and a single
   * record yields one update when forwarded and none when suppressed.
   */
  lemma {:induction false} NotifiedInOrder(nu: Offsets, a: seq<Record>, b: seq<Record>)
    ensures Notified(nu, a + b) == Notified(nu, a) + Notified(nu, b)
    ensures |b| == 1 ==> Notified(nu, b) == if Forwarded(nu, b[0]) then [b[0].Update()] else []
    decreases |b|
  {
    if b != [] {
      var b' := b[..|b| - 1];
      assert (a + b)[..|a + b| - 1] == a + b';
      NotifiedInOrder(nu, a, b');
      if |b| == 1 {
        assert b' == [] && b[|b| - 1] == b[0];
      }
    } else {
      assert a + b == a;
    }
  }

  /**
   * An update is handed to `handle` exactly when some record of the batch
   * produced it and that record's offset is at or above its partition's
   * start offset; records below the start offset are suppressed.
   */
  lemma {:induction false} NotifiedExactlyForwarded(nu: Offsets, rs: seq<Record>, u: UpdateRecord)
    ensures u in Notified(nu, rs) <==> exists i :: 0 <= i < |rs| && rs[i].Update() == u && Forwarded(nu, rs[i])
    ensures |Notified(nu, rs)| <= |rs|
    decreases |rs|
  {
    if rs != [] {
      var n := |rs| - 1;
      var rs' := rs[..n];
      NotifiedExactlyForwarded(nu, rs', u);
      assert forall i :: 0 <= i < n ==> rs'[i] == rs[i];
      if u in Notified(nu, rs) && u !in Notified(nu, rs') {
        assert rs[n].Update() == u && Forwarded(nu, rs[n]);
      }
    }
  }

  /** A record whose offset is below its partition's start offset produces no notification. */
  lemma {:induction false} SuppressedBelowStart(nu: Offsets, rs: seq<Record>)
    requires forall i :: 0 <= i < |rs| ==> rs[i].Partition() in nu && rs[i].offset < nu[rs[i].Partition()]
    ensures Notified(nu, rs) == []
    decreases |rs|
  {
    if rs != [] {
      SuppressedBelowStart(nu, rs[..|rs| - 1]);
    }
  }

  // ---------------------------------------------------------------------------
  // Where a batch stops

  /**
   * Whether `OnUpdate.handle` throws for an update. The port is foreign code;
   * its documented way to refuse an update is to throw, and an
   * implementation touching the `completion` argument throws because the
   * loop passes null. Its outcome is an input of the model.
   */
  type HandleThrows = UpdateRecord -> bool

  /**
   * Record `r` ends the batch: its partition has no start offset, or it is
   * forwarded and `handle` throws on its update.
   */
  predicate Stops(nu: Offsets, throws: HandleThrows, r: Record)
  {
    r.Partition() !in nu || (Forwarded(nu, r) && throws(r.Update()))
  }

  /** The index of the first record that ends the batch, if any. */
  function FirstStop(nu: Offsets, throws: HandleThrows, rs: seq<Record>): (j: Option<nat>)
    ensures j.Some? ==> j.value < |rs| && Stops(nu, throws, rs[j.value]) &&
                        forall i :: 0 <= i < j.value ==> !Stops(nu, throws, rs[i])
    ensures j.None? ==> forall i :: 0 <= i < |rs| ==> !Stops(nu, throws, rs[i])
  {
    if rs == [] then None
    else if Stops(nu, throws, rs[0]) then Some(0)
    else match FirstStop(nu, throws, rs[1..])
      case None => None
      case Some(j) => Some(j + 1)
  }

  /** The first record that ends the batch is the one the loop stops at. */
  lemma FirstStopAt(nu: Offsets, throws: HandleThrows, rs: seq<Record>, j: nat)
    requires j < |rs| && Stops(nu, throws, rs[j])
    requires forall i :: 0 <= i < j ==> !Stops(nu, throws, rs[i])
    ensures FirstStop(nu, throws, rs) == Some(j)
  {
  }

  /** None of the records `rs[..i]` ends the batch. */
  predicate PrefixPasses(nu: Offsets, throws: HandleThrows, rs: seq<Record>, i: nat)
    requires i <= |rs|
  {
    forall k :: 0 <= k < i ==> !Stops(nu, throws, rs[k])
  }

  lemma PrefixPassesStep(nu: Offsets, throws: HandleThrows, rs: seq<Record>, i: nat)
    requires i < |rs| && PrefixPasses(nu, throws, rs, i) && !Stops(nu, throws, rs[i])
    ensures PrefixPasses(nu, throws, rs, i + 1)
  {
  }

  /** The state after the loop has gone through records `..i` of a batch without throwing. */
  function Processed(s: Snapshot, rs: seq<Record>, i: nat): Snapshot
    requires i <= |rs|
  {
    s.(cache := CacheAfter(s.cache, rs[..i]),
       log := s.log + HandleCalls(Notified(s.nextUncommitted, rs[..i])))
  }

  /** Processing record `i` after records `..i`: one `put`, then one `handle` call when forwarded. */
  lemma {:induction false} ProcessOne(s: Snapshot, rs: seq<Record>, i: nat)
    requires i < |rs| && rs[i].Partition() in s.nextUncommitted
    ensures var t := Processed(s, rs, i);
            Processed(s, rs, i + 1) ==
              t.(cache := t.cache[rs[i].key := rs[i].value],
                 log := if rs[i].offset >= s.nextUncommitted[rs[i].Partition()] then t.log + [Handle(rs[i].Update())] else t.log)
  {
    var nu := s.nextUncommitted;
    assert rs[..i + 1][..i] == rs[..i];
    var us := Notified(nu, rs[..i]);
    var forwarded := if Forwarded(nu, rs[i]) then [rs[i].Update()] else [];
    assert Notified(nu, rs[..i + 1]) == us + forwarded;
    HandleCallsAppend(us, forwarded);
    if forwarded != [] {
      assert forwarded[..0] == [];
      assert HandleCalls(forwarded) == [Handle(rs[i].Update())];
    } else {
      assert HandleCalls(forwarded) == [];
    }
  }

  /** A record without a start offset ends the batch right after its `put`. */
  lemma AbortAt(s: Snapshot, rs: seq<Record>, throws: HandleThrows, j: nat)
    requires s.nextUncommitted != map[]
    requires j < |rs| && rs[j].Partition() !in s.nextUncommitted
    requires PrefixPasses(s.nextUncommitted, throws, rs, j)
    ensures var t := Processed(s, rs, j);
            Poll(s, rs, throws) == Step(t.(cache := t.cache[rs[j].key := rs[j].value]),
                                        Failed(NoStartOffset(rs[j].Partition(), rs[j].offset, rs[j].key)))
  {
    FirstStopAt(s.nextUncommitted, throws, rs, j);
    assert rs[..j + 1][..j] == rs[..j];
  }

  /** A forwarded record on which `handle` throws ends the batch right after that call. */
  lemma ThrowAt(s: Snapshot, rs: seq<Record>, throws: HandleThrows, j: nat)
    requires s.nextUncommitted != map[]
    requires j < |rs| && Forwarded(s.nextUncommitted, rs[j]) && throws(rs[j].Update())
    requires PrefixPasses(s.nextUncommitted, throws, rs, j)
    ensures Poll(s, rs, throws) == Step(Processed(s, rs, j + 1), Failed(HandleThrew(rs[j].Update())))
  {
    FirstStopAt(s.nextUncommitted, throws, rs, j);
  }

  /** A batch that no record ends is committed with one `commitSync`. */
  lemma CompleteAll(s: Snapshot, rs: seq<Record>, throws: HandleThrows)
    requires s.nextUncommitted != map[]
    requires PrefixPasses(s.nextUncommitted, throws, rs, |rs|)
    ensures var t := Processed(s, rs, |rs|);
            Poll(s, rs, throws) == Step(t.(log := t.log + [CommitSync]), Committed)
  {
    assert FirstStop(s.nextUncommitted, throws, rs) == None;
    assert rs[..|rs|] == rs;
  }

  // ---------------------------------------------------------------------------
  // One poll iteration

  /**
   * One iteration of the poll loop over the polled batch `rs`: refuse
   * records that arrive before any assignment, put every record in the cache,
   * fail on a record whose partition has no start offset, forward records at
   * or above the start offset, stop when `handle` throws, and commit once the
   * batch is done.
   */
  function Poll(s: Snapshot, rs: seq<Record>, throws: HandleThrows): Step
  {
    if s.nextUncommitted == map[] then
      if |rs| > 0 then Step(s, Failed(RecordsBeforeAssignment(|rs|))) else Step(s, Skipped)
    else match FirstStop(s.nextUncommitted, throws, rs)
      case Some(j) => PollStopped(s, rs, j)
      case None => PollCompleted(s, rs)
  }

  /**
   * The batch stops at record `j`, which was put in the cache: either its
   * partition has no start offset, or `handle` was called on it and threw.
   */
  function PollStopped(s: Snapshot, rs: seq<Record>, j: nat): Step
    requires j < |rs|
  {
    var nu := s.nextUncommitted;
    var r := rs[j];
    if r.Partition() !in nu then
      Step(s.(cache := CacheAfter(s.cache, rs[..j + 1]),
              log := s.log + HandleCalls(Notified(nu, rs[..j]))),
           Failed(NoStartOffset(r.Partition(), r.offset, r.key)))
    else
      Step(s.(cache := CacheAfter(s.cache, rs[..j + 1]),
              log := s.log + HandleCalls(Notified(nu, rs[..j + 1]))),
           Failed(HandleThrew(r.Update())))
  }

  /** The whole batch went through; it is committed. */
  function PollCompleted(s: Snapshot, rs: seq<Record>): Step
  {
    Step(s.(cache := CacheAfter(s.cache, rs),
            log := s.log + HandleCalls(Notified(s.nextUncommitted, rs)) + [CommitSync]),
         Committed)
  }

  /**
   * Before any assignment, a non-empty poll throws and an empty one is
   * skipped; neither touches the cache, calls `handle` or commits.
   */
  lemma PollBeforeAssignment(s: Snapshot, rs: seq<Record>, throws: HandleThrows)
    requires s.nextUncommitted == map[]
    ensures Poll(s, rs, throws).state == s
    ensures |rs| > 0 <==> Poll(s, rs, throws).result == Failed(RecordsBeforeAssignment(|rs|))
    ensures rs == [] <==> Poll(s, rs, throws).result == Skipped
  {
  }

  /**
   * A batch is committed exactly when there is an assignment, every record
   * has a start offset and `handle` throws on none of the forwarded updates.
   * Then the cache holds every record, the log gains one `handle` call per
   * forwarded record in order and then one `commitSync`.
   */
  lemma PollCommitted(s: Snapshot, rs: seq<Record>, throws: HandleThrows)
    ensures Poll(s, rs, throws).result == Committed <==>
              && s.nextUncommitted != map[]
              && (forall i :: 0 <= i < |rs| ==> rs[i].Partition() in s.nextUncommitted)
              && (forall i :: 0 <= i < |rs| && Forwarded(s.nextUncommitted, rs[i]) ==> !throws(rs[i].Update()))
    ensures Poll(s, rs, throws).result == Committed ==>
              var t := Poll(s, rs, throws).state;
              && t.cache == CacheAfter(s.cache, rs)
              && t.nextUncommitted == s.nextUncommitted
              && Handled(t.log) == Handled(s.log) + Notified(s.nextUncommitted, rs)
              && Commits(t.log) == Commits(s.log) + 1
              && t.log[|t.log| - 1] == CommitSync
  {
    var nu := s.nextUncommitted;
    if Poll(s, rs, throws).result == Committed {
      var us := Notified(nu, rs);
      HandleCallsProjection(us);
      LogAppend(s.log, HandleCalls(us));
      LogAppend(s.log + HandleCalls(us), [CommitSync]);
      assert [CommitSync][..0] == [];
    } else if nu != map[] {
      match FirstStop(nu, throws, rs)
      case Some(j) =>
        assert Stops(nu, throws, rs[j]);
      case None =>
    }
  }

  /**
   * A record whose partition has no start offset aborts the batch without a
   * commit. The record was already put in the cache, and `handle` was called
   * only for the forwarded records before it.
   */
  lemma PollMissingStartOffset(s: Snapshot, rs: seq<Record>, throws: HandleThrows, j: nat)
    requires s.nextUncommitted != map[]
    requires j < |rs| && rs[j].Partition() !in s.nextUncommitted
    requires forall i :: 0 <= i < j ==> !Stops(s.nextUncommitted, throws, rs[i])
    ensures var step := Poll(s, rs, throws);
            && step.result == Failed(NoStartOffset(rs[j].Partition(), rs[j].offset, rs[j].key))
            && rs[j].key in step.state.cache && step.state.cache[rs[j].key] == rs[j].value
            && step.state.cache == CacheAfter(s.cache, rs[..j + 1])
            && step.state.nextUncommitted == s.nextUncommitted
            && Handled(step.state.log) == Handled(s.log) + Notified(s.nextUncommitted, rs[..j])
            && Commits(step.state.log) == Commits(s.log)
  {
    AbortAt(s, rs, throws, j);
    assert rs[..j + 1][..j] == rs[..j];
    var us := Notified(s.nextUncommitted, rs[..j]);
    HandleCallsProjection(us);
    LogAppend(s.log, HandleCalls(us));
  }

  /**
   * When `handle` throws on a forwarded record, the batch ends without a
   * commit. The record is already in the cache, and the failing update was
   * the last one handed to `handle`, after the forwarded records before it.
   */
  lemma PollHandleThrows(s: Snapshot, rs: seq<Record>, throws: HandleThrows, j: nat)
    requires s.nextUncommitted != map[]
    requires j < |rs| && Forwarded(s.nextUncommitted, rs[j]) && throws(rs[j].Update())
    requires forall i :: 0 <= i < j ==> !Stops(s.nextUncommitted, throws, rs[i])
    ensures var step := Poll(s, rs, throws);
            && step.result == Failed(HandleThrew(rs[j].Update()))
            && step.state.cache == CacheAfter(s.cache, rs[..j + 1])
            && step.state.nextUncommitted == s.nextUncommitted
            && Handled(step.state.log) == Handled(s.log) + Notified(s.nextUncommitted, rs[..j]) + [rs[j].Update()]
            && Commits(step.state.log) == Commits(s.log)
  {
    var nu := s.nextUncommitted;
    ThrowAt(s, rs, throws, j);
    assert rs[..j + 1][..j] == rs[..j];
    assert Notified(nu, rs[..j + 1]) == Notified(nu, rs[..j]) + [rs[j].Update()];
    var us := Notified(nu, rs[..j + 1]);
    HandleCallsProjection(us);
    LogAppend(s.log, HandleCalls(us));
  }

  /** A poll commits at most once, and only when it reports `Committed`; it never changes the start offsets. */
  lemma PollCommitsOnlyWhenCommitted(s: Snapshot, rs: seq<Record>, throws: HandleThrows)
    ensures Commits(Poll(s, rs, throws).state.log) == Commits(s.log) + (if Poll(s, rs, throws).result == Committed then 1 else 0)
    ensures Poll(s, rs, throws).state.nextUncommitted == s.nextUncommitted
  {
    var nu := s.nextUncommitted;
    if nu != map[] {
      match FirstStop(nu, throws, rs)
      case Some(j) =>
        if rs[j].Partition() !in nu {
          PollMissingStartOffset(s, rs, throws, j);
        } else {
          PollHandleThrows(s, rs, throws, j);
        }
      case None =>
        PollCommitted(s, rs, throws);
    }
  }

  /**
   * Replay after a restart: three records of one key at offsets 0, 1 and 2,
   * with the start offset at 1 and a `handle` that never throws. The cache
   * ends with the last value, and `handle` sees offsets 1 and 2 only, in
   * that order, before the commit.
   */
  lemma ReplayScenario(c: Cache, log: seq<Call>, v0: Option<Bytes>, v1: Option<Bytes>, v2: Option<Bytes>)
    ensures var rs := [Record("t", 0, 0, "k", v0), Record("t", 0, 1, "k", v1), Record("t", 0, 2, "k", v2)];
            var step := Poll(Snapshot(c, map[TopicPartition("t", 0) := 1], log), rs, u => false);
            && step.result == Committed
            && "k" in step.state.cache && step.state.cache["k"] == v2
            && Handled(step.state.log) == Handled(log) + [UpdateRecord("t", 0, 1, "k"), UpdateRecord("t", 0, 2, "k")]
            && Commits(step.state.log) == Commits(log) + 1
  {
    var r0, r1, r2 := Record("t", 0, 0, "k", v0), Record("t", 0, 1, "k", v1), Record("t", 0, 2, "k", v2);
    var rs := [r0, r1, r2];
    var nu := map[TopicPartition("t", 0) := 1];
    var s := Snapshot(c, nu, log);
    var never: HandleThrows := u => false;
    assert forall i :: 0 <= i < |rs| ==> rs[i].Partition() in nu;
    PollCommitted(s, rs, never);
    LastWriteWins(c, rs, "k", 2);
    assert rs[..2] == [r0, r1] && [r0, r1][..1] == [r0] && [r0][..0] == [];
    assert Notified(nu, [r0]) == [];
    assert Notified(nu, [r0, r1]) == [r1.Update()];
    assert Notified(nu, rs) == [r1.Update(), r2.Update()];
  }

  /**
   * The same batch when `handle` throws on offset 1: offsets 0 and 1 are
   * cached, offset 1 was handed to `handle`, offset 2 is never reached and
   * nothing is committed, so the next run replays from offset 1.
   */
  lemma HandleThrowScenario(c: Cache, log: seq<Call>, v0: Option<Bytes>, v1: Option<Bytes>, v2: Option<Bytes>)
    ensures var rs := [Record("t", 0, 0, "k", v0), Record("t", 0, 1, "k", v1), Record("t", 0, 2, "k", v2)];
            var step := Poll(Snapshot(c, map[TopicPartition("t", 0) := 1], log), rs, (u: UpdateRecord) => u.offset == 1);
            && step.result == Failed(HandleThrew(UpdateRecord("t", 0, 1, "k")))
            && "k" in step.state.cache && step.state.cache["k"] == v1
            && Handled(step.state.log) == Handled(log) + [UpdateRecord("t", 0, 1, "k")]
            && Commits(step.state.log) == Commits(log)
  {
    var r0, r1, r2 := Record("t", 0, 0, "k", v0), Record("t", 0, 1, "k", v1), Record("t", 0, 2, "k", v2);
    var rs := [r0, r1, r2];
    var nu := map[TopicPartition("t", 0) := 1];
    var s := Snapshot(c, nu, log);
    var atOne: HandleThrows := (u: UpdateRecord) => u.offset == 1;
    assert !Stops(nu, atOne, rs[0]);
    PollHandleThrows(s, rs, atOne, 1);
    assert rs[..2] == [r0, r1];
    LastWriteWins(c, rs[..2], "k", 1);
    assert rs[..1] == [r0] && [r0][..0] == [];
    assert Notified(nu, [r0]) == [];
  }

  // ---------------------------------------------------------------------------
  // Assignment

  /** The start offsets after the listener records `position(p)` for every assigned `p`. */
  function Assign(nu: Offsets, partitions: seq<TopicPartition>, position: TopicPartition -> int): Offsets
  {
    nu + map p | p in partitions :: position(p)
  }

  /** The calls the assignment listener makes: `position` for each partition in order, then one `seekToBeginning`. */
  function AssignCalls(partitions: seq<TopicPartition>, position: TopicPartition -> int): seq<Call>
  {
    PositionCalls(partitions, position) + [SeekToBeginning(partitions)]
  }

  function PositionCalls(partitions: seq<TopicPartition>, position: TopicPartition -> int): seq<Call>
  {
    if partitions == [] then []
    else PositionCalls(partitions[..|partitions| - 1], position)
         + [Position(partitions[|partitions| - 1], position(partitions[|partitions| - 1]))]
  }

  /** Recording one more partition's position is one `put` on the start offsets. */
  lemma AssignStep(nu: Offsets, partitions: seq<TopicPartition>, position: TopicPartition -> int, i: nat)
    requires i < |partitions|
    ensures Assign(nu, partitions[..i + 1], position) == Assign(nu, partitions[..i], position)[partitions[i] := position(partitions[i])]
  {
    var a := Assign(nu, partitions[..i + 1], position);
    var b := Assign(nu, partitions[..i], position)[partitions[i] := position(partitions[i])];
    assert forall p :: p in partitions[..i + 1] <==> p in partitions[..i] || p == partitions[i] by {
      assert partitions[..i + 1] == partitions[..i] + [partitions[i]];
    }
    assert a.Keys == b.Keys;
    assert forall p :: p in a ==> a[p] == b[p];
  }

  /** Every assigned partition's start offset is its position read before the seek; other entries are kept. */
  lemma AssignStartOffsets(nu: Offsets, partitions: seq<TopicPartition>, position: TopicPartition -> int, tp: TopicPartition)
    ensures tp in partitions ==> tp in Assign(nu, partitions, position) && Assign(nu, partitions, position)[tp] == position(tp)
    ensures tp !in partitions ==> (tp in Assign(nu, partitions, position) <==> tp in nu)
    ensures tp !in partitions && tp in nu ==> Assign(nu, partitions, position)[tp] == nu[tp]
  {
  }

  /** The assignment listener calls neither `handle` nor `commitSync`, and its last call is the seek. */
  lemma {:induction false} AssignCallsQuiet(partitions: seq<TopicPartition>, position: TopicPartition -> int)
    ensures Handled(AssignCalls(partitions, position)) == []
    ensures Commits(AssignCalls(partitions, position)) == 0
    ensures AssignCalls(partitions, position)[|AssignCalls(partitions, position)| - 1] == SeekToBeginning(partitions)
  {
    PositionCallsQuiet(partitions, position);
    LogAppend(PositionCalls(partitions, position), [SeekToBeginning(partitions)]);
    assert [SeekToBeginning(partitions)][..0] == [];
  }

  lemma {:induction false} PositionCallsQuiet(partitions: seq<TopicPartition>, position: TopicPartition -> int)
    ensures Handled(PositionCalls(partitions, position)) == []
    ensures Commits(PositionCalls(partitions, position)) == 0
    decreases |partitions|
  {
    if partitions != [] {
      var ps' := partitions[..|partitions| - 1];
      var last := Position(partitions[|partitions| - 1], position(partitions[|partitions| - 1]));
      PositionCallsQuiet(ps', position);
      LogAppend(PositionCalls(ps', position), [last]);
      assert [last][..0] == [];
    }
  }

  /** The listener callbacks of one rebalance: revocation only logs, assignment records start offsets and seeks. */
  function Rebalanced(s: Snapshot, rb: Option<Rebalance>): Snapshot
  {
    match rb
    case None => s
    case Some(r) =>
      s.(nextUncommitted := Assign(s.nextUncommitted, r.assignment, r.position),
         log := s.log + AssignCalls(r.assignment, r.position))
  }

  /**
   * A rebalance never touches the cache and calls neither `handle` nor
   * `commitSync`; the revoked partitions make no difference, and no
   * rebalance at all changes nothing.
   */
  lemma RebalanceQuiet(s: Snapshot, rb: Option<Rebalance>)
    ensures Rebalanced(s, rb).cache == s.cache
    ensures Handled(Rebalanced(s, rb).log) == Handled(s.log)
    ensures Commits(Rebalanced(s, rb).log) == Commits(s.log)
    ensures rb.Some? ==> Rebalanced(s, rb) == Rebalanced(s, Some(rb.value.(revoked := [])))
    ensures rb.None? ==> Rebalanced(s, rb) == s
  {
    if rb.Some? {
      AssignCallsQuiet(rb.value.assignment, rb.value.position);
      LogAppend(s.log, AssignCalls(rb.value.assignment, rb.value.position));
    }
  }

  /**
   * A rebalance changes only the start offsets of the assigned partitions:
   * each gets its position as read, and every other partition keeps its
   * entry or stays absent.
   */
  lemma RebalanceStartOffsets(s: Snapshot, r: Rebalance, tp: TopicPartition)
    ensures var nu := Rebalanced(s, Some(r)).nextUncommitted;
            && (tp in r.assignment ==> tp in nu && nu[tp] == r.position(tp))
            && (tp !in r.assignment ==> (tp in nu <==> tp in s.nextUncommitted))
            && (tp !in r.assignment && tp in s.nextUncommitted ==> nu[tp] == s.nextUncommitted[tp])
  {
    AssignStartOffsets(s.nextUncommitted, r.assignment, r.position, tp);
  }

  // ---------------------------------------------------------------------------
  // A whole run

  /** The number of loop iterations for a poll budget: `polls` when positive, else none. */
  function Iterations(polls: int): nat
  {
    if polls > 0 then polls else 0
  }

  /**
   * The `for` loop over a poll budget from iteration `n` on, for a loop
   * body `body`: iteration `n` sees `broker(n + 1)`, and an iteration that
   * throws ends the loop.
   */
  function Iterate(body: (Snapshot, PollEvent) -> Step, s: Snapshot, polls: int, broker: nat -> PollEvent, n: nat): Outcome
    decreases Iterations(polls) - n
  {
    if !(polls > 0 && n < polls) then Outcome(s, n, None)
    else
      var step := body(s, broker(n + 1));
      if step.result.Failed? then Outcome(step.state, n + 1, Some(step.result.error))
      else Iterate(body, step.state, polls, broker, n + 1)
  }

  /** The loop body of the source: the rebalance delivered during the poll, then the batch. */
  function Iteration(s: Snapshot, e: PollEvent): Step
  {
    Poll(Rebalanced(s, e.rebalance), e.records, e.handleThrows)
  }

  /** The state the loop starts from: fresh start offsets, then the rebalance of the initial poll. */
  function RunStart(s: Snapshot, broker: nat -> PollEvent): Snapshot
  {
    Rebalanced(s.(nextUncommitted := map[]), broker(0).rebalance)
  }

  /**
   * A run: fresh start offsets, the initial poll whose records are discarded
   * (it only lets the subscription deliver an assignment), then the loop.
   */
  function RunSpec(s: Snapshot, polls: int, broker: nat -> PollEvent): Outcome
  {
    Iterate(Iteration, RunStart(s, broker), polls, broker, 0)
  }

  /**
   * The loop runs exactly `polls` iterations when `polls > 0` and none
   * otherwise, unless an iteration throws, which ends the loop there.
   */
  lemma {:induction false} IterateCount(body: (Snapshot, PollEvent) -> Step, s: Snapshot, polls: int, broker: nat -> PollEvent, n: nat)
    requires n <= Iterations(polls)
    ensures var out := Iterate(body, s, polls, broker, n);
            && n <= out.iterations <= Iterations(polls)
            && (out.error.None? ==> out.iterations == Iterations(polls))
            && (out.error.Some? ==> n < out.iterations)
    decreases Iterations(polls) - n
  {
    if polls > 0 && n < polls {
      var step := body(s, broker(n + 1));
      if !step.result.Failed? {
        IterateCount(body, step.state, polls, broker, n + 1);
      }
    }
  }

  /** A loop body that commits at most once per iteration, and not in an iteration that throws. */
  ghost predicate CommitsAtMostOnce(body: (Snapshot, PollEvent) -> Step)
  {
    forall t: Snapshot, e: PollEvent ::
      Commits(body(t, e).state.log) <= Commits(t.log) + (if body(t, e).result.Failed? then 0 else 1)
  }

  /** A loop body that changes the start offsets only when the poll delivers a rebalance. */
  ghost predicate KeepsStartOffsets(body: (Snapshot, PollEvent) -> Step)
  {
    forall t: Snapshot, e: PollEvent ::
      e.rebalance.None? ==> body(t, e).state.nextUncommitted == t.nextUncommitted
  }

  /** One iteration of the source adds a commit exactly when its batch completes. */
  lemma IterationCommits(s: Snapshot, e: PollEvent)
    ensures Commits(Iteration(s, e).state.log) == Commits(s.log) + (if Iteration(s, e).result == Committed then 1 else 0)
    ensures e.rebalance.None? ==> Iteration(s, e).state.nextUncommitted == s.nextUncommitted
  {
    RebalanceQuiet(s, e.rebalance);
    PollCommitsOnlyWhenCommitted(Rebalanced(s, e.rebalance), e.records, e.handleThrows);
  }

  lemma IterationIsWellBehaved()
    ensures CommitsAtMostOnce(Iteration)
    ensures KeepsStartOffsets(Iteration)
  {
    forall t: Snapshot, e: PollEvent
      ensures Commits(Iteration(t, e).state.log) <= Commits(t.log) + (if Iteration(t, e).result.Failed? then 0 else 1)
      ensures e.rebalance.None? ==> Iteration(t, e).state.nextUncommitted == t.nextUncommitted
    {
      IterationCommits(t, e);
    }
  }

  /** Over the loop, commits never outnumber iterations, and the iteration that throws adds none. */
  lemma {:induction false} IterateCommits(body: (Snapshot, PollEvent) -> Step, s: Snapshot, polls: int, broker: nat -> PollEvent, n: nat)
    requires n <= Iterations(polls)
    requires CommitsAtMostOnce(body)
    ensures var out := Iterate(body, s, polls, broker, n);
            && Commits(out.state.log) + n <= Commits(s.log) + out.iterations
            && (out.error.Some? ==> Commits(out.state.log) + n + 1 <= Commits(s.log) + out.iterations)
    decreases Iterations(polls) - n
  {
    if polls > 0 && n < polls {
      var step := body(s, broker(n + 1));
      assert Commits(step.state.log) <= Commits(s.log) + (if step.result.Failed? then 0 else 1);
      if !step.result.Failed? {
        IterateCommits(body, step.state, polls, broker, n + 1);
        IterateCount(body, step.state, polls, broker, n + 1);
      }
    }
  }

  /** When no rebalance follows, the start offsets stay fixed for the rest of the loop. */
  lemma {:induction false} StartOffsetsFixed(body: (Snapshot, PollEvent) -> Step, s: Snapshot, polls: int, broker: nat -> PollEvent, n: nat)
    requires KeepsStartOffsets(body)
    requires forall m: nat :: m > n ==> broker(m).rebalance.None?
    ensures Iterate(body, s, polls, broker, n).state.nextUncommitted == s.nextUncommitted
    decreases Iterations(polls) - n
  {
    if polls > 0 && n < polls {
      var step := body(s, broker(n + 1));
      assert step.state.nextUncommitted == s.nextUncommitted;
      if !step.result.Failed? {
        StartOffsetsFixed(body, step.state, polls, broker, n + 1);
      }
    }
  }

  /**
   * A run makes exactly `polls` iterations when `polls > 0` and none
   * otherwise, unless one throws; it commits at most once per iteration;
   * with no further rebalance, the start offsets taken at the initial poll
   * hold for the whole run.
   */
  lemma RunBounds(s: Snapshot, polls: int, broker: nat -> PollEvent)
    ensures var out := RunSpec(s, polls, broker);
            && out.iterations <= Iterations(polls)
            && (out.error.None? ==> out.iterations == Iterations(polls))
            && Commits(out.state.log) <= Commits(s.log) + out.iterations
            && (out.error.Some? ==> Commits(out.state.log) < Commits(s.log) + out.iterations)
            && ((forall m: nat :: m > 0 ==> broker(m).rebalance.None?) ==>
                  out.state.nextUncommitted == RunStart(s, broker).nextUncommitted)
            && (polls <= 0 ==>
                  && out.error.None? && out.iterations == 0
                  && Commits(out.state.log) == Commits(s.log)
                  && Handled(out.state.log) == Handled(s.log)
                  && out.state.cache == s.cache)
  {
    var s1 := RunStart(s, broker);
    RebalanceQuiet(s.(nextUncommitted := map[]), broker(0).rebalance);
    IterationIsWellBehaved();
    IterateCount(Iteration, s1, polls, broker, 0);
    IterateCommits(Iteration, s1, polls, broker, 0);
    if forall m: nat :: m > 0 ==> broker(m).rebalance.None? {
      StartOffsetsFixed(Iteration, s1, polls, broker, 0);
    }
  }

  /** An iteration that throws is the last one: the loop ends with its state and its error. */
  lemma IterateStopsAtFailure(body: (Snapshot, PollEvent) -> Step, s: Snapshot, polls: int, broker: nat -> PollEvent, n: nat)
    requires n < Iterations(polls)
    requires body(s, broker(n + 1)).result.Failed?
    ensures var out := Iterate(body, s, polls, broker, n);
            && out.iterations == n + 1
            && out.state == body(s, broker(n + 1)).state
            && out.error == Some(body(s, broker(n + 1)).result.error)
  {
  }

  /**
   * A loop iteration in which `handle` throws fails with that update, adds
   * no commit, and handles nothing after the failing update; the start
   * offsets are those after the poll's rebalance, if any.
   */
  lemma IterationHandleThrows(t: Snapshot, e: PollEvent, j: nat)
    requires var nu := Rebalanced(t, e.rebalance).nextUncommitted;
             && nu != map[]
             && j < |e.records| && Forwarded(nu, e.records[j]) && e.handleThrows(e.records[j].Update())
             && forall i :: 0 <= i < j ==> !Stops(nu, e.handleThrows, e.records[i])
    ensures var step := Iteration(t, e);
            var nu := Rebalanced(t, e.rebalance).nextUncommitted;
            && step.result == Failed(HandleThrew(e.records[j].Update()))
            && Commits(step.state.log) == Commits(t.log)
            && Handled(step.state.log) == Handled(t.log) + Notified(nu, e.records[..j]) + [e.records[j].Update()]
  {
    RebalanceQuiet(t, e.rebalance);
    PollHandleThrows(Rebalanced(t, e.rebalance), e.records, e.handleThrows, j);
  }

  /**
   * When `handle` throws in the first loop iteration, the run ends there:
   * one iteration, the `handle` error, no commit, and no update handled
   * after the failing one. The start offsets may come from the initial poll
   * or from a rebalance delivered by the first loop poll.
   */
  lemma RunEndsWhenHandleThrows(s: Snapshot, polls: int, broker: nat -> PollEvent, j: nat)
    requires polls > 0
    requires var nu := Rebalanced(RunStart(s, broker), broker(1).rebalance).nextUncommitted;
             var rs := broker(1).records;
             && nu != map[]
             && j < |rs| && Forwarded(nu, rs[j]) && broker(1).handleThrows(rs[j].Update())
             && forall i :: 0 <= i < j ==> !Stops(nu, broker(1).handleThrows, rs[i])
    ensures var out := RunSpec(s, polls, broker);
            var nu := Rebalanced(RunStart(s, broker), broker(1).rebalance).nextUncommitted;
            var rs := broker(1).records;
            && out.iterations == 1
            && out.error == Some(HandleThrew(rs[j].Update()))
            && Commits(out.state.log) == Commits(s.log)
            && Handled(out.state.log) == Handled(s.log) + Notified(nu, rs[..j]) + [rs[j].Update()]
  {
    var s1 := RunStart(s, broker);
    RebalanceQuiet(s.(nextUncommitted := map[]), broker(0).rebalance);
    IterationHandleThrows(s1, broker(1), j);
    IterateStopsAtFailure(Iteration, s1, polls, broker, 0);
  }
}
