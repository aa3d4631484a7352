/** The `JobManager` class of packages/job-manager/job.ts over a shared Redis
    store. Each method performs the same atomic store commands as the source,
    and is proved to change the store exactly as the matching step of `Jobs`. */
module Coordinator {
  import opened Wrappers
  import opened Jobs

  /** The Redis server the coordinator's client talks to: a map from key to hash,
      updated in place one command (or one MULTI/EXEC block) at a time. Several
      coordinators in several processes share one store. */
  class HashStore {
    var hashes: Store

    constructor ()
      ensures hashes == map[]
    {
      hashes := map[];
    }

    /** HGETALL key. */
    method HGetAll(key: string) returns (rec: Record)
      ensures rec == Lookup(hashes, key)
    {
      rec := if key in hashes then hashes[key] else map[];
    }

    /** HSETNX key field value: replies whether the field was new and set. */
    method HSetNX(key: string, field: string, value: string) returns (added: bool)
      modifies this
      ensures added <==> field !in Lookup(old(hashes), key)
      ensures hashes == SetIfAbsent(old(hashes), key, field, value)
    {
      var rec := if key in hashes then hashes[key] else map[];
      added := field !in rec;
      if added {
        hashes := hashes[key := rec[field := value]];
      }
    }

    /** HSET key with several fields. */
    method HSet(key: string, fields: Record)
      modifies this
      ensures hashes == SetFields(old(hashes), key, fields)
    {
      var rec := if key in hashes then hashes[key] else map[];
      hashes := hashes[key := rec + fields];
    }

    /** MULTI; HSETNX key field value; HGETALL key; EXEC: one atomic step
      that replies with the hash as it stands after the conditional set. */
    method HSetNXThenHGetAll(key: string, field: string, value: string) returns (rec: Record)
      modifies this
      ensures hashes == SetIfAbsent(old(hashes), key, field, value)
      ensures rec == Lookup(hashes, key)
    {
      var _ := HSetNX(key, field, value);
      rec := HGetAll(key);
    }
  }

  /** A coordinator for one job domain: the domain's four codec hooks and the
      client of the shared store. */
  class JobManager<Id, P> {
    const binding: Binding<Id, P>
    const redis: HashStore

    /** Every complete record in the store holds its payload. */
    ghost predicate Valid()
      reads this, redis
    {
      AllWellFormed(redis.hashes)
    }

    constructor (binding: Binding<Id, P>, redis: HashStore)
      requires AllWellFormed(redis.hashes)
      ensures this.binding == binding && this.redis == redis
      ensures Valid()
    {
      this.binding := binding;
      this.redis := redis;
    }

    /** `enqueueJob` up to the race: creates the record as waiting unless it
      has a state already, reads it back in the same transaction, and returns a
      complete record at once; otherwise the returned wait is pending on the
      record it read. */
    method EnqueueJob(id: Id) returns (w: Wait<P>)
      requires Valid()
      modifies redis
      ensures Valid()
      ensures var key := binding.serializeId(id);
        && redis.hashes == EnqueueTx(old(redis.hashes), key).0
        && WellFormed(Lookup(redis.hashes, key))
        && w == Begin(binding, key, Lookup(redis.hashes, key))
    {
      var key := binding.serializeId(id);
      var job := redis.HSetNXThenHGetAll(key, StateField, WaitingState);
      assert job == Lookup(redis.hashes, key);
      assert WellFormed(job) by {
        if key in old(redis.hashes) && StateField in old(redis.hashes)[key] {
          assert job == old(redis.hashes)[key];
        } else {
          assert StateField != PayloadField by { assert |StateField| != |PayloadField|; }
        }
      }
      assert Valid() by {
        forall k | k in redis.hashes ensures WellFormed(redis.hashes[k]) {
          if k != key {
            assert redis.hashes[k] == Lookup(old(redis.hashes), k);
          }
        }
      }
      if IsComplete(job) {
        w := Settled(DeserializeJob(binding, AsJob(job)));
      } else {
        w := Pending(key, job);
      }
    }

    /** The enqueue's timer callback: resolves with the record read at
      enqueue time. Touches no store. */
    method OnTimeout(w: Wait<P>) returns (w': Wait<P>)
      requires PendingOk(w)
      ensures w' == TimerFires(binding, w)
    {
      match w
      case Pending(_, snapshot) =>
        w' := Settled(DeserializeJob(binding, AsJob(snapshot)));
      case Settled(_) =>
        w' := w;
    }

    /** The enqueue's keyspace-notification callback: re-reads the job's
      record and resolves only when it is complete. A notification after the
      wait has settled changes nothing. */
    method OnKeyspaceNotification(w: Wait<P>) returns (w': Wait<P>)
      requires Valid()
      ensures w.Pending? ==> w' == NotificationArrives(binding, w, Lookup(redis.hashes, w.key))
      ensures w.Settled? ==> w' == w
    {
      w' := w;
      if w.Pending? {
        var job := redis.HGetAll(w.key);
        assert job == Lookup(redis.hashes, w.key);
        assert WellFormed(job) by {
          if w.key in redis.hashes { assert job == redis.hashes[w.key]; }
        }
        if IsComplete(job) {
          w' := Settled(DeserializeJob(binding, AsJob(job)));
        }
      }
    }

    /** The per-event callback of `listenForJobs`: decodes the id, claims the
      job by setting `claimed` only if absent, and returns the id to dispatch
      to the listener exactly when that set happened. */
    method OnHashSetEvent(key: string) returns (dispatch: Option<Id>)
      requires Valid()
      modifies redis
      ensures Valid()
      ensures redis.hashes == ClaimTx(old(redis.hashes), key).0
      ensures dispatch.Some? <==> ClaimedField !in Lookup(old(redis.hashes), key)
      ensures dispatch.Some? ==> dispatch.value == binding.deserializeId(key)
    {
      var id := binding.deserializeId(key);
      var claimed := redis.HSetNX(key, ClaimedField, "");
      if claimed {
        dispatch := Some(id);
      } else {
        dispatch := None;
      }
      assert Valid() by {
        forall k | k in redis.hashes ensures WellFormed(redis.hashes[k]) {
          if k != key {
            assert redis.hashes[k] == Lookup(old(redis.hashes), k);
          } else if claimed {
            assert StateField != ClaimedField by { assert |StateField| != |ClaimedField|; }
            assert redis.hashes[k] == Lookup(old(redis.hashes), k)[ClaimedField := ""];
          }
        }
      }
    }

    /** `completeJob`: writes state complete and the encoded payload under
      the job's key, whether or not the record exists or was claimed. */
    method CompleteJob(id: Id, payload: P)
      requires Valid()
      modifies redis
      ensures Valid()
      ensures redis.hashes == CompleteTx(old(redis.hashes), binding.serializeId(id), binding.serializePayload(payload))
    {
      var key := binding.serializeId(id);
      var job := SerializeJob(binding, Complete(payload));
      redis.HSet(key, ToRecord(job));
      assert Valid() by {
        forall k | k in redis.hashes ensures WellFormed(redis.hashes[k]) {
          assert redis.hashes[k] == Lookup(redis.hashes, k);
        }
      }
    }
  }

  /** One producer (enqueueing twice) and two consumers sharing one store: the first listener
    to claim is the only one dispatched, and after completion both the waiting
    producer and a fresh enqueue see the payload. */
  method SingleFlight<Id, P>(b: Binding<Id, P>, id: Id, p: P)
    requires b.deserializePayload(b.serializePayload(p)) == p
  {
    var store := new HashStore();
    var producer := new JobManager(b, store);
    var worker1 := new JobManager(b, store);
    var worker2 := new JobManager(b, store);
    var key := b.serializeId(id);

    var w := producer.EnqueueJob(id);
    assert w == Pending(key, map[StateField := WaitingState]);
    var again := producer.EnqueueJob(id);
    assert again == w;

    var first := worker1.OnHashSetEvent(key);
    var second := worker2.OnHashSetEvent(key);
    assert first == Some(b.deserializeId(key)) && second == None;

    worker1.CompleteJob(id, p);
    var woken := producer.OnKeyspaceNotification(w);
    assert woken == Settled(Complete(p));
    var late := producer.OnTimeout(woken);
    assert late == woken;

    var after := producer.EnqueueJob(id);
    assert after == Settled(Complete(p));
  }
}
