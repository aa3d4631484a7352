/** Any interleaving of the coordinator's atomic steps, from any number of
    producer and consumer processes, as the shared store serializes them, and
    the coordination guarantees that hold over every such run. */
module Runs {
  import opened Jobs

  /** One atomic store step issued by some process. */
  datatype Step =
    | EnqueueStep(key: string)
    | ClaimStep(key: string)
    | CompleteStep(key: string, text: string)

  function Apply(s: Store, step: Step): Store
  {
    match step
    case EnqueueStep(key) => EnqueueTx(s, key).0
    case ClaimStep(key) => ClaimTx(s, key).0
    case CompleteStep(key, text) => CompleteTx(s, key, text)
  }

  /** The store after `steps`, applied in order. */
  function Run(s: Store, steps: seq<Step>): Store
    decreases |steps|
  {
    if steps == [] then s else Run(Apply(s, steps[0]), steps[1..])
  }

  /** How many claim steps on `key` dispatched a listener during the run. */
  function Dispatches(s: Store, steps: seq<Step>, key: string): nat
    decreases |steps|
  {
    if steps == [] then 0
    else
      var won := if steps[0] == ClaimStep(key) && ClaimTx(s, key).1 then 1 else 0;
      won + Dispatches(Apply(s, steps[0]), steps[1..], key)
  }

  /** No step of the run is a completion of `key`. */
  predicate NoCompletionOf(steps: seq<Step>, key: string)
  {
    forall i :: 0 <= i < |steps| ==> !(steps[i].CompleteStep? && steps[i].key == key)
  }

  /** A record only moves forward: no field disappears, and a complete
      record stays complete. So a job is never un-claimed or un-completed. */
  predicate Advances(before: Record, after: Record)
  {
    before.Keys <= after.Keys && (IsComplete(before) ==> IsComplete(after))
  }

  /** Each step leaves every complete record holding a payload. */
  lemma ApplyKeepsWellFormed(s: Store, step: Step)
    requires AllWellFormed(s)
    ensures AllWellFormed(Apply(s, step))
  {
  }

  lemma {:induction false} RunKeepsWellFormed(s: Store, steps: seq<Step>)
    requires AllWellFormed(s)
    ensures AllWellFormed(Run(s, steps))
    decreases |steps|
  {
    if steps != [] {
      ApplyKeepsWellFormed(s, steps[0]);
      RunKeepsWellFormed(Apply(s, steps[0]), steps[1..]);
    }
  }

  /** Steps on other keys never touch the record under `key`. */
  lemma {:induction false} RunFrame(s: Store, steps: seq<Step>, key: string)
    requires forall i :: 0 <= i < |steps| ==> steps[i].key != key
    ensures Lookup(Run(s, steps), key) == Lookup(s, key)
    decreases |steps|
  {
    if steps != [] {
      RunFrame(Apply(s, steps[0]), steps[1..], key);
    }
  }

  lemma ApplyAdvances(s: Store, step: Step, key: string)
    ensures Advances(Lookup(s, key), Lookup(Apply(s, step), key))
  {
  }

  /** Over any run, the record under `key` only moves forward. */
  lemma {:induction false} RunAdvances(s: Store, steps: seq<Step>, key: string)
    ensures Advances(Lookup(s, key), Lookup(Run(s, steps), key))
    decreases |steps|
  {
    if steps != [] {
      ApplyAdvances(s, steps[0], key);
      RunAdvances(Apply(s, steps[0]), steps[1..], key);
    }
  }

  /** Claim exclusivity: over any interleaving, at most one listener is
      dispatched for `key`, and none once the record has been claimed. */
  lemma {:induction false} AtMostOneDispatch(s: Store, steps: seq<Step>, key: string)
    ensures Dispatches(s, steps, key) <= if ClaimedField in Lookup(s, key) then 0 else 1
    decreases |steps|
  {
    if steps != [] {
      var s' := Apply(s, steps[0]);
      ApplyAdvances(s, steps[0], key);
      AtMostOneDispatch(s', steps[1..], key);
      if steps[0] == ClaimStep(key) && ClaimTx(s, key).1 {
        assert ClaimedField in Lookup(s', key);
      }
    }
  }

  /** Once complete, a record keeps its payload for as long as nobody
      completes the same key again. */
  lemma {:induction false} CompletionPersists(s: Store, steps: seq<Step>, key: string)
    requires IsComplete(Lookup(s, key)) && WellFormed(Lookup(s, key))
    requires NoCompletionOf(steps, key)
    ensures IsComplete(Lookup(Run(s, steps), key))
    ensures PayloadField in Lookup(Run(s, steps), key)
    ensures Lookup(Run(s, steps), key)[PayloadField] == Lookup(s, key)[PayloadField]
    decreases |steps|
  {
    if steps != [] {
      var s' := Apply(s, steps[0]);
      var before, after := Lookup(s, key), Lookup(s', key);
      assert IsComplete(after) && PayloadField in after && after[PayloadField] == before[PayloadField] by {
        if steps[0] == ClaimStep(key) && ClaimedField !in before {
          assert after == before[ClaimedField := ""];
          assert StateField != ClaimedField by { assert |StateField| != |ClaimedField|; }
          assert PayloadField != ClaimedField by { assert PayloadField[0] != ClaimedField[0]; }
        }
      }
      assert NoCompletionOf(steps[1..], key) by {
        forall i | 0 <= i < |steps[1..]|
          ensures !(steps[1..][i].CompleteStep? && steps[1..][i].key == key)
        {
          assert steps[1..][i] == steps[i + 1];
        }
      }
      CompletionPersists(s', steps[1..], key);
    }
  }

  /** Idempotent completion read: after `completeJob(id, p)`, and any later
      steps that do not complete the same key again, an enqueue of `id`
      returns at once, complete with `p` (when the codec gives `p` back). */
  lemma EnqueueAfterComplete<Id, P>(b: Binding<Id, P>, s: Store, id: Id, p: P, steps: seq<Step>)
    requires b.deserializePayload(b.serializePayload(p)) == p
    requires NoCompletionOf(steps, b.serializeId(id))
    ensures
      var key := b.serializeId(id);
      var later := Run(CompleteTx(s, key, b.serializePayload(p)), steps);
      var rec := EnqueueTx(later, key).1;
      WellFormed(rec) && Begin(b, key, rec) == Settled(Complete(p))
  {
    var key := b.serializeId(id);
    var done := CompleteTx(s, key, b.serializePayload(p));
    var later := Run(done, steps);
    CompletionPersists(done, steps, key);
    assert EnqueueTx(later, key).1 == Lookup(later, key);
  }

  /** Single-flight creation: however many enqueues of `key` run back to back,
      the store ends as after the first one, so one record is created and every
      one of them reads back the same record. */
  lemma {:induction false} RepeatedEnqueue(s: Store, steps: seq<Step>, key: string)
    requires |steps| >= 1
    requires forall i :: 0 <= i < |steps| ==> steps[i] == EnqueueStep(key)
    ensures Run(s, steps) == EnqueueTx(s, key).0
    ensures EnqueueTx(Run(s, steps), key) == EnqueueTx(s, key)
    decreases |steps|
  {
    var first := EnqueueTx(s, key).0;
    if |steps| == 1 {
      assert Run(first, steps[1..]) == first;
    } else {
      RepeatedEnqueue(first, steps[1..], key);
    }
  }

  /** Nothing stops a second `completeJob` on the same key: it replaces the
      payload, so the payload is fixed only while each job completes once. */
  lemma SecondCompletionOverwrites(s: Store, key: string, first: string, second: string)
    ensures var twice := CompleteTx(CompleteTx(s, key, first), key, second);
      IsComplete(Lookup(twice, key)) && Lookup(twice, key)[PayloadField] == second
  {
  }
}
