/** The job records of packages/job-manager/job.ts, the atomic store steps the
    coordinator performs on them, and what those steps guarantee over any
    interleaving of producers and consumers. */
module Jobs {

  /** A Redis hash: the flat field-to-value record stored under one job key. */
  type Record = map<string, string>

  /** The keyspace as the coordinator sees it: each job key to its hash. */
  type Store = map<string, Record>

  const StateField: string := "state"
  const ClaimedField: string := "claimed"
  const PayloadField: string := "payload"
  const WaitingState: string := "waiting"
  const CompleteState: string := "complete"

  /** `Job<Payload>`. A complete job carries its payload; deserializing any
      other record hands the record back as it was read. */
  datatype Job<P> = Waiting(record: Record) | Complete(payload: P)

  /** The four hooks a job domain supplies to the generic coordinator. */
  datatype Binding<!Id, !P> = Binding(
    serializeId: Id -> string,
    deserializeId: string -> Id,
    serializePayload: P -> string,
    deserializePayload: string -> P)

  /** `serializeJob`: encodes the payload of a complete job; anything else passes through. */
  function SerializeJob<Id, P>(b: Binding<Id, P>, job: Job<P>): (s: Job<string>)
    ensures s.Complete? <==> job.Complete?
    ensures job.Waiting? ==> s == Waiting(job.record)
  {
    match job
    case Complete(p) => Complete(b.serializePayload(p))
    case Waiting(rec) => Waiting(rec)
  }

  /** `deserializeJob`: decodes the payload of a complete job; anything else passes through. */
  function DeserializeJob<Id, P>(b: Binding<Id, P>, s: Job<string>): (job: Job<P>)
    ensures job.Complete? <==> s.Complete?
    ensures s.Waiting? ==> job == Waiting(s.record)
  {
    match s
    case Complete(text) => Complete(b.deserializePayload(text))
    case Waiting(rec) => Waiting(rec)
  }

  /** Deserializing a serialized job gives it back, when the payload codec round-trips. */
  lemma JobRoundTrip<Id, P>(b: Binding<Id, P>, job: Job<P>)
    requires job.Complete? ==> b.deserializePayload(b.serializePayload(job.payload)) == job.payload
    ensures DeserializeJob(b, SerializeJob(b, job)) == job
  {
  }

  // ---------------------------------------------------------------------------
  // Records as stored

  /** The record's `state` field says "complete". */
  predicate IsComplete(rec: Record)
  {
    StateField in rec && rec[StateField] == CompleteState
  }

  /** A complete record holds its payload. Every step below keeps this. */
  predicate WellFormed(rec: Record)
  {
    IsComplete(rec) ==> PayloadField in rec
  }

  ghost predicate AllWellFormed(s: Store)
  {
    forall key :: key in s ==> WellFormed(s[key])
  }

  /** The `as Job` cast of a hash read from the store. */
  function AsJob(rec: Record): Job<string>
    requires WellFormed(rec)
  {
    if IsComplete(rec) then Complete(rec[PayloadField]) else Waiting(rec)
  }

  /** The fields `hSet(key, job)` writes for a serialized job. */
  function ToRecord(job: Job<string>): Record
  {
    match job
    case Complete(text) => map[StateField := CompleteState, PayloadField := text]
    case Waiting(rec) => rec
  }

  /** Writing a serialized job as fields and reading them back gives the job. */
  lemma RecordRoundTrip(job: Job<string>)
    requires job.Waiting? ==> !IsComplete(job.record)
    ensures WellFormed(ToRecord(job)) && AsJob(ToRecord(job)) == job
  {
  }

  // ---------------------------------------------------------------------------
  // Redis commands over the store

  /** HGETALL: the hash under `key`, empty when there is none. */
  function Lookup(s: Store, key: string): Record
  {
    if key in s then s[key] else map[]
  }

  /** HSETNX: sets `field` only when the hash under `key` lacks it. */
  function SetIfAbsent(s: Store, key: string, field: string, value: string): (s': Store)
    ensures field in Lookup(s', key)
    ensures field in Lookup(s, key) ==> s' == s
    ensures field !in Lookup(s, key) ==> Lookup(s', key) == Lookup(s, key)[field := value]
    ensures forall k :: k != key ==> Lookup(s', k) == Lookup(s, k)
  {
    var rec := Lookup(s, key);
    if field in rec then s else s[key := rec[field := value]]
  }

  /** HSET with several fields: overwrites those fields and keeps the others. */
  function SetFields(s: Store, key: string, fields: Record): (s': Store)
    ensures Lookup(s', key) == Lookup(s, key) + fields
    ensures forall k :: k != key ==> Lookup(s', k) == Lookup(s, k)
  {
    s[key := Lookup(s, key) + fields]
  }

  // ---------------------------------------------------------------------------
  // The coordinator's three atomic steps

  /** The enqueue transaction: HSETNX key state waiting, then HGETALL key,
      under one MULTI/EXEC. Returns the new store and the record read back. */
  function EnqueueTx(s: Store, key: string): (r: (Store, Record))
    ensures r.1 == Lookup(r.0, key)
    ensures StateField in r.1
    ensures StateField in Lookup(s, key) ==> r.0 == s
    ensures StateField !in Lookup(s, key) ==> r.1 == Lookup(s, key)[StateField := WaitingState]
    ensures forall k :: k != key ==> Lookup(r.0, k) == Lookup(s, k)
  {
    var s' := SetIfAbsent(s, key, StateField, WaitingState);
    (s', Lookup(s', key))
  }

  /** The claim step of `listenForJobs`: HSETNX key claimed "". Returns the
      new store and whether the listener is dispatched. */
  function ClaimTx(s: Store, key: string): (r: (Store, bool))
    ensures r.1 <==> ClaimedField !in Lookup(s, key)
    ensures ClaimedField in Lookup(r.0, key)
    ensures !r.1 ==> r.0 == s
    ensures r.1 ==> Lookup(r.0, key) == Lookup(s, key)[ClaimedField := ""]
    ensures forall k :: k != key ==> Lookup(r.0, k) == Lookup(s, k)
  {
    (SetIfAbsent(s, key, ClaimedField, ""), ClaimedField !in Lookup(s, key))
  }

  /** The write of `completeJob`: HSET key state complete payload <text>. */
  function CompleteTx(s: Store, key: string, text: string): (s': Store)
    ensures IsComplete(Lookup(s', key)) && WellFormed(Lookup(s', key))
    ensures Lookup(s', key)[PayloadField] == text
    ensures forall f :: f != StateField && f != PayloadField ==>
      (f in Lookup(s', key) <==> f in Lookup(s, key)) &&
      (f in Lookup(s, key) ==> Lookup(s', key)[f] == Lookup(s, key)[f])
    ensures forall k :: k != key ==> Lookup(s', k) == Lookup(s, k)
  {
    assert StateField != PayloadField by { assert |StateField| != |PayloadField|; }
    SetFields(s, key, ToRecord(Complete(text)))
  }

  // ---------------------------------------------------------------------------
  // What an enqueue returns: at once, or the first of a timer and a notification

  /** The producer's side of `enqueueJob` after its transaction: still racing
      a timer against keyspace notifications for `key`, holding the record it
      read (`snapshot`), or settled with the job it returns. */
  datatype Wait<P> = Pending(key: string, snapshot: Record) | Settled(job: Job<P>)

  /** A pending enqueue only ever holds a record that was not complete. */
  predicate PendingOk<P>(w: Wait<P>)
  {
    w.Pending? ==> !IsComplete(w.snapshot)
  }

  /** How `enqueueJob` proceeds from the record its transaction read back:
      a complete record is returned at once, decoded; otherwise it waits. */
  function Begin<Id, P>(b: Binding<Id, P>, key: string, rec: Record): (w: Wait<P>)
    requires WellFormed(rec)
    ensures PendingOk(w)
    ensures w.Settled? <==> IsComplete(rec)
    ensures w.Settled? ==> w.job == Complete(b.deserializePayload(rec[PayloadField]))
    ensures w.Pending? ==> w.key == key && w.snapshot == rec
  {
    if IsComplete(rec) then Settled(DeserializeJob(b, AsJob(rec))) else Pending(key, rec)
  }

  /** The timer fires: a pending enqueue returns the record as read at
      enqueue time, which is not complete; a settled one ignores it. */
  function TimerFires<Id, P>(b: Binding<Id, P>, w: Wait<P>): (w': Wait<P>)
    requires PendingOk(w)
    ensures w'.Settled?
    ensures w.Settled? ==> w' == w
    ensures w.Pending? ==> w'.job == Waiting(w.snapshot) && !IsComplete(w'.job.record)
  {
    match w
    case Pending(_, snapshot) => Settled(DeserializeJob(b, AsJob(snapshot)))
    case Settled(_) => w
  }

  /** A keyspace notification arrives and the producer re-reads `current`:
      it settles only on a complete record, with that record's payload. */
  function NotificationArrives<Id, P>(b: Binding<Id, P>, w: Wait<P>, current: Record): (w': Wait<P>)
    requires WellFormed(current)
    ensures PendingOk(w) ==> PendingOk(w')
    ensures w'.Settled? ==> w'.job.Complete? || w' == w
    ensures w.Settled? ==> w' == w
    ensures w.Pending? && !IsComplete(current) ==> w' == w
    ensures w.Pending? && IsComplete(current) ==>
      w' == Settled(Complete(b.deserializePayload(current[PayloadField])))
  {
    if w.Pending? && IsComplete(current) then Settled(DeserializeJob(b, AsJob(current))) else w
  }
}
