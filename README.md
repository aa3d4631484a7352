# cohost-embed job coordinator, modelled in Dafny

cohost-embed builds link previews for cohost posts. A request handler asks for
the embed of one post. A background worker renders the post once, and every
handler that asked gets the same result. The handlers and the workers never
talk to each other. They coordinate only through Redis hashes and keyspace
notifications. `JobManager` in `packages/job-manager/job.ts` does that work.

This project models that coordinator and proves its guarantees:

- `jobs.dfy` (module `Jobs`) holds the job records and the `Job` value. It
  also holds `serializeJob` and `deserializeJob`, and the domain's four codec
  hooks as a `Binding` value. The three atomic store steps are functions over
  the keyspace (`map<string, map<string, string>>`):
  - the enqueue transaction (`HSETNX state waiting` then `HGETALL`, in one `MULTI`);
  - the claim (`HSETNX claimed ""`);
  - the completion write (`HSET state complete payload …`).

  The module also models what an enqueue returns: at once, or later from its
  race between the timer and the notification.
- `runs.dfy` (module `Runs`) models any interleaving of those steps from any
  number of producer and consumer processes. It proves that the record under
  a key only moves forward and that at most one listener is ever dispatched
  per key. It also proves that once a job completes, every later enqueue
  returns its payload at once, and that steps on other keys never touch it.
- `coordinator.dfy` (module `Coordinator`) has two classes:
  - `HashStore` is the shared Redis server. Its `hashes` map is updated in
    place, one command at a time.
  - `JobManager` holds the codec hooks and a reference to the store. Its
    methods `EnqueueJob`, `OnTimeout`, `OnKeyspaceNotification`,
    `OnHashSetEvent` (the per-event callback of `listenForJobs`) and
    `CompleteJob` issue the same commands as the source. Each is proved to
    change the store exactly as the matching `Jobs` step does.

  The object invariant `Valid()` says that every complete record holds its
  payload. Several `JobManager` objects can share one `HashStore`, as several
  processes share one Redis. `SingleFlight` runs the scenario of one producer
  (enqueueing twice) and two workers against these contracts.
- `embed_job.dfy` (module `EmbedJob`) is the post-embed domain from
  `packages/job-manager/index.ts`. The job key is `handle/slug`, and it is read
  back with `split("/")`. `text.dfy` (module `Text`) models JavaScript's
  `split` and `join` for one separator character.
- `screenshot.dfy` (module `Screenshot`) is the crop-rectangle arithmetic of
  `processScreenshot` in `app/worker/screenshot.ts`.

The timer-versus-notification race is modelled by the order in which
`OnTimeout` and `OnKeyspaceNotification` are called on a pending `Wait` value.
Whichever call settles the wait first decides the result, and a later callback
is a no-op. This matches `Promise.any` over two promises that each resolve
once. Other processes' store steps may run between the enqueue and either
callback.

Some behaviours of the code that a reader might not expect; the model follows the code:

- A job is complete when its `state` field is `"complete"`. The mere presence
  of a `payload` field does not make it complete. `completeJob` writes both
  `state` and `payload`.
- The `claimed` field does not stand for a state of its own. A claim looks only
  at whether `claimed` is present. It dispatches even on a complete record that
  was never claimed.
- The payload is not immutable. A second `completeJob` on the same key
  replaces it (`Runs.SecondCompletionOverwrites`). It stays fixed because the
  claim dispatches each job once, and the worker completes each job once.
- In `processScreenshot`, both branches of the flag test pick the widescreen
  ratio 16:18. So the default ratio 430:932 (`app/common/config.ts:14`) is
  never used, and the flags never change the crop.

## Model

| member | source | states |
|---|---|---|
| `Jobs.SerializeJob` | packages/job-manager/job.ts:99-108 | a complete job stays complete and a waiting job is passed through unchanged |
| `Jobs.DeserializeJob` | packages/job-manager/job.ts:110-119 | a complete job stays complete and a non-complete record is returned as it was read |
| `Jobs.JobRoundTrip` | packages/job-manager/job.ts:99-119 | deserializing a serialized job gives the job back whenever the payload codec round-trips on its payload |
| `Jobs.RecordRoundTrip` | packages/job-manager/job.ts:91-96 | the fields `hSet` writes for a serialized complete job are read back as that same job, and they hold the payload |
| `Jobs.SetIfAbsent` | packages/job-manager/job.ts:56 | HSETNX sets the field only when the hash lacks it, and otherwise leaves the whole store unchanged; it never touches other keys |
| `Jobs.SetFields` | packages/job-manager/job.ts:96 | HSET overwrites the given fields, keeps the hash's other fields, and never touches other keys |
| `Jobs.EnqueueTx` | packages/job-manager/job.ts:54-58 | sets `state = "waiting"` only when the record has no `state`, and otherwise leaves the store unchanged (a complete record too); the record returned is the stored one, has a `state`, and no other key changes |
| `Jobs.ClaimTx` | packages/job-manager/job.ts:81-84 | dispatches iff `claimed` was absent, whatever `state` says; afterwards `claimed` is present; a failed claim changes nothing; no other key changes |
| `Jobs.CompleteTx` | packages/job-manager/job.ts:88-97 | the record becomes complete with exactly the given payload text, whether or not it existed or was claimed; `claimed` and every other field and every other key stay as they were |
| `Jobs.Begin` | packages/job-manager/job.ts:60-63 | enqueue returns at once iff the read-back record is complete, with its payload decoded; otherwise it waits on that record, which is not complete |
| `Jobs.TimerFires` | packages/job-manager/job.ts:66-69 | on timeout a pending enqueue returns the record as read at enqueue time, which is never complete; a settled enqueue ignores the timer |
| `Jobs.NotificationArrives` | packages/job-manager/job.ts:41-49 | a notification settles the wait only when the re-read record is complete, and then with its decoded payload; otherwise the wait goes on, and a settled wait is unchanged |
| `Runs.RunKeepsWellFormed` | packages/job-manager/job.ts:110-115 | over any run of the three steps, every complete record keeps a payload for `deserializeJob` to decode |
| `Runs.RunFrame` | packages/job-manager/job.ts:37-97 | a run of steps on other keys leaves the record under a key exactly as it was |
| `Runs.RunAdvances` | packages/job-manager/job.ts:54-96 | over any run, no field of a record ever disappears and a complete record stays complete: a job is never un-claimed or un-completed |
| `Runs.AtMostOneDispatch` | packages/job-manager/job.ts:74-86 | over any interleaving of steps from any processes, at most one listener is dispatched per key, and none once `claimed` is present |
| `Runs.CompletionPersists` | packages/job-manager/job.ts:88-97 | a complete record stays complete with the same payload through any run that does not complete that key again |
| `Runs.EnqueueAfterComplete` | packages/job-manager/job.ts:54-63 | after `completeJob(id, p)` and any later steps that do not complete `id` again, enqueueing `id` returns at once, complete with `p` (when the codec gives `p` back) |
| `Runs.RepeatedEnqueue` | packages/job-manager/job.ts:52-58 | any number of back-to-back enqueues of one key leave the store as the first one did, and all of them read back the same record |
| `Runs.SecondCompletionOverwrites` | packages/job-manager/job.ts:96 | a second completion of a key replaces the payload written by the first |
| `Coordinator.HashStore.HGetAll` | packages/job-manager/job.ts:43 | returns the hash under the key, or the empty hash when there is none |
| `Coordinator.HashStore.HSetNX` | packages/job-manager/job.ts:81 | replies true iff the field was absent, and updates the store as `SetIfAbsent` |
| `Coordinator.HashStore.HSet` | packages/job-manager/job.ts:96 | updates the store as `SetFields` |
| `Coordinator.HashStore.HSetNXThenHGetAll` | packages/job-manager/job.ts:54-58 | in one step, performs the conditional set and returns the hash as it stands afterwards |
| `Coordinator.JobManager.EnqueueJob` | packages/job-manager/job.ts:37-63 | changes the shared store exactly as the enqueue transaction on the serialized id, keeps every complete record well formed, and returns the immediate result or the pending wait given by `Begin` |
| `Coordinator.JobManager.OnTimeout` | packages/job-manager/job.ts:67-69 | resolves a pending wait with the deserialized snapshot, as `TimerFires`, without touching the store |
| `Coordinator.JobManager.OnKeyspaceNotification` | packages/job-manager/job.ts:41-49 | re-reads the current record of the pending key and settles exactly as `NotificationArrives`; a settled wait is returned unchanged |
| `Coordinator.JobManager.OnHashSetEvent` | packages/job-manager/job.ts:75-85 | claims the key exactly as `ClaimTx`, and returns the decoded id for dispatch iff `claimed` was absent before |
| `Coordinator.JobManager.CompleteJob` | packages/job-manager/job.ts:88-97 | writes the completion exactly as `CompleteTx`, with the encoded payload under the serialized id |
| `Text.Split` | packages/job-manager/index.ts:32 | `split` always yields at least one piece, yields exactly one iff the separator is absent, and no piece contains the separator |
| `Text.JoinSplit` | packages/job-manager/index.ts:32 | joining the pieces of `split` with the separator gives the original string back |
| `Text.SplitWithoutSeparator` | packages/job-manager/index.ts:32 | a string without the separator splits into itself alone |
| `Text.SplitAtFirst` | packages/job-manager/index.ts:32 | the first piece ends at the first separator, and the rest is split independently |
| `EmbedJob.SerializeId` | packages/job-manager/index.ts:27-29 | the key is the handle, then "/", then the slug, with an undefined slug written as "undefined" |
| `EmbedJob.DeserializeId` | packages/job-manager/index.ts:31-35 | the decoded handle and slug never contain "/", and the slug is undefined exactly when the key has no "/" |
| `EmbedJob.IdRoundTrip` | packages/job-manager/index.ts:27-35 | `deserializeId(serializeId(id)) == id` whenever neither the handle nor the slug contains "/" |
| `EmbedJob.SerializeIdInjective` | packages/job-manager/index.ts:27-29 | distinct ids without "/" never share a job key |
| `EmbedJob.SlugTruncated` | packages/job-manager/index.ts:31-35 | a slug containing "/" comes back cut at its first "/" |
| `EmbedJob.KeyWithoutSlash` | packages/job-manager/index.ts:31-35 | a key without "/" decodes to that whole key as handle and an undefined slug |
| `EmbedJob.UndefinedSlugComesBackAsText` | packages/job-manager/index.ts:27-35 | an undefined slug does not round-trip: it comes back as the text "undefined" |
| `EmbedJob.EmbedBinding` | packages/job-manager/index.ts:22-44 | the embed domain uses the `handle/slug` id codec, whose decode gives back every id with a slug and no "/" in either part, and the supplied payload codec |
| `Screenshot.ChooseAspectRatio` | app/worker/screenshot.ts:14-16 | the ratio is 16:18 (`app/common/config.ts:18`) whatever the flags say |
| `Screenshot.CropHeight` | app/worker/screenshot.ts:17-20 | the height is the smaller of the original height and `trunc(width * ah / aw)` |
| `Screenshot.CropRegion` | app/worker/screenshot.ts:11-24 | fails with "no width and/or height" iff the width or height is missing or zero; otherwise crops from left 0, top 0, at the full original width |
| `Screenshot.CropHeightBounds` | app/worker/screenshot.ts:17-20 | the crop height is at least 1, at most the height and at most `trunc(width * 18 / 16)`; it equals that bound when the bound is below the height, and equals the height (nothing is cut) when the image already fits |
| `Screenshot.CropIgnoresFlags` | app/worker/screenshot.ts:14-20 | the crop does not depend on the flags |

## Left out

- The Redis connection lifecycle (`connect`, `disconnect`, the error handler that disconnects) is network I/O and is not modelled. The model's single `HashStore` stands for the one server that both the command client and the pub/sub client reach.
- The `JobManager` constructor takes the hooks and a store instead of creating two Redis clients from a URL.
- Pub/sub delivery is not modelled: the subscriptions, the keyspace and keyevent event names, `setTimeout` and real time. Delivery may be late, repeated or missed, so the model treats each callback as something a caller may invoke at any point, in any order and any number of times. The subscription itself is not modelled: it is requested before the enqueue transaction but not awaited, so a completion in that window may only be seen at the timeout. Nothing is claimed about how soon a notification arrives.
- The listener callback returns the id to dispatch. Calling the listener and running the job are foreign code and are not modelled. So the model does not cover a worker that crashes after its claim and leaves the job claimed forever. The source has no lease or expiry to recover such a job, so the model invents none.
- JSON.stringify and JSON.parse are foreign code. The payload codec is a pair of functions supplied from outside. Round-tripping is a hypothesis of the lemmas that need it, not a proved fact. A parse that throws is not modelled.
- `deserializeJob` would throw on a complete record with no payload. The model excludes such records with the store invariant `Valid()`, which every operation is proved to keep.
- `processScreenshot` uses JavaScript numbers. The model uses unbounded naturals and natural-number division. It does not cover floating-point rounding of `width * 18`, which is exact for any real image width. The sharp image decoding and extraction calls are foreign code, so only the crop rectangle is modelled. The duplicate copy in `app/worker/index.ts` is not modelled separately.
- The BullMQ wrappers, the browser automation, logging, environment parsing and the web pages are I/O around the core and are not modelled.
