/** `EmbedJobManager` of packages/job-manager/index.ts: the post-embed job
    domain, whose job key is `handle/slug`. */
module EmbedJob {
  import opened Wrappers
  import opened Text
  import opened Jobs

  /** `EmbedJobId`. The slug is `None` where the JavaScript value would be
      `undefined`, which is what decoding a key without a "/" produces. */
  datatype EmbedJobId = EmbedJobId(projectHandle: string, slug: Option<string>)

  datatype EmbedImage = EmbedImage(mimeType: string, base64: string)

  /** `EmbedData`: the payload of a finished post-embed job. */
  datatype EmbedData = EmbedData(
    themeColor: string,
    siteName: string,
    title: string,
    url: string,
    image: EmbedImage)

  const Separator: char := '/'

  /** How a template string renders a possibly-undefined string. */
  function Render(s: Option<string>): string
  {
    match s
    case Some(text) => text
    case None => "undefined"
  }

  /** `serializeId`: the handle, a "/", then the slug. */
  function SerializeId(id: EmbedJobId): (key: string)
    ensures |key| == |id.projectHandle| + 1 + |Render(id.slug)|
    ensures key[..|id.projectHandle|] == id.projectHandle
    ensures key[|id.projectHandle|] == Separator
    ensures key[|id.projectHandle| + 1..] == Render(id.slug)
  {
    id.projectHandle + [Separator] + Render(id.slug)
  }

  /** `deserializeId`: the first two "/"-separated pieces of the key. The
      handle and any slug never hold a "/", and the slug is missing exactly
      when the key has no "/". */
  function DeserializeId(key: string): (id: EmbedJobId)
    ensures Separator !in id.projectHandle
    ensures id.slug.Some? ==> Separator !in id.slug.value
    ensures id.slug.None? <==> Separator !in key
  {
    var parts := Split(key, Separator);
    EmbedJobId(parts[0], if |parts| >= 2 then Some(parts[1]) else None)
  }

  /** The key of an id whose handle and slug hold no "/" decodes back to it. */
  lemma IdRoundTrip(id: EmbedJobId)
    requires id.slug.Some?
    requires Separator !in id.projectHandle && Separator !in id.slug.value
    ensures DeserializeId(SerializeId(id)) == id
  {
    SplitAtFirst(id.projectHandle, Separator, id.slug.value);
    SplitWithoutSeparator(id.slug.value, Separator);
  }

  /** So distinct slash-free ids never share a job key. */
  lemma SerializeIdInjective(x: EmbedJobId, y: EmbedJobId)
    requires x.slug.Some? && Separator !in x.projectHandle && Separator !in x.slug.value
    requires y.slug.Some? && Separator !in y.projectHandle && Separator !in y.slug.value
    ensures SerializeId(x) == SerializeId(y) ==> x == y
  {
  }

  /** A slug containing "/" is cut at its first "/" on the way back. */
  lemma SlugTruncated(handle: string, head: string, tail: string)
    requires Separator !in handle && Separator !in head
    ensures DeserializeId(SerializeId(EmbedJobId(handle, Some(head + [Separator] + tail))))
         == EmbedJobId(handle, Some(head))
  {
    var key := handle + [Separator] + (head + [Separator] + tail);
    assert SerializeId(EmbedJobId(handle, Some(head + [Separator] + tail))) == key;
    SplitAtFirst(handle, Separator, head + [Separator] + tail);
    SplitAtFirst(head, Separator, tail);
  }

  /** A key without "/" is all handle, and the slug is undefined. */
  lemma KeyWithoutSlash(key: string)
    requires Separator !in key
    ensures DeserializeId(key) == EmbedJobId(key, None)
  {
    SplitWithoutSeparator(key, Separator);
  }

  /** An undefined slug is written as the text "undefined" and comes back
      as that text, not as undefined. */
  lemma UndefinedSlugComesBackAsText(handle: string)
    requires Separator !in handle
    ensures DeserializeId(SerializeId(EmbedJobId(handle, None))) == EmbedJobId(handle, Some("undefined"))
  {
    IdRoundTrip(EmbedJobId(handle, Some("undefined")));
  }

  /** The id has the shape the job key can carry back: a slug, and no "/" in
      either part. */
  predicate SlashFree(id: EmbedJobId)
  {
    id.slug.Some? && Separator !in id.projectHandle && Separator !in id.slug.value
  }

  /** The embed domain's hooks for the generic coordinator. The payload codec
      (JSON.stringify and JSON.parse) is supplied from outside. The id pair
      round-trips on every slash-free id, and the payload pair round-trips
      wherever the supplied codec does. */
  function EmbedBinding(stringify: EmbedData -> string, parse: string -> EmbedData): (b: Binding<EmbedJobId, EmbedData>)
    ensures b.serializeId == SerializeId && b.deserializeId == DeserializeId
    ensures b.serializePayload == stringify && b.deserializePayload == parse
    ensures forall id :: SlashFree(id) ==> b.deserializeId(b.serializeId(id)) == id
  {
    assert forall id :: SlashFree(id) ==> DeserializeId(SerializeId(id)) == id by {
      forall id | SlashFree(id)
        ensures DeserializeId(SerializeId(id)) == id
      {
        IdRoundTrip(id);
      }
    }
    Binding(SerializeId, DeserializeId, stringify, parse)
  }
}
