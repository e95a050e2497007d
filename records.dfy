/**
 * Records of the two tables the site reads and writes: `website_info`
 * (editable page copy, grouped by section) and `consultations` (leads
 * submitted through the public form), with the insert and update shapes
 * the pages build.
 */
module Records {

  datatype Option<+T> = None | Some(value: T) {
    function GetOr(default: T): (r: T)
      ensures Some? ==> r == value
      ensures None? ==> r == default
    {
      if Some? then value else default
    }
  }

  /**
   * A JSON value. The model stores and copies it and asks only whether it
   * is truthy; it never reads the fields of an object.
   */
  datatype Json =
    | JNull
    | JBool(b: bool)
    | JNumber(n: int)
    | JString(s: string)
    | JArray(items: seq<Json>)
    | JObject(fields: map<string, Json>)

  /** JavaScript truthiness of a JSON value: `null`, `false`, `0` and `""` are falsy. */
  predicate Truthy(j: Json) {
    match j
    case JNull => false
    case JBool(b) => b
    case JNumber(n) => n != 0
    case JString(s) => s != ""
    case _ => true
  }

  /** The empty object `{}`. */
  const EmptyObject: Json := JObject(map[])

  /** A stored `website_info` row. */
  datatype ContentItem = ContentItem(
    id: string,
    section: string,
    title: string,
    content: Option<string>,
    metadata: Json,
    imageUrl: Option<string>,
    displayOrder: int,
    isActive: bool,
    createdAt: string,
    updatedAt: string)

  /**
   * A new `website_info` row as the editor builds it: only `section` and
   * `title` are required. A field that is absent and one that is `null` are
   * both `None` (every reader of a draft treats the two alike). The table's
   * insert type also lets a caller give `id`, `created_at` and `updated_at`;
   * the editor never sends them, and they are not modelled.
   */
  datatype ContentDraft = ContentDraft(
    section: string,
    title: string,
    content: Option<string>,
    metadata: Option<Json>,
    imageUrl: Option<string>,
    displayOrder: Option<int>,
    isActive: Option<bool>)

  /**
   * The update shape of `website_info`: every column optional. For the two
   * nullable columns, `Some(None)` writes `null` and `None` leaves the column
   * as it is.
   */
  datatype ContentPatch = ContentPatch(
    id: Option<string>,
    section: Option<string>,
    title: Option<string>,
    content: Option<Option<string>>,
    metadata: Option<Json>,
    imageUrl: Option<Option<string>>,
    displayOrder: Option<int>,
    isActive: Option<bool>,
    createdAt: Option<string>,
    updatedAt: Option<string>)

  /** The update that sets no column. */
  const NoChange: ContentPatch := ContentPatch(None, None, None, None, None, None, None, None, None, None)

  /** What the store does to a row when it applies an update: each given column takes the given value, every other column is kept. */
  function ApplyPatch(row: ContentItem, patch: ContentPatch): (r: ContentItem)
    ensures r.id == if patch.id.Some? then patch.id.value else row.id
    ensures r.section == if patch.section.Some? then patch.section.value else row.section
    ensures r.title == if patch.title.Some? then patch.title.value else row.title
    ensures r.content == if patch.content.Some? then patch.content.value else row.content
    ensures r.metadata == if patch.metadata.Some? then patch.metadata.value else row.metadata
    ensures r.imageUrl == if patch.imageUrl.Some? then patch.imageUrl.value else row.imageUrl
    ensures r.displayOrder == if patch.displayOrder.Some? then patch.displayOrder.value else row.displayOrder
    ensures r.isActive == if patch.isActive.Some? then patch.isActive.value else row.isActive
    ensures r.createdAt == if patch.createdAt.Some? then patch.createdAt.value else row.createdAt
    ensures r.updatedAt == if patch.updatedAt.Some? then patch.updatedAt.value else row.updatedAt
    ensures patch == NoChange ==> r == row
  {
    ContentItem(
      patch.id.GetOr(row.id),
      patch.section.GetOr(row.section),
      patch.title.GetOr(row.title),
      patch.content.GetOr(row.content),
      patch.metadata.GetOr(row.metadata),
      patch.imageUrl.GetOr(row.imageUrl),
      patch.displayOrder.GetOr(row.displayOrder),
      patch.isActive.GetOr(row.isActive),
      patch.createdAt.GetOr(row.createdAt),
      patch.updatedAt.GetOr(row.updatedAt))
  }

  /** Applying an update twice is applying it once. */
  lemma ApplyPatchIdempotent(row: ContentItem, patch: ContentPatch)
    ensures ApplyPatch(ApplyPatch(row, patch), patch) == ApplyPatch(row, patch)
  {
  }

  /** A stored `consultations` row (a lead). */
  datatype Consultation = Consultation(
    id: string,
    name: string,
    email: string,
    phone: string,
    businessName: string,
    website: Option<string>,
    industry: string,
    message: string,
    createdAt: string,
    status: string)

  /**
   * The insert shape of `consultations` as the public form sends it: the
   * server assigns `id`, `created_at` and the default `status`.
   */
  datatype ConsultationInsert = ConsultationInsert(
    name: string,
    email: string,
    phone: string,
    businessName: string,
    website: Option<string>,
    industry: string,
    message: string)
}
