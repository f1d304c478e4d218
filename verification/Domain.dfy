/** Canonical values shared by the components (internal/domain/domain.go, pkg/errs/errs.go). */
module Domain {
  import opened Wrappers

  /** The unset source and the explicit NONE are one value here, as `IsNone` treats them. */
  datatype SourceKind = NoSource | Operational | Execution | CacheSource

  datatype FreshnessState = Unknown | Fresh | Stale

  datatype Freshness = Freshness(
    state: FreshnessState,
    age: int,
    ttl: int,
    observedAt: Option<int>,
    evaluatedAt: int,
    source: SourceKind,
    skewCorrected: bool,
    version: nat)

  /** The canonical field names of internal/policy/fields.go, and any other. */
  datatype Field =
    | StatusField | SubStateField | ConfigurationField | MetricsField | TopologyField | OwnerField | LabelsField
    | CustomerField | TypeField | LatestExecutionField | ExecutionHistoryField | OtherField(name: string)

  datatype WarningCode =
    | SourceUnavailable | SourceTimeout | StaleData | PartialData | ConflictResolved | ClockSkew

  datatype Warning = Warning(code: WarningCode, source: SourceKind)

  datatype Code =
    | InvalidRequest | Unauthenticated | Forbidden | TenantMismatch | NotFound | RateLimited
    | RequestTooLarge | UpstreamTimeout | UpstreamUnavailable | UpstreamInvalidPayload
    | SchemaVersionMismatch | NoSourceAvailable | Internal

  /** The source failed in a way that another source might not. */
  predicate SourceUnusable(c: Code) {
    c.UpstreamTimeout? || c.UpstreamUnavailable? || c.UpstreamInvalidPayload? || c.SchemaVersionMismatch?
  }

  /** The version of the cached entry's layout, part of every key and entry. */
  const SCHEMA := 1

  /** Appends a warning unless one with the same code and source is there. */
  function AddWarning(ws: seq<Warning>, w: Warning): (r: seq<Warning>)
    ensures w in r && |r| >= |ws| && forall x <- ws :: x in r
    ensures forall x <- r :: x in ws || x == w
  {
    if w in ws then ws else ws + [w]
  }

  function AddWarnings(ws: seq<Warning>, more: seq<Warning>): (r: seq<Warning>)
    ensures |r| >= |ws| && (forall x <- ws :: x in r) && (forall x <- more :: x in r)
    decreases more
  {
    if more == [] then ws else AddWarnings(AddWarning(ws, more[0]), more[1..])
  }
}
