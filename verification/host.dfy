/** Behaviour the backend delegates to libraries or the runtime, passed into
    the model as parameters because its definition is outside the code being
    modelled: Python's `repr`, `date.fromisoformat`, `uuid.UUID`, Django's
    `parse_datetime`, the SHA-256 content hash of a canonical JSON dump,
    `normalize_payload`'s JSON round trip, `normalize_qty_unit`, the file
    name the storage backend assigns, and `json.loads` of a text column. */
module Host {

  import opened Wrappers
  import opened Json
  import opened Dates

  /** Canonical text of a UUID. */
  type Uuid = string

  /** What Django's `parse_datetime` does with a text: `None` when it does not have the
      datetime format, a timestamp, or the `ValueError` it raises for text of the right format
      that names no real moment (such as "2024-02-30T10:00:00"). */
  datatype DatetimeParse = NoDatetime | Datetime(t: int) | DatetimeInvalid(message: string)

  datatype Host = Host(
    show: Json -> string,
    fromIsoFormat: string -> Option<Date>,
    parseUuid: string -> Option<Uuid>,
    parseDatetime: string -> DatetimeParse,
    snapshotHash: Json -> string,
    normalizePayload: Json -> Json,
    normalizeQtyUnit: (real, string) -> (real, string),
    storedFileName: string -> string,
    loadJson: string -> Option<Json>)
}
