/** Point-in-time rows: the vendor form that is loaded and stored, and the sealed form that
    snapshots and backtests read. */
module Records {
  import opened Wrappers
  import opened Clock

  /** `loader.RawPITRow`; `value` is the number its decimal text denotes. */
  datatype RawPITRow = RawPITRow(
    sourceId: string, datasetId: string, field: string, instrumentId: string,
    eventTime: Time, availableTime: Time, ingestedAt: Time,
    revisionId: string, licenseTag: string, value: real)
  {
    predicate Valid() {
      eventTime <= availableTime <= ingestedAt
    }
  }

  /** `models.PITRow`; a missing value is `None`. */
  datatype PITRow = PITRow(
    datasetId: string, field: string, instrumentId: string,
    eventTime: Time, availableTime: Time, ingestedAt: Time,
    revisionId: string, sourceId: string, licenseTag: string, value: Option<real>)
  {
    predicate Valid() {
      availableTime <= ingestedAt
    }
  }

  /** The sealed form of a vendor row, as snapshot building and `load` both produce it. */
  function Seal(r: RawPITRow): PITRow {
    PITRow(r.datasetId, r.field, r.instrumentId, r.eventTime, r.availableTime, r.ingestedAt,
           r.revisionId, r.sourceId, r.licenseTag, Some(r.value))
  }
}
