/** The asteroid records of the feed as static/main.js reads them. */
module Records {
  import opened Results

  /** One close approach; `miss_distance.kilometers` taken as an already parsed number. */
  datatype CloseApproach = CloseApproach(missKm: real)

  /**
    One element of a date list: `name`, `is_potentially_hazardous_asteroid`,
    `estimated_diameter.meters.estimated_diameter_max` and
    `close_approach_data`.
   */
  datatype NeoRecord = NeoRecord(name: string, hazardous: bool, diameterMaxM: real, approaches: seq<CloseApproach>)

  /** One member of `near_earth_objects`: a date and its records, in feed order. */
  datatype DateGroup = DateGroup(date: string, records: seq<NeoRecord>)

  /** The TypeError thrown by `close_approach_data[0].miss_distance` when the list is empty. */
  datatype RecordError = NoCloseApproach

  /** The miss distance of the first close approach, the only one the page reads. */
  function FirstMissKm(rec: NeoRecord): Result<real, RecordError>
  {
    if |rec.approaches| == 0 then Err(NoCloseApproach) else Ok(rec.approaches[0].missKm)
  }
}
