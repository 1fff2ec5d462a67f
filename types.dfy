/** The value types shared by the watch simulator: the records of types.ts and the view
    mode and optional values that App.tsx keeps in its state. */
module Types {

  /** A value that may be missing: `string | null` in the source. */
  datatype Option<+T> = None | Some(value: T)

  /** The two screens of the watch: the watch face and the app (App.tsx:177). */
  datatype ViewMode = Face | App

  /** The classification status shown by the app (types.ts:2-5). */
  datatype WitnessStatus = Monitoring | ThreatDetected

  /** The classifier's verdict on one transcript (types.ts:7-12). The severity is a number
      in 0..1 that nothing in the simulation computes with; the stress adjustment is an
      integer the classifier is asked to keep in -20..50 but that the simulation clamps
      whatever it is. */
  datatype AnalysisResult = AnalysisResult(
    isAggressive: bool,
    severity: real,
    reason: string,
    stressAdjustment: int)

  /** One entry of the incident log (types.ts:22-26). */
  datatype Incident = Incident(timestamp: string, quote: string, reason: string)

  /** A destination of the travel sequence (types.ts:14-20); its distance is a label such
      as "45m". The coordinates are always 0 and are not modelled. */
  datatype QuietZone = QuietZone(name: string, distance: string, description: string)
}
