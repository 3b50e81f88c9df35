/** The recognised configuration options of the surge engine. */
module Config {
  import opened JavaText

  datatype Props = Props(
    h3Resolution: Int32,
    minH3Resolution: Int32,
    maxH3Resolution: Int32,
    shortTripKmThreshold: real,
    longTripKmThreshold: real,
    minDrivers: Int32,
    maxSurgeMultiplier: real,
    baseSurgeMultiplier: real,
    maxSurgeJump: real,
    baselineWindowSeconds: Int32,
    dataFreshnessSeconds: Int32,
    warmupSeconds: Int32,
    baseFare: real,
    pricePerKm: real,
    surgeDropThreshold: real)

  /** The values an unconfigured deployment runs with. */
  function Defaults(): Props {
    Props(
      h3Resolution := 8,
      minH3Resolution := 7,
      maxH3Resolution := 9,
      shortTripKmThreshold := 5.0,
      longTripKmThreshold := 20.0,
      minDrivers := 5,
      maxSurgeMultiplier := 3.0,
      baseSurgeMultiplier := 1.0,
      maxSurgeJump := 0.2,
      baselineWindowSeconds := 600,
      dataFreshnessSeconds := 30,
      warmupSeconds := 30,
      baseFare := 10.0,
      pricePerKm := 20.0,
      surgeDropThreshold := 0.5)
  }

  /** The length of the sliding window, in milliseconds. */
  function WindowMillis(p: Props): int {
    p.dataFreshnessSeconds * 1000
  }

  /**
   * The resolutions a ping is written to and a demand query reads: the adaptive range,
   * or only the default resolution when the range is empty (min greater than max).
   */
  function ResolutionRange(p: Props): (r: (Int32, Int32))
    ensures r.0 <= r.1
    ensures p.minH3Resolution <= p.maxH3Resolution ==> r == (p.minH3Resolution, p.maxH3Resolution)
    ensures p.minH3Resolution > p.maxH3Resolution ==> r == (p.h3Resolution, p.h3Resolution)
  {
    if p.minH3Resolution > p.maxH3Resolution then (p.h3Resolution, p.h3Resolution)
    else (p.minH3Resolution, p.maxH3Resolution)
  }

  /** Settings under which the worker's multiplier stays in [base, max]. */
  predicate SurgeSettingsSane(p: Props) {
    && p.baseSurgeMultiplier <= p.maxSurgeMultiplier
    && 0.0 <= p.surgeDropThreshold <= 1.0
    && 0.0 <= p.maxSurgeJump
  }
}
