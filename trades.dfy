/**
 * Shared vocabulary of the two round-trip converters in services/data_collector.py:
 * position sides, fill timestamps, elapsed whole seconds and the round-trip record they
 * emit.
 */
module Trades {
  import opened Wrappers

  datatype Side = Long | Short

  /** `'Long' if side == 0 else 'Short'`: side code 0 is a buy, anything else a sell. */
  function SideOfCode(code: int): (s: Side)
    ensures s == Long <==> code == 0
  {
    if code == 0 then Long else Short
  }

  function SideName(s: Side): string {
    match s
    case Long => "Long"
    case Short => "Short"
  }

  /**
   * A fill timestamp as the converters see it. `order` is the timestamp text's rank in
   * string order (what `sorted` compares); `micros` is the instant that
   * `datetime.fromisoformat` reads from it, in microseconds, or None when it does not parse.
   */
  datatype Stamp = Stamp(order: int, micros: Option<int>)

  /** The text order of two parsable timestamps agrees with time: the ISO format's promise. */
  predicate Chronological(a: Stamp, b: Stamp) {
    a.micros.Some? && b.micros.Some? && a.order <= b.order ==> a.micros.value <= b.micros.value
  }

  const MicrosPerSecond: int := 1000000

  /**
   * `int(total_seconds)` of a span of `micros` microseconds: whole seconds, truncated
   * toward zero (not floored) for negative spans.
   */
  function WholeSeconds(micros: int): (s: int)
    ensures micros >= 0 ==> 0 <= s * 1000000 <= micros < s * 1000000 + 1000000
    ensures micros < 0 ==> s * 1000000 - 1000000 < micros <= s * 1000000 <= 0
  {
    if micros >= 0 then micros / MicrosPerSecond else -((-micros) / MicrosPerSecond)
  }

  /**
   * `int((exit_time - entry_time).total_seconds())`: whole seconds between two fills,
   * or None when either timestamp does not parse. Parsed timestamps are taken to be of
   * one kind (all carrying an offset), so any two of them can be subtracted.
   */
  function ElapsedSeconds(entry: Stamp, exit: Stamp): Option<int> {
    if entry.micros.Some? && exit.micros.Some? then
      Some(WholeSeconds(exit.micros.value - entry.micros.value))
    else None
  }

  /** A round trip from an earlier fill to a later one never lasts a negative time. */
  lemma ElapsedNonNegative(entry: Stamp, exit: Stamp)
    requires entry.order <= exit.order && Chronological(entry, exit)
    ensures ElapsedSeconds(entry, exit).Some? ==> ElapsedSeconds(entry, exit).value >= 0
  {
  }

  /** Whole seconds are exact for instants a whole number of seconds apart. */
  lemma ElapsedWholeSeconds(entry: Stamp, exit: Stamp, seconds: int)
    requires entry.micros.Some? && exit.micros.Some?
    requires exit.micros.value - entry.micros.value == seconds * MicrosPerSecond
    ensures ElapsedSeconds(entry, exit) == Some(seconds)
  {
  }

  /** One emitted round trip: an opening fill matched with a closing one. */
  datatype RoundTrip = RoundTrip(
    symbol: string,
    side: Side,
    entryTime: Stamp,
    exitTime: Stamp,
    entryPrice: real,
    exitPrice: real,
    quantity: int,
    pnl: real,
    fees: real,
    durationSeconds: int)
}
