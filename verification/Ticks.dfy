/** Quotes and the rules that decide which of them may reach the terminal. */
module Ticks {
  import opened Floats
  import opened Text

  datatype Tick = Tick(timestampMs: int, bid: Num, ask: Num, bidVolume: Num, askVolume: Num)

  datatype Reason =
    | ParseError
    | NonFiniteValue
    | NonPositivePrice
    | CrossedQuote
    | InvalidVolume
    | TimestampOutOfRange

  /** One line of a raw file, as its provider reads it. */
  datatype Row = Parsed(tick: Tick) | Unparsed

  function FindInvalidReason(tick: Tick): Option<Reason> {
    var allFinite := tick.bid.Finite? && tick.ask.Finite? && tick.bidVolume.Finite? && tick.askVolume.Finite?;
    if !allFinite then Some(NonFiniteValue)
    else if tick.bid.v <= 0.0 || tick.ask.v <= 0.0 then Some(NonPositivePrice)
    else if tick.bid.v > tick.ask.v then Some(CrossedQuote)
    else if tick.bidVolume.v < 0.0 || tick.askVolume.v < 0.0 then Some(InvalidVolume)
    else None
  }

  predicate IsValid(tick: Tick) {
    FindInvalidReason(tick).None?
  }

  /** A tick is valid when its numbers are finite, prices positive and uncrossed, and volumes not negative. */
  lemma ValidMeans(t: Tick)
    ensures var finite := t.bid.Finite? && t.ask.Finite? && t.bidVolume.Finite? && t.askVolume.Finite?;
      && (IsValid(t) <==>
           finite && 0.0 < t.bid.v <= t.ask.v && 0.0 < t.ask.v && t.bidVolume.v >= 0.0 && t.askVolume.v >= 0.0)
      && (FindInvalidReason(t) == Some(NonFiniteValue) <==> !finite)
      && (FindInvalidReason(t) == Some(NonPositivePrice) <==> finite && !(t.bid.v > 0.0 && t.ask.v > 0.0))
      && (FindInvalidReason(t) == Some(CrossedQuote) <==> finite && 0.0 < t.ask.v < t.bid.v)
      && (FindInvalidReason(t) == Some(InvalidVolume)
          <==> finite && 0.0 < t.bid.v <= t.ask.v && !(t.bidVolume.v >= 0.0 && t.askVolume.v >= 0.0))
  {}

  /** A window of UTC milliseconds, closed at the start and open at the end. */
  datatype Window = Window(startMs: int, endMs: int)

  predicate Inside(window: Window, tick: Tick) {
    window.startMs <= tick.timestampMs < window.endMs
  }

  ghost predicate TimesAscend(ticks: seq<Tick>) {
    forall i, j :: 0 <= i < j < |ticks| ==> ticks[i].timestampMs <= ticks[j].timestampMs
  }
}
