/** Market data the backtest reads: daily bars and corporate actions. */
module Market {
  import opened Common

  /** An ISO date; only its order and equality are used. */
  type Day = int

  datatype Bar = Bar(time: Day, open: real, high: real, low: real, close: real, volume: real)

  datatype ActionKind = Split | CashDividend | OtherKind

  /** Empty or missing dates of the source are `None`. */
  datatype CorporateAction = CorporateAction(
    kind: ActionKind,
    effectiveAt: Option<Day>,
    availableAt: Option<Day>,
    recordDate: Option<Day>,
    payDate: Option<Day>,
    cashAmount: real,
    ratio: real)

  /** Bars are in strictly increasing order of time. */
  ghost predicate Increasing(raw: seq<Bar>) {
    forall i, j :: 0 <= i < j < |raw| ==> raw[i].time < raw[j].time
  }
}
