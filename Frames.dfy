/** The pandas DataFrame the analysis functions receive: a `Close` column of
    prices and any number of named derived columns whose cells may be
    undefined (NaN). Only the `Close` column and the derived columns the core
    reads or writes are modelled. */
module Frames {
  import opened Series

  const RETURN: string := "Return"
  const SMA_50: string := "SMA_50"
  const SMA_200: string := "SMA_200"
  const RSI: string := "RSI"
  const EMA_12: string := "EMA_12"
  const EMA_26: string := "EMA_26"
  const MACD: string := "MACD"
  const SIGNAL_LINE: string := "Signal_Line"

  /** A frame as a value: what `data.copy()` produces. */
  datatype Table = Table(close: seq<real>, columns: map<string, Column>)
  {
    /** Every column of a frame is aligned with its index. */
    ghost predicate Aligned() {
      forall name :: name in columns ==> |columns[name]| == |close|
    }
  }

  /** A frame that is shared with the caller and updated in place. */
  class Frame {
    var close: seq<real>
    var columns: map<string, Column>

    ghost predicate Valid()
      reads this
    {
      Table(close, columns).Aligned()
    }

    /** The frame's current contents as a value. */
    function Snapshot(): Table
      reads this
    {
      Table(close, columns)
    }

    constructor (prices: seq<real>)
      ensures Valid() && close == prices && columns == map[]
    {
      close := prices;
      columns := map[];
    }
  }
}
