/** include/engine/fee_model.h, and the fee branch of `executeTrade`. */
module Fees {
  import opened Orders

  datatype FeeSchedule = FeeSchedule(makerFee: real, takerFee: real)

  datatype FeeCalculation = FeeCalculation(makerFee: real, takerFee: real, makerRebate: real)

  const DEFAULT_SCHEDULE := FeeSchedule(0.001, 0.002)

  function Max(a: real, b: real): real { if a < b then b else a }
  function Min(a: real, b: real): real { if b < a then b else a }
  function Abs(a: real): real { if a < 0.0 then -a else a }

  class FeeModel {
    var feeSchedules: map<Symbol, FeeSchedule>

    constructor ()
      ensures feeSchedules == map[]
    {
      feeSchedules := map[];
    }

    method SetFeeSchedule(symbol: Symbol, schedule: FeeSchedule)
      modifies this
      ensures feeSchedules == old(feeSchedules)[symbol := schedule]
    {
      feeSchedules := feeSchedules[symbol := schedule];
    }

    function GetFeeSchedule(symbol: Symbol): FeeSchedule
      reads this
    {
      if symbol in feeSchedules then feeSchedules[symbol] else DEFAULT_SCHEDULE
    }

    function CalculateFees(symbol: Symbol, price: real, quantity: real): FeeCalculation
      reads this
    {
      var schedule := GetFeeSchedule(symbol);
      FeeCalculation(price * quantity * Max(0.0, schedule.makerFee),
                     price * quantity * schedule.takerFee,
                     price * quantity * Abs(Min(0.0, schedule.makerFee)))
    }
  }

  /** The rates in force: the model's schedules, or the built-in rates when no model is set. */
  datatype FeePolicy = Fallback | Scheduled(schedules: map<Symbol, FeeSchedule>) {
    function Rates(symbol: Symbol): FeeSchedule {
      if Scheduled? && symbol in schedules then schedules[symbol] else DEFAULT_SCHEDULE
    }
  }

  /** A fee is a rate on the notional value. */
  function Fee(price: real, quantity: real, rate: real): real {
    price * quantity * rate
  }

  /** Charge minus rebate is one signed rate on the notional value: a negative rate is paid out. */
  lemma {:induction false} NetMakerFee(model: FeeModel, symbol: Symbol, price: real, quantity: real)
    ensures var c := model.CalculateFees(symbol, price, quantity);
            var own := symbol in model.feeSchedules;
            var maker := if own then model.feeSchedules[symbol].makerFee else 0.001;
            var taker := if own then model.feeSchedules[symbol].takerFee else 0.002;
            && c.makerFee - c.makerRebate == price * quantity * maker
            && (if maker >= 0.0 then c.makerRebate == 0.0 else c.makerFee == 0.0)
            && c.takerFee == price * quantity * taker
  {
    var m := model.GetFeeSchedule(symbol).makerFee;
    var notional := price * quantity;
    if m < 0.0 {
      assert notional * Max(0.0, m) == 0.0;
      assert notional * Abs(Min(0.0, m)) == -(notional * m);
    } else {
      assert notional * Abs(Min(0.0, m)) == 0.0;
    }
  }

  /** The rates in force: what was stored for the symbol, or a tenth and a fifth of a percent. */
  lemma {:induction false} RatesAre(policy: FeePolicy, symbol: Symbol, price: real, quantity: real)
    ensures var own := policy.Scheduled? && symbol in policy.schedules;
            var rates := policy.Rates(symbol);
            && rates.makerFee == (if own then policy.schedules[symbol].makerFee else 0.001)
            && rates.takerFee == (if own then policy.schedules[symbol].takerFee else 0.002)
            && Fee(price, quantity, rates.makerFee) == price * quantity * rates.makerFee
            && Fee(price, quantity, rates.takerFee) == price * quantity * rates.takerFee
  {
  }

  /** Fees are additive in the quantity traded at one price. */
  lemma {:induction false} FeeAdditive(price: real, q1: real, q2: real, rate: real)
    ensures Fee(price, q1 + q2, rate) == Fee(price, q1, rate) + Fee(price, q2, rate)
  {
    assert price * (q1 + q2) == price * q1 + price * q2;
  }
}
