/** The wallet object: balances updated in place. */
module Wallets {
  import opened Orders
  import opened Tokenizer
  import opened Purses

  class Wallet {
    var currencies: map<string, real>
    var locked: map<string, real>

    function Contents(): Purse
      reads this
    {
      Purse(currencies, locked)
    }

    constructor ()
      ensures Contents() == EMPTY_PURSE
    {
      currencies, locked := map[], map[];
    }

    method InsertCurrency(currency: string, amount: real) returns (r: Outcome)
      modifies this
      ensures Effect(Contents(), r) == Insert(old(Contents()), currency, amount)
    {
      if amount < 0.0 {
        return Threw(NegativeAmount);
      }
      var balance := if currency in currencies then currencies[currency] else 0.0;
      currencies := currencies[currency := balance + amount];
      return Returned(true);
    }

    method ContainsAmount(currency: string, amount: real) returns (r: Outcome)
      ensures r == Contains(Contents(), currency, amount)
    {
      if amount < 0.0 {
        return Threw(NegativeAmount);
      }
      if currency in currencies {
        return Returned(currencies[currency] >= amount);
      }
      return Returned(0.0 >= amount);
    }

    method RemoveCurrency(currency: string, amount: real) returns (r: Outcome)
      modifies this
      ensures Effect(Contents(), r) == Remove(old(Contents()), currency, amount)
    {
      if amount < 0.0 {
        return Threw(NegativeAmount);
      }
      r := ContainsAmount(currency, amount);
      if r == Returned(true) {
        var balance := if currency in currencies then currencies[currency] else 0.0;
        currencies := currencies[currency := balance - amount];
      }
    }

    method LockCurrency(currency: string, amount: real) returns (r: Outcome)
      modifies this
      ensures Effect(Contents(), r) == Lock(old(Contents()), currency, amount)
    {
      r := ContainsAmount(currency, amount);
      if r == Returned(true) {
        var balance := if currency in currencies then currencies[currency] else 0.0;
        currencies := currencies[currency := balance - amount];
        var held := if currency in locked then locked[currency] else 0.0;
        locked := locked[currency := held + amount];
      }
    }

    method UnlockCurrency(currency: string, amount: real) returns (r: Outcome)
      modifies this
      ensures Effect(Contents(), r) == Unlock(old(Contents()), currency, amount)
    {
      if currency !in locked {
        locked := locked[currency := 0.0];
      }
      if locked[currency] >= amount {
        locked := locked[currency := locked[currency] - amount];
        var balance := if currency in currencies then currencies[currency] else 0.0;
        currencies := currencies[currency := balance + amount];
        return Returned(true);
      }
      return Returned(false);
    }

    method SpendLocked(currency: string, amount: real) returns (r: Outcome)
      modifies this
      ensures Effect(Contents(), r) == Spend(old(Contents()), currency, amount)
    {
      if currency !in locked {
        locked := locked[currency := 0.0];
      }
      if locked[currency] >= amount {
        locked := locked[currency := locked[currency] - amount];
        return Returned(true);
      }
      return Returned(false);
    }

    method FulfillOrder(order: Order) returns (r: Outcome)
      modifies this
      ensures Effect(Contents(), r) == Fulfill(old(Contents()), order)
      ensures r == Threw(InvalidProduct) <==> |ExtractTokens(order.terms.product, '/')| != 2
    {
      var tokens := Tokenize(order.terms.product, '/');
      if |tokens| != 2 {
        return Threw(InvalidProduct);
      }
      match order.terms.orderType
      case Ask =>
        r := LockCurrency(tokens[0], order.amount);
      case Bid =>
        var required := order.amount * order.terms.price;
        assert required == Required(order);
        r := LockCurrency(tokens[1], required);
      case Sale =>
        r := Returned(false);
    }

    method CancelOrder(order: Order) returns (r: Outcome)
      modifies this
      ensures Effect(Contents(), r) == Cancel(old(Contents()), order)
      ensures r == Threw(InvalidProduct) <==> |ExtractTokens(order.terms.product, '/')| != 2
    {
      var tokens := Tokenize(order.terms.product, '/');
      if |tokens| != 2 {
        return Threw(InvalidProduct);
      }
      match order.terms.orderType
      case Ask =>
        r := UnlockCurrency(tokens[0], order.amount);
      case Bid =>
        var required := order.amount * order.terms.price;
        assert required == Required(order);
        r := UnlockCurrency(tokens[1], required);
      case Sale =>
        r := Returned(false);
    }
  }
}
