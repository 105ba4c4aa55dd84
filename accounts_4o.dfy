/**
  The permissive account variant (output_gpt_4o/accounts.py): no operation
  checks that an amount or quantity is positive, only that the cash or the
  shares suffice, and trade records carry no timestamp.

  As in the other variant, `Ledger` is the account's state as a value with
  one function per operation, and the class `Account` keeps the same state
  in fields and updates it in place, each method tied to its `Ledger`
  function.
 */
module Accounts4o {
  import opened Portfolio

  datatype TradeType = Buy | Sell

  /** One trade record: its type ('buy' or 'sell'), symbol, quantity and the price paid or received per share. */
  datatype Transaction = Transaction(kind: TradeType, symbol: string, quantity: int, price: real)

  /** The dictionary that `get_account_summary` returns. */
  datatype Summary = Summary(userId: string, balance: real, holdings: Holdings, portfolioValue: real, profitOrLoss: real)

  /** The holdings after one recorded trade, by the rules buying and selling apply. */
  function ApplyTrade(h: Holdings, t: Transaction): Holdings
  {
    match t.kind
    case Buy => AddShares(h, t.symbol, t.quantity)
    case Sell => RemoveShares(h, t.symbol, t.quantity)
  }

  /** The holdings that a log of trades accounts for, starting from none. */
  function Replay(log: seq<Transaction>): Holdings
  {
    if log == [] then map[] else ApplyTrade(Replay(log[..|log| - 1]), log[|log| - 1])
  }

  /** The state of one account, as a value. */
  datatype Ledger = Ledger(initialDeposit: real, balance: real, holdings: Holdings, transactions: seq<Transaction>)
  {
    /**
      The account invariant: every record is at the table price and the log
      accounts for the holdings exactly. Nothing keeps counts positive here:
      a zero-share purchase stores a zero entry and a negative one a negative
      entry.
     */
    ghost predicate Valid()
    {
      && (forall i :: 0 <= i < |transactions| ==> transactions[i].price == Account.SharePrice(transactions[i].symbol))
      && holdings == Replay(transactions)
    }

    /** Cash plus the market value of every holding at table prices. */
    ghost function PortfolioValue(): (value: real)
      ensures holdings == map[] ==> value == balance
    {
      balance + MarketValue(holdings, Account.SharePrice)
    }

    /** Gain or loss of the portfolio against the opening deposit. */
    ghost function ProfitOrLoss(): (pnl: real)
      ensures holdings == map[] ==> pnl == balance - initialDeposit
    {
      PortfolioValue() - initialDeposit
    }

    function Deposit(amount: real): Ledger
    {
      this.(balance := balance + amount)
    }

    function Withdraw(amount: real): (bool, Ledger)
    {
      if amount <= balance then (true, this.(balance := balance - amount)) else (false, this)
    }

    function BuyShares(symbol: string, quantity: int): (bool, Ledger)
    {
      var price := Account.SharePrice(symbol);
      var cost := price * quantity as real;
      if cost <= balance then
        (true, this.(balance := balance - cost,
                     holdings := AddShares(holdings, symbol, quantity),
                     transactions := transactions + [Transaction(Buy, symbol, quantity, price)]))
      else (false, this)
    }

    function SellShares(symbol: string, quantity: int): (bool, Ledger)
    {
      if symbol in holdings && holdings[symbol] >= quantity then
        var price := Account.SharePrice(symbol);
        (true, this.(balance := balance + price * quantity as real,
                     holdings := RemoveShares(holdings, symbol, quantity),
                     transactions := transactions + [Transaction(Sell, symbol, quantity, price)]))
      else (false, this)
    }
  }

  /** A trading account: cash, share holdings and an append-only trade log. */
  class Account {
    const userId: string
    const initialDeposit: real
    var balance: real
    var holdings: Holdings
    var transactions: seq<Transaction>

    /** The fixed price table of this variant (TSLA at 600); a symbol not in the table is priced at zero. */
    static function SharePrice(symbol: string): (price: real)
      ensures price >= 0.0
    {
      var prices := map["AAPL" := 150.0, "TSLA" := 600.0, "GOOGL" := 2800.0];
      if symbol in prices then prices[symbol] else 0.0
    }

    /** The account's state as a value. */
    function State(): Ledger
      reads this
    {
      Ledger(initialDeposit, balance, holdings, transactions)
    }

    constructor (userId: string, initialDeposit: real)
      ensures this.userId == userId
      ensures State() == Ledger(initialDeposit, initialDeposit, map[], [])
      ensures State().Valid()
    {
      this.userId := userId;
      balance := initialDeposit;
      holdings := map[];
      transactions := [];
      this.initialDeposit := initialDeposit;
    }

    method Deposit(amount: real)
      modifies this`balance
      ensures State() == old(State()).Deposit(amount)
    {
      balance := balance + amount;
    }

    method Withdraw(amount: real) returns (ok: bool)
      modifies this`balance
      ensures (ok, State()) == old(State()).Withdraw(amount)
    {
      if amount <= balance {
        balance := balance - amount;
        return true;
      }
      return false;
    }

    method BuyShares(symbol: string, quantity: int) returns (ok: bool)
      modifies this`balance, this`holdings, this`transactions
      ensures (ok, State()) == old(State()).BuyShares(symbol, quantity)
    {
      var price := SharePrice(symbol);
      var cost := price * quantity as real;
      if cost <= balance {
        balance := balance - cost;
        holdings := holdings[symbol := Owned(holdings, symbol) + quantity];
        RecordTransaction(Buy, symbol, quantity, price);
        return true;
      }
      return false;
    }

    /** Sells shares at the table price; the entry is decremented first and deleted once it reaches zero. */
    method SellShares(symbol: string, quantity: int) returns (ok: bool)
      modifies this`balance, this`holdings, this`transactions
      ensures (ok, State()) == old(State()).SellShares(symbol, quantity)
    {
      if symbol in holdings && holdings[symbol] >= quantity {
        var price := SharePrice(symbol);
        var revenue := price * quantity as real;
        ghost var after := RemoveShares(holdings, symbol, quantity);
        holdings := holdings[symbol := holdings[symbol] - quantity];
        balance := balance + revenue;
        RecordTransaction(Sell, symbol, quantity, price);
        if holdings[symbol] == 0 {
          holdings := holdings - {symbol};
        }
        assert holdings == after;
        return true;
      }
      return false;
    }

    /** Cash plus each holding at its table price, summed one entry at a time. */
    method GetPortfolioValue() returns (totalValue: real)
      ensures totalValue == State().PortfolioValue()
    {
      totalValue := balance;
      var rest := holdings;
      ghost var total := State().PortfolioValue();
      var price: string -> real := SharePrice;
      while rest != map[]
        invariant totalValue + MarketValue(rest, price) == total
        decreases rest.Keys
      {
        var symbol :| symbol in rest;
        var quantity, pricePerShare := rest[symbol], price(symbol);
        MarketValueRemove(rest, price, symbol);
        WorthIsProduct(pricePerShare, quantity);
        totalValue := totalValue + pricePerShare * quantity as real;
        rest := rest - {symbol};
      }
    }

    method GetProfitOrLoss() returns (pnl: real)
      ensures pnl == State().ProfitOrLoss()
    {
      var value := GetPortfolioValue();
      pnl := value - initialDeposit;
    }

    /** A copy of the holdings; being a value, changing it cannot reach the account. */
    method GetHoldings() returns (copy: Holdings)
      ensures copy == holdings
    {
      copy := holdings;
    }

    /** A copy of the trade log, oldest record first. */
    method GetTransactions() returns (copy: seq<Transaction>)
      ensures copy == transactions
    {
      copy := transactions;
    }

    /** The owner, the cash, a copy of the holdings and the two valuations, agreeing with the individual getters. */
    method GetAccountSummary() returns (summary: Summary)
      ensures summary.userId == userId && summary.balance == balance && summary.holdings == holdings
      ensures summary.portfolioValue == State().PortfolioValue()
      ensures summary.profitOrLoss == summary.portfolioValue - initialDeposit
    {
      var copy := GetHoldings();
      var value := GetPortfolioValue();
      var pnl := GetProfitOrLoss();
      summary := Summary(userId, balance, copy, value, pnl);
    }

    /** Appends one record to the log and changes nothing else. */
    method RecordTransaction(kind: TradeType, symbol: string, quantity: int, price: real)
      modifies this`transactions
      ensures transactions == old(transactions) + [Transaction(kind, symbol, quantity, price)]
    {
      transactions := transactions + [Transaction(kind, symbol, quantity, price)];
    }
  }

  /** The price table is closed: three listed symbols, and zero for every other. */
  lemma PriceTable()
    ensures Account.SharePrice("AAPL") == 150.0 && Account.SharePrice("TSLA") == 600.0 && Account.SharePrice("GOOGL") == 2800.0
    ensures forall symbol :: Account.SharePrice(symbol) != 0.0 ==> symbol == "AAPL" || symbol == "TSLA" || symbol == "GOOGL"
  {
  }

  /** A deposit adds any amount, negative or zero included, and changes nothing else. */
  lemma DepositContract(l: Ledger, amount: real)
    ensures l.Deposit(amount).balance == l.balance + amount
    ensures l.Deposit(amount).holdings == l.holdings && l.Deposit(amount).transactions == l.transactions
    ensures l.Deposit(amount).initialDeposit == l.initialDeposit
  {
  }

  /** A withdrawal succeeds exactly when the amount does not exceed the balance; a refused one changes nothing. */
  lemma WithdrawContract(l: Ledger, amount: real)
    ensures var (ok, after) := l.Withdraw(amount);
      && (ok <==> amount <= l.balance)
      && (ok ==> after == l.(balance := l.balance - amount))
      && (!ok ==> after == l)
  {
  }

  /**
    A purchase succeeds exactly when its cost at the table price does not
    exceed the balance, whatever the sign of the quantity. It then pays the
    cost, adds the quantity to the one symbol and appends one 'buy' record;
    a refused purchase changes nothing.
   */
  lemma BuySharesContract(l: Ledger, symbol: string, quantity: int)
    ensures var (ok, after) := l.BuyShares(symbol, quantity);
      var cost := Account.SharePrice(symbol) * quantity as real;
      && (ok <==> cost <= l.balance)
      && (ok ==>
            && after.balance == l.balance - cost
            && symbol in after.holdings && after.holdings[symbol] == Owned(l.holdings, symbol) + quantity
            && after.holdings - {symbol} == l.holdings - {symbol}
            && after.transactions == l.transactions + [Transaction(Buy, symbol, quantity, Account.SharePrice(symbol))]
            && after.initialDeposit == l.initialDeposit)
      && (!ok ==> after == l)
  {
  }

  /**
    A sale succeeds exactly when the symbol is held with at least the
    quantity. It then credits the proceeds at the table price, takes the
    quantity off the one symbol, deletes the entry exactly when it reaches
    zero and appends one 'sell' record; a refused sale changes nothing.
   */
  lemma SellSharesContract(l: Ledger, symbol: string, quantity: int)
    ensures var (ok, after) := l.SellShares(symbol, quantity);
      var revenue := Account.SharePrice(symbol) * quantity as real;
      && (ok <==> symbol in l.holdings && l.holdings[symbol] >= quantity)
      && (ok ==>
            && after.balance == l.balance + revenue
            && Owned(after.holdings, symbol) == l.holdings[symbol] - quantity
            && (symbol in after.holdings <==> l.holdings[symbol] != quantity)
            && after.holdings - {symbol} == l.holdings - {symbol}
            && after.transactions == l.transactions + [Transaction(Sell, symbol, quantity, Account.SharePrice(symbol))]
            && after.initialDeposit == l.initialDeposit)
      && (!ok ==> after == l)
  {
  }

  /** Appending the record of a trade at the table price keeps the log accounting for the holdings. */
  lemma AppendTrade(l: Ledger, t: Transaction)
    requires l.Valid()
    requires t.price == Account.SharePrice(t.symbol)
    ensures l.(holdings := ApplyTrade(l.holdings, t), transactions := l.transactions + [t]).Valid()
  {
    var log := l.transactions + [t];
    assert log[..|l.transactions|] == l.transactions;
    assert forall i :: 0 <= i < |l.transactions| ==> log[i] == l.transactions[i];
  }

  /** Every operation keeps the account invariant. */
  lemma OperationsKeepValid(l: Ledger, amount: real, symbol: string, quantity: int)
    requires l.Valid()
    ensures l.Deposit(amount).Valid() && l.Withdraw(amount).1.Valid()
    ensures l.BuyShares(symbol, quantity).1.Valid()
    ensures l.SellShares(symbol, quantity).1.Valid()
  {
    var price := Account.SharePrice(symbol);
    AppendTrade(l, Transaction(Buy, symbol, quantity, price));
    AppendTrade(l, Transaction(Sell, symbol, quantity, price));
  }

  /**
    With non-negative amounts and quantities no operation takes a
    non-negative balance below zero (without that restriction it can; see
    `MissingGuards`).
   */
  lemma SolventWithNonNegativeArguments(l: Ledger, amount: real, symbol: string, quantity: int)
    requires l.balance >= 0.0 && amount >= 0.0 && quantity >= 0
    ensures l.Deposit(amount).balance >= 0.0
    ensures l.Withdraw(amount).1.balance >= 0.0
    ensures l.BuyShares(symbol, quantity).1.balance >= 0.0
    ensures l.SellShares(symbol, quantity).1.balance >= 0.0
  {
    assert Account.SharePrice(symbol) * quantity as real >= 0.0;
  }

  /** Buying at the table price, for any quantity, leaves the portfolio value and the profit or loss unchanged. */
  lemma BuyingKeepsPortfolioValue(l: Ledger, symbol: string, quantity: int)
    ensures l.BuyShares(symbol, quantity).1.PortfolioValue() == l.PortfolioValue()
    ensures l.BuyShares(symbol, quantity).1.ProfitOrLoss() == l.ProfitOrLoss()
  {
    ValueAfterBuying(l.holdings, Account.SharePrice, symbol, quantity);
  }

  /** Selling at the table price leaves the portfolio value and the profit or loss unchanged. */
  lemma SellingKeepsPortfolioValue(l: Ledger, symbol: string, quantity: int)
    ensures l.SellShares(symbol, quantity).1.PortfolioValue() == l.PortfolioValue()
    ensures l.SellShares(symbol, quantity).1.ProfitOrLoss() == l.ProfitOrLoss()
  {
    ValueAfterSelling(l.holdings, Account.SharePrice, symbol, quantity);
  }

  /**
    What the missing positivity checks allow. From a fresh account of 1000:
    - a negative deposit removes cash;
    - a negative withdrawal adds it;
    - a zero-share purchase goes through, stores a zero entry and records a 'buy';
    - a purchase of -2 AAPL goes through, pays the account 300 and leaves it short two shares.
    A negative deposit can take cash below zero (50 becomes -50). So can a
    sale of -10 AAPL by an account holding 5 with no cash, which leaves the
    balance at -1500.
   */
  lemma MissingGuards()
    ensures Ledger(1000.0, 1000.0, map[], []).Deposit(-100.0).balance == 900.0
    ensures Ledger(1000.0, 50.0, map[], []).Deposit(-100.0).balance == -50.0
    ensures Ledger(1000.0, 1000.0, map[], []).Withdraw(-100.0) == (true, Ledger(1000.0, 1100.0, map[], []))
    ensures Ledger(1000.0, 1000.0, map[], []).BuyShares("AAPL", 0)
         == (true, Ledger(1000.0, 1000.0, map["AAPL" := 0], [Transaction(Buy, "AAPL", 0, 150.0)]))
    ensures var (ok, after) := Ledger(1000.0, 1000.0, map[], []).BuyShares("AAPL", -2);
      ok && after.balance == 1300.0 && after.holdings == map["AAPL" := -2]
    ensures var (ok, after) := Ledger(1000.0, 0.0, map["AAPL" := 5], []).SellShares("AAPL", -10);
      ok && after.balance == -1500.0 && after.holdings == map["AAPL" := 15]
  {
    assert Account.SharePrice("AAPL") == 150.0;
    var (ok, after) := Ledger(1000.0, 1000.0, map[], []).BuyShares("AAPL", 0);
    assert ok && after.balance == 1000.0;
    assert after.holdings == map["AAPL" := 0];
    assert after.transactions == [Transaction(Buy, "AAPL", 0, 150.0)];
  }

  /** A new account keeps its owner and opens with the deposit as cash, no holdings and an empty log. */
  method InitializationScenario() returns (userId: string, balance: real, holdings: Holdings, log: seq<Transaction>)
    ensures userId == "user123" && balance == 1000.0 && holdings == map[] && log == []
  {
    var account := new Account("user123", 1000.0);
    userId := account.userId;
    balance := account.balance;
    holdings := account.holdings;
    log := account.transactions;
  }

  /** A deposit of 500 into a fresh account of 1000 leaves 1500. */
  method DepositScenario() returns (balance: real)
    ensures balance == 1500.0
  {
    var account := new Account("user123", 1000.0);
    account.Deposit(500.0);
    balance := account.balance;
  }

  /** From a fresh account of 1000, withdrawing 200 leaves 800; from another, withdrawing 1200 is refused and leaves 1000. */
  method WithdrawScenario() returns (withdrew: bool, afterWithdraw: real, refused: bool, afterRefusal: real)
    ensures withdrew && afterWithdraw == 800.0
    ensures !refused && afterRefusal == 1000.0
  {
    var account := new Account("user123", 1000.0);
    withdrew := account.Withdraw(200.0);
    afterWithdraw := account.balance;
    var other := new Account("user123", 1000.0);
    refused := other.Withdraw(1200.0);
    afterRefusal := other.balance;
  }

  /**
    Buy 5 AAPL out of 1000, sell 2, then try to sell 10: the refused sale
    leaves the holdings alone and the log holds exactly [buy, sell]. With
    200 in cash the purchase is refused and nothing is recorded.
   */
  method TradeScenario() returns (bought: bool, afterBuy: real, heldAfterBuy: Holdings, sold: bool, afterSell: real,
                                  heldAfterSell: Holdings, oversold: bool, heldAfterOversell: Holdings, log: seq<Transaction>,
                                  poor: bool, poorBalance: real, poorHeld: Holdings, poorLog: seq<Transaction>)
    ensures bought && afterBuy == 250.0 && heldAfterBuy == map["AAPL" := 5]
    ensures sold && afterSell == 550.0 && heldAfterSell == map["AAPL" := 3]
    ensures !oversold && heldAfterOversell == map["AAPL" := 3]
    ensures |log| == 2 && log[0].kind == Buy && log[1].kind == Sell
    ensures !poor && poorBalance == 200.0 && "AAPL" !in poorHeld && poorLog == []
  {
    var account := new Account("user123", 1000.0);
    bought := account.BuyShares("AAPL", 5);
    afterBuy := account.balance;
    heldAfterBuy := account.GetHoldings();
    sold := account.SellShares("AAPL", 2);
    afterSell := account.balance;
    heldAfterSell := account.GetHoldings();
    oversold := account.SellShares("AAPL", 10);
    heldAfterOversell := account.GetHoldings();
    log := account.GetTransactions();
    var small := new Account("user123", 200.0);
    poor := small.BuyShares("AAPL", 5);
    poorBalance := small.balance;
    poorHeld := small.holdings;
    poorLog := small.transactions;
  }

  /**
    Two AAPL and one TSLA bought out of 1000 leave 100 in cash; the account
    is then worth the cash plus both holdings at table prices, and its profit
    or loss is that worth less the opening deposit.
   */
  method ValuationScenario() returns (value: real, balance: real, pnl: real)
    ensures balance == 100.0
    ensures value == balance + Account.SharePrice("AAPL") * 2.0 + Account.SharePrice("TSLA") * 1.0
    ensures pnl == value - 1000.0
  {
    var account := new Account("user123", 1000.0);
    var ok := account.BuyShares("AAPL", 2);
    ok := account.BuyShares("TSLA", 1);
    var h := account.holdings;
    assert h == map["AAPL" := 2, "TSLA" := 1];
    MarketValueRemove(h, Account.SharePrice, "AAPL");
    MarketValueRemove(h - {"AAPL"}, Account.SharePrice, "TSLA");
    assert h - {"AAPL"} - {"TSLA"} == map[];
    WorthIsProduct(150.0, 2);
    WorthIsProduct(600.0, 1);
    value := account.GetPortfolioValue();
    balance := account.balance;
    pnl := account.GetProfitOrLoss();
  }

  /**
    The module's own demonstration run: open with 1000, deposit 500, buy 5
    AAPL, sell 2, withdraw 200. It ends with 850 in cash and 3 AAPL, worth
    1300 in all, a profit of 300.
   */
  method DemoScenario() returns (summary: Summary, log: seq<Transaction>)
    ensures summary == Summary("user123", 850.0, map["AAPL" := 3], 1300.0, 300.0)
    ensures log == [Transaction(Buy, "AAPL", 5, 150.0), Transaction(Sell, "AAPL", 2, 150.0)]
  {
    var account := new Account("user123", 1000.0);
    account.Deposit(500.0);
    var ok := account.BuyShares("AAPL", 5);
    ok := account.SellShares("AAPL", 2);
    ok := account.Withdraw(200.0);
    assert account.holdings == map["AAPL" := 3];
    MarketValueRemove(account.holdings, Account.SharePrice, "AAPL");
    WorthIsProduct(150.0, 3);
    assert account.holdings - {"AAPL"} == map[];
    summary := account.GetAccountSummary();
    log := account.GetTransactions();
  }
}
