/**
  The stricter account variant (output_gpt_4o_mini/accounts.py): every
  deposit, withdrawal and trade must be for a positive amount or quantity,
  and each trade record carries a timestamp.

  `Ledger` is the account's state as a value, with one function per
  operation; the class `Account` holds the same state in fields and its
  methods update them in place, each tied to the matching `Ledger` function.
 */
module AccountsMini {
  import opened Portfolio

  /** The fixed price table of this variant; a symbol not in the table is priced at zero. */
  function SharePrice(symbol: string): (price: real)
    ensures price >= 0.0
  {
    var prices := map["AAPL" := 150.0, "TSLA" := 700.0, "GOOGL" := 2800.0];
    if symbol in prices then prices[symbol] else 0.0
  }

  datatype Action = Buy | Sell

  /**
    One trade record. The timestamp is the UTC wall-clock time formatted as
    "%Y-%m-%d %H:%M:%S"; the model takes it as given by the caller.
   */
  datatype Transaction = Transaction(timestamp: string, action: Action, symbol: string, quantity: int, price: real)

  /** What `deposit_funds` does: completes, or raises ValueError with this message. */
  datatype Status = Done | ValueError(message: string)

  const NonPositiveDeposit := "Deposit amount must be positive"

  /** The holdings after one recorded trade, by the rules buying and selling apply. */
  function ApplyTrade(h: Holdings, t: Transaction): Holdings
  {
    match t.action
    case Buy => AddShares(h, t.symbol, t.quantity)
    case Sell => RemoveShares(h, t.symbol, t.quantity)
  }

  /** The holdings that a log of trades accounts for, starting from none. */
  function Replay(log: seq<Transaction>): Holdings
  {
    if log == [] then map[] else ApplyTrade(Replay(log[..|log| - 1]), log[|log| - 1])
  }

  /** Every record is for a positive quantity at the table price. */
  ghost predicate WellFormedLog(log: seq<Transaction>)
  {
    forall i :: 0 <= i < |log| ==> log[i].quantity > 0 && log[i].price == SharePrice(log[i].symbol)
  }

  /**
    The account invariant: no zero or negative holding is ever stored, every
    record is well formed, and the log accounts for the holdings exactly.
   */
  ghost predicate Consistent(h: Holdings, log: seq<Transaction>)
  {
    HoldingsPositive(h) && WellFormedLog(log) && h == Replay(log)
  }

  /**
    A trade the account accepts (a positive quantity at the table price, and
    for a sale no more than is held) keeps the invariant when its record is
    appended to the log.
   */
  lemma AppendTrade(h: Holdings, log: seq<Transaction>, t: Transaction)
    requires Consistent(h, log)
    requires t.quantity > 0 && t.price == SharePrice(t.symbol)
    requires t.action == Sell ==> Owned(h, t.symbol) >= t.quantity
    ensures Consistent(ApplyTrade(h, t), log + [t])
  {
    assert (log + [t])[..|log|] == log;
    assert forall i :: 0 <= i < |log| ==> (log + [t])[i] == log[i];
  }

  /** The state of one account, as a value. */
  datatype Ledger = Ledger(initialDeposit: real, balance: real, holdings: Holdings, transactions: seq<Transaction>)
  {
    ghost predicate Valid()
    {
      Consistent(holdings, transactions)
    }

    /** Cash plus the market value of every holding at table prices. */
    ghost function PortfolioValue(): (value: real)
      ensures HoldingsPositive(holdings) ==> value >= balance
      ensures holdings == map[] ==> value == balance
    {
      assert HoldingsPositive(holdings) ==> MarketValue(holdings, SharePrice) >= 0.0 by {
        if HoldingsPositive(holdings) {
          MarketValueNonNegative(holdings, SharePrice);
        }
      }
      balance + MarketValue(holdings, SharePrice)
    }

    /** Gain or loss of the portfolio against the opening deposit. */
    ghost function ProfitOrLoss(): (pnl: real)
      ensures HoldingsPositive(holdings) ==> pnl >= balance - initialDeposit
      ensures holdings == map[] ==> pnl == balance - initialDeposit
    {
      PortfolioValue() - initialDeposit
    }

    function DepositFunds(amount: real): (Status, Ledger)
    {
      if amount <= 0.0 then (ValueError(NonPositiveDeposit), this)
      else (Done, this.(balance := balance + amount))
    }

    function WithdrawFunds(amount: real): (bool, Ledger)
    {
      if amount <= 0.0 then (false, this)
      else if balance >= amount then (true, this.(balance := balance - amount))
      else (false, this)
    }

    function BuyShares(symbol: string, quantity: int, timestamp: string): (bool, Ledger)
    {
      if quantity <= 0 then (false, this)
      else
        var price := SharePrice(symbol);
        var cost := price * quantity as real;
        if cost > balance then (false, this)
        else
          (true, this.(balance := balance - cost,
                       holdings := AddShares(holdings, symbol, quantity),
                       transactions := transactions + [Transaction(timestamp, Buy, symbol, quantity, price)]))
    }

    function SellShares(symbol: string, quantity: int, timestamp: string): (bool, Ledger)
    {
      if quantity <= 0 then (false, this)
      else
        var owned := Owned(holdings, symbol);
        if owned < quantity then (false, this)
        else
          var price := SharePrice(symbol);
          (true, this.(balance := balance + price * quantity as real,
                       holdings := RemoveShares(holdings, symbol, quantity),
                       transactions := transactions + [Transaction(timestamp, Sell, symbol, quantity, price)]))
    }
  }

  /** A trading account: cash, share holdings and an append-only trade log. */
  class Account {
    const accountId: string
    const initialDeposit: real
    var balance: real
    var holdings: Holdings
    var transactions: seq<Transaction>

    /** The account's state as a value. */
    function State(): Ledger
      reads this
    {
      Ledger(initialDeposit, balance, holdings, transactions)
    }

    ghost predicate Valid()
      reads this
    {
      State().Valid()
    }

    constructor (accountId: string, initialDeposit: real)
      ensures Valid()
      ensures this.accountId == accountId
      ensures State() == Ledger(initialDeposit, initialDeposit, map[], [])
    {
      this.accountId := accountId;
      balance := initialDeposit;
      this.initialDeposit := initialDeposit;
      holdings := map[];
      transactions := [];
    }

    method DepositFunds(amount: real) returns (status: Status)
      modifies this`balance
      ensures (status, State()) == old(State()).DepositFunds(amount)
    {
      if amount <= 0.0 {
        return ValueError(NonPositiveDeposit);
      }
      balance := balance + amount;
      status := Done;
    }

    method WithdrawFunds(amount: real) returns (ok: bool)
      modifies this`balance
      ensures (ok, State()) == old(State()).WithdrawFunds(amount)
    {
      if amount <= 0.0 {
        return false;
      }
      if balance >= amount {
        balance := balance - amount;
        return true;
      }
      return false;
    }

    /** Appends one record to the log and changes nothing else. */
    method RecordTransaction(action: Action, symbol: string, quantity: int, price: real, timestamp: string)
      modifies this`transactions
      ensures transactions == old(transactions) + [Transaction(timestamp, action, symbol, quantity, price)]
    {
      transactions := transactions + [Transaction(timestamp, action, symbol, quantity, price)];
    }

    /** Buys shares at the table price; `timestamp` is the time stamped on the new record. */
    method BuyShares(symbol: string, quantity: int, timestamp: string) returns (ok: bool)
      modifies this`balance, this`holdings, this`transactions
      ensures (ok, State()) == old(State()).BuyShares(symbol, quantity, timestamp)
    {
      if quantity <= 0 {
        return false;
      }
      var pricePerShare := SharePrice(symbol);
      var totalCost := pricePerShare * quantity as real;
      if totalCost > balance {
        return false;
      }
      balance := balance - totalCost;
      holdings := holdings[symbol := Owned(holdings, symbol) + quantity];
      RecordTransaction(Buy, symbol, quantity, pricePerShare, timestamp);
      ok := true;
    }

    /** Sells shares at the table price, deleting a holding that reaches zero. */
    method SellShares(symbol: string, quantity: int, timestamp: string) returns (ok: bool)
      modifies this`balance, this`holdings, this`transactions
      ensures (ok, State()) == old(State()).SellShares(symbol, quantity, timestamp)
    {
      if quantity <= 0 {
        return false;
      }
      var owned := Owned(holdings, symbol);
      if owned < quantity {
        return false;
      }
      var pricePerShare := SharePrice(symbol);
      var totalRevenue := pricePerShare * quantity as real;
      ghost var after := RemoveShares(holdings, symbol, quantity);
      balance := balance + totalRevenue;
      holdings := holdings[symbol := owned - quantity];
      if holdings[symbol] == 0 {
        holdings := holdings - {symbol};
      }
      assert holdings == after;
      RecordTransaction(Sell, symbol, quantity, pricePerShare, timestamp);
      ok := true;
    }

    /** Cash plus the market value of the holdings; reads the account and changes nothing. */
    ghost function GetPortfolioValue(): (value: real)
      reads this
      ensures HoldingsPositive(holdings) ==> value >= balance
    {
      State().PortfolioValue()
    }

    /** The portfolio value less the opening deposit. */
    ghost function GetProfitOrLoss(): (pnl: real)
      reads this
      ensures HoldingsPositive(holdings) ==> pnl >= balance - initialDeposit
    {
      State().ProfitOrLoss()
    }

    /** A copy of the holdings; being a value, changing it cannot reach the account. */
    method ReportHoldings() returns (copy: Holdings)
      ensures copy == holdings
    {
      copy := holdings;
    }

    /** A copy of the trade log, oldest record first. */
    method ReportTransactions() returns (copy: seq<Transaction>)
      ensures copy == transactions
    {
      copy := transactions;
    }
  }

  /** Accepted trades keep the account invariant. */
  lemma TradesKeepValid(l: Ledger, symbol: string, quantity: int, timestamp: string)
    requires l.Valid()
    ensures l.BuyShares(symbol, quantity, timestamp).1.Valid()
    ensures l.SellShares(symbol, quantity, timestamp).1.Valid()
  {
    if quantity > 0 {
      var price := SharePrice(symbol);
      AppendTrade(l.holdings, l.transactions, Transaction(timestamp, Buy, symbol, quantity, price));
      if Owned(l.holdings, symbol) >= quantity {
        AppendTrade(l.holdings, l.transactions, Transaction(timestamp, Sell, symbol, quantity, price));
      }
    }
  }

  /** Deposits and withdrawals keep the account invariant: they touch only the balance. */
  lemma CashKeepsValid(l: Ledger, amount: real)
    requires l.Valid()
    ensures l.DepositFunds(amount).1.Valid()
    ensures l.WithdrawFunds(amount).1.Valid()
  {
  }

  /** The price table is closed: three listed symbols, and zero for every other. */
  lemma PriceTable()
    ensures SharePrice("AAPL") == 150.0 && SharePrice("TSLA") == 700.0 && SharePrice("GOOGL") == 2800.0
    ensures SharePrice("UNKNOWN") == 0.0
    ensures forall symbol :: SharePrice(symbol) != 0.0 ==> symbol == "AAPL" || symbol == "TSLA" || symbol == "GOOGL"
  {
  }

  /**
    A deposit succeeds exactly for a positive amount and then adds it to the
    balance and changes nothing else; otherwise it raises ValueError and the
    account is untouched.
   */
  lemma DepositFundsContract(l: Ledger, amount: real)
    ensures var (status, after) := l.DepositFunds(amount);
      && (status == Done <==> amount > 0.0)
      && (status == Done ==> after == l.(balance := l.balance + amount))
      && (status != Done ==> status == ValueError(NonPositiveDeposit) && after == l)
  {
  }

  /** A withdrawal succeeds exactly when 0 < amount <= balance; a refused one changes nothing. */
  lemma WithdrawFundsContract(l: Ledger, amount: real)
    ensures var (ok, after) := l.WithdrawFunds(amount);
      && (ok <==> 0.0 < amount <= l.balance)
      && (ok ==> after == l.(balance := l.balance - amount))
      && (!ok ==> after == l)
  {
  }

  /**
    A purchase succeeds exactly for a positive quantity whose cost at the
    table price is covered by the balance. It then pays that cost, adds the
    shares to the one symbol, and appends exactly one BUY record at that
    price; a refused purchase changes nothing.
   */
  lemma BuySharesContract(l: Ledger, symbol: string, quantity: int, timestamp: string)
    ensures var (ok, after) := l.BuyShares(symbol, quantity, timestamp);
      var cost := SharePrice(symbol) * quantity as real;
      && (ok <==> quantity > 0 && cost <= l.balance)
      && (ok ==>
            && after.balance == l.balance - cost
            && Owned(after.holdings, symbol) == Owned(l.holdings, symbol) + quantity
            && after.holdings - {symbol} == l.holdings - {symbol}
            && after.transactions == l.transactions + [Transaction(timestamp, Buy, symbol, quantity, SharePrice(symbol))]
            && after.initialDeposit == l.initialDeposit)
      && (!ok ==> after == l)
  {
  }

  /**
    A sale succeeds exactly for a positive quantity no larger than the shares
    held. It then credits the proceeds at the table price, takes the shares
    off the one symbol, keeps the symbol exactly when some shares are left,
    and appends exactly one SELL record; a refused sale changes nothing.
   */
  lemma SellSharesContract(l: Ledger, symbol: string, quantity: int, timestamp: string)
    ensures var (ok, after) := l.SellShares(symbol, quantity, timestamp);
      var revenue := SharePrice(symbol) * quantity as real;
      && (ok <==> 0 < quantity <= Owned(l.holdings, symbol))
      && (ok ==>
            && after.balance == l.balance + revenue
            && Owned(after.holdings, symbol) == Owned(l.holdings, symbol) - quantity
            && (symbol in after.holdings <==> Owned(after.holdings, symbol) != 0)
            && after.holdings - {symbol} == l.holdings - {symbol}
            && after.transactions == l.transactions + [Transaction(timestamp, Sell, symbol, quantity, SharePrice(symbol))]
            && after.initialDeposit == l.initialDeposit)
      && (!ok ==> after == l)
  {
  }

  /** No operation can take a non-negative balance below zero. */
  lemma OperationsKeepSolvent(l: Ledger, amount: real, symbol: string, quantity: int, timestamp: string)
    requires l.balance >= 0.0
    ensures l.DepositFunds(amount).1.balance >= 0.0
    ensures l.WithdrawFunds(amount).1.balance >= 0.0
    ensures l.BuyShares(symbol, quantity, timestamp).1.balance >= 0.0
    ensures l.SellShares(symbol, quantity, timestamp).1.balance >= 0.0
  {
    if quantity > 0 {
      assert SharePrice(symbol) * quantity as real >= 0.0;
    }
  }

  /** Buying at the table price exchanges cash for shares of equal worth: the portfolio value and the profit or loss stay put. */
  lemma BuyingKeepsPortfolioValue(l: Ledger, symbol: string, quantity: int, timestamp: string)
    ensures l.BuyShares(symbol, quantity, timestamp).1.PortfolioValue() == l.PortfolioValue()
    ensures l.BuyShares(symbol, quantity, timestamp).1.ProfitOrLoss() == l.ProfitOrLoss()
  {
    ValueAfterBuying(l.holdings, SharePrice, symbol, quantity);
  }

  /** Selling at the table price exchanges shares for cash of equal worth, so neither figure moves. */
  lemma SellingKeepsPortfolioValue(l: Ledger, symbol: string, quantity: int, timestamp: string)
    ensures l.SellShares(symbol, quantity, timestamp).1.PortfolioValue() == l.PortfolioValue()
    ensures l.SellShares(symbol, quantity, timestamp).1.ProfitOrLoss() == l.ProfitOrLoss()
  {
    ValueAfterSelling(l.holdings, SharePrice, symbol, quantity);
  }

  /** A deposit or withdrawal that goes through moves the portfolio value by exactly the amount. */
  lemma CashMovesPortfolioValue(l: Ledger, amount: real)
    ensures l.DepositFunds(amount).0 == Done ==> l.DepositFunds(amount).1.PortfolioValue() == l.PortfolioValue() + amount
    ensures l.WithdrawFunds(amount).0 ==> l.WithdrawFunds(amount).1.PortfolioValue() == l.PortfolioValue() - amount
  {
  }

  /** A deposit of 500 into a fresh account of 1000, then the two deposits ValueError rejects. */
  method DepositScenario() returns (balance: real, zero: Status, negative: Status)
    ensures balance == 1500.0
    ensures zero == ValueError(NonPositiveDeposit) && negative == ValueError(NonPositiveDeposit)
  {
    var account := new Account("test123", 1000.0);
    var status := account.DepositFunds(500.0);
    balance := account.balance;
    zero := account.DepositFunds(0.0);
    negative := account.DepositFunds(-100.0);
  }

  /** Withdrawing 200 of 1000 succeeds; 2000, 0 and -50 are refused. */
  method WithdrawScenario() returns (first: bool, balance: real, tooMuch: bool, zero: bool, negative: bool)
    ensures first && balance == 800.0
    ensures !tooMuch && !zero && !negative
  {
    var account := new Account("test123", 1000.0);
    first := account.WithdrawFunds(200.0);
    balance := account.balance;
    tooMuch := account.WithdrawFunds(2000.0);
    zero := account.WithdrawFunds(0.0);
    negative := account.WithdrawFunds(-50.0);
  }

  /** Two AAPL for 300 go through; two TSLA for 1400 are unaffordable; quantities 0 and -1 are refused. */
  method BuyScenario(timestamp: string) returns (first: bool, holdings: Holdings, balance: real, tesla: bool, zero: bool, negative: bool)
    ensures first && holdings == map["AAPL" := 2] && balance == 700.0
    ensures !tesla && !zero && !negative
  {
    var account := new Account("test123", 1000.0);
    first := account.BuyShares("AAPL", 2, timestamp);
    holdings := account.holdings;
    balance := account.balance;
    tesla := account.BuyShares("TSLA", 2, timestamp);
    zero := account.BuyShares("GOOGL", 0, timestamp);
    negative := account.BuyShares("GOOGL", -1, timestamp);
  }

  /** Buy three AAPL, sell two; selling two more, one TSLA, zero or -1 is refused. */
  method SellScenario(timestamp: string) returns (sold: bool, holdings: Holdings, balance: real, tooMany: bool, notHeld: bool, zero: bool, negative: bool)
    ensures sold && holdings == map["AAPL" := 1] && balance == 1000.0 - 3.0 * 150.0 + 2.0 * 150.0
    ensures !tooMany && !notHeld && !zero && !negative
  {
    var account := new Account("test123", 1000.0);
    var bought := account.BuyShares("AAPL", 3, timestamp);
    sold := account.SellShares("AAPL", 2, timestamp);
    holdings := account.holdings;
    balance := account.balance;
    tooMany := account.SellShares("AAPL", 2, timestamp);
    notHeld := account.SellShares("TSLA", 1, timestamp);
    zero := account.SellShares("AAPL", 0, timestamp);
    negative := account.SellShares("AAPL", -1, timestamp);
  }

  /** Selling the only TSLA share deletes the symbol from the holdings. */
  method SellAllScenario(timestamp: string) returns (heldBefore: bool, heldAfter: bool)
    ensures heldBefore && !heldAfter
  {
    var account := new Account("test123", 1000.0);
    var bought := account.BuyShares("TSLA", 1, timestamp);
    heldBefore := "TSLA" in account.holdings;
    var sold := account.SellShares("TSLA", 1, timestamp);
    heldAfter := "TSLA" in account.holdings;
  }

  /** Reports are copies: changing the reported holdings or log leaves the account's own untouched. */
  method ReportScenario(timestamp: string) returns (report: Holdings, kept: Holdings, log: seq<Transaction>, keptLog: seq<Transaction>)
    ensures report == map["AAPL" := 100] && kept == map["AAPL" := 1]
    ensures |log| == 3 && |keptLog| == 2
    ensures keptLog[0].action == Buy && keptLog[1].action == Sell
  {
    var account := new Account("test123", 1000.0);
    var bought := account.BuyShares("AAPL", 1, timestamp);
    report := account.ReportHoldings();
    report := report["AAPL" := 100];
    kept := account.holdings;
    var sold := account.SellShares("AAPL", 1, timestamp);
    log := account.ReportTransactions();
    log := log + [Transaction("", Buy, "", 0, 0.0)];
    keptLog := account.transactions;
  }

  /** After two AAPL are bought out of 1000, the account is still worth 1000 and shows no profit or loss. */
  lemma ValuationScenario(timestamp: string)
    ensures var after := Ledger(1000.0, 1000.0, map[], []).BuyShares("AAPL", 2, timestamp).1;
      after.balance == 700.0 && after.PortfolioValue() == 700.0 + 2.0 * SharePrice("AAPL") && after.ProfitOrLoss() == 0.0
  {
    var after := Ledger(1000.0, 1000.0, map[], []).BuyShares("AAPL", 2, timestamp).1;
    assert after.holdings == map["AAPL" := 2];
    MarketValueRemove(after.holdings, SharePrice, "AAPL");
    WorthIsProduct(150.0, 2);
    assert after.holdings - {"AAPL"} == map[];
  }
}
