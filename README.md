# Trading-simulator account ledger in Dafny

This project models the account ledger of a toy trading simulator. An
account has:

- a cash balance;
- an opening deposit that never changes;
- holdings, a map from ticker symbol to share count;
- an append-only log of trades.

The operations are deposit, withdraw, buy, sell, valuation
(cash plus holdings at a fixed price table), profit or loss against the
opening deposit, and reporting by copy.

The repository ships two variants of the ledger, and they are modelled
separately:

- `AccountsMini` (`accounts_mini.dfy`) models `output_gpt_4o_mini/accounts.py`.
  - It refuses non-positive amounts and quantities.
  - A non-positive deposit raises ValueError.
  - Each trade record carries a timestamp.
  - TSLA is priced at 700.
- `Accounts4o` (`accounts_4o.dfy`) models `output_gpt_4o/accounts.py`.
  - It checks only that the cash or the shares suffice.
  - Records have no timestamp.
  - TSLA is priced at 600.
- `Portfolio` (`portfolio.dfy`) holds what both share:
  - the holdings helpers (`dict.get(symbol, 0)`, adding shares, and removing shares so that an entry reaching zero is deleted);
  - the market value of holdings as a sum over the map, for any price table passed in.

Each variant has two layers:

- `Ledger` is the account state as a value. It has one function per operation, returning the success flag and the new state.
- The class `Account` holds the same state in fields and updates them in place.
  - Each mutating method's postcondition is that its result and new state are those of the matching `Ledger` function.
  - The properties are proved as lemmas about those functions: guards in both directions, the exact effect, "nothing else changes", invariants, valuation and solvency.

The account invariant `Ledger.Valid` says:

- every record was written at the table price;
- replaying the log from empty holdings gives exactly the current holdings;
- in the mini variant also, every stored count and every recorded quantity is positive.

Money is `real`, so balances are exact. Share counts are `int`.

The invariant carries over to the classes:
- Each constructor establishes it: `AccountsMini.Account.Valid()` in the mini variant, `State().Valid()` in the 4o variant.
- Each mutating method's new state is that of its `Ledger` function applied to the old state.
- The lemmas `AccountsMini.TradesKeepValid`, `AccountsMini.CashKeepsValid` and `Accounts4o.OperationsKeepValid` therefore carry the invariant across every method call.

### Invariants the 4o variant does not keep

The mini variant (output_gpt_4o_mini/accounts.py:24-65) guarantees three things:

- every held count is positive;
- cash never goes negative after an accepted operation, given a non-negative opening deposit;
- every trade record carries a timestamp.

The 4o variant (output_gpt_4o/accounts.py:12-45, 76-83) guarantees none of them, and the model follows its code.

- A zero-quantity purchase goes through and stores a zero entry.
- A negative purchase stores a negative entry and pays the account.
- A negative deposit or a negative sale can take cash below zero.
- Its records have no timestamp.

`Accounts4o.MissingGuards` exhibits each of these cases on concrete accounts. `Accounts4o.SolventWithNonNegativeArguments` proves the solvency that remains when every argument is non-negative.

## Model

| member | source | states |
|---|---|---|
| Portfolio.Owned | output_gpt_4o_mini/accounts.py:55 | the count held for a symbol, 0 when it is absent |
| Portfolio.AddShares | output_gpt_4o_mini/accounts.py:47 | buying sets the symbol's count to old-or-0 plus the quantity, keeps the key even at zero, and leaves every other symbol alone |
| Portfolio.RemoveShares | output_gpt_4o_mini/accounts.py:61-63 | selling lowers the count by the quantity; the key stays exactly when the new count is non-zero; other symbols are unchanged |
| Portfolio.WorthIsProduct | output_gpt_4o_mini/accounts.py:69 | the worth of n shares (repeated addition) is price * n |
| Portfolio.WorthShift | output_gpt_4o_mini/accounts.py:69 | adding q shares adds price * q to their worth |
| Portfolio.MarketValueRemove | output_gpt_4o_mini/accounts.py:69 | the sum over holdings can split off any entry, so it does not depend on the order the dictionary is walked in |
| Portfolio.MarketValueDelete | output_gpt_4o_mini/accounts.py:63 | deleting a symbol lowers the value by exactly that holding's worth |
| Portfolio.MarketValueUpdate | output_gpt_4o_mini/accounts.py:61 | setting one count changes the value by the worth of the new count less that of the old |
| Portfolio.ValueAfterBuying | output_gpt_4o_mini/accounts.py:47 | adding q shares raises the market value by price * q |
| Portfolio.ValueAfterSelling | output_gpt_4o_mini/accounts.py:61-63 | removing q shares lowers the market value by price * q, whether or not the entry is deleted |
| Portfolio.MarketValueNonNegative | output_gpt_4o_mini/accounts.py:69 | positive holdings at non-negative prices have a non-negative market value |
| AccountsMini.SharePrice | output_gpt_4o_mini/accounts.py:5-11 | a price is never negative |
| AccountsMini.PriceTable | output_gpt_4o_mini/accounts.py:5-11 | AAPL 150, TSLA 700, GOOGL 2800, UNKNOWN 0; any symbol with a non-zero price is one of the three |
| AccountsMini.AppendTrade | output_gpt_4o_mini/accounts.py:39-65 | appending an accepted trade (positive quantity, table price, a sale within the holding) keeps the counts positive and the log accounting for the holdings |
| AccountsMini.TradesKeepValid | output_gpt_4o_mini/accounts.py:39-65 | buying and selling keep the account invariant |
| AccountsMini.CashKeepsValid | output_gpt_4o_mini/accounts.py:24-36 | deposits and withdrawals keep the account invariant |
| AccountsMini.DepositFundsContract | output_gpt_4o_mini/accounts.py:24-27 | succeeds iff amount > 0, then adds it to the balance only; otherwise ValueError "Deposit amount must be positive" and no change |
| AccountsMini.WithdrawFundsContract | output_gpt_4o_mini/accounts.py:30-36 | true iff 0 < amount <= balance, then subtracts it only; false leaves the account as it was |
| AccountsMini.BuySharesContract | output_gpt_4o_mini/accounts.py:39-49 | true iff quantity > 0 and price * quantity <= balance; on success pays the cost, adds the shares to that symbol only, appends exactly one BUY record at the table price, keeps the opening deposit; false changes nothing |
| AccountsMini.SellSharesContract | output_gpt_4o_mini/accounts.py:52-65 | true iff 0 < quantity <= shares held; on success credits price * quantity, lowers that symbol only, keeps the key iff shares remain, appends exactly one SELL record; false changes nothing |
| AccountsMini.OperationsKeepSolvent | output_gpt_4o_mini/accounts.py:30-65 | from a non-negative balance no operation leaves a negative one |
| AccountsMini.BuyingKeepsPortfolioValue | output_gpt_4o_mini/accounts.py:39-49 | a purchase at the table price leaves portfolio value and profit or loss unchanged |
| AccountsMini.SellingKeepsPortfolioValue | output_gpt_4o_mini/accounts.py:52-65 | a sale at the table price leaves portfolio value and profit or loss unchanged |
| AccountsMini.CashMovesPortfolioValue | output_gpt_4o_mini/accounts.py:24-36 | a completed deposit or withdrawal moves the portfolio value by exactly the amount |
| AccountsMini.Ledger.PortfolioValue | output_gpt_4o_mini/accounts.py:68-70 | cash plus market value; at least the cash when all counts are positive, exactly the cash with no holdings |
| AccountsMini.Ledger.ProfitOrLoss | output_gpt_4o_mini/accounts.py:73-74 | portfolio value less the opening deposit; at least cash less deposit |
| AccountsMini.Account.constructor | output_gpt_4o_mini/accounts.py:16-21 | the balance starts at the opening deposit, with no holdings and an empty log; the invariant holds |
| AccountsMini.Account.DepositFunds | output_gpt_4o_mini/accounts.py:24-27 | status and new state are those of `Ledger.DepositFunds` |
| AccountsMini.Account.WithdrawFunds | output_gpt_4o_mini/accounts.py:30-36 | result and new state are those of `Ledger.WithdrawFunds` |
| AccountsMini.Account.BuyShares | output_gpt_4o_mini/accounts.py:39-49 | result and new state are those of `Ledger.BuyShares` |
| AccountsMini.Account.SellShares | output_gpt_4o_mini/accounts.py:52-65 | result and new state, including the in-place delete at zero, are those of `Ledger.SellShares` |
| AccountsMini.Account.RecordTransaction | output_gpt_4o_mini/accounts.py:85-92 | appends exactly one record at the end and changes nothing else |
| AccountsMini.Account.GetPortfolioValue | output_gpt_4o_mini/accounts.py:68-70 | reads only; at least the cash when counts are positive |
| AccountsMini.Account.GetProfitOrLoss | output_gpt_4o_mini/accounts.py:73-74 | reads only; at least cash less the opening deposit when counts are positive |
| AccountsMini.Account.ReportHoldings | output_gpt_4o_mini/accounts.py:77-78 | returns a value equal to the holdings, which later changes do not reach |
| AccountsMini.Account.ReportTransactions | output_gpt_4o_mini/accounts.py:81-82 | returns a value equal to the log |
| AccountsMini.DepositScenario | output_gpt_4o_mini/test_accounts.py:19-25 | 1000 + 500 = 1500; deposits of 0 and -100 raise ValueError |
| AccountsMini.WithdrawScenario | output_gpt_4o_mini/test_accounts.py:28-33 | 200 of 1000 leaves 800; 2000, 0 and -50 are refused |
| AccountsMini.BuyScenario | output_gpt_4o_mini/test_accounts.py:36-46 | 2 AAPL leave 700 and {AAPL: 2}; 2 TSLA, 0 and -1 GOOGL are refused |
| AccountsMini.SellScenario | output_gpt_4o_mini/test_accounts.py:49-61 | buy 3 and sell 2 AAPL gives {AAPL: 1} and 1000 - 450 + 300; the four bad sales are refused |
| AccountsMini.SellAllScenario | output_gpt_4o_mini/test_accounts.py:64-68 | selling the only TSLA share deletes the key |
| AccountsMini.ValuationScenario | output_gpt_4o_mini/test_accounts.py:71-81 | after 2 AAPL, portfolio value = 700 + 2 * 150 and profit or loss = 0 |
| AccountsMini.ReportScenario | output_gpt_4o_mini/test_accounts.py:84-98 | changing reported copies leaves the account's holdings and log unchanged |
| Accounts4o.Account.SharePrice | output_gpt_4o/accounts.py:85-93 | a price is never negative |
| Accounts4o.PriceTable | output_gpt_4o/accounts.py:85-93 | AAPL 150, TSLA 600, GOOGL 2800; any symbol with a non-zero price is one of the three |
| Accounts4o.DepositContract | output_gpt_4o/accounts.py:12-14 | any amount, negative included, is added to the balance; nothing else changes |
| Accounts4o.WithdrawContract | output_gpt_4o/accounts.py:16-21 | true iff amount <= balance (no positivity check), then subtracts it; false changes nothing |
| Accounts4o.BuySharesContract | output_gpt_4o/accounts.py:23-32 | true iff price * quantity <= balance, for any quantity; on success pays, adds to that symbol only, appends one 'buy' record; false changes nothing |
| Accounts4o.SellSharesContract | output_gpt_4o/accounts.py:34-45 | true iff the symbol is held with at least the quantity; on success credits, lowers that symbol only, deletes the key iff the count reaches zero, appends one 'sell' record; false changes nothing |
| Accounts4o.AppendTrade | output_gpt_4o/accounts.py:76-83 | appending a record at the table price keeps the log accounting for the holdings |
| Accounts4o.OperationsKeepValid | output_gpt_4o/accounts.py:12-45 | every operation keeps the account invariant |
| Accounts4o.SolventWithNonNegativeArguments | output_gpt_4o/accounts.py:12-45 | with non-negative amounts and quantities, a non-negative balance stays non-negative |
| Accounts4o.MissingGuards | output_gpt_4o/accounts.py:12-45 | negative deposits, withdrawals, purchases and sales and zero-share purchases go through, giving zero and negative holdings and negative cash |
| Accounts4o.BuyingKeepsPortfolioValue | output_gpt_4o/accounts.py:23-32 | a purchase of any quantity leaves portfolio value and profit or loss unchanged |
| Accounts4o.SellingKeepsPortfolioValue | output_gpt_4o/accounts.py:34-45 | a sale leaves portfolio value and profit or loss unchanged |
| Accounts4o.Ledger.PortfolioValue | output_gpt_4o/accounts.py:47-52 | cash plus market value; exactly the cash with no holdings |
| Accounts4o.Ledger.ProfitOrLoss | output_gpt_4o/accounts.py:54-56 | portfolio value less the opening deposit |
| Accounts4o.Account.constructor | output_gpt_4o/accounts.py:4-10 | keeps the user id; the balance starts at the opening deposit, with no holdings and an empty log; the invariant holds |
| Accounts4o.Account.Deposit | output_gpt_4o/accounts.py:12-14 | new state is that of `Ledger.Deposit` |
| Accounts4o.Account.Withdraw | output_gpt_4o/accounts.py:16-21 | result and new state are those of `Ledger.Withdraw` |
| Accounts4o.Account.BuyShares | output_gpt_4o/accounts.py:23-32 | result and new state are those of `Ledger.BuyShares` |
| Accounts4o.Account.SellShares | output_gpt_4o/accounts.py:34-45 | result and new state, after the in-place decrement and delete, are those of `Ledger.SellShares` |
| Accounts4o.Account.GetPortfolioValue | output_gpt_4o/accounts.py:47-52 | the loop's total is exactly cash plus the market value of the holdings |
| Accounts4o.Account.GetProfitOrLoss | output_gpt_4o/accounts.py:54-56 | the result is the portfolio value less the opening deposit |
| Accounts4o.Account.GetHoldings | output_gpt_4o/accounts.py:58-60 | returns a value equal to the holdings |
| Accounts4o.Account.GetTransactions | output_gpt_4o/accounts.py:62-64 | returns a value equal to the log |
| Accounts4o.Account.GetAccountSummary | output_gpt_4o/accounts.py:66-74 | user id, balance, holdings and portfolio value as the getters give them; profit or loss equals the summary's value less the deposit |
| Accounts4o.Account.RecordTransaction | output_gpt_4o/accounts.py:76-83 | appends exactly one record at the end and changes nothing else |
| Accounts4o.InitializationScenario | output_gpt_4o/test_accounts.py:6-11 | a new account has user id user123, balance 1000, no holdings and an empty log |
| Accounts4o.DepositScenario | output_gpt_4o/test_accounts.py:14-17 | 1000 + 500 = 1500 |
| Accounts4o.WithdrawScenario | output_gpt_4o/test_accounts.py:20-31 | withdrawing 200 of 1000 leaves 800; withdrawing 1200 of 1000 is refused and leaves 1000 |
| Accounts4o.TradeScenario | output_gpt_4o/test_accounts.py:34-98 | buy 5 AAPL: 250, {AAPL: 5}; sell 2: 550, {AAPL: 3}; selling 10 is refused and leaves {AAPL: 3}; the log is exactly [buy, sell]; with 200 the purchase is refused, nothing is held and nothing is recorded |
| Accounts4o.ValuationScenario | output_gpt_4o/test_accounts.py:67-81 | after 2 AAPL and 1 TSLA, value = balance + 150 * 2 + 600 * 1 and profit or loss = value - 1000 |
| Accounts4o.DemoScenario | output_gpt_4o/accounts.py:95-102 | the module's demonstration run ends with summary (user123, 850, {AAPL: 3}, 1300, 300) and records [buy 5, sell 2] |

## Left out

- Float rounding: balances are exact `real` numbers, not IEEE doubles. Every table price is a whole number.
- The wall-clock timestamp of the mini variant's records comes from `time.gmtime()`. Here it is a `timestamp` parameter of `BuyShares` and `SellShares`.
- Raising ValueError in `deposit_funds` is modelled as a returned `Status` (`Done` or `ValueError(message)`), with no state change on error.
- The holdings copies (`ReportHoldings`, `GetHoldings`) are `map` values. The source's copies map symbols to integers, so they are full copies, and changing one cannot reach the account, as in the model.
- AccountsMini.Account.ReportTransactions and Accounts4o.Account.GetTransactions return the log as a `seq` of immutable records. The source's `list(self.transactions)` and `self.transactions.copy()` are shallow copies: the list is new, but each record dictionary is shared with the account. Assigning to a field of a reported record (say its quantity) therefore changes the account's own log in the source, and can break the replay invariant. The model does not capture this aliasing; only appending to or replacing entries of the copied list leaves the account untouched.
- Record dictionaries are immutable datatypes. The 'buy'/'sell' and "BUY"/"SELL" strings are the constructors of `TradeType` and `Action`.
- The `print` calls of the 4o demonstration run (output_gpt_4o/accounts.py:103-104) are left out. Its state changes are `Accounts4o.DemoScenario`.
- AccountsMini.Account.GetPortfolioValue and AccountsMini.Account.GetProfitOrLoss are ghost functions, because the model's sum over a map has no fixed order. The 4o variant's `get_portfolio_value` loop is modelled as an executable method proved equal to the same sum.
- Accounts4o.Ledger.PortfolioValue: there is no lower bound like the mini variant's, because in this variant counts can be zero or negative.
- Python's dynamic typing (passing a float quantity, a non-string symbol) is not modelled; arguments have the declared types.
- The Gradio user interfaces (`app.py` in both variants) are not part of this model, nor is the agent configuration in `src/ai_engineering_team/crew.py`. The tests serve only as sources for the scenarios.
