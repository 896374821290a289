/**
 * Whole runs of the exchange: portfolios are the net of the trades, and prices are
 * the initial prices plus a cent for every share outstanding.
 */
module PortfolioRuns {
  import opened Book
  import Slots
  import opened Portfolio

  /** Shares bought less shares sold by slot k since its client connected, read off the replies. */
  function Net(m: Market, orders: seq<Order>, k: nat, symbol: string): int {
    if orders == [] then 0
    else
      var before, o := orders[..|orders| - 1], orders[|orders| - 1];
      var now := Run(m, before);
      if o.Accept? then
        if Slots.FreeSlot(Connected(now.clients)) == k then 0 else Net(m, before, k, symbol)
      else if o.slot == k then Net(m, before, k, symbol) + Moved(Step(now, o).1, symbol)
      else Net(m, before, k, symbol)
  }

  function Moved(r: Reply, symbol: string): int {
    match r
    case Bought(s, qty, _) => if s == symbol then qty else 0
    case Sold(s, qty, _) => if s == symbol then -qty else 0
    case _ => 0
  }

  /** Shares bought less shares sold by everyone over a run. */
  function Outstanding(m: Market, orders: seq<Order>, symbol: string): int {
    if orders == [] then 0
    else
      var before := orders[..|orders| - 1];
      Outstanding(m, before, symbol) + Moved(Step(Run(m, before), orders[|orders| - 1]).1, symbol)
  }

  function Visible(c: Client): seq<Entry> {
    if c.connected then c.book else []
  }

  function Books(clients: seq<Client>): seq<seq<Entry>> {
    seq(|clients|, i requires 0 <= i < |clients| => Visible(clients[i]))
  }

  // ---------- The invariant ----------

  predicate IsListed(stocks: seq<Stock>, symbol: string) {
    FindStock(stocks, symbol, 0) < |stocks|
  }

  ghost predicate BookOk(stocks: seq<Stock>, book: seq<Entry>) {
    && Tidy(book) && |book| <= MAX_STOCKS
    && forall i | 0 <= i < |book| :: IsListed(stocks, book[i].name)
  }

  ghost predicate Inv(m: Market) {
    && |m.stocks| <= MAX_STOCKS
    && forall k | 0 <= k < |m.clients| :: BookOk(m.stocks, m.clients[k].book)
  }

  ghost predicate SameSymbols(a: seq<Stock>, b: seq<Stock>) {
    |a| == |b| && forall i | 0 <= i < |a| :: a[i].symbol == b[i].symbol
  }

  lemma {:induction false} SameFind(a: seq<Stock>, b: seq<Stock>, symbol: string, i: nat)
    requires SameSymbols(a, b) && i <= |a|
    ensures FindStock(a, symbol, i) == FindStock(b, symbol, i)
    decreases |a| - i
  {
    if i < |a| {
      SameFind(a, b, symbol, i + 1);
    }
  }

  lemma SameBookOk(a: seq<Stock>, b: seq<Stock>, book: seq<Entry>)
    requires SameSymbols(a, b) && BookOk(a, book)
    ensures BookOk(b, book)
  {
    forall i | 0 <= i < |book| ensures IsListed(b, book[i].name) {
      SameFind(a, b, book[i].name, 0);
    }
  }

  /** A portfolio of listed symbols has room for each listed symbol it lacks. */
  lemma RoomInPortfolio(stocks: seq<Stock>, book: seq<Entry>, symbol: string)
    requires BookOk(stocks, book) && IsListed(stocks, symbol) && |stocks| <= MAX_STOCKS
    ensures Has(book, symbol) || |book| < MAX_STOCKS
  {
    if !Has(book, symbol) {
      forall n | Has(book, n) || n == symbol ensures Has(Symbols(stocks), n) {
        if Has(book, n) {
          assert book[Find(book, n)].name == n;
        }
        assert Symbols(stocks)[FindStock(stocks, n, 0)].name == n;
      }
      RoomForAnother(book, Symbols(stocks), symbol);
    }
  }

  // ---------- One trade ----------

  /** What a trade did to the listing and to one portfolio. */
  ghost predicate Traded(stocks: seq<Stock>, book: seq<Entry>, after: (seq<Stock>, seq<Entry>, Reply), symbol: string) {
    && SameSymbols(stocks, after.0)
    && BookOk(stocks, after.1)
    && Held(after.1, symbol) == Held(book, symbol) + Moved(after.2, symbol)
  }

  lemma BuyTrades(stocks: seq<Stock>, book: seq<Entry>, bought: string, qty: int, symbol: string)
    requires BookOk(stocks, book) && |stocks| <= MAX_STOCKS
    ensures Traded(stocks, book, BuyOrder(stocks, book, bought, qty), symbol)
  {
    if qty > 0 && IsListed(stocks, bought) {
      RoomInPortfolio(stocks, book, bought);
      PutHeld(book, MAX_STOCKS, bought, qty, symbol);
    }
  }

  lemma SellTrades(stocks: seq<Stock>, book: seq<Entry>, sold: string, qty: int, symbol: string)
    requires BookOk(stocks, book)
    ensures Traded(stocks, book, SellOrder(stocks, book, sold, qty), symbol)
  {
    if 0 < qty <= Held(book, sold) && IsListed(stocks, sold) {
      TakeHeld(book, sold, qty, symbol);
      TakeStaysListed(stocks, book, sold, qty);
    }
  }

  lemma TakeStaysListed(stocks: seq<Stock>, book: seq<Entry>, sold: string, qty: int)
    requires BookOk(stocks, book)
    ensures forall i | 0 <= i < |Take(book, sold, qty)| :: IsListed(stocks, Take(book, sold, qty)[i].name)
  {
  }

  lemma BooksUpdate(clients: seq<Client>, k: nat, c: Client, symbol: string)
    requires k < |clients|
    ensures Total(Books(clients[k := c]), symbol)
         == Total(Books(clients), symbol) - Held(Visible(clients[k]), symbol) + Held(Visible(c), symbol)
  {
    assert Books(clients[k := c]) == Books(clients)[k := Visible(c)];
    TotalUpdate(Books(clients), k, Visible(c), symbol);
  }

  // ---------- Steps ----------

  /** The shares that connected clients hold never exceed what the trades account for. */
  ghost predicate Kept(m: Market, t: Market, moved: int, symbol: string) {
    && Inv(t)
    && SameSymbols(m.stocks, t.stocks)
    && |t.clients| == |m.clients|
    && Total(Books(t.clients), symbol) <= Total(Books(m.clients), symbol) + moved
  }

  lemma TradeKeeps(m: Market, k: nat, after: (seq<Stock>, seq<Entry>, Reply), symbol: string)
    requires Inv(m) && k < |m.clients| && m.clients[k].connected
    requires Traded(m.stocks, m.clients[k].book, after, symbol)
    ensures Kept(m, Trade(m, k, after).0, Moved(Trade(m, k, after).1, symbol), symbol)
  {
    var t := Trade(m, k, after).0;
    forall i | 0 <= i < |t.clients| ensures BookOk(t.stocks, t.clients[i].book) {
      assert BookOk(m.stocks, m.clients[i].book);
      SameBookOk(m.stocks, t.stocks, t.clients[i].book);
    }
    BooksUpdate(m.clients, k, m.clients[k].(book := after.1), symbol);
  }

  lemma ClientKeeps(m: Market, k: nat, c: Client, symbol: string)
    requires Inv(m) && k < |m.clients| && BookOk(m.stocks, c.book)
    requires c.connected ==> c.book == [] || (m.clients[k].connected && c.book == m.clients[k].book)
    ensures Kept(m, m.(clients := m.clients[k := c]), 0, symbol)
  {
    BooksUpdate(m.clients, k, c, symbol);
    assert BookOk(m.stocks, m.clients[k].book);
    HeldIffPresent(m.clients[k].book, symbol);
  }

  lemma OrderKeeps(m: Market, o: Order, symbol: string)
    requires Inv(m) && (o.Buy? || o.Sell?) && o.slot < |m.clients| && m.clients[o.slot].connected
    ensures Kept(m, Step(m, o).0, Moved(Step(m, o).1, symbol), symbol)
  {
    var k, book := o.slot, m.clients[o.slot].book;
    assert BookOk(m.stocks, book);
    if o.Buy? {
      BuyTrades(m.stocks, book, o.symbol, o.qty, symbol);
      TradeKeeps(m, k, BuyOrder(m.stocks, book, o.symbol, o.qty), symbol);
    } else {
      SellTrades(m.stocks, book, o.symbol, o.qty, symbol);
      TradeKeeps(m, k, SellOrder(m.stocks, book, o.symbol, o.qty), symbol);
    }
  }

  lemma AdminKeeps(m: Market, o: Order, symbol: string)
    requires Inv(m) && (o.Join? || o.Leave?) && o.slot < |m.clients| && m.clients[o.slot].connected
    ensures Kept(m, Step(m, o).0, 0, symbol) && Moved(Step(m, o).1, symbol) == 0
  {
    var k, c := o.slot, m.clients[o.slot];
    assert BookOk(m.stocks, c.book);
    if o.Join? {
      ClientKeeps(m, k, c.(user := o.user, role := o.role, joined := true), symbol);
    } else {
      ClientKeeps(m, k, c.(connected := false, joined := false, user := ""), symbol);
    }
  }

  lemma AcceptKeeps(m: Market, symbol: string)
    requires Inv(m)
    ensures Kept(m, Step(m, Accept).0, 0, symbol) && Moved(Step(m, Accept).1, symbol) == 0
  {
    var k := Slots.FreeSlot(Connected(m.clients));
    if k < |m.clients| {
      ClientKeeps(m, k, Client(true, false, "", "", []), symbol);
    }
  }

  lemma StepKeeps(m: Market, o: Order, symbol: string)
    requires Inv(m)
    ensures Kept(m, Step(m, o).0, Moved(Step(m, o).1, symbol), symbol)
  {
    if o.Accept? {
      AcceptKeeps(m, symbol);
    } else if o.slot < |m.clients| && m.clients[o.slot].connected {
      if o.Join? || o.Leave? {
        AdminKeeps(m, o, symbol);
      } else {
        OrderKeeps(m, o, symbol);
      }
    }
  }

  /** A step changes the portfolio of a connected client by what the reply says, and only in its own slot. */
  lemma OthersKeepBook(m: Market, o: Order, k: nat)
    requires k < |m.clients| && m.clients[k].connected && (o.Accept? || o.slot != k)
    ensures k < |Step(m, o).0.clients| && Step(m, o).0.clients[k].book == m.clients[k].book
  {
  }

  lemma StepMovesHolding(m: Market, o: Order, k: nat, symbol: string)
    requires Inv(m) && k < |m.clients| && m.clients[k].connected
    requires Step(m, o).0.clients[k].connected
    ensures Held(Step(m, o).0.clients[k].book, symbol)
         == Held(m.clients[k].book, symbol) + (if !o.Accept? && o.slot == k then Moved(Step(m, o).1, symbol) else 0)
  {
    if !o.Accept? && o.slot == k {
      var c := m.clients[k];
      assert BookOk(m.stocks, c.book);
      match o
      case Join(_, _, _) =>
      case Leave(_) =>
      case Buy(_, bought, qty) => BuyTrades(m.stocks, c.book, bought, qty, symbol);
      case Sell(_, sold, qty) => SellTrades(m.stocks, c.book, sold, qty, symbol);
    } else {
      OthersKeepBook(m, o, k);
    }
  }

  // ---------- Portfolios over a run ----------

  lemma OpenIsOk(stocks: seq<Stock>, symbol: string)
    requires |stocks| <= MAX_STOCKS
    ensures Inv(Open(stocks)) && Total(Books(Open(stocks).clients), symbol) == 0
  {
    TotalOfEmpty(Books(Open(stocks).clients), symbol);
  }

  lemma {:induction false} RunKeeps(stocks: seq<Stock>, orders: seq<Order>, symbol: string)
    requires |stocks| <= MAX_STOCKS
    ensures Kept(Open(stocks), Run(Open(stocks), orders), Outstanding(Open(stocks), orders, symbol), symbol)
  {
    OpenIsOk(stocks, symbol);
    if orders != [] {
      var before := orders[..|orders| - 1];
      RunKeeps(stocks, before, symbol);
      StepKeeps(Run(Open(stocks), before), orders[|orders| - 1], symbol);
    }
  }

  /** In every run a connected client holds of each symbol what it bought less what it sold. */
  lemma {:induction false} HoldingIsNet(stocks: seq<Stock>, orders: seq<Order>, k: nat, symbol: string)
    requires |stocks| <= MAX_STOCKS && k < MAX_CLIENTS
    ensures var t := Run(Open(stocks), orders);
            |t.clients| == MAX_CLIENTS && Tidy(t.clients[k].book)
            && (t.clients[k].connected ==> Held(t.clients[k].book, symbol) == Net(Open(stocks), orders, k, symbol))
  {
    TraderInRun(stocks, orders, k, symbol);
    if orders != [] {
      var before := orders[..|orders| - 1];
      HoldingIsNet(stocks, before, k, symbol);
      NetStep(stocks, before, orders[|orders| - 1], k, symbol);
      assert orders == before + [orders[|orders| - 1]];
    }
  }

  lemma TraderInRun(stocks: seq<Stock>, orders: seq<Order>, k: nat, symbol: string)
    requires |stocks| <= MAX_STOCKS && k < MAX_CLIENTS
    ensures var t := Run(Open(stocks), orders); |t.clients| == MAX_CLIENTS && Inv(t) && Tidy(t.clients[k].book)
  {
    RunKeeps(stocks, orders, symbol);
    assert BookOk(Run(Open(stocks), orders).stocks, Run(Open(stocks), orders).clients[k].book);
  }

  lemma NetStep(stocks: seq<Stock>, before: seq<Order>, o: Order, k: nat, symbol: string)
    requires |stocks| <= MAX_STOCKS && k < MAX_CLIENTS
    requires |Run(Open(stocks), before).clients| == MAX_CLIENTS
    requires Run(Open(stocks), before).clients[k].connected ==>
      Held(Run(Open(stocks), before).clients[k].book, symbol) == Net(Open(stocks), before, k, symbol)
    ensures var t := Run(Open(stocks), before + [o]);
      |t.clients| == MAX_CLIENTS
      && (t.clients[k].connected ==> Held(t.clients[k].book, symbol) == Net(Open(stocks), before + [o], k, symbol))
  {
    var now := Run(Open(stocks), before);
    TraderInRun(stocks, before, k, symbol);
    assert (before + [o])[..|before|] == before;
    if now.clients[k].connected && Step(now, o).0.clients[k].connected {
      StepMovesHolding(now, o, k, symbol);
    }
  }

  /**
   * A sale goes through exactly when a trader asks for a listed symbol and a positive number of
   * shares no greater than its net.
   */
  lemma SaleIffNetSuffices(stocks: seq<Stock>, orders: seq<Order>, k: nat, symbol: string, qty: int)
    requires |stocks| <= MAX_STOCKS && k < MAX_CLIENTS
    ensures var t := Run(Open(stocks), orders);
            |t.clients| == MAX_CLIENTS
            && (Step(t, Sell(k, symbol, qty)).1.Sold? <==>
                  t.clients[k].connected && t.clients[k].joined && t.clients[k].role == "TRADER"
                  && IsListed(stocks, symbol) && 0 < qty <= Net(Open(stocks), orders, k, symbol))
  {
    HoldingIsNet(stocks, orders, k, symbol);
    RunKeeps(stocks, orders, symbol);
    SameFind(stocks, Run(Open(stocks), orders).stocks, symbol, 0);
  }

  /** A purchase goes through exactly when a trader asks for a listed symbol and a positive number of shares. */
  lemma PurchaseIffListed(stocks: seq<Stock>, orders: seq<Order>, k: nat, symbol: string, qty: int)
    requires |stocks| <= MAX_STOCKS && k < MAX_CLIENTS
    ensures var t := Run(Open(stocks), orders);
            |t.clients| == MAX_CLIENTS
            && (Step(t, Buy(k, symbol, qty)).1.Bought? <==>
                  t.clients[k].connected && t.clients[k].joined && t.clients[k].role == "TRADER"
                  && 0 < qty && exists i :: 0 <= i < |stocks| && stocks[i].symbol == symbol)
  {
    RunKeeps(stocks, orders, symbol);
    SameFind(stocks, Run(Open(stocks), orders).stocks, symbol, 0);
    ListedIffStands(stocks, symbol);
  }

  lemma ListedIffStands(stocks: seq<Stock>, symbol: string)
    ensures IsListed(stocks, symbol) <==> exists i :: 0 <= i < |stocks| && stocks[i].symbol == symbol
  {
    if IsListed(stocks, symbol) {
      assert stocks[FindStock(stocks, symbol, 0)].symbol == symbol;
    }
  }

  // ---------- Prices over a run ----------

  /** Buying and selling back restores a price exactly when it was at least a cent. */
  lemma RoundTripPrice(price: real, qty: int)
    requires qty > 0
    ensures Lowered(Raised(price, qty), qty) == price <==> price >= CENT
  {
  }

  /** A purchase by a trader who may buy. */
  lemma BuyHandled(m: Market, k: nat, symbol: string, qty: int)
    requires CanTrade(m, k) && IsListed(m.stocks, symbol) && qty > 0
    ensures var i := FindStock(m.stocks, symbol, 0);
      Step(m, Buy(k, symbol, qty)).0
        == Market(Reprice(m.stocks, i, Raised(m.stocks[i].price, qty)),
                  m.clients[k := m.clients[k].(book := Put(m.clients[k].book, MAX_STOCKS, symbol, qty))])
  {
  }

  lemma SellHandled(m: Market, k: nat, symbol: string, qty: int)
    requires CanTrade(m, k) && IsListed(m.stocks, symbol) && 0 < qty <= Held(m.clients[k].book, symbol)
    ensures var i := FindStock(m.stocks, symbol, 0);
      Step(m, Sell(k, symbol, qty)).0
        == Market(Reprice(m.stocks, i, Lowered(m.stocks[i].price, qty)),
                  m.clients[k := m.clients[k].(book := Take(m.clients[k].book, symbol, qty))])
  {
  }

  predicate CanTrade(m: Market, k: nat) {
    k < |m.clients| && m.clients[k].connected && m.clients[k].joined && m.clients[k].role == "TRADER"
  }

  lemma BuyThenSell(m: Market, k: nat, symbol: string, qty: int)
    requires Inv(m) && CanTrade(m, k) && IsListed(m.stocks, symbol) && qty > 0
    ensures var i := FindStock(m.stocks, symbol, 0);
      Step(Step(m, Buy(k, symbol, qty)).0, Sell(k, symbol, qty)).0
        == m.(stocks := Reprice(m.stocks, i, Lowered(Raised(m.stocks[i].price, qty), qty)))
  {
    var i, book := FindStock(m.stocks, symbol, 0), m.clients[k].book;
    assert BookOk(m.stocks, book);
    RoomInPortfolio(m.stocks, book, symbol);
    TakeUndoesPut(book, MAX_STOCKS, symbol, qty);
    PutHeld(book, MAX_STOCKS, symbol, qty, symbol);
    HeldIffPresent(book, symbol);
    BuyHandled(m, k, symbol, qty);
    var bought := Step(m, Buy(k, symbol, qty)).0;
    assert SameSymbols(m.stocks, bought.stocks);
    SameFind(m.stocks, bought.stocks, symbol, 0);
    SellHandled(bought, k, symbol, qty);
    var t := Step(bought, Sell(k, symbol, qty)).0;
    assert t.clients == m.clients;
  }

  /**
   * In every run, buying and selling straight back restores the whole market exactly when the price
   * was at least a cent.
   */
  lemma BuyThenSellRestores(stocks: seq<Stock>, orders: seq<Order>, k: nat, symbol: string, qty: int)
    requires |stocks| <= MAX_STOCKS && CanTrade(Run(Open(stocks), orders), k) && IsListed(stocks, symbol) && qty > 0
    ensures var m := Run(Open(stocks), orders);
      var i := FindStock(stocks, symbol, 0);
      |m.stocks| == |stocks|
      && (Step(Step(m, Buy(k, symbol, qty)).0, Sell(k, symbol, qty)).0 == m <==> m.stocks[i].price >= CENT)
  {
    var m, i := Run(Open(stocks), orders), FindStock(stocks, symbol, 0);
    RunKeeps(stocks, orders, symbol);
    SameFind(stocks, m.stocks, symbol, 0);
    BuyThenSell(m, k, symbol, qty);
    RoundTripPrice(m.stocks[i].price, qty);
    var t := Reprice(m.stocks, i, Lowered(Raised(m.stocks[i].price, qty), qty));
    assert t == m.stocks <==> t[i].price == m.stocks[i].price;
  }

  /** A stock listed at half a cent, bought once and sold back, ends at a cent. */
  lemma SubCentStockEndsAtCent()
    ensures var m := Run(Open([Stock("A", 0.005)]), [Accept, Join(0, "TRADER", "ANN")]);
      && CanTrade(m, 0) && m.stocks == [Stock("A", 0.005)]
      && Step(Step(m, Buy(0, "A", 1)).0, Sell(0, "A", 1)).0.stocks == [Stock("A", 0.01)]
  {
    var stocks, orders := [Stock("A", 0.005)], [Accept, Join(0, "TRADER", "ANN")];
    var m := Run(Open(stocks), orders);
    assert orders[..1] == [Accept] && [Accept][..0] == [];
    var m0 := Open(stocks);
    assert Run(m0, []) == m0;
    var m1 := Step(m0, Accept).0;
    assert Run(m0, [Accept]) == m1;
    assert Slots.FreeSlot(Connected(m0.clients)) == 0;
    assert !NameTaken(m1.clients, "ANN");
    assert m.stocks == stocks && CanTrade(m, 0);
    RunKeeps(stocks, orders, "A");
    assert FindStock(stocks, "A", 0) == 0;
    BuyThenSell(m, 0, "A", 1);
  }

  lemma StepPrice(m: Market, o: Order, i: nat)
    requires i < |m.stocks| && FindStock(m.stocks, m.stocks[i].symbol, 0) == i
    ensures i < |Step(m, o).0.stocks|
    ensures var p, q := m.stocks[i].price, Step(m, o).0.stocks[i].price;
            var moved := Moved(Step(m, o).1, m.stocks[i].symbol);
            q >= p + moved as real * CENT && (q > p + moved as real * CENT ==> p + moved as real * CENT < CENT)
  {
  }

  /** Over a run no more shares are sold than were bought. */
  lemma OutstandingNotNegative(stocks: seq<Stock>, orders: seq<Order>, symbol: string)
    requires |stocks| <= MAX_STOCKS
    ensures Outstanding(Open(stocks), orders, symbol) >= 0
  {
    var m := Open(stocks);
    var t := Run(m, orders);
    OpenIsOk(stocks, symbol);
    RunKeeps(stocks, orders, symbol);
    forall b | b in Books(t.clients) ensures Tidy(b) {
      var k :| 0 <= k < |t.clients| && Visible(t.clients[k]) == b;
      assert BookOk(t.stocks, t.clients[k].book);
    }
    TotalNotNegative(Books(t.clients), symbol);
  }

  /**
   * In every run a price is at least its initial value plus a cent for every share
   * outstanding, so it never falls below its initial value; for a stock first listed
   * at a cent or more the floor is never used and the price is exactly that.
   */
  lemma {:induction false} PriceCountsShares(stocks: seq<Stock>, orders: seq<Order>, i: nat)
    requires |stocks| <= MAX_STOCKS && i < |stocks| && FindStock(stocks, stocks[i].symbol, 0) == i
    ensures var t := Run(Open(stocks), orders);
            var exact := stocks[i].price + Outstanding(Open(stocks), orders, stocks[i].symbol) as real * CENT;
            |t.stocks| == |stocks| && t.stocks[i].symbol == stocks[i].symbol
            && t.stocks[i].price >= exact >= stocks[i].price
            && (stocks[i].price >= CENT ==> t.stocks[i].price == exact)
  {
    var m, symbol := Open(stocks), stocks[i].symbol;
    RunKeeps(stocks, orders, symbol);
    OutstandingNotNegative(stocks, orders, symbol);
    if orders != [] {
      var before := orders[..|orders| - 1];
      PriceCountsShares(stocks, before, i);
      RunKeeps(stocks, before, symbol);
      SameFind(stocks, Run(m, before).stocks, symbol, 0);
      StepPrice(Run(m, before), orders[|orders| - 1], i);
    }
  }

  lemma StepSkipsDuplicate(m: Market, o: Order, i: nat)
    requires i < |m.stocks| && FindStock(m.stocks, m.stocks[i].symbol, 0) < i
    ensures i < |Step(m, o).0.stocks| && Step(m, o).0.stocks[i] == m.stocks[i]
  {
  }

  /** A later listing of a symbol already listed is never traded. */
  lemma {:induction false} DuplicateNeverMoves(stocks: seq<Stock>, orders: seq<Order>, i: nat)
    requires |stocks| <= MAX_STOCKS && i < |stocks| && FindStock(stocks, stocks[i].symbol, 0) < i
    ensures |Run(Open(stocks), orders).stocks| == |stocks| && Run(Open(stocks), orders).stocks[i] == stocks[i]
  {
    RunKeeps(stocks, orders, "");
    if orders != [] {
      var before := orders[..|orders| - 1];
      DuplicateNeverMoves(stocks, before, i);
      RunKeeps(stocks, before, "");
      SameFind(stocks, Run(Open(stocks), before).stocks, stocks[i].symbol, 0);
      StepSkipsDuplicate(Run(Open(stocks), before), orders[|orders| - 1], i);
    }
  }
}
