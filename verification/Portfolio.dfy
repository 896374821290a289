/**
 * The stock exchange server: listed prices, which every trade moves by a cent a
 * share, and the traders' portfolios.
 */
module Portfolio {
  import opened Book
  import Slots

  const MAX_STOCKS := 128
  const MAX_CLIENTS := 10
  const CENT := 0.01

  datatype Stock = Stock(symbol: string, price: real)

  /** A slot of the client table.  A disconnected slot keeps its old portfolio until it is reused. */
  datatype Client = Client(connected: bool, joined: bool, user: string, role: string, book: seq<Entry>)

  datatype Market = Market(stocks: seq<Stock>, clients: seq<Client>)

  datatype Order =
    | Accept
    | Join(slot: nat, role: string, user: string)
    | Buy(slot: nat, symbol: string, qty: int)
    | Sell(slot: nat, symbol: string, qty: int)
    | Leave(slot: nat)

  datatype Reply =
    | Silent
    | Joined
    | Bought(symbol: string, qty: int, price: real)
    | Sold(symbol: string, qty: int, price: real)
    | Refused(error: string)

  // ---------- Prices ----------

  /** The listing as a table of symbols. */
  function Symbols(stocks: seq<Stock>): seq<Entry> {
    seq(|stocks|, i requires 0 <= i < |stocks| => Entry(stocks[i].symbol, 1))
  }

  /** The first listing of a symbol at or after i, or the length. */
  function FindStock(stocks: seq<Stock>, symbol: string, i: nat): (r: nat)
    requires i <= |stocks|
    ensures i <= r <= |stocks| && (r < |stocks| ==> stocks[r].symbol == symbol)
    ensures forall j | i <= j < r :: stocks[j].symbol != symbol
  {
    var r := FindFrom(Symbols(stocks), symbol, i);
    assert forall j | i <= j < r :: stocks[j].symbol == Symbols(stocks)[j].name;
    r
  }

  function Raised(price: real, qty: int): real {
    price + qty as real * CENT
  }

  function Lowered(price: real, qty: int): real {
    var p := price - qty as real * CENT;
    if p < CENT then CENT else p
  }

  function Reprice(stocks: seq<Stock>, i: nat, price: real): seq<Stock>
    requires i < |stocks|
  {
    stocks[i := Stock(stocks[i].symbol, price)]
  }

  // ---------- Trades ----------

  /** A purchase by a trader with this portfolio. */
  function BuyOrder(stocks: seq<Stock>, book: seq<Entry>, symbol: string, qty: int): (seq<Stock>, seq<Entry>, Reply) {
    var i := FindStock(stocks, symbol, 0);
    if qty <= 0 || i == |stocks| then (stocks, book, Refused("UNKNOWN_SYMBOL"))
    else
      var price := Raised(stocks[i].price, qty);
      (Reprice(stocks, i, price), Put(book, MAX_STOCKS, symbol, qty), Bought(symbol, qty, price))
  }

  function SellOrder(stocks: seq<Stock>, book: seq<Entry>, symbol: string, qty: int): (seq<Stock>, seq<Entry>, Reply) {
    var i := FindStock(stocks, symbol, 0);
    if qty <= 0 || i == |stocks| then (stocks, book, Refused("UNKNOWN_SYMBOL"))
    else if Held(book, symbol) < qty then (stocks, book, Refused("INSUFFICIENT_SHARES"))
    else
      var price := Lowered(stocks[i].price, qty);
      (Reprice(stocks, i, price), Take(book, symbol, qty), Sold(symbol, qty, price))
  }

  class Exchange {
    const stocks: array<Stock>
    var count: nat

    ghost predicate Valid()
      reads this
    {
      count <= stocks.Length
    }

    ghost function Listed(): seq<Stock>
      requires Valid()
      reads this, stocks
    {
      stocks[..count]
    }

    constructor ()
      ensures Valid() && fresh(stocks) && stocks.Length == MAX_STOCKS && Listed() == []
    {
      stocks := new Stock[MAX_STOCKS](_ => Stock("", 0.0));
      count := 0;
    }

    method Find(symbol: string) returns (i: nat)
      requires Valid()
      ensures i == FindStock(Listed(), symbol, 0)
    {
      i := 0;
      while i < count && stocks[i].symbol != symbol
        invariant i <= count && FindStock(Listed(), symbol, 0) == FindStock(Listed(), symbol, i)
      {
        i := i + 1;
      }
    }

    method ProcessBuy(trader: Table, symbol: string, qty: int) returns (reply: Reply)
      requires Valid() && trader.Valid() && trader.entries.Length == MAX_STOCKS
      modifies stocks, trader`count, trader.entries
      ensures Valid() && trader.Valid()
      ensures (Listed(), trader.Contents(), reply) == BuyOrder(old(Listed()), old(trader.Contents()), symbol, qty)
    {
      if qty <= 0 {
        return Refused("UNKNOWN_SYMBOL");
      }
      var s := Find(symbol);
      if s == count {
        return Refused("UNKNOWN_SYMBOL");
      }
      var price := stocks[s].price + qty as real * CENT;
      stocks[s] := Stock(stocks[s].symbol, price);
      var found, i: nat := false, 0;
      ghost var book := trader.Contents();
      while i < trader.count && !found
        invariant i <= trader.count == old(trader.count)
        invariant !found ==> trader.Contents() == book && FindFrom(book, symbol, 0) == FindFrom(book, symbol, i)
        invariant found ==> trader.Contents() == Put(book, MAX_STOCKS, symbol, qty) && Has(book, symbol)
        invariant Listed() == Reprice(old(Listed()), s, price)
      {
        if trader.entries[i].name == symbol {
          trader.entries[i] := Entry(trader.entries[i].name, trader.entries[i].qty + qty);
          found := true;
        }
        i := i + 1;
      }
      if !found && trader.count < MAX_STOCKS {
        trader.entries[trader.count] := Entry(symbol, qty);
        trader.count := trader.count + 1;
      }
      assert trader.Contents() == Put(book, MAX_STOCKS, symbol, qty);
      assert Listed() == Reprice(old(Listed()), s, price);
      reply := Bought(symbol, qty, price);
    }

    method ProcessSell(trader: Table, symbol: string, qty: int) returns (reply: Reply)
      requires Valid() && trader.Valid()
      modifies stocks, trader`count, trader.entries
      ensures Valid() && trader.Valid()
      ensures (Listed(), trader.Contents(), reply) == SellOrder(old(Listed()), old(trader.Contents()), symbol, qty)
    {
      if qty <= 0 {
        return Refused("UNKNOWN_SYMBOL");
      }
      var s := Find(symbol);
      if s == count {
        return Refused("UNKNOWN_SYMBOL");
      }
      var i := trader.Lookup(symbol);
      var held := if i < trader.count then trader.entries[i].qty else 0;
      if held < qty {
        return Refused("INSUFFICIENT_SHARES");
      }
      var price := stocks[s].price - qty as real * CENT;
      if price < CENT {
        price := CENT;
      }
      stocks[s] := Stock(stocks[s].symbol, price);
      trader.entries[i] := Entry(trader.entries[i].name, trader.entries[i].qty - qty);
      if trader.entries[i].qty == 0 {
        trader.entries[i] := trader.entries[trader.count - 1];
        trader.count := trader.count - 1;
      }
      assert trader.Contents() == Take(old(trader.Contents()), symbol, qty);
      assert Listed() == Reprice(old(Listed()), s, price);
      reply := Sold(symbol, qty, price);
    }
  }

  // ---------- The server ----------

  const FREE := Client(false, false, "", "", [])

  function Open(stocks: seq<Stock>): Market {
    Market(stocks, seq(MAX_CLIENTS, i => FREE))
  }

  function Connected(clients: seq<Client>): seq<bool> {
    seq(|clients|, j requires 0 <= j < |clients| => clients[j].connected)
  }

  predicate NameTaken(clients: seq<Client>, user: string) {
    exists i :: 0 <= i < |clients| && clients[i].connected && clients[i].joined && clients[i].user == user
  }

  function JoinOrder(m: Market, k: nat, role: string, user: string): (Market, Reply)
    requires k < |m.clients|
  {
    if m.clients[k].joined then (m, Refused("ALREADY_JOINED"))
    else if role != "TRADER" && role != "ANALYST" then (m, Refused("UNKNOWN JOIN"))
    else if NameTaken(m.clients, user) then (m, Refused("JOIN name_taken"))
    else (m.(clients := m.clients[k := m.clients[k].(user := user, role := role, joined := true)]), Joined)
  }

  /** A trade by slot k: refused unless the client has joined as a trader. */
  function Trade(m: Market, k: nat, after: (seq<Stock>, seq<Entry>, Reply)): (Market, Reply)
    requires k < |m.clients|
  {
    if !m.clients[k].joined then (m, Refused("NOT_JOINED"))
    else if m.clients[k].role != "TRADER" then (m, Refused("UNAUTHORIZED"))
    else (Market(after.0, m.clients[k := m.clients[k].(book := after.1)]), after.2)
  }

  function Step(m: Market, o: Order): (Market, Reply) {
    if o.Accept? then
      var k := Slots.FreeSlot(Connected(m.clients));
      if k == |m.clients| then (m, Silent)
      else (m.(clients := m.clients[k := Client(true, false, "", "", [])]), Silent)
    else if o.slot >= |m.clients| || !m.clients[o.slot].connected then (m, Silent)
    else
      var c := m.clients[o.slot];
      match o
      case Join(k, role, user) => JoinOrder(m, k, role, user)
      case Buy(k, symbol, qty) => Trade(m, k, BuyOrder(m.stocks, c.book, symbol, qty))
      case Sell(k, symbol, qty) => Trade(m, k, SellOrder(m.stocks, c.book, symbol, qty))
      case Leave(k) => (m.(clients := m.clients[k := c.(connected := false, joined := false, user := "")]), Silent)
  }

  // ---------- Slots and names ----------

  /** A connection is taken exactly when a slot has none: the first such slot, with an empty portfolio. */
  lemma AcceptsIffVacant(m: Market)
    ensures var t := Step(m, Accept).0;
      if forall i | 0 <= i < |m.clients| :: m.clients[i].connected then t == m
      else exists k ::
             && 0 <= k < |m.clients| && !m.clients[k].connected && (forall i | 0 <= i < k :: m.clients[i].connected)
             && t == m.(clients := m.clients[k := Client(true, false, "", "", [])])
  {
    var k := Slots.FreeSlot(Connected(m.clients));
    if k < |m.clients| {
      assert !Connected(m.clients)[k];
      forall i | 0 <= i < k ensures m.clients[i].connected { assert Connected(m.clients)[i]; }
    } else {
      forall i | 0 <= i < |m.clients| ensures m.clients[i].connected { assert Connected(m.clients)[i]; }
    }
  }

  /** A client that leaves frees its slot and its name, and disturbs nobody; the next connection finds room. */
  lemma LeavingFreesSlot(m: Market, k: nat)
    requires k < |m.clients| && m.clients[k].connected
    ensures var t := Step(m, Leave(k)).0;
      && t.stocks == m.stocks && |t.clients| == |m.clients|
      && !t.clients[k].connected && !t.clients[k].joined
      && (forall i | 0 <= i < |m.clients| && i != k :: t.clients[i] == m.clients[i])
      && Step(t, Accept).0 != t
  {
    var t := Step(m, Leave(k)).0;
    AcceptsIffVacant(t);
    assert !t.clients[k].connected;
  }

  /** A client joins exactly once, with a known role and a name that no joined client has. */
  lemma JoinsIffFree(m: Market, k: nat, role: string, user: string)
    requires k < |m.clients| && m.clients[k].connected
    ensures var (t, reply) := Step(m, Join(k, role, user));
      && (reply.Joined? <==>
            && !m.clients[k].joined && (role == "TRADER" || role == "ANALYST")
            && forall i | 0 <= i < |m.clients| && m.clients[i].connected && m.clients[i].joined ::
                 m.clients[i].user != user)
      && t == if reply.Joined? then
                m.(clients := m.clients[k := Client(true, true, user, role, m.clients[k].book)])
              else m
  {
  }

  function Run(m: Market, orders: seq<Order>): Market {
    if orders == [] then m else Step(Run(m, orders[..|orders| - 1]), orders[|orders| - 1]).0
  }
}
