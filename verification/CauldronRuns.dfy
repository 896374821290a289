/**
 * Whole runs of the Hogwarts server: no quantity appears or disappears unaccounted for.
 */
module CauldronRuns {
  import opened Book
  import Slots
  import opened Cauldron

  function Books(clients: seq<Client>): seq<seq<Entry>> {
    seq(|clients|, i requires 0 <= i < |clients| => clients[i].book)
  }

  ghost predicate SameNames(a: seq<Entry>, b: seq<Entry>) {
    |a| == |b| && forall i | 0 <= i < |a| :: a[i].name == b[i].name
  }

  ghost predicate ClientOk(stock: seq<Entry>, c: Client) {
    && (!c.connected ==> c == VACANT)
    && Tidy(c.book) && |c.book| <= MAX_SPELLBOOK_ENTRIES
    && (forall i | 0 <= i < |c.book| :: Has(stock, c.book[i].name))
    && (c.book != [] ==> c.enrolled && c.role == "WIZARD")
  }

  ghost predicate NamesDiffer(clients: seq<Client>) {
    forall i, j | 0 <= i < j < |clients| && clients[i].enrolled && clients[j].enrolled ::
      clients[i].user != clients[j].user
  }

  ghost predicate Inv(s: Server) {
    && Distinct(s.stock)
    && (forall k | 0 <= k < |s.clients| :: ClientOk(s.stock, s.clients[k]))
    && NamesDiffer(s.clients)
  }

  /** What a command with this reply leaves behind of a spellbook's owner. */
  function Spilled(book: seq<Entry>, r: Reply, name: string): int {
    match r
    case Farewell => Held(book, name)
    case Brewed(ing, n, _) =>
      if ing == name && !Has(book, name) && |book| == MAX_SPELLBOOK_ENTRIES then n else 0
    case _ => 0
  }

  /** What an event takes out of every spellbook without taking it out of the stock. */
  function LeftBehind(s: Server, e: Event, name: string): int {
    match e
    case Connect => 0
    case Departure(k) => if k < |s.clients| then Held(s.clients[k].book, name) else 0
    case Command(k, line) =>
      if k < |s.clients| && s.clients[k].connected then Spilled(s.clients[k].book, Step(s, e).1, name) else 0
  }

  /** Everything left behind over a run. */
  function AllLeft(s: Server, events: seq<Event>, name: string): int {
    if events == [] then 0
    else
      var before := events[..|events| - 1];
      AllLeft(s, before, name) + LeftBehind(Run(s, before), events[|events| - 1], name)
  }

  // ---------- One client's change ----------

  lemma BooksUpdate(clients: seq<Client>, k: nat, c: Client, name: string)
    requires k < |clients|
    ensures Total(Books(clients[k := c]), name)
         == Total(Books(clients), name) - Held(clients[k].book, name) + Held(c.book, name)
  {
    assert Books(clients[k := c]) == Books(clients)[k := c.book];
    TotalUpdate(Books(clients), k, c.book, name);
  }

  /** Replacing one client keeps the invariant if it is in order and brings no new name. */
  lemma ClientUpdate(s: Server, k: nat, c: Client)
    requires Inv(s) && k < |s.clients| && ClientOk(s.stock, c)
    requires c.enrolled ==> s.clients[k].enrolled && c.user == s.clients[k].user
    ensures Inv(s.(clients := s.clients[k := c]))
  {
  }

  lemma RestockKeeps(s: Server, stock: seq<Entry>)
    requires Inv(s) && SameNames(s.stock, stock)
    ensures Inv(Server(stock, s.clients))
  {
    forall k | 0 <= k < |s.clients| ensures ClientOk(stock, s.clients[k]) {
      assert ClientOk(s.stock, s.clients[k]);
      forall i | 0 <= i < |s.clients[k].book| ensures Has(stock, s.clients[k].book[i].name) {
        StillThere(s.stock, stock, s.clients[k].book[i].name);
      }
    }
  }

  lemma StillThere(a: seq<Entry>, b: seq<Entry>, name: string)
    requires SameNames(a, b) && Has(a, name)
    ensures Has(b, name)
  {
    assert b[Find(a, name)].name == name;
  }

  // ---------- Brew and consume ----------

  /** A stock and a wizard's book, before and after, with what is lost to both. */
  ghost predicate Exchange(stock: seq<Entry>, book: seq<Entry>, after: (seq<Entry>, seq<Entry>, Reply),
                           name: string, lost: int) {
    && SameNames(stock, after.0)
    && Tidy(after.1) && |after.1| <= MAX_SPELLBOOK_ENTRIES
    && (forall i | 0 <= i < |after.1| :: Has(stock, after.1[i].name))
    && Held(after.0, name) - Held(after.1, name) == Held(stock, name) - Held(book, name) + lost
  }

  lemma AdjustHeld(stock: seq<Entry>, i: nat, delta: int, name: string)
    requires Distinct(stock) && i < |stock|
    ensures SameNames(stock, Adjust(stock, i, delta))
    ensures Held(Adjust(stock, i, delta), name) == Held(stock, name) + if name == stock[i].name then delta else 0
  {
    RaiseHeld(stock, i, stock[i].qty + delta, name);
    HeldAt(stock, i);
  }

  lemma BrewExchanges(stock: seq<Entry>, c: Client, args: seq<string>, name: string)
    requires Distinct(stock) && ClientOk(stock, c)
    ensures var (s1, b1, r) := Brew(stock, c.book, args);
            Exchange(stock, c.book, (s1, b1, r), name, Spilled(c.book, r, name))
  {
    var a := Arguments(args);
    if a.Some? && Has(stock, a.value.0) {
      var (ing, n) := a.value;
      AdjustHeld(stock, Find(stock, ing), n, name);
      PutHeld(c.book, MAX_SPELLBOOK_ENTRIES, ing, n, name);
    }
  }

  lemma ConsumeExchanges(stock: seq<Entry>, c: Client, args: seq<string>, name: string)
    requires Distinct(stock) && ClientOk(stock, c)
    ensures Exchange(stock, c.book, Consume(stock, c.book, args), name, 0)
  {
    var a := Arguments(args);
    if a.Some? && Has(stock, a.value.0) && Held(c.book, a.value.0) >= a.value.1 {
      var (ing, n) := a.value;
      AdjustHeld(stock, Find(stock, ing), -n, name);
      TakeHeld(c.book, ing, n, name);
      TakeKeepsNames(stock, c.book, ing, n);
    }
  }

  lemma TakeKeepsNames(stock: seq<Entry>, book: seq<Entry>, name: string, qty: int)
    requires forall i | 0 <= i < |book| :: Has(stock, book[i].name)
    ensures forall i | 0 <= i < |Take(book, name, qty)| :: Has(stock, Take(book, name, qty)[i].name)
  {
  }

  // ---------- Steps ----------

  ghost predicate Kept(s: Server, t: Server, name: string, left: int) {
    && Inv(t)
    && SameNames(s.stock, t.stock)
    && |t.clients| == |s.clients|
    && Held(t.stock, name) - Total(Books(t.clients), name)
       == Held(s.stock, name) - Total(Books(s.clients), name) + left
  }

  lemma TradeKeeps(s: Server, k: nat, after: (seq<Entry>, seq<Entry>, Reply), name: string, left: int)
    requires Inv(s) && k < |s.clients| && s.clients[k].connected
    requires s.clients[k].enrolled && s.clients[k].role == "WIZARD"
    requires Exchange(s.stock, s.clients[k].book, after, name, left)
    ensures Kept(s, Trade(s, k, after).0, name, left)
  {
    var c := s.clients[k].(book := after.1);
    ClientUpdate(s, k, c);
    RestockKeeps(s.(clients := s.clients[k := c]), after.0);
    BooksUpdate(s.clients, k, c, name);
  }

  lemma EnrollKeeps(s: Server, k: nat, args: seq<string>, name: string)
    requires Inv(s) && k < |s.clients| && s.clients[k].connected
    ensures Kept(s, Enroll(s, k, args).0, name, 0)
  {
    var t := Enroll(s, k, args).0;
    if t != s {
      BooksUpdate(s.clients, k, t.clients[k], name);
      assert ClientOk(s.stock, s.clients[k]);
      forall i, j | 0 <= i < j < |t.clients| && t.clients[i].enrolled && t.clients[j].enrolled
        ensures t.clients[i].user != t.clients[j].user
      {
        assert ClientOk(s.stock, s.clients[i]) && ClientOk(s.stock, s.clients[j]);
      }
    }
  }

  lemma LeaveKeeps(s: Server, k: nat, name: string)
    requires Inv(s) && k < |s.clients|
    ensures Kept(s, s.(clients := s.clients[k := VACANT]), name, Held(s.clients[k].book, name))
  {
    ClientUpdate(s, k, VACANT);
    BooksUpdate(s.clients, k, VACANT, name);
  }

  lemma ConnectKeeps(s: Server, name: string)
    requires Inv(s)
    ensures Kept(s, Step(s, Connect).0, name, 0)
  {
    var k := Slots.FreeSlot(Connected(s.clients));
    if k < |s.clients| {
      assert ClientOk(s.stock, s.clients[k]);
      ClientUpdate(s, k, NEWCOMER);
      BooksUpdate(s.clients, k, NEWCOMER, name);
    }
  }

  lemma BrewKeeps(s: Server, k: nat, args: seq<string>, name: string)
    requires Inv(s) && k < |s.clients| && s.clients[k].connected
    requires s.clients[k].enrolled && s.clients[k].role == "WIZARD"
    ensures var after := Brew(s.stock, s.clients[k].book, args);
      Kept(s, Trade(s, k, after).0, name, Spilled(s.clients[k].book, after.2, name))
  {
    var c := s.clients[k];
    assert ClientOk(s.stock, c);
    BrewExchanges(s.stock, c, args, name);
    var after := Brew(s.stock, c.book, args);
    TradeKeeps(s, k, after, name, Spilled(c.book, after.2, name));
  }

  lemma ConsumeKeeps(s: Server, k: nat, args: seq<string>, name: string)
    requires Inv(s) && k < |s.clients| && s.clients[k].connected
    requires s.clients[k].enrolled && s.clients[k].role == "WIZARD"
    ensures var after := Consume(s.stock, s.clients[k].book, args);
      Kept(s, Trade(s, k, after).0, name, 0) && Spilled(s.clients[k].book, after.2, name) == 0
  {
    var c := s.clients[k];
    assert ClientOk(s.stock, c);
    ConsumeExchanges(s.stock, c, args, name);
    TradeKeeps(s, k, Consume(s.stock, c.book, args), name, 0);
  }

  lemma HandleKeeps(s: Server, k: nat, verb: Verb, args: seq<string>, name: string)
    requires Inv(s) && k < |s.clients| && s.clients[k].connected
    ensures Kept(s, Handle(s, k, verb, args).0, name, Spilled(s.clients[k].book, Handle(s, k, verb, args).1, name))
  {
    var c := s.clients[k];
    match verb
    case Apparate => LeaveKeeps(s, k, name);
    case EnrollAs => EnrollKeeps(s, k, args, name);
    case BrewSome => if c.enrolled && c.role == "WIZARD" { BrewKeeps(s, k, args, name); }
    case ConsumeSome => if c.enrolled && c.role == "WIZARD" { ConsumeKeeps(s, k, args, name); }
    case _ =>
  }

  /** Every event keeps the invariant and accounts for each quantity. */
  lemma StepKeeps(s: Server, e: Event, name: string)
    requires Inv(s)
    ensures Kept(s, Step(s, e).0, name, LeftBehind(s, e, name))
    ensures LeftBehind(s, e, name) >= 0
  {
    match e
    case Connect => ConnectKeeps(s, name);
    case Departure(k) =>
      if k < |s.clients| {
        assert ClientOk(s.stock, s.clients[k]);
        HeldIffPresent(s.clients[k].book, name);
        LeaveKeeps(s, k, name);
      }
    case Command(k, line) =>
      if k < |s.clients| && s.clients[k].connected {
        var words := Words(line);
        if words != [] {
          HandleKeeps(s, k, VerbOf(words[0]), words[1..], name);
        }
        assert ClientOk(s.stock, s.clients[k]);
        HeldIffPresent(s.clients[k].book, name);
        BrewedIsPositive(s, k, line);
      }
  }

  lemma BrewedIsPositive(s: Server, k: nat, line: string)
    requires k < |s.clients|
    ensures Step(s, Command(k, line)).1.Brewed? ==> Step(s, Command(k, line)).1.qty > 0
  {
  }

  // ---------- Runs ----------

  lemma {:induction false} RunKeeps(s: Server, events: seq<Event>, name: string)
    requires Inv(s)
    ensures Kept(s, Run(s, events), name, AllLeft(s, events, name)) && AllLeft(s, events, name) >= 0
  {
    if events != [] {
      var before := events[..|events| - 1];
      RunKeeps(s, before, name);
      StepKeeps(Run(s, before), events[|events| - 1], name);
    }
  }

  lemma StartIsOk(stock: seq<Entry>, slots: nat, name: string)
    requires Tidy(stock)
    ensures Inv(Start(stock, slots)) && Total(Books(Start(stock, slots).clients), name) == 0
  {
    TotalOfEmpty(Books(Start(stock, slots).clients), name);
  }

  /**
   * In every run each stock is its initial quantity, plus what connected wizards hold,
   * plus what was left behind; so it never falls below its initial quantity.
   */
  lemma StockIsConserved(stock: seq<Entry>, slots: nat, events: seq<Event>, i: nat)
    requires Tidy(stock) && i < |stock|
    ensures var t := Run(Start(stock, slots), events);
            |t.stock| == |stock| && t.stock[i].name == stock[i].name
            && t.stock[i].qty == stock[i].qty + Total(Books(t.clients), stock[i].name)
                                 + AllLeft(Start(stock, slots), events, stock[i].name)
            && t.stock[i].qty >= stock[i].qty
  {
    var s, name := Start(stock, slots), stock[i].name;
    var t := Run(s, events);
    StartIsOk(stock, slots, name);
    RunKeeps(s, events, name);
    HeldAt(stock, i);
    HeldAt(t.stock, i);
    forall b | b in Books(t.clients) ensures Tidy(b) {
      var k :| 0 <= k < |t.clients| && t.clients[k].book == b;
      assert ClientOk(t.stock, t.clients[k]);
    }
    TotalNotNegative(Books(t.clients), name);
  }

  /**
   * In every run spellbooks have distinct names in positive quantity, belong to enrolled wizards,
   * and user names differ.
   */
  lemma SpellbooksStayTidy(stock: seq<Entry>, slots: nat, events: seq<Event>, k: nat)
    requires Tidy(stock) && k < slots
    ensures var t := Run(Start(stock, slots), events);
            |t.clients| == slots && NamesDiffer(t.clients)
            && Tidy(t.clients[k].book) && |t.clients[k].book| <= MAX_SPELLBOOK_ENTRIES
            && (t.clients[k].book != [] ==>
                  t.clients[k].connected && t.clients[k].enrolled && t.clients[k].role == "WIZARD")
  {
    var t := Run(Start(stock, slots), events);
    StartIsOk(stock, slots, "");
    RunKeeps(Start(stock, slots), events, "");
    assert ClientOk(t.stock, t.clients[k]);
  }

  /** With no more ingredients than a spellbook has entries, a brew always finds room. */
  lemma BrewFindsRoom(s: Server, k: nat, name: string)
    requires Inv(s) && k < |s.clients| && |s.stock| <= MAX_SPELLBOOK_ENTRIES && Has(s.stock, name)
    ensures Has(s.clients[k].book, name) || |s.clients[k].book| < MAX_SPELLBOOK_ENTRIES
  {
    var book := s.clients[k].book;
    assert ClientOk(s.stock, s.clients[k]);
    if !Has(book, name) {
      forall n | Has(book, n) ensures Has(s.stock, n) {
        assert book[Find(book, n)].name == n;
      }
      RoomForAnother(book, s.stock, name);
    }
  }

  /** A brew is of a known ingredient. */
  lemma BrewedIsKnown(s: Server, k: nat, line: string)
    requires k < |s.clients| && Step(s, Command(k, line)).1.Brewed?
    ensures Has(s.stock, Step(s, Command(k, line)).1.ingredient)
  {
  }

  lemma SmallStockSpillsNothing(s: Server, k: nat, line: string, name: string)
    requires Inv(s) && |s.stock| <= MAX_SPELLBOOK_ENTRIES && k < |s.clients|
    requires Step(s, Command(k, line)).1.Brewed?
    ensures LeftBehind(s, Command(k, line), name) == 0
  {
    BrewedIsKnown(s, k, line);
    BrewFindsRoom(s, k, Step(s, Command(k, line)).1.ingredient);
  }

  /** With no more ingredients than a spellbook has entries, no brew of any run is left behind. */
  lemma SmallStockLosesNothing(stock: seq<Entry>, slots: nat, events: seq<Event>, k: nat, line: string, name: string)
    requires Tidy(stock) && |stock| <= MAX_SPELLBOOK_ENTRIES && k < slots
    requires Step(Run(Start(stock, slots), events), Command(k, line)).1.Brewed?
    ensures LeftBehind(Run(Start(stock, slots), events), Command(k, line), name) == 0
  {
    var s := Start(stock, slots);
    StartIsOk(stock, slots, name);
    RunKeeps(s, events, name);
    SmallStockSpillsNothing(Run(s, events), k, line, name);
  }
}
