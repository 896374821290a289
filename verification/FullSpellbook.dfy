/**
 * A run of the Hogwarts server that fills a spellbook and loses the next brew:
 * one wizard, more ingredients than a spellbook has entries, one brew of each.
 */
module FullSpellbook {
  import opened Book
  import opened Options
  import opened Cauldron

  // ---------- The command lines ----------

  function BrewLine(name: string): string {
    Spaced(["BREW", name, "1"])
  }

  function ConsumeLine(name: string): string {
    Spaced(["CONSUME", name, "1"])
  }

  const ENROLL_LINE := Spaced(["ENROLL", "WIZARD", "HARRY"])

  lemma LineReads(words: seq<string>)
    requires forall i | 0 <= i < |words| :: IsWord(words[i])
    ensures Words(Spaced(words)) == words
  {
    SpacedStartsWithWord(words);
    WordsReadBack(words, Spaced(words));
  }

  lemma OneIsQuantity()
    ensures ParseQuantity("1") == Some(1)
  {
    assert Decimal(1) == "1";
    QuantityReadsBack(1);
  }

  lemma ValidNameIsWord(name: string)
    requires ValidName(name)
    ensures IsWord(name)
  {
    assert forall i | 0 <= i < |name| :: NameChar(name[i]);
  }

  // ---------- The ingredients ----------

  /** A file of n ingredients, named by number, one of each. */
  function Rows(n: nat): seq<Entry> {
    seq(n, i requires 0 <= i => Entry(Decimal(i), 1))
  }

  lemma {:induction false} DecimalIsShort(n: nat)
    requires n < 100
    ensures ValidName(Decimal(n))
  {
    if n >= 10 {
      assert |Decimal(n / 10)| == 1;
    }
  }

  /** All of up to a hundred such rows are loaded. */
  lemma {:induction false} RowsLoad(n: nat)
    requires n <= 100
    ensures Loaded(Rows(n)) == Rows(n) && Tidy(Rows(n))
  {
    if n > 0 {
      var row := Entry(Decimal(n - 1), 1);
      RowsLoad(n - 1);
      assert Rows(n)[..n - 1] == Rows(n - 1);
      DecimalIsShort(n - 1);
      if Has(Rows(n - 1), row.name) {
        var i := Find(Rows(n - 1), row.name);
        DecimalHasValue(i);
        DecimalHasValue(n - 1);
        assert false;
      }
      assert Rows(n) == Rows(n - 1) + [row];
      LoadedIsTidy(Rows(n));
    }
  }

  // ---------- The run ----------

  /** The wizard connects and enrolls. */
  const ENTRANCE := [Connect, Command(0, ENROLL_LINE)]

  /** After some first events the wizard brews one each of the first n ingredients. */
  function Then(first: seq<Event>, stock: seq<Entry>, n: nat): seq<Event>
    requires n <= |stock|
  {
    first + seq(n, i requires 0 <= i < n => Command(0, BrewLine(stock[i].name)))
  }

  function Brewing(stock: seq<Entry>, n: nat): seq<Event>
    requires n <= |stock|
  {
    Then(ENTRANCE, stock, n)
  }

  function Brewed(stock: seq<Entry>, n: nat): seq<Entry>
    requires n <= |stock|
  {
    seq(n, i requires 0 <= i < n => Entry(stock[i].name, 1))
  }

  ghost predicate HoldsFirst(s: Server, stock: seq<Entry>, n: nat) {
    && n <= |stock| == |s.stock|
    && (forall i | 0 <= i < |stock| :: s.stock[i].name == stock[i].name)
    && s.clients == [Client(true, true, "HARRY", "WIZARD", Brewed(stock, n))]
  }

  const WIZARD := Client(true, true, "HARRY", "WIZARD", [])

  lemma EnrollAlone(stock: seq<Entry>, args: seq<string>)
    requires |args| == 2 && args[0] == "WIZARD" && 0 < |args[1]| < MAX_USERNAME_LEN
    ensures Enroll(Server(stock, [NEWCOMER]), 0, args).0 == Server(stock, [WIZARD.(user := args[1])])
  {
    var s := Server(stock, [NEWCOMER]);
    assert !NameTaken(s.clients, args[1], 0);
    assert Enroll(s, 0, args).0.clients == [WIZARD.(user := args[1])];
  }

  lemma CommandHandled(s: Server, words: seq<string>, verb: Verb)
    requires |s.clients| == 1 && s.clients[0].connected
    requires words != [] && (forall i | 0 <= i < |words| :: IsWord(words[i])) && VerbOf(words[0]) == verb
    ensures Step(s, Command(0, Spaced(words))) == Handle(s, 0, verb, words[1..])
  {
    LineReads(words);
    LineHandled(s, Spaced(words), words);
  }

  lemma LineHandled(s: Server, line: string, words: seq<string>)
    requires |s.clients| == 1 && s.clients[0].connected && words != [] && Words(line) == words
    ensures Step(s, Command(0, line)) == Handle(s, 0, VerbOf(words[0]), words[1..])
  {
  }

  lemma EnrollHandled(stock: seq<Entry>)
    ensures Step(Server(stock, [NEWCOMER]), Command(0, ENROLL_LINE)).0 == Server(stock, [WIZARD])
  {
    var words := ["ENROLL", "WIZARD", "HARRY"];
    CommandHandled(Server(stock, [NEWCOMER]), words, EnrollAs);
    EnrollAlone(stock, words[1..]);
  }

  lemma EnrollStarts(stock: seq<Entry>)
    ensures Run(Start(stock, 1), ENTRANCE) == Server(stock, [WIZARD])
  {
    var s0, events := Start(stock, 1), ENTRANCE;
    assert s0.clients == [VACANT];
    assert events[..1] == [Connect] && [Connect][..0] == [];
    var s1 := Step(s0, Connect).0;
    assert s1 == Server(stock, [NEWCOMER]);
    assert Run(s0, [Connect]) == Step(Run(s0, []), Connect).0;
    EnrollHandled(stock);
  }

  lemma BrewHandled(s: Server, name: string)
    requires |s.clients| == 1 && s.clients[0].connected && s.clients[0].enrolled && s.clients[0].role == "WIZARD"
    requires ValidName(name) && Has(s.stock, name)
    ensures var book := s.clients[0].book;
      Step(s, Command(0, BrewLine(name))).0
        == Server(Adjust(s.stock, Find(s.stock, name), 1),
                  [s.clients[0].(book := Put(book, MAX_SPELLBOOK_ENTRIES, name, 1))])
  {
    var words := ["BREW", name, "1"];
    ValidNameIsWord(name);
    LineReads(words);
    OneIsQuantity();
    assert words[1..] == [name, "1"];
    assert Arguments(words[1..]) == Some((name, 1));
    var t := Step(s, Command(0, BrewLine(name)));
    assert t == Trade(s, 0, Brew(s.stock, s.clients[0].book, words[1..]));
  }

  lemma ConsumeRefused(s: Server, name: string)
    requires |s.clients| == 1 && s.clients[0].connected && s.clients[0].enrolled && s.clients[0].role == "WIZARD"
    requires ValidName(name) && Has(s.stock, name) && Held(s.clients[0].book, name) == 0
    ensures Step(s, Command(0, ConsumeLine(name))) == (s, Refused("INSUFFICIENT_INGREDIENTS"))
  {
    var words := ["CONSUME", name, "1"];
    ValidNameIsWord(name);
    LineReads(words);
    OneIsQuantity();
    assert words[1..] == [name, "1"];
    assert Arguments(words[1..]) == Some((name, 1));
    var t := Step(s, Command(0, ConsumeLine(name)));
    assert t == Trade(s, 0, Consume(s.stock, s.clients[0].book, words[1..]));
    assert s.clients[0 := s.clients[0].(book := s.clients[0].book)] == s.clients;
  }

  lemma NameIsNew(stock: seq<Entry>, n: nat)
    requires Tidy(stock) && n < |stock|
    ensures !Has(Brewed(stock, n), stock[n].name)
  {
    var i := Find(Brewed(stock, n), stock[n].name);
  }

  lemma NextBrew(s: Server, stock: seq<Entry>, n: nat)
    requires Tidy(stock) && n < |stock| && n < MAX_SPELLBOOK_ENTRIES && ValidName(stock[n].name)
    requires HoldsFirst(s, stock, n)
    ensures HoldsFirst(Step(s, Command(0, BrewLine(stock[n].name))).0, stock, n + 1)
  {
    assert s.stock[n].name == stock[n].name;
    BrewHandled(s, stock[n].name);
    NameIsNew(stock, n);
    assert Brewed(stock, n + 1) == Brewed(stock, n) + [Entry(stock[n].name, 1)];
  }

  lemma RunExtends(s: Server, events: seq<Event>, e: Event)
    ensures Run(s, events + [e]) == Step(Run(s, events), e).0
  {
    assert (events + [e])[..|events|] == events;
  }

  lemma EnrolledHoldsNothing(stock: seq<Entry>)
    ensures Filled(Start(stock, 1), ENTRANCE, stock, 0)
  {
    EnrollStarts(stock);
    assert Then(ENTRANCE, stock, 0) == ENTRANCE;
    assert Brewed(stock, 0) == [];
  }

  lemma OneMoreBrew(s: Server, events: seq<Event>, stock: seq<Entry>, n: nat)
    requires Tidy(stock) && n < |stock| && n < MAX_SPELLBOOK_ENTRIES && ValidName(stock[n].name)
    requires HoldsFirst(Run(s, events), stock, n)
    ensures HoldsFirst(Run(s, events + [Command(0, BrewLine(stock[n].name))]), stock, n + 1)
  {
    NextBrew(Run(s, events), stock, n);
    RunExtends(s, events, Command(0, BrewLine(stock[n].name)));
  }

  lemma ThenOn(first: seq<Event>, stock: seq<Entry>, n: nat)
    requires n < |stock|
    ensures Then(first, stock, n + 1) == Then(first, stock, n) + [Command(0, BrewLine(stock[n].name))]
  {
    assert |Then(first, stock, n + 1)| == |first| + n + 1;
  }

  ghost predicate Plain(stock: seq<Entry>) {
    Tidy(stock) && forall i | 0 <= i < |stock| :: ValidName(stock[i].name)
  }

  ghost predicate Filled(s: Server, first: seq<Event>, stock: seq<Entry>, n: nat) {
    n <= |stock| && HoldsFirst(Run(s, Then(first, stock, n)), stock, n)
  }

  lemma FilledOn(s: Server, first: seq<Event>, stock: seq<Entry>, n: nat, next: nat)
    requires Plain(stock) && n < |stock| && n < MAX_SPELLBOOK_ENTRIES && Filled(s, first, stock, n) && next == n + 1
    ensures Filled(s, first, stock, next)
  {
    ThenOn(first, stock, n);
    OneMoreBrew(s, Then(first, stock, n), stock, n);
  }

  lemma {:induction false} CountsUp(p: nat -> bool, n: nat)
    requires p(0) && forall k: nat | k < n && p(k) :: p(k + 1)
    ensures p(n)
  {
    if n > 0 {
      CountsUp(p, n - 1);
    }
  }

  lemma BrewsFill(s: Server, first: seq<Event>, stock: seq<Entry>, n: nat)
    requires Plain(stock) && n <= |stock| && n <= MAX_SPELLBOOK_ENTRIES && Filled(s, first, stock, 0)
    ensures Filled(s, first, stock, n)
  {
    var p := (k: nat) => k <= n ==> Filled(s, first, stock, k);
    forall k: nat | k < n && p(k) ensures p(k + 1) {
      FilledOn(s, first, stock, k, k + 1);
    }
    CountsUp(p, n);
  }

  lemma SpellbookFills(stock: seq<Entry>, n: nat)
    requires Tidy(stock) && n <= |stock| && n <= MAX_SPELLBOOK_ENTRIES
    requires forall i | 0 <= i < |stock| :: ValidName(stock[i].name)
    ensures HoldsFirst(Run(Start(stock, 1), Brewing(stock, n)), stock, n)
  {
    EnrolledHoldsNothing(stock);
    BrewsFill(Start(stock, 1), ENTRANCE, stock, n);
  }

  /** With more than 64 ingredients, a wizard who brews 64 of them and then another cannot give the last one back. */
  lemma NextBrewIsLost(stock: seq<Entry>)
    requires Tidy(stock) && |stock| > MAX_SPELLBOOK_ENTRIES
    requires forall i | 0 <= i < |stock| :: ValidName(stock[i].name)
    ensures var name := stock[MAX_SPELLBOOK_ENTRIES].name;
      var full := Run(Start(stock, 1), Brewing(stock, MAX_SPELLBOOK_ENTRIES));
      var after := Step(full, Command(0, BrewLine(name))).0;
      && after.clients == full.clients && after.stock != full.stock
      && Step(after, Command(0, ConsumeLine(name))) == (after, Refused("INSUFFICIENT_INGREDIENTS"))
  {
    var n := MAX_SPELLBOOK_ENTRIES;
    var name := stock[n].name;
    var full := Run(Start(stock, 1), Brewing(stock, n));
    SpellbookFills(stock, n);
    assert full.stock[n].name == name;
    BrewHandled(full, name);
    NameIsNew(stock, n);
    var after := Step(full, Command(0, BrewLine(name))).0;
    var i := Find(full.stock, name);
    assert after.stock[i].qty == full.stock[i].qty + 1;
    assert after.stock[i].name == name;
    ConsumeRefused(after, name);
  }

  /** Such a stock can be loaded: a file of 65 ingredients. */
  lemma SixtyFifthBrewIsLost()
    ensures var stock := Rows(65);
      var name := stock[64].name;
      var full := Run(Start(stock, 1), Brewing(stock, 64));
      var after := Step(full, Command(0, BrewLine(name))).0;
      && Loaded(Rows(65)) == stock
      && after.clients == full.clients && after.stock != full.stock
      && Step(after, Command(0, ConsumeLine(name))) == (after, Refused("INSUFFICIENT_INGREDIENTS"))
  {
    RowsLoad(65);
    LoadedIsTidy(Rows(65));
    NextBrewIsLost(Rows(65));
  }
}
