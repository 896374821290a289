/**
 * The Hogwarts server's shared stock of ingredients, the wizards' spellbooks, and
 * the commands that move quantities between them.
 */
module Cauldron {
  import opened Book
  import opened Options
  import LineFraming
  import Slots

  const MAX_INGREDIENTS := 256
  const MAX_SPELLBOOK_ENTRIES := 64
  const MAX_USERNAME_LEN := 32
  const MAX_QUANTITY := 1000000

  datatype Reply =
    | Silent
    | Enrolled(user: string)
    | Brewed(ingredient: string, qty: int, stock: int)
    | Consumed(ingredient: string, qty: int, stock: int)
    | Answered
    | Refused(error: string)
    | Farewell

  // ---------- Words and numbers ----------

  predicate Digit(c: char) {
    '0' <= c <= '9'
  }

  predicate Space(c: char) {
    c == ' ' || '\t' <= c <= '\r'
  }

  function SkipSpaces(s: string): string {
    if s != [] && Space(s[0]) then SkipSpaces(s[1..]) else s
  }

  function Value(digits: string): nat
    requires forall c | c in digits :: Digit(c)
  {
    if digits == [] then 0
    else
      var last := digits[|digits| - 1];
      assert Digit(last) && forall c | c in digits[..|digits| - 1] :: c in digits;
      Value(digits[..|digits| - 1]) * 10 + (last as int - '0' as int)
  }

  /** A whole decimal number in 1..1000000, with the blanks and sign that strtol allows in front. */
  function ParseQuantity(s: string): (r: Option<int>)
    ensures r.Some? ==> 1 <= r.value <= MAX_QUANTITY
  {
    var t := SkipSpaces(s);
    var negative := t != [] && t[0] == '-';
    var digits := if t != [] && (t[0] == '-' || t[0] == '+') then t[1..] else t;
    if digits == [] || exists c :: c in digits && !Digit(c) then None
    else
      var v := Value(digits);
      if negative || v == 0 || v > MAX_QUANTITY then None else Some(v)
  }

  lemma {:induction false} SkipSpacesSplits(s: string) returns (blanks: string)
    ensures s == blanks + SkipSpaces(s) && forall i | 0 <= i < |blanks| :: Space(blanks[i])
  {
    if s != [] && Space(s[0]) {
      var rest := SkipSpacesSplits(s[1..]);
      blanks := [s[0]] + rest;
      assert s == [s[0]] + s[1..];
    } else {
      blanks := [];
    }
  }

  lemma {:induction false} SkipSpacesOf(blanks: string, rest: string)
    requires forall i | 0 <= i < |blanks| :: Space(blanks[i])
    requires rest != [] ==> !Space(rest[0])
    ensures SkipSpaces(blanks + rest) == rest
  {
    if blanks == [] {
      assert blanks + rest == rest;
    } else {
      assert (blanks + rest)[1..] == blanks[1..] + rest;
      SkipSpacesOf(blanks[1..], rest);
    }
  }

  /** A word for the quantity v: blanks, perhaps a plus sign, and decimal digits of value v. */
  ghost predicate Writes(s: string, blanks: string, sign: string, digits: string, v: int) {
    && s == blanks + sign + digits
    && (forall i | 0 <= i < |blanks| :: blanks[i] == ' ' || '\t' <= blanks[i] <= '\r')
    && (sign == "" || sign == "+")
    && digits != [] && (forall c | c in digits :: '0' <= c <= '9') && Value(digits) == v
  }

  /** Exactly the words for a number in 1..1000000 are quantities. */
  lemma QuantityExact(s: string, v: int)
    ensures ParseQuantity(s) == Some(v)
       <==> 1 <= v <= MAX_QUANTITY && exists blanks, sign, digits :: Writes(s, blanks, sign, digits, v)
  {
    if ParseQuantity(s) == Some(v) {
      var blanks := SkipSpacesSplits(s);
      var t := SkipSpaces(s);
      var sign, digits := if t[0] == '+' then "+" else "", if t[0] == '+' then t[1..] else t;
      assert t == sign + digits;
      assert s == blanks + sign + digits;
      forall c | c in digits ensures '0' <= c <= '9' { assert Digit(c); }
      forall i | 0 <= i < |blanks| ensures blanks[i] == ' ' || '\t' <= blanks[i] <= '\r' { assert Space(blanks[i]); }
      assert Writes(s, blanks, sign, digits, v);
    }
    if 1 <= v <= MAX_QUANTITY && exists blanks, sign, digits :: Writes(s, blanks, sign, digits, v) {
      var blanks, sign, digits :| Writes(s, blanks, sign, digits, v);
      QuantityRead(s, blanks, sign, digits, v);
    }
  }

  lemma QuantityRead(s: string, blanks: string, sign: string, digits: string, v: int)
    requires 1 <= v <= MAX_QUANTITY && Writes(s, blanks, sign, digits, v)
    ensures ParseQuantity(s) == Some(v)
  {
    var t := sign + digits;
    assert digits[0] in digits;
    assert t[0] == '+' || t[0] == digits[0];
    assert s == blanks + t;
    SkipSpacesOf(blanks, t);
    if sign == "+" {
      assert t[1..] == digits;
    } else {
      assert t == digits;
    }
  }

  /** The words of a command line, split at blanks. */
  function Words(line: string): seq<string>
    decreases |line|
  {
    var s := LineFraming.SkipBlanks(line);
    SkipBlanksShortens(line);
    if s == [] then []
    else
      var w := LineFraming.Token(s);
      TokenIsPrefix(s);
      [w] + Words(s[|w|..])
  }

  lemma SkipBlanksShortens(s: string)
    ensures |LineFraming.SkipBlanks(s)| <= |s|
    ensures LineFraming.SkipBlanks(s) != [] ==> !LineFraming.Blank(LineFraming.SkipBlanks(s)[0])
  {
  }

  lemma TokenIsPrefix(s: string)
    ensures |LineFraming.Token(s)| <= |s|
    ensures s != [] && !LineFraming.Blank(s[0]) ==> LineFraming.Token(s) != []
  {
  }

  /** The words of a line: blanks are spaces and tabs, and a word ends at the next blank or at the end of the line. */
  lemma WordsByCases(w: string, c: char, rest: string)
    requires w != "" && ' ' !in w && '\t' !in w && (c == ' ' || c == '\t')
    ensures Words("") == []
    ensures Words([c] + rest) == Words(rest)
    ensures Words(w) == [w]
    ensures Words(w + [c] + rest) == [w] + Words(rest)
  {
    BlankFirst(c, rest);
    WordFirst(w, "");
    assert w + "" == w;
    WordFirst(w, [c] + rest);
    assert w + ([c] + rest) == w + [c] + rest;
  }

  lemma BlankFirst(c: char, rest: string)
    requires LineFraming.Blank(c)
    ensures Words([c] + rest) == Words(rest)
  {
    assert ([c] + rest)[1..] == rest;
    assert LineFraming.SkipBlanks([c] + rest) == LineFraming.SkipBlanks(rest);
  }

  lemma WordFirst(w: string, rest: string)
    requires w != "" && ' ' !in w && '\t' !in w && (rest != "" ==> LineFraming.Blank(rest[0]))
    ensures Words(w + rest) == [w] + Words(rest)
  {
    assert (w + rest)[0] == w[0];
    assert LineFraming.SkipBlanks(w + rest) == w + rest;
    TokenOfWord(w, rest);
    assert (w + rest)[|w|..] == rest;
  }

  // ---------- Commands as a client writes them ----------

  function Decimal(n: nat): (s: string)
    ensures s != [] && forall c | c in s :: Digit(c)
  {
    if n < 10 then [('0' as int + n) as char] else Decimal(n / 10) + [('0' as int + n % 10) as char]
  }

  lemma {:induction false} DecimalHasValue(n: nat)
    ensures Value(Decimal(n)) == n
  {
    if n >= 10 {
      DecimalHasValue(n / 10);
      var s := Decimal(n);
      assert s[..|s| - 1] == Decimal(n / 10);
    } else {
      assert Decimal(n)[..0] == [];
    }
  }

  /** A quantity written in decimal is read back exactly when it is in range. */
  lemma QuantityReadsBack(n: nat)
    ensures ParseQuantity(Decimal(n)) == if 1 <= n <= MAX_QUANTITY then Some(n) else None
  {
    DecimalHasValue(n);
    assert Decimal(n)[0] in Decimal(n);
  }

  predicate IsWord(w: string) {
    w != [] && forall i | 0 <= i < |w| :: !LineFraming.Blank(w[i])
  }

  function Spaced(words: seq<string>): string {
    if words == [] then [] else words[0] + " " + Spaced(words[1..])
  }

  lemma {:induction false} TokenOfWord(w: string, rest: string)
    requires forall i | 0 <= i < |w| :: !LineFraming.Blank(w[i])
    requires rest != [] ==> LineFraming.Blank(rest[0])
    ensures LineFraming.Token(w + rest) == w
  {
    if w == [] {
      assert w + rest == rest;
    } else {
      assert (w + rest)[1..] == w[1..] + rest;
      TokenOfWord(w[1..], rest);
    }
  }

  /** Words written with blanks between them are read back as they were. */
  lemma {:induction false} WordsReadBack(words: seq<string>, line: string)
    requires forall i | 0 <= i < |words| :: IsWord(words[i])
    requires LineFraming.SkipBlanks(line) == Spaced(words)
    ensures Words(line) == words
    decreases |words|
  {
    var s := Spaced(words);
    SkipBlanksShortens(line);
    if words != [] {
      var w, rest := words[0], Spaced(words[1..]);
      TokenOfWord(w, " " + rest);
      assert s == w + (" " + rest);
      assert s[|w|..] == " " + rest;
      SpacedStartsWithWord(words[1..]);
      assert (" " + rest)[1..] == rest;
      WordsReadBack(words[1..], " " + rest);
    }
  }

  lemma SpacedStartsWithWord(words: seq<string>)
    requires forall i | 0 <= i < |words| :: IsWord(words[i])
    ensures LineFraming.SkipBlanks(Spaced(words)) == Spaced(words)
  {
    if words != [] {
      assert Spaced(words)[0] == words[0][0];
    }
  }

  // ---------- Brewing and consuming ----------

  /** The arguments of BREW and CONSUME, if there are two and the second is a quantity. */
  function Arguments(args: seq<string>): Option<(string, int)> {
    if |args| < 2 then None
    else match ParseQuantity(args[1])
      case None => None
      case Some(n) => Some((args[0], n))
  }

  function Adjust(stock: seq<Entry>, i: nat, delta: int): seq<Entry>
    requires i < |stock|
  {
    stock[i := Entry(stock[i].name, stock[i].qty + delta)]
  }

  function Brew(stock: seq<Entry>, book: seq<Entry>, args: seq<string>): (seq<Entry>, seq<Entry>, Reply) {
    match Arguments(args)
    case None => (stock, book, Refused("BREW bad_format"))
    case Some((ing, n)) =>
      var i := Find(stock, ing);
      if i == |stock| then (stock, book, Refused("UNKNOWN_INGREDIENT"))
      else (Adjust(stock, i, n), Put(book, MAX_SPELLBOOK_ENTRIES, ing, n), Brewed(ing, n, stock[i].qty + n))
  }

  function Consume(stock: seq<Entry>, book: seq<Entry>, args: seq<string>): (seq<Entry>, seq<Entry>, Reply) {
    match Arguments(args)
    case None => (stock, book, Refused("CONSUME bad_format"))
    case Some((ing, n)) =>
      var i := Find(stock, ing);
      if i == |stock| then (stock, book, Refused("UNKNOWN_INGREDIENT"))
      else if Held(book, ing) < n then (stock, book, Refused("INSUFFICIENT_INGREDIENTS"))
      else (Adjust(stock, i, -n), Take(book, ing, n), Consumed(ing, n, stock[i].qty - n))
  }

  method BrewCommand(stock: Table, book: Table, args: seq<string>) returns (reply: Reply)
    requires stock.Valid() && book.Valid() && book.entries.Length == MAX_SPELLBOOK_ENTRIES
    requires stock != book && stock.entries != book.entries
    modifies stock.entries, book`count, book.entries
    ensures stock.Valid() && book.Valid()
    ensures (stock.Contents(), book.Contents(), reply) == Brew(old(stock.Contents()), old(book.Contents()), args)
  {
    if |args| < 2 || ParseQuantity(args[1]).None? {
      return Refused("BREW bad_format");
    }
    var ing, n := args[0], ParseQuantity(args[1]).value;
    var i := stock.Lookup(ing);
    if i == stock.count {
      return Refused("UNKNOWN_INGREDIENT");
    }
    stock.entries[i] := Entry(stock.entries[i].name, stock.entries[i].qty + n);
    var _ := book.Add(ing, n);
    reply := Brewed(ing, n, stock.entries[i].qty);
  }

  method ConsumeCommand(stock: Table, book: Table, args: seq<string>) returns (reply: Reply)
    requires stock.Valid() && book.Valid() && stock != book && stock.entries != book.entries
    modifies stock.entries, book`count, book.entries
    ensures stock.Valid() && book.Valid()
    ensures (stock.Contents(), book.Contents(), reply) == Consume(old(stock.Contents()), old(book.Contents()), args)
  {
    if |args| < 2 || ParseQuantity(args[1]).None? {
      return Refused("CONSUME bad_format");
    }
    var ing, n := args[0], ParseQuantity(args[1]).value;
    var i := stock.Lookup(ing);
    if i == stock.count {
      return Refused("UNKNOWN_INGREDIENT");
    }
    var s := book.Lookup(ing);
    var held := if s < book.count then book.entries[s].qty else 0;
    if held < n {
      return Refused("INSUFFICIENT_INGREDIENTS");
    }
    stock.entries[i] := Entry(stock.entries[i].name, stock.entries[i].qty - n);
    book.Sub(ing, n);
    reply := Consumed(ing, n, stock.entries[i].qty);
  }

  /**
   * A wizard can undo a brew, stock and spellbook entry for entry,
   * exactly when the spellbook had room for it.
   */
  lemma ConsumeUndoesBrew(stock: seq<Entry>, book: seq<Entry>, args: seq<string>)
    requires Tidy(book) && |book| <= MAX_SPELLBOOK_ENTRIES
    requires Arguments(args).Some? && Has(stock, Arguments(args).value.0)
    ensures var (s1, b1, _) := Brew(stock, book, args);
            var (s2, b2, _) := Consume(s1, b1, args);
            (s2 == stock && b2 == book) == (Has(book, Arguments(args).value.0) || |book| < MAX_SPELLBOOK_ENTRIES)
  {
    var (ing, n) := Arguments(args).value;
    var i := Find(stock, ing);
    var s1, b1 := Brew(stock, book, args).0, Brew(stock, book, args).1;
    assert s1[i].name == ing && forall j | 0 <= j < i :: s1[j].name == stock[j].name;
    assert Find(s1, ing) == i;
    if Has(book, ing) || |book| < MAX_SPELLBOOK_ENTRIES {
      TakeUndoesPut(book, MAX_SPELLBOOK_ENTRIES, ing, n);
      PutHeld(book, MAX_SPELLBOOK_ENTRIES, ing, n, ing);
      HeldIffPresent(book, ing);
      assert Adjust(s1, i, -n) == stock;
    } else {
      assert s1[i].qty != stock[i].qty;
    }
  }

  // ---------- When a brew and a consume succeed ----------

  /** The arguments name an ingredient of the stock and a quantity. */
  predicate Orders(stock: seq<Entry>, args: seq<string>, n: int) {
    |args| >= 2 && ParseQuantity(args[1]) == Some(n) && exists i :: 0 <= i < |stock| && stock[i].name == args[0]
  }

  lemma HasIffListed(stock: seq<Entry>, name: string)
    ensures Has(stock, name) <==> exists i :: 0 <= i < |stock| && stock[i].name == name
  {
    if Has(stock, name) {
      assert stock[Find(stock, name)].name == name;
    }
  }

  lemma AdjustHeld(stock: seq<Entry>, name: string, delta: int, other: string)
    requires Distinct(stock) && Has(stock, name)
    ensures Held(Adjust(stock, Find(stock, name), delta), other)
         == Held(stock, other) + if other == name then delta else 0
  {
    var i := Find(stock, name);
    RaiseHeld(stock, i, stock[i].qty + delta, other);
  }

  /** A brew succeeds exactly when it orders n of an ingredient; it raises that stock, and the book if there is room. */
  lemma BrewSucceedsIffOrdered(stock: seq<Entry>, book: seq<Entry>, args: seq<string>, n: int, other: string)
    requires Distinct(stock) && Tidy(book) && |book| <= MAX_SPELLBOOK_ENTRIES
    ensures var (s1, b1, reply) := Brew(stock, book, args);
      && (reply.Brewed? && reply.qty == n <==> Orders(stock, args, n))
      && (!reply.Brewed? ==> s1 == stock && b1 == book && reply.Refused?)
      && (Orders(stock, args, n) ==>
            && Held(s1, other) == Held(stock, other) + (if other == args[0] then n else 0)
            && Held(b1, other) == Held(book, other)
               + (if other == args[0] && (Has(book, other) || |book| < 64) then n else 0)
            && reply.ingredient == args[0] && reply.stock == Held(s1, args[0]))
  {
    if |args| >= 2 {
      HasIffListed(stock, args[0]);
      if Orders(stock, args, n) {
        AdjustHeld(stock, args[0], n, other);
        AdjustHeld(stock, args[0], n, args[0]);
        PutHeld(book, MAX_SPELLBOOK_ENTRIES, args[0], n, other);
      }
    }
  }

  /**
   * A consume succeeds exactly when it orders n of an ingredient of which the wizard holds n or more: all that is
   * held, wherever in the book it stands, and never a part of what was asked for.
   */
  lemma ConsumeSucceedsIffHeld(stock: seq<Entry>, book: seq<Entry>, args: seq<string>, n: int, other: string)
    requires Distinct(stock) && Tidy(book)
    ensures var (s1, b1, reply) := Consume(stock, book, args);
      && (reply.Consumed? && reply.qty == n <==> Orders(stock, args, n) && n <= Held(book, args[0]))
      && (!reply.Consumed? ==> s1 == stock && b1 == book && reply.Refused?)
      && (Orders(stock, args, n) && n <= Held(book, args[0]) ==>
            && Held(s1, other) == Held(stock, other) - (if other == args[0] then n else 0)
            && Held(b1, other) == Held(book, other) - (if other == args[0] then n else 0)
            && reply.ingredient == args[0] && reply.stock == Held(s1, args[0]))
  {
    if |args| >= 2 {
      HasIffListed(stock, args[0]);
      if Orders(stock, args, n) && n <= Held(book, args[0]) {
        ConsumeTakes(stock, book, args, n, other);
      }
    }
  }

  lemma ConsumeTakes(stock: seq<Entry>, book: seq<Entry>, args: seq<string>, n: int, other: string)
    requires Distinct(stock) && Tidy(book) && Orders(stock, args, n) && n <= Held(book, args[0])
    ensures var (s1, b1, reply) := Consume(stock, book, args);
      && Held(s1, other) == Held(stock, other) - (if other == args[0] then n else 0)
      && Held(b1, other) == Held(book, other) - (if other == args[0] then n else 0)
      && reply == Consumed(args[0], n, Held(s1, args[0]))
  {
    ConsumeGranted(stock, book, args, n);
    HasIffListed(stock, args[0]);
    AdjustHeld(stock, args[0], -n, other);
    AdjustHeld(stock, args[0], -n, args[0]);
    TakeHeld(book, args[0], n, other);
  }

  lemma ConsumeGranted(stock: seq<Entry>, book: seq<Entry>, args: seq<string>, n: int)
    requires Orders(stock, args, n) && n <= Held(book, args[0])
    ensures Has(stock, args[0]) && n > 0
    ensures var i := Find(stock, args[0]);
      Consume(stock, book, args)
        == (Adjust(stock, i, -n), Take(book, args[0], n), Consumed(args[0], n, stock[i].qty - n))
  {
    HasIffListed(stock, args[0]);
  }

  // ---------- The ingredients file ----------

  predicate NameChar(c: char) {
    'A' <= c <= 'Z' || Digit(c) || c == '_'
  }

  predicate ValidName(name: string) {
    0 < |name| <= 16 && forall c | c in name :: NameChar(c)
  }

  predicate Acceptable(stock: seq<Entry>, row: Entry) {
    ValidName(row.name) && row.qty > 0 && !Has(stock, row.name)
  }

  /** The rows that reach the table: well-formed, first of their name, while there is room. */
  function Loaded(rows: seq<Entry>): (stock: seq<Entry>)
    ensures |stock| <= MAX_INGREDIENTS
  {
    if rows == [] then []
    else
      var before, row := Loaded(rows[..|rows| - 1]), rows[|rows| - 1];
      if |before| < MAX_INGREDIENTS && Acceptable(before, row) then before + [row] else before
  }

  method LoadRow(stock: Table, row: Entry)
    requires stock.Valid() && stock.count < stock.entries.Length
    modifies stock`count, stock.entries
    ensures stock.Valid()
    ensures stock.Contents() == old(stock.Contents()) + if Acceptable(old(stock.Contents()), row) then [row] else []
    ensures stock.count == old(stock.count) + 1 <==>
      && 1 <= |row.name| <= 16 && (forall c | c in row.name :: 'A' <= c <= 'Z' || '0' <= c <= '9' || c == '_')
      && row.qty > 0 && forall i | 0 <= i < old(stock.count) :: old(stock.entries[i]).name != row.name
  {
    if ValidName(row.name) && row.qty > 0 {
      var dup := stock.Lookup(row.name);
      if dup == stock.count {
        stock.entries[stock.count] := row;
        stock.count := stock.count + 1;
      }
    }
  }

  method LoadIngredients(rows: seq<Entry>) returns (stock: Table)
    ensures fresh(stock) && fresh(stock.entries) && stock.Valid() && stock.Contents() == Loaded(rows)
  {
    stock := new Table(MAX_INGREDIENTS);
    var k := 0;
    while k < |rows|
      invariant k <= |rows| && stock.Valid() && fresh(stock) && fresh(stock.entries)
      invariant stock.entries.Length == MAX_INGREDIENTS
      invariant stock.Contents() == Loaded(rows[..k])
    {
      if stock.count >= MAX_INGREDIENTS {
        FullTableStays(rows, k);
        break;
      }
      LoadedNext(rows, k);
      LoadRow(stock, rows[k]);
      k := k + 1;
    }
    assert rows[..|rows|] == rows;
  }

  lemma LoadedNext(rows: seq<Entry>, k: nat)
    requires k < |rows| && |Loaded(rows[..k])| < MAX_INGREDIENTS
    ensures var before := Loaded(rows[..k]);
      Loaded(rows[..k + 1]) == if Acceptable(before, rows[k]) then before + [rows[k]] else before
  {
    assert rows[..k + 1][..k] == rows[..k];
  }

  lemma {:induction false} FullTableStays(rows: seq<Entry>, k: nat)
    requires k <= |rows| && |Loaded(rows[..k])| == MAX_INGREDIENTS
    ensures Loaded(rows) == Loaded(rows[..k])
    decreases |rows|
  {
    if k == |rows| {
      assert rows[..k] == rows;
    } else {
      assert rows[..|rows| - 1][..k] == rows[..k];
      FullTableStays(rows[..|rows| - 1], k);
    }
  }

  lemma {:induction false} LoadedIsTidy(rows: seq<Entry>)
    ensures Tidy(Loaded(rows)) && forall i | 0 <= i < |Loaded(rows)| :: ValidName(Loaded(rows)[i].name)
  {
    if rows != [] {
      var before, row := Loaded(rows[..|rows| - 1]), rows[|rows| - 1];
      LoadedIsTidy(rows[..|rows| - 1]);
      if Acceptable(before, row) {
        AppendHeld(before, row, row.name);
      }
    }
  }

  predicate Good(row: Entry) {
    ValidName(row.name) && row.qty > 0
  }

  /** Whatever is loaded stood in the file. */
  lemma {:induction false} LoadedFromFile(rows: seq<Entry>, name: string)
    requires Has(Loaded(rows), name)
    ensures exists j :: 0 <= j < |rows| && Good(rows[j]) && rows[j].name == name
  {
    var n := |rows| - 1;
    var before := Loaded(rows[..n]);
    if Has(before, name) {
      LoadedFromFile(rows[..n], name);
      var j :| 0 <= j < n && Good(rows[..n][j]) && rows[..n][j].name == name;
      assert rows[j] == rows[..n][j];
    } else if Acceptable(before, rows[n]) {
      LoadedIsTidy(rows[..n]);
      AppendHeld(before, rows[n], name);
      LoadedIsTidy(rows);
      HeldIffPresent(Loaded(rows), name);
      HeldIffPresent(before, name);
    }
  }

  /** While the table has room, the first good row of a name decides its quantity. */
  lemma {:induction false} FirstRowCounts(rows: seq<Entry>, k: nat)
    requires k < |rows| && Good(rows[k]) && |Loaded(rows)| < MAX_INGREDIENTS
    requires forall j | 0 <= j < k && rows[j].name == rows[k].name :: !Good(rows[j])
    ensures Held(Loaded(rows), rows[k].name) == rows[k].qty
    decreases |rows|
  {
    var n := |rows| - 1;
    var before, name := Loaded(rows[..n]), rows[k].name;
    LoadedIsTidy(rows[..n]);
    if k < n {
      FirstRowCounts(rows[..n], k);
      if Acceptable(before, rows[n]) {
        AppendHeld(before, rows[n], name);
      }
    } else {
      if Has(before, name) {
        LoadedFromFile(rows[..n], name);
      }
      AppendHeld(before, rows[n], name);
    }
  }

  // ---------- The server ----------

  /** A slot of the client table; an empty one is wiped. */
  datatype Client = Client(connected: bool, enrolled: bool, user: string, role: string, book: seq<Entry>)

  const VACANT := Client(false, false, "", "", [])
  const NEWCOMER := Client(true, false, "", "", [])

  datatype Server = Server(stock: seq<Entry>, clients: seq<Client>)

  datatype Event =
    | Connect
    | Command(slot: nat, line: string)
    | Departure(slot: nat)

  function Start(stock: seq<Entry>, slots: nat): Server {
    Server(stock, seq(slots, i => VACANT))
  }

  function Connected(clients: seq<Client>): seq<bool> {
    seq(|clients|, j requires 0 <= j < |clients| => clients[j].connected)
  }

  predicate NameTaken(clients: seq<Client>, user: string, except: nat) {
    exists i :: 0 <= i < |clients| && i != except
      && clients[i].connected && clients[i].enrolled && clients[i].user == user
  }

  function Enroll(s: Server, k: nat, args: seq<string>): (Server, Reply)
    requires k < |s.clients|
  {
    if s.clients[k].enrolled then (s, Refused("ENROLL already_enrolled"))
    else if |args| < 2 then (s, Refused("ENROLL bad_format"))
    else if args[0] != "WIZARD" && args[0] != "PROFESSOR" then (s, Refused("ENROLL bad_role"))
    else if |args[1]| == 0 || |args[1]| >= MAX_USERNAME_LEN then (s, Refused("ENROLL bad_format"))
    else if NameTaken(s.clients, args[1], k) then (s, Refused("ENROLL name_taken"))
    else
      var c := s.clients[k].(role := args[0], user := args[1], enrolled := true);
      (s.(clients := s.clients[k := c]), Enrolled(args[1]))
  }

  /** A brew or consume by the wizard in slot k. */
  function Trade(s: Server, k: nat, after: (seq<Entry>, seq<Entry>, Reply)): (Server, Reply)
    requires k < |s.clients|
  {
    (Server(after.0, s.clients[k := s.clients[k].(book := after.1)]), after.2)
  }

  datatype Verb = Apparate | EnrollAs | BrewSome | ConsumeSome | Spellbook | Inspect | Scroll | Roster | Unknown

  function VerbOf(cmd: string): Verb {
    if cmd == "APPARATE" then Apparate
    else if cmd == "ENROLL" then EnrollAs
    else if cmd == "BREW" then BrewSome
    else if cmd == "CONSUME" then ConsumeSome
    else if cmd == "SPELLBOOK" then Spellbook
    else if cmd == "INSPECT" then Inspect
    else if cmd == "SCROLL" then Scroll
    else if cmd == "ROSTER" then Roster
    else Unknown
  }

  function Handle(s: Server, k: nat, verb: Verb, args: seq<string>): (Server, Reply)
    requires k < |s.clients|
  {
    var c := s.clients[k];
    if verb.Apparate? then (s.(clients := s.clients[k := VACANT]), Farewell)
    else if verb.EnrollAs? then Enroll(s, k, args)
    else if !c.enrolled then (s, Refused("NOT_ENROLLED"))
    else
      match verb
      case BrewSome =>
        if c.role != "WIZARD" then (s, Refused("UNAUTHORIZED")) else Trade(s, k, Brew(s.stock, c.book, args))
      case ConsumeSome =>
        if c.role != "WIZARD" then (s, Refused("UNAUTHORIZED")) else Trade(s, k, Consume(s.stock, c.book, args))
      case Spellbook => (s, if c.role != "WIZARD" then Refused("UNAUTHORIZED") else Answered)
      case Unknown => (s, Refused("UNKNOWN"))
      case _ => (s, if c.role != "PROFESSOR" then Refused("UNAUTHORIZED") else Answered)
  }

  function Step(s: Server, e: Event): (Server, Reply) {
    match e
    case Connect =>
      var k := Slots.FreeSlot(Connected(s.clients));
      if k == |s.clients| then (s, Refused("HOGWARTS_FULL"))
      else (s.(clients := s.clients[k := NEWCOMER]), Silent)
    case Command(k, line) =>
      var words := Words(line);
      if k >= |s.clients| || !s.clients[k].connected || words == [] then (s, Silent)
      else Handle(s, k, VerbOf(words[0]), words[1..])
    case Departure(k) =>
      if k < |s.clients| then (s.(clients := s.clients[k := VACANT]), Silent) else (s, Silent)
  }

  function Run(s: Server, events: seq<Event>): Server {
    if events == [] then s else Step(Run(s, events[..|events| - 1]), events[|events| - 1]).0
  }

  /** A connection is refused exactly when every slot has one; else the first vacant slot is a newcomer's. */
  lemma ConnectsIffVacant(s: Server)
    ensures var (t, reply) := Step(s, Connect);
      && (reply.Refused? <==> forall i | 0 <= i < |s.clients| :: s.clients[i].connected)
      && (reply.Refused? ==> t == s)
      && (!reply.Refused? ==> exists k ::
            && 0 <= k < |s.clients| && !s.clients[k].connected && (forall i | 0 <= i < k :: s.clients[i].connected)
            && t == Server(s.stock, s.clients[k := Client(true, false, "", "", [])]))
  {
    var k := Slots.FreeSlot(Connected(s.clients));
    if k < |s.clients| {
      assert !Connected(s.clients)[k];
      forall i | 0 <= i < k ensures s.clients[i].connected { assert Connected(s.clients)[i]; }
    } else {
      forall i | 0 <= i < |s.clients| ensures s.clients[i].connected { assert Connected(s.clients)[i]; }
    }
  }

  /** A wizard that leaves, by command or without, takes the spellbook along and frees the slot for a newcomer. */
  lemma LeavingFreesSlot(s: Server, k: nat, e: Event)
    requires k < |s.clients|
    requires e == Departure(k) || (e.Command? && e.slot == k && s.clients[k].connected && Words(e.line) != []
                                   && Words(e.line)[0] == "APPARATE")
    ensures var t := Step(s, e).0;
      && t.stock == s.stock && |t.clients| == |s.clients|
      && !t.clients[k].connected && !t.clients[k].enrolled && t.clients[k].book == []
      && (forall i | 0 <= i < |s.clients| && i != k :: t.clients[i] == s.clients[i])
      && !Step(t, Connect).1.Refused?
  {
    ConnectsIffVacant(Step(s, e).0);
  }

  /** An enrollment succeeds exactly with a role, a free user name of 1 to 31 characters, and only once. */
  lemma EnrollsIffFree(s: Server, k: nat, args: seq<string>)
    requires k < |s.clients|
    ensures var (t, reply) := Enroll(s, k, args);
      && (reply.Enrolled? <==>
            && !s.clients[k].enrolled && |args| >= 2 && (args[0] == "WIZARD" || args[0] == "PROFESSOR")
            && 1 <= |args[1]| <= 31
            && forall i | 0 <= i < |s.clients| && i != k && s.clients[i].connected && s.clients[i].enrolled ::
                 s.clients[i].user != args[1])
      && (!reply.Enrolled? ==> t == s && reply.Refused?)
      && (reply.Enrolled? ==>
            && t.stock == s.stock && |t.clients| == |s.clients|
            && (forall i | 0 <= i < |s.clients| && i != k :: t.clients[i] == s.clients[i])
            && t.clients[k] == Client(s.clients[k].connected, true, args[1], args[0], s.clients[k].book))
  {
  }

  /** Only enrolled wizards trade, by the words BREW and CONSUME; all others are refused, and nothing changes. */
  lemma OnlyWizardsTrade(s: Server, k: nat, line: string)
    requires k < |s.clients| && s.clients[k].connected && Words(line) != []
    requires Words(line)[0] == "BREW" || Words(line)[0] == "CONSUME"
    ensures var (t, reply) := Step(s, Command(k, line));
      var c, args := s.clients[k], Words(line)[1..];
      if c.enrolled && c.role == "WIZARD" then
        var (stock, book, r) :=
          if Words(line)[0] == "BREW" then Brew(s.stock, c.book, args) else Consume(s.stock, c.book, args);
        t == Server(stock, s.clients[k := c.(book := book)]) && reply == r
      else
        t == s && reply == Refused(if c.enrolled then "UNAUTHORIZED" else "NOT_ENROLLED")
  {
  }

  /** The command handler says farewell to exactly the lines at which the line reader stops. */
  lemma FarewellIffApparates(s: Server, k: nat, line: string)
    requires k < |s.clients| && s.clients[k].connected
    ensures Step(s, Command(k, line)).1.Farewell? <==> LineFraming.Apparates(line)
  {
    var t := LineFraming.SkipBlanks(line);
    SkipBlanksShortens(line);
    TokenIsPrefix(t);
    if t == [] {
      assert LineFraming.Token(t) == [];
    }
  }
}
