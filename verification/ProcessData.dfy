/** Process::Data: reading a process from /proc, and following it over time. */
module ProcessData {
  import opened Text
  import opened Decimal

  const SPACES: set<char> := {' ', '\t', '\n', '\r', '\U{B}', '\U{C}'}

  // ---- The stat line and its items -----------------------------------------------------

  predicate Opens(word: string) {
    word != "" && word[0] == '(' && word[|word| - 1] != ')'
  }

  predicate Closes(word: string) {
    word != "" && word[|word| - 1] == ')'
  }

  /** The first word from `from` on that closes, or the number of words. */
  function FirstCloser(words: seq<string>, from: nat): (k: nat)
    requires from <= |words|
    ensures from <= k <= |words| && (k < |words| ==> Closes(words[k]))
    ensures forall i :: from <= i < k ==> !Closes(words[i])
    decreases |words| - from
  {
    if from == |words| || Closes(words[from]) then from else FirstCloser(words, from + 1)
  }

  /** Words with one space between them. */
  function Glue(words: seq<string>): string
    requires words != []
  {
    if |words| == 1 then words[0] else words[0] + " " + Glue(words[1..])
  }

  /** Every stretch from an opening word to the next closing one is a single item; an unclosed one is lost. */
  function Items(words: seq<string>): seq<string> {
    if words == [] then []
    else if Opens(words[0]) then
      var k := FirstCloser(words, 1);
      if k == |words| then [] else [Glue(words[..k + 1])] + Items(words[k + 1..])
    else [words[0]] + Items(words[1..])
  }

  /** What is still to come when `buffer` holds an opened stretch, or nothing. */
  function ItemsAfter(buffer: string, words: seq<string>): seq<string> {
    if buffer == "" then Items(words)
    else
      var k := FirstCloser(words, 0);
      if k == |words| then [] else [buffer + " " + Glue(words[..k + 1])] + Items(words[k + 1..])
  }

  lemma FirstCloserShift(words: seq<string>, from: nat)
    requires 1 <= from <= |words|
    ensures FirstCloser(words, from) == FirstCloser(words[1..], from - 1) + 1
    decreases |words| - from
  {
    if from < |words| && !Closes(words[from]) {
      FirstCloserShift(words, from + 1);
    }
  }

  lemma GlueOneMore(buffer: string, word: string, rest: string)
    ensures buffer + " " + (word + " " + rest) == buffer + " " + word + " " + rest
  {
  }

  /** One more word that does not close while a stretch is open. */
  lemma ItemsStayOpen(buffer: string, words: seq<string>)
    requires buffer != "" && words != [] && !Closes(words[0])
    ensures ItemsAfter(buffer, words) == ItemsAfter(buffer + " " + words[0], words[1..])
  {
    hide Closes;
    var k := FirstCloser(words, 0);
    FirstCloserShift(words, 1);
    hide FirstCloser, Items;
    if k < |words| {
      assert words[..k + 1][1..] == words[1..][..k];
      assert words[k + 1..] == words[1..][k..];
      GlueOneMore(buffer, words[0], Glue(words[1..][..k]));
    }
  }

  /** One more word while a stretch is open. */
  lemma ItemsAfterStep(buffer: string, words: seq<string>)
    requires buffer != "" && words != []
    ensures ItemsAfter(buffer, words) ==
            if Closes(words[0]) then [buffer + " " + words[0]] + Items(words[1..])
            else ItemsAfter(buffer + " " + words[0], words[1..])
  {
    hide Items;
    if Closes(words[0]) {
      assert words[..1] == [words[0]];
    } else {
      ItemsStayOpen(buffer, words);
      hide ItemsAfter;
    }
  }

  lemma ItemsOpen(words: seq<string>)
    requires words != [] && Opens(words[0])
    ensures Items(words) == ItemsAfter(words[0], words[1..])
  {
    FirstCloserShift(words, 1);
    var k := FirstCloser(words, 1);
    if k < |words| {
      assert words[..k + 1][1..] == words[1..][..k];
      assert words[k + 1..] == words[1..][k..];
    }
  }

  /** The loop of the stat-file constructor, over the words that operator>> yields. */
  method JoinWords(words: seq<string>) returns (statItems: seq<string>)
    requires forall k :: 0 <= k < |words| ==> words[k] != ""
    ensures statItems == Items(words)
  {
    statItems := [];
    var wordBuffer := "";
    hide Items, ItemsAfter, FirstCloser, Glue;
    ItemsAfterNothing(words[0..]);
    assert words[0..] == words;
    for i := 0 to |words|
      invariant Items(words) == statItems + ItemsAfter(wordBuffer, words[i..])
    {
      var statItem := words[i];
      assert words[i..][1..] == words[i + 1..];
      ItemsAfterNothing(words[i..]);
      ItemsAfterNothing(words[i + 1..]);
      if wordBuffer != "" {
        ItemsAfterStep(wordBuffer, words[i..]);
        wordBuffer := wordBuffer + " " + statItem;
        if wordBuffer[|wordBuffer| - 1] == ')' {
          statItems := statItems + [wordBuffer];
          wordBuffer := "";
        }
      } else if statItem[0] == '(' && statItem[|statItem| - 1] != ')' {
        ItemsOpen(words[i..]);
        wordBuffer := statItem;
      } else {
        statItems := statItems + [statItem];
      }
    }
    NothingBuffered(wordBuffer);
  }

  lemma NothingBuffered(buffer: string)
    ensures ItemsAfter(buffer, []) == []
  {
  }

  lemma ItemsAfterNothing(words: seq<string>)
    ensures ItemsAfter("", words) == Items(words)
    ensures words != [] && !Opens(words[0]) ==> Items(words) == [words[0]] + Items(words[1..])
  {
  }

  // ---- Printing a process and reading it back -----------------------------------------------

  /** What /proc/<pid>/stat says of a process: id, command name, state letter, then numbers. */
  datatype Process = Process(pid: nat, name: string, state: char, numbers: seq<int>)

  function Printed(numbers: seq<int>): (words: seq<string>)
    ensures |words| == |numbers| && forall k :: 0 <= k < |numbers| ==> words[k] == Print(numbers[k])
  {
    seq(|numbers|, k requires 0 <= k < |numbers| => Print(numbers[k]))
  }

  /** A state letter is a letter, and there are at least as many numbers as the last index that is read. */
  predicate Printable(p: Process) {
    p.state !in SPACES && p.state != '(' && |p.numbers| >= 19
  }

  function StatLine(p: Process): string
    requires Printable(p)
  {
    Print(p.pid) + [' '] + (("(" + p.name + ")") + [' '] + ([p.state] + [' '] +
        (Glue(Printed(p.numbers)) + ['\n'] + "")))
  }

  function Words(s: string): seq<string> {
    Pieces(s, SPACES)
  }

  function NameWords(name: string): seq<string> {
    Words("(" + name + ")")
  }

  /** Of the words of the parenthesised name, only the last ends in a parenthesis. */
  predicate WellNamed(name: string) {
    LastCloses(NameWords(name))
  }

  lemma PrintIsSolid(n: int)
    ensures Print(n) != "" && Solid(Print(n), SPACES) && !Opens(Print(n))
  {
  }

  lemma {:induction false} GluedWords(words: seq<string>)
    requires words != [] && forall k :: 0 <= k < |words| ==> words[k] != "" && Solid(words[k], SPACES)
    ensures Words(Glue(words)) == words
  {
    SolidIsOnePiece(words[0], SPACES);
    if |words| > 1 {
      assert words[0] + [' '] + Glue(words[1..]) == Glue(words);
      PiecesSplit(words[0], ' ', Glue(words[1..]), SPACES);
      GluedWords(words[1..]);
    }
  }

  lemma WordsSplit(a: string, sep: char, b: string)
    requires sep in SPACES
    ensures Words(a + [sep] + b) == Words(a) + Words(b)
  {
    PiecesSplit(a, sep, b, SPACES);
  }

  lemma OneWord(s: string)
    requires s != "" && Solid(s, SPACES)
    ensures Words(s) == [s]
  {
    SolidIsOnePiece(s, SPACES);
  }

  lemma NoWord()
    ensures Words("") == []
  {
  }

  lemma StatWords(p: Process)
    requires Printable(p)
    ensures Words(StatLine(p)) == [Print(p.pid)] + NameWords(p.name) + ([[p.state]] + Printed(p.numbers))
  {
    hide Words, Glue, Print, Printed;
    forall n: int ensures Print(n) != "" && Solid(Print(n), SPACES) { PrintIsSolid(n); }
    GluedWords(Printed(p.numbers));
    OneWord(Print(p.pid));
    OneWord([p.state]);
    NoWord();
    hide Solid;
    var numbers := Glue(Printed(p.numbers));
    var line1 := numbers + ['\n'] + "";
    WordsSplit(numbers, '\n', "");
    var line2 := [p.state] + [' '] + line1;
    WordsSplit([p.state], ' ', line1);
    var line3 := ("(" + p.name + ")") + [' '] + line2;
    WordsSplit("(" + p.name + ")", ' ', line2);
    WordsSplit(Print(p.pid), ' ', line3);
  }

  lemma {:induction false} PlainItems(words: seq<string>)
    requires forall k :: 0 <= k < |words| ==> !Opens(words[k])
    ensures Items(words) == words
  {
    if words != [] {
      PlainItems(words[1..]);
    }
  }

  /** How many words the first item takes up. */
  function FirstItem(ws: seq<string>): nat
    requires ws != []
  {
    if Opens(ws[0]) then FirstCloser(ws, 1) + 1 else 1
  }

  lemma FirstItemOf(ws: seq<string>, plain: seq<string>)
    requires ws != [] && Closes(ws[|ws| - 1])
    ensures var n := FirstItem(ws);
            && 1 <= n <= |ws| && (if Opens(ws[0]) then Closes(ws[n - 1]) else n == 1)
            && (forall i :: 0 <= i < n - 1 ==> !Closes(ws[i]))
            && Items(ws + plain) == [Glue(ws[..n])] + Items(ws[n..] + plain)
  {
    var all, n := ws + plain, FirstItem(ws);
    if Opens(ws[0]) {
      var k, last := FirstCloser(all, 1), |ws| - 1;
      assert all[last] == ws[last] && last >= 1;
      assert k <= last;
      assert all[k] == ws[k];
      assert forall i :: 0 <= i < k ==> all[i] == ws[i];
      assert k == FirstCloser(ws, 1);
      assert all[..n] == ws[..n];
    }
    assert all[n..] == ws[n..] + plain;
  }

  /** Words that end with a closing one yield at least one item, and all plain words after them stay items. */
  lemma {:induction false} ClosedItems(ws: seq<string>, plain: seq<string>)
    requires ws != [] && Closes(ws[|ws| - 1])
    requires forall k :: 0 <= k < |plain| ==> !Opens(plain[k])
    ensures |Items(ws + plain)| >= 1 + |plain|
    decreases |ws|
  {
    hide Items, FirstItem;
    FirstItemOf(ws, plain);
    var n := FirstItem(ws);
    if n < |ws| {
      ClosedItems(ws[n..], plain);
    } else {
      PlainItems(plain);
      assert ws[n..] + plain == plain;
    }
  }

  /** Of these words only the last closes. */
  predicate LastCloses(ws: seq<string>) {
    forall k :: 0 <= k < |ws| - 1 ==> !Closes(ws[k])
  }

  /** Words that start with a parenthesis are one item exactly when only the last closes; otherwise they are more. */
  lemma NameItems(ws: seq<string>, plain: seq<string>)
    requires ws != [] && ws[0] != "" && ws[0][0] == '(' && Closes(ws[|ws| - 1])
    requires forall k :: 0 <= k < |plain| ==> !Opens(plain[k])
    ensures LastCloses(ws) ==> Items(ws + plain) == [Glue(ws)] + plain
    ensures !LastCloses(ws) ==> |Items(ws + plain)| > 1 + |plain|
  {
    hide Items, FirstItem, Glue;
    FirstItemOf(ws, plain);
    var n := FirstItem(ws);
    assert Closes(ws[n - 1]);
    hide Opens, Closes;
    if n == |ws| {
      assert ws[..n] == ws && ws[n..] + plain == plain;
      PlainItems(plain);
    } else {
      ClosedItems(ws[n..], plain);
    }
  }

  /**
   The round trip.  Joining the words of a printed process gives back one item per field
   exactly when the command name is well named; otherwise there are more items than fields.
   */
  lemma RoundTripIff(p: Process)
    requires Printable(p)
    ensures var items := Items(Words(StatLine(p)));
            && (WellNamed(p.name) <==> |items| == 3 + |p.numbers|)
            && (WellNamed(p.name) <==>
                  items == [Print(p.pid), Glue(NameWords(p.name)), [p.state]] + Printed(p.numbers))
            && |items| >= 3 + |p.numbers| && items[0] == Print(p.pid)
  {
    hide Items, Glue, Print, StatLine, NameWords, Words, Closes, Opens, Printed;
    StatWords(p);
    var ws, plain := NameWords(p.name), [[p.state]] + Printed(p.numbers);
    NameWordsShape(p.name);
    forall k | 0 <= k < |plain| ensures !Opens(plain[k]) {
      PlainWord(p, k);
    }
    NameItems(ws, plain);
    PrintIsSolid(p.pid);
    var words := [Print(p.pid)] + (ws + plain);
    assert Words(StatLine(p)) == words;
    assert words[1..] == ws + plain;
    ItemsAfterNothing(words);
    hide LastCloses;
    assert LastCloses(ws) ==>
        [Print(p.pid)] + ([Glue(ws)] + plain) == [Print(p.pid), Glue(ws), [p.state]] + Printed(p.numbers);
  }

  lemma NameWordsShape(name: string)
    ensures var ws := NameWords(name); ws != [] && ws[0] != "" && ws[0][0] == '(' && Closes(ws[|ws| - 1])
  {
    OuterPieces("(" + name + ")", SPACES);
  }

  lemma PlainWord(p: Process, k: nat)
    requires Printable(p) && k < 1 + |p.numbers|
    ensures !Opens(([[p.state]] + Printed(p.numbers))[k])
  {
    forall n: int ensures !Opens(Print(n)) { PrintIsSolid(n); }
  }

  lemma IllNamedWords(name: string)
    requires name == "a) b"
    ensures NameWords(name) == ["(a)", "b)"] && !WellNamed(name)
  {
    hide Pieces;
    assert "(" + name + ")" == "(a)" + [' '] + "b)";
    PiecesSplit("(a)", ' ', "b)", SPACES);
    SolidIsOnePiece("(a)", SPACES);
    SolidIsOnePiece("b)", SPACES);
    assert Closes(NameWords(name)[0]);
  }

  /** A name that is not well named: "a) b" gives two items, and every later one shifts. */
  lemma IllNamed(p: Process)
    requires Printable(p) && p.name == "a) b"
    ensures !WellNamed(p.name)
    ensures Items(Words(StatLine(p))) == [Print(p.pid), "(a)", "b)", [p.state]] + Printed(p.numbers)
  {
    hide Items, Words, StatLine, Print, Printed, NameWords, WellNamed;
    IllNamedWords(p.name);
    StatWords(p);
    PrintIsSolid(p.pid);
    var items := [Print(p.pid), "(a)", "b)", [p.state]] + Printed(p.numbers);
    forall k | 3 <= k < |items| ensures !Opens(items[k]) {
      PlainWord(p, k - 3);
    }
    assert items == [Print(p.pid)] + ["(a)", "b)"] + ([[p.state]] + Printed(p.numbers));
    PlainItems(items);
  }
}
