/**
 Process::Data read from a /proc snapshot and updated over time, and Process::Security,
 which follows the daemon's own process and its parent.
 */
module ProcessTracking {
  import opened Prelude
  import opened Decimal
  import opened ProcessData

  /** Process::State. */
  datatype State =
    | Running | Sleeping | DiskSleep | Stopped | Zombie | TracingStop | Paging | Dead
    | Idle | Unknown | Invalid

  function StateOf(c: char): State {
    match c
    case 'R' => Running
    case 'C' => Running
    case 'S' => Sleeping
    case 'K' => DiskSleep
    case 'P' => DiskSleep
    case 'D' => DiskSleep
    case 'Z' => Zombie
    case 'T' => Stopped
    case 't' => TracingStop
    case 'W' => Paging
    case 'X' => Dead
    case 'x' => Dead
    case _ => Unknown
  }

  /** What one directory of /proc holds: the stat line, and the target of the exe link if it can be read. */
  datatype ProcFile = ProcFile(stat: string, exe: Option<string>)

  /** /proc at one moment, by directory name. */
  type ProcTable = map<string, ProcFile>

  /** Process::Data. */
  datatype Data = Data(processId: int, parentId: int, executablePath: string, lastState: State, startTime: nat) {
    predicate IsValid() { !lastState.Invalid? }
  }

  const NO_DATA := Data(-1, -1, "", Invalid, 0)

  /** Either the object, or the program ends: an uncaught out_of_range, or fewer items than are indexed. */
  datatype Outcome = Got(data: Data) | Ends

  function ExeOf(table: ProcTable, dir: string): string {
    if dir in table && table[dir].exe.Some? then table[dir].exe.value else ""
  }

  /** The stat-file constructor, told over the items of the line. */
  function FromItems(table: ProcTable, items: seq<string>): Outcome {
    if |items| <= 21 || items[2] == "" then Ends
    else
      var id, parent, start := Stoi(items[0]), Stoi(items[3]), Stoul(items[21]);
      if id.OutOfRange? || (id.Number? && parent.OutOfRange?) ||
          (id.Number? && parent.Number? && start.OutOfRange?) then Ends
      else Got(Data(if id.Number? then id.n else -1,
                    if id.Number? && parent.Number? then parent.n else -1,
                    ExeOf(table, items[0]),
                    StateOf(items[2][0]),
                    if id.Number? && parent.Number? && start.Number? && start.n >= 0 then start.n else 0))
  }

  function ReadDir(table: ProcTable, dir: string): Outcome {
    if dir in table then FromItems(table, Items(Words(table[dir].stat))) else Got(NO_DATA)
  }

  /** Data(int): the directory is named by the decimal id. */
  function ReadProcess(table: ProcTable, processId: int): Outcome {
    ReadDir(table, Print(processId))
  }

  /** update(): look the same id up again, and keep the result only if the executable path is the same. */
  function Updated(data: Data, table: ProcTable): Outcome {
    match ReadProcess(table, data.processId)
    case Ends => Ends
    case Got(now) => if now.executablePath == data.executablePath then Got(now) else Got(NO_DATA)
  }

  method ReadStatFile(table: ProcTable, dir: string) returns (outcome: Outcome)
    ensures outcome == ReadDir(table, dir)
  {
    if dir !in table {
      return Got(NO_DATA);
    }
    var words := Words(table[dir].stat);
    Text.PiecesAreSolid(table[dir].stat, SPACES);
    var statItems := JoinWords(words);
    if |statItems| <= 21 || statItems[2] == "" {
      return Ends;
    }
    var data := NO_DATA;
    var id := Stoi(statItems[0]);
    if id.OutOfRange? {
      return Ends;
    }
    if id.Number? {
      data := data.(processId := id.n);
      var parent := Stoi(statItems[3]);
      if parent.OutOfRange? {
        return Ends;
      }
      if parent.Number? {
        data := data.(parentId := parent.n);
        var start := Stoul(statItems[21]);
        if start.OutOfRange? {
          return Ends;
        }
        if start.Number? {
          data := data.(startTime := start.n);
        }
      }
    }
    data := data.(lastState := StateOf(statItems[2][0]), executablePath := ExeOf(table, statItems[0]));
    return Got(data);
  }

  method Update(data: Data, table: ProcTable) returns (outcome: Outcome)
    ensures outcome == Updated(data, table)
  {
    outcome := ReadStatFile(table, Print(data.processId));
    if outcome.Got? && outcome.data.executablePath != data.executablePath {
      outcome := Got(NO_DATA);
    }
  }

  // ---- What a single reading says ------------------------------------------------------------

  /** A reading is invalid exactly when there is no such directory, and then it holds nothing at all. */
  lemma ValidIffPresent(table: ProcTable, dir: string)
    requires ReadDir(table, dir).Got?
    ensures ReadDir(table, dir).data.IsValid() <==> dir in table
    ensures dir !in table ==> ReadDir(table, dir).data == NO_DATA
  {
  }

  /** The kernel's /proc: a directory for each process, named by its id, with that process's stat line. */
  ghost predicate Holds(table: ProcTable, p: Process) {
    && Printable(p) && 0 < p.pid < 0x8000_0000
    && Print(p.pid) in table && table[Print(p.pid)].stat == StatLine(p)
  }

  /** Whatever the process is called, the id that was read is the id that was asked for. */
  lemma IdIsTheOneAsked(table: ProcTable, p: Process)
    requires Holds(table, p) && ReadProcess(table, p.pid).Got?
    ensures ReadProcess(table, p.pid).data.processId == p.pid
    ensures ReadProcess(table, p.pid).data.executablePath == ExeOf(table, Print(p.pid))
  {
    RoundTripIff(p);
    StoiOfPrint(p.pid);
    hide Items, Words, StatLine, Stoi, Print;
  }

  /** The parent id and the start time fit their types. */
  predicate InRange(p: Process)
    requires Printable(p)
  {
    -0x8000_0000 <= p.numbers[0] < 0x8000_0000 && 0 <= p.numbers[18] < 0x1_0000_0000_0000_0000
  }

  /** What should be stored of a process. */
  function AsData(table: ProcTable, p: Process): Data
    requires Printable(p) && InRange(p)
  {
    Data(p.pid, p.numbers[0], ExeOf(table, Print(p.pid)), StateOf(p.state), p.numbers[18])
  }

  /** A well-named process is read back exactly as it was printed. */
  lemma ReadsBack(table: ProcTable, p: Process)
    requires Holds(table, p) && WellNamed(p.name) && InRange(p)
    ensures ReadProcess(table, p.pid) == Got(AsData(table, p))
  {
    hide Items, Words, StatLine, Stoi, Stoul, Print, Glue, WellNamed, NameWords, FromItems, StateOf, ExeOf;
    RoundTripIff(p);
    NameWordsShape(p.name);
    FromPrintedItems(table, p, Glue(NameWords(p.name)));
  }

  lemma FromPrintedItems(table: ProcTable, p: Process, name: string)
    requires Printable(p) && p.pid < 0x8000_0000 && InRange(p)
    ensures FromItems(table, [Print(p.pid), name, [p.state]] + Printed(p.numbers)) == Got(AsData(table, p))
  {
    hide Stoi, Stoul, Print, StateOf, ExeOf, Printed;
    StoiOfPrint(p.pid);
    StoiOfPrint(p.numbers[0]);
    StoulOfPrint(p.numbers[18]);
    var items := [Print(p.pid), name, [p.state]] + Printed(p.numbers);
    assert items[3] == Print(p.numbers[0]) && items[21] == Print(p.numbers[18]);
  }

  /** The executable path is the target of the process's exe link, or nothing if the link cannot be read. */
  lemma PathIsLinkTarget(table: ProcTable, p: Process)
    requires Holds(table, p) && ReadProcess(table, p.pid).Got?
    ensures ReadProcess(table, p.pid).data.executablePath ==
            match table[Print(p.pid)].exe
            case Some(target) => target
            case None => ""
  {
    IdIsTheOneAsked(table, p);
    hide ReadDir, Print, StatLine;
  }

  /** The letters that /proc uses, one by one. */
  lemma StateIsRead(table: ProcTable, p: Process)
    requires Holds(table, p) && WellNamed(p.name) && InRange(p)
    ensures ReadProcess(table, p.pid).Got?
    ensures var state := ReadProcess(table, p.pid).data.lastState;
            && (p.state in {'R', 'C'} ==> state == Running)
            && (p.state == 'S' ==> state == Sleeping)
            && (p.state in {'D', 'K', 'P'} ==> state == DiskSleep)
            && (p.state == 'Z' ==> state == Zombie)
            && (p.state == 'T' ==> state == Stopped)
            && (p.state == 't' ==> state == TracingStop)
            && (p.state == 'W' ==> state == Paging)
            && (p.state in {'X', 'x'} ==> state == Dead)
            && (p.state !in {'R', 'C', 'S', 'D', 'K', 'P', 'Z', 'T', 't', 'W', 'X', 'x'} ==> state == Unknown)
  {
    ReadsBack(table, p);
    hide ReadDir, Print, StatLine, WellNamed, InRange, ExeOf;
  }

  /** A line with too few items ends the program: they are indexed without a check. */
  lemma ShortLineEndsProgram(table: ProcTable, dir: string)
    requires dir in table && |Items(Words(table[dir].stat))| <= 21
    ensures ReadDir(table, dir).Ends?
  {
  }

  /** So does a number that does not fit its type: nothing catches out_of_range. */
  lemma LargeNumberEndsProgram(table: ProcTable, p: Process)
    requires Holds(table, p) && WellNamed(p.name)
    requires !(-0x8000_0000 <= p.numbers[0] < 0x8000_0000) || p.numbers[18] >= 0x1_0000_0000_0000_0000
    ensures ReadProcess(table, p.pid).Ends?
  {
    hide Items, Words, StatLine, Stoi, Stoul, Print, Glue, WellNamed, NameWords, FromItems, StateOf, ExeOf, Printed;
    RoundTripIff(p);
    NameWordsShape(p.name);
    LargeNumberEnds(table, p, Glue(NameWords(p.name)));
  }

  lemma LargeNumberEnds(table: ProcTable, p: Process, name: string)
    requires Printable(p) && p.pid < 0x8000_0000
    requires !(-0x8000_0000 <= p.numbers[0] < 0x8000_0000) || p.numbers[18] >= 0x1_0000_0000_0000_0000
    ensures FromItems(table, [Print(p.pid), name, [p.state]] + Printed(p.numbers)).Ends?
  {
    hide Stoi, Stoul, Print, StateOf, ExeOf, Printed;
    StoiOfPrint(p.pid);
    RangesOfPrint(p.numbers[0]);
    RangesOfPrint(p.numbers[18]);
    PrintedItem(p, name);
    if -0x8000_0000 <= p.numbers[0] < 0x8000_0000 {
      StoiOfPrint(p.numbers[0]);
    }
  }

  lemma PrintedItem(p: Process, name: string)
    requires Printable(p)
    ensures var items := [Print(p.pid), name, [p.state]] + Printed(p.numbers);
            |items| > 21 && items[0] == Print(p.pid) && items[2] == [p.state] &&
            items[3] == Print(p.numbers[0]) && items[21] == Print(p.numbers[18])
  {
    hide Print;
  }

  // ---- Following a process over time ---------------------------------------------------------

  /** /proc has no directory for a negative id. */
  predicate NoNegative(table: ProcTable) {
    Print(-1) !in table
  }

  /** A sequence of updates, one per snapshot. */
  function Follow(data: Data, tables: seq<ProcTable>): Outcome
    decreases |tables|
  {
    if tables == [] then Got(data)
    else
      match Updated(data, tables[0])
      case Ends => Ends
      case Got(now) => Follow(now, tables[1..])
  }

  /** One update invalidates for good, or keeps the path; invalid data stays as it is. */
  lemma UpdateKeepsPathOrInvalidates(data: Data, table: ProcTable)
    requires NoNegative(table) && Updated(data, table).Got?
    ensures var now := Updated(data, table).data;
            && (now.IsValid() ==> now.executablePath == data.executablePath)
            && (!now.IsValid() ==> now == NO_DATA)
            && (data == NO_DATA ==> now == NO_DATA)
  {
    ValidIffPresent(table, Print(data.processId));
  }

  /**
   Over any evolution of /proc, pid reuse included: data that is still valid has the path it
   started with, and data that was ever invalid is invalid from then on.
   */
  lemma {:induction false} IdentityOverTime(data: Data, tables: seq<ProcTable>, later: seq<ProcTable>)
    requires forall k :: 0 <= k < |tables| ==> NoNegative(tables[k])
    requires forall k :: 0 <= k < |later| ==> NoNegative(later[k])
    requires data.IsValid() || data == NO_DATA
    requires Follow(data, tables + later).Got?
    ensures Follow(data, tables).Got?
    ensures var mid, end := Follow(data, tables).data, Follow(data, tables + later).data;
            && (end.IsValid() ==> mid.IsValid() && end.executablePath == data.executablePath)
            && (!end.IsValid() ==> end == NO_DATA)
            && (data == NO_DATA ==> end == NO_DATA)
    decreases |tables| + |later|
  {
    hide Updated;
    var all := tables + later;
    if all != [] {
      UpdateKeepsPathOrInvalidates(data, all[0]);
      var now := Updated(data, all[0]).data;
      if tables != [] {
        assert all[1..] == tables[1..] + later;
        IdentityOverTime(now, tables[1..], later);
      } else {
        assert all[1..] == [] + later[1..];
        IdentityOverTime(now, [], later[1..]);
      }
    }
  }

  /** Two exe links that read alike; one that cannot be read is like an empty one. */
  predicate SameTarget(a: Option<string>, b: Option<string>) {
    a == b || (a in {None, Some("")} && b in {None, Some("")})
  }

  lemma IsValidIfHeld(table: ProcTable, p: Process)
    requires Holds(table, p) && ReadProcess(table, p.pid).Got?
    ensures ReadProcess(table, p.pid).data.IsValid()
  {
    ValidIffPresent(table, Print(p.pid));
  }

  lemma UpdateSeesOnlyThePath(data: Data, table: ProcTable, p: Process)
    requires data.IsValid() && data.processId == p.pid && Holds(table, p) && Updated(data, table).Got?
    ensures Updated(data, table).data.IsValid() <==> ExeOf(table, Print(p.pid)) == data.executablePath
    ensures !Updated(data, table).data.IsValid() ==> Updated(data, table).data == NO_DATA
  {
    IdIsTheOneAsked(table, p);
    ValidIffPresent(table, Print(p.pid));
    hide ReadDir, Print, Holds;
  }

  /**
   A pid reused.  The object was read from the old process; by the time of the update the pid
   names a new one, started at another time.  The update notices exactly if the executable path
   differs; if it does not, the object silently becomes the new process, start time and all.
   */
  lemma ReuseNoticedIff(earlier: ProcTable, first: Process, later: ProcTable, second: Process)
    requires Holds(earlier, first) && Holds(later, second) && second.pid == first.pid &&
        second.numbers[18] != first.numbers[18]
    requires ReadProcess(earlier, first.pid).Got?
    ensures var data := ReadProcess(earlier, first.pid).data;
            var same := SameTarget(earlier[Print(first.pid)].exe, later[Print(second.pid)].exe);
            && (Updated(data, later).Got? ==>
                  (Updated(data, later).data.IsValid() <==> same) && (!same ==> Updated(data, later).data == NO_DATA))
            && (WellNamed(second.name) && InRange(second) ==>
                  Updated(data, later) == if same then ReadProcess(later, second.pid) else Got(NO_DATA))
  {
    hide ReadDir, Print, WellNamed, InRange, StatLine, StateOf, Printable;
    var data := ReadProcess(earlier, first.pid).data;
    PathIsLinkTarget(earlier, first);
    IdIsTheOneAsked(earlier, first);
    IsValidIfHeld(earlier, first);
    if Updated(data, later).Got? {
      UpdateSeesOnlyThePath(data, later, second);
    }
    if WellNamed(second.name) && InRange(second) {
      StateIsRead(later, second);
    }
  }

  lemma OneWordName(name: string)
    requires Text.Solid(name, SPACES)
    ensures WellNamed(name)
  {
    hide Text.Pieces;
    Text.SolidIsOnePiece("(" + name + ")", SPACES);
  }

  /** Two processes called d with pid 7 and the same executable, started at times 1 and 2: nothing is noticed. */
  lemma ReuseGoesUnnoticed() returns (earlier: ProcTable, later: ProcTable)
    ensures var data := ReadProcess(earlier, 7);
            && data.Got? && data.data.startTime == 1
            && Updated(data.data, later).Got? && Updated(data.data, later).data.IsValid()
            && Updated(data.data, later).data.startTime == 2
  {
    var first := Process(7, "d", 'S', seq(19, _ => 1));
    var second := Process(7, "d", 'S', seq(19, _ => 2));
    earlier := map[Print(7) := ProcFile(StatLine(first), Some("/bin/d"))];
    later := map[Print(7) := ProcFile(StatLine(second), Some("/bin/d"))];
    hide StatLine, Print, ReadDir, Text.Pieces, WellNamed;
    OneWordName("d");
    ReadsBack(earlier, first);
    ReadsBack(later, second);
    ReuseNoticedIff(earlier, first, later, second);
  }

  lemma LetterIsNoNumber(c: char)
    requires 'A' <= c <= 'z'
    ensures Stoi([c]) == NotANumber && StateOf('b') == Unknown
  {
  }

  /**
   A command name with a closing parenthesis inside, such as "a) b": the items shift by one, so
   that the state is unknown, and parent and start time are not read at all.
   */
  lemma IllNamedMisread(table: ProcTable, p: Process)
    requires Holds(table, p) && p.name == "a) b" && 'A' <= p.state <= 'z'
    ensures ReadProcess(table, p.pid) == Got(Data(p.pid, -1, ExeOf(table, Print(p.pid)), Unknown, 0))
  {
    hide Items, Words, StatLine, Print, Printed, Stoul, Stoi, ExeOf, StateOf, WellNamed;
    IllNamed(p);
    StoiOfPrint(p.pid);
    LetterIsNoNumber(p.state);
    var items := [Print(p.pid), "(a)", "b)", [p.state]] + Printed(p.numbers);
    assert items[0] == Print(p.pid) && items[2] == "b)" && items[3] == [p.state];
  }

  // ---- Process::Security ---------------------------------------------------------------------

  /** parentProcessRunning's verdict on the state it finds. */
  predicate Alive(state: State) {
    !state.Stopped? && !state.Zombie? && !state.Dead? && !state.Invalid?
  }

  predicate ProcessSecured(process: Data, path: string) {
    process.IsValid() && path == process.executablePath
  }

  /** p is the process that now has the stored parent's id. */
  ghost predicate IsParent(data: Data, table: ProcTable, p: Process) {
    Holds(table, p) && WellNamed(p.name) && InRange(p) && p.pid == data.processId
  }

  lemma AliveIff(data: Data, table: ProcTable, p: Process)
    requires IsParent(data, table, p)
    ensures Updated(data, table).Got?
    ensures Alive(Updated(data, table).data.lastState) <==>
            SameTarget(Some(data.executablePath), table[Print(p.pid)].exe) && p.state !in {'T', 'Z', 'X', 'x'}
  {
    hide ReadDir, Print, Printable, StatLine, WellNamed, InRange, StateOf, ExeOf;
    StateIsRead(table, p);
    IsValidIfHeld(table, p);
    PathIsLinkTarget(table, p);
  }

  lemma GoneIsNotAlive(data: Data, table: ProcTable)
    requires Print(data.processId) !in table
    ensures Updated(data, table) == Got(NO_DATA) && !Alive(Updated(data, table).data.lastState)
  {
  }

  class Security {
    var daemonProcess: Data
    var parentProcess: Data

    constructor (daemonProcess: Data, parentProcess: Data)
      ensures this.daemonProcess == daemonProcess && this.parentProcess == parentProcess
    {
      this.daemonProcess, this.parentProcess := daemonProcess, parentProcess;
    }

    /** Reads this process and, if that worked, its parent; None if a reading ended the program. */
    static method Load(table: ProcTable, ownId: int) returns (security: Option<Security>)
      ensures security.Some? ==> fresh(security.value)
      ensures match ReadProcess(table, ownId)
              case Ends => security.None?
              case Got(own) =>
                if !own.IsValid()
                then security.Some? && security.value.daemonProcess == own && security.value.parentProcess == NO_DATA
                else
                  match ReadProcess(table, own.parentId)
                  case Ends => security.None?
                  case Got(parent) =>
                    security.Some? && security.value.daemonProcess == own && security.value.parentProcess == parent
    {
      hide ReadDir;
      var own := ReadStatFile(table, Print(ownId));
      if own.Ends? {
        return None;
      }
      var parent := Got(NO_DATA);
      if own.data.IsValid() {
        parent := ReadStatFile(table, Print(own.data.parentId));
        if parent.Ends? {
          return None;
        }
      }
      var loaded := new Security(own.data, parent.data);
      return Some(loaded);
    }

    /** Updates the stored parent, and says whether it still runs; None if reading ended the program. */
    method ParentProcessRunning(table: ProcTable) returns (running: Option<bool>)
      modifies this`parentProcess
      ensures Updated(old(parentProcess), table).Ends? ==> running == None && parentProcess == old(parentProcess)
      ensures Updated(old(parentProcess), table).Got? ==>
                parentProcess == Updated(old(parentProcess), table).data &&
                    running == Some(Alive(parentProcess.lastState))
      // In terms of the process itself: it is there, it runs the same executable, and it is not stopped or dead.
      ensures forall p :: IsParent(old(parentProcess), table, p) ==>
                running == Some(SameTarget(Some(old(parentProcess).executablePath), table[Print(p.pid)].exe) &&
                                p.state !in {'T', 'Z', 'X', 'x'})
      ensures Print(old(parentProcess).processId) !in table ==> running == Some(false)
    {
      forall p | IsParent(parentProcess, table, p)
        ensures Updated(parentProcess, table).Got?
        ensures Alive(Updated(parentProcess, table).data.lastState) <==>
                SameTarget(Some(parentProcess.executablePath), table[Print(p.pid)].exe) &&
                    p.state !in {'T', 'Z', 'X', 'x'}
      {
        AliveIff(parentProcess, table, p);
      }
      hide IsParent, SameTarget, Alive;
      if Print(parentProcess.processId) !in table {
        GoneIsNotAlive(parentProcess, table);
      }
      hide Updated;
      var outcome := Update(parentProcess, table);
      match outcome
      case Ends => running := None;
      case Got(data) =>
        parentProcess := data;
        running := Some(Alive(parentProcess.lastState));
    }
  }
}
