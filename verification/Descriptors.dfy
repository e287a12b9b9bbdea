/**
 One process's descriptor table.  A number that was closed may be handed out
 again, to this object or to unrelated code in the same process, so using a
 stale number is visible: it then names a file that is not `Mine`.
 */
module Descriptors {
  import opened Prelude

  datatype Holder = Mine | Other

  type Table = map<nat, Holder>

  predicate IsMine(table: Table, fd: nat) {
    fd in table && table[fd] == Mine
  }

  /** The table after close(fd); closing a number that is not open changes nothing. */
  function Close(table: Table, fd: nat): (t: Table)
    ensures forall x: nat {:trigger IsMine(t, x)} :: IsMine(t, x) <==> IsMine(table, x) && x != fd
  {
    table - {fd}
  }

  /** The table after the kernel handed out a number that was not open. */
  function Open(table: Table, fd: nat, holder: Holder): (t: Table)
    requires fd !in table
    ensures forall x: nat {:trigger IsMine(t, x)} ::
              IsMine(t, x) <==> IsMine(table, x) || (x == fd && holder == Mine)
  {
    table[fd := holder]
  }

  /** A finite table leaves numbers free. */
  lemma {:induction false} FreeNumber(table: Table) returns (fd: nat)
    ensures fd > 0 && forall x :: x in table ==> x < fd
    ensures fd !in table
    decreases |table|
  {
    fd := 1;
    if x :| x in table {
      var above := FreeNumber(table - {x});
      fd := if above > x then above else x + 1;
      assert forall y :: y in table && y != x ==> y in table - {x};
    }
  }

  /**
   The descriptors of this process, and what this object did with them: the last
   number open returned to it, how often open succeeded for it and close did not
   leave its number open, and whether it ever used or closed a number that did not name its own file.
   */
  datatype Files = Files(table: Table, file: nat, opens: nat, closes: nat, misused: bool)

  /** How open ends on the init thread: with a number, an error, or in cancellation. */
  datatype OpenResult = OpenOk(fd: nat) | OpenFailed | OpenCancelled

  /** What unrelated code in the same process does to the table. */
  datatype OthersStep = OtherOpens(fd: nat) | OtherCloses(fd: nat)

  function OthersMove(f: Files, step: OthersStep): Option<Files> {
    match step
    case OtherOpens(fd) => if fd in f.table then None else Some(f.(table := Open(f.table, fd, Other)))
    case OtherCloses(fd) =>
      if fd in f.table && f.table[fd] == Other then Some(f.(table := Close(f.table, fd))) else None
  }

  /** Using descriptor `fd` for select or read is right only while it names our file. */
  function Use(f: Files, fd: nat): Files {
    f.(misused := f.misused || !IsMine(f.table, fd))
  }

  function CloseFd(f: Files, fd: nat): Files {
    Use(f, fd).(table := Close(f.table, fd), closes := f.closes + 1)
  }

  /** The numbers that are Mine, and whether close was called, are tied to what open returned. */
  ghost predicate OwnFileOnly(f: Files) {
    && f.closes <= f.opens <= 1
    && (forall fd: nat :: IsMine(f.table, fd) <==> f.closes < f.opens && fd == f.file)
    && (f.closes == 1 ==> f.file != 0)
    && !f.misused
  }
}
