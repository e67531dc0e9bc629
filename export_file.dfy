/**
 * `write_user_chunk`: the CSV file an export writes, modelled as whether the
 * file exists and the lines it holds (a header line of column names, then one
 * record per user). Opening with "w" truncates, "a" keeps what is there.
 */
module ExportFile {
  import opened Common
  import opened Users
  import opened ExportSchema

  datatype Line = Header(names: seq<string>) | Record(cells: seq<Value>)

  datatype CsvFile = CsvFile(present: bool, lines: seq<Line>) {
    /** A file that does not exist holds no lines. */
    predicate WellFormed() {
      !present ==> lines == []
    }
  }

  /** The record line of each user, in order. */
  function Records(users: seq<User>, fieldnames: seq<string>, general: seq<string>, tp: TargetPermissions, includeMedia: bool): (r: seq<Line>)
    ensures |r| == |users|
  {
    if users == [] then []
    else
      Records(users[..|users| - 1], fieldnames, general, tp, includeMedia)
      + [Record(RecordCells(users[|users| - 1], fieldnames, general, tp, includeMedia))]
  }

  /** The `i`-th record is the column-wise record of the `i`-th user. */
  lemma {:induction false} RecordsAt(users: seq<User>, fieldnames: seq<string>, general: seq<string>, tp: TargetPermissions, includeMedia: bool)
    ensures var r := Records(users, fieldnames, general, tp, includeMedia);
            forall i :: 0 <= i < |users| ==> r[i] == Record(RecordCells(users[i], fieldnames, general, tp, includeMedia))
    decreases |users|
  {
    if users != [] {
      var init := users[..|users| - 1];
      RecordsAt(init, fieldnames, general, tp, includeMedia);
      assert forall i :: 0 <= i < |init| ==> init[i] == users[i];
    }
  }

  /** The records of two batches written one after the other are the records of both. */
  lemma RecordsConcat(a: seq<User>, b: seq<User>, fieldnames: seq<string>, general: seq<string>, tp: TargetPermissions, includeMedia: bool)
    ensures Records(a + b, fieldnames, general, tp, includeMedia)
            == Records(a, fieldnames, general, tp, includeMedia) + Records(b, fieldnames, general, tp, includeMedia)
  {
    var l := Records(a + b, fieldnames, general, tp, includeMedia);
    var r := Records(a, fieldnames, general, tp, includeMedia) + Records(b, fieldnames, general, tp, includeMedia);
    RecordsAt(a + b, fieldnames, general, tp, includeMedia);
    RecordsAt(a, fieldnames, general, tp, includeMedia);
    RecordsAt(b, fieldnames, general, tp, includeMedia);
    forall i | 0 <= i < |l|
      ensures l[i] == r[i]
    {
      if i < |a| {
        assert (a + b)[i] == a[i];
        assert r[i] == Records(a, fieldnames, general, tp, includeMedia)[i];
      } else {
        assert (a + b)[i] == b[i - |a|];
        assert r[i] == Records(b, fieldnames, general, tp, includeMedia)[i - |a|];
      }
    }
  }

  /**
   * Write a chunk of users. An empty chunk leaves the file alone. Otherwise the
   * file exists afterwards; in append mode it keeps its lines, in write mode it
   * is truncated; the header is written unless appending to a file that
   * already exists; then one record per user follows.
   */
  method WriteUserChunk(users: seq<User>, fieldnames: seq<string>, general: seq<string>, tp: TargetPermissions,
                        includeMedia: bool, file: CsvFile, append: bool)
    returns (out: CsvFile)
    requires forall a :: a in general ==> a in fieldnames
    ensures users == [] ==> out == file
    ensures users != [] ==> out.present
    ensures file.WellFormed() ==> out.WellFormed()
    ensures users != [] ==>
              out.lines == (if append then file.lines else [])
                           + (if !append || !file.present then [Header(fieldnames)] else [])
                           + Records(users, fieldnames, general, tp, includeMedia)
  {
    if users == [] {
      return file;
    }
    var writeHeader := !append || (append && !file.present);
    var lines := if append then file.lines else [];
    if writeHeader {
      lines := lines + [Header(fieldnames)];
    }
    ghost var start := lines;
    var i := 0;
    while i < |users|
      invariant 0 <= i <= |users|
      invariant lines == start + Records(users[..i], fieldnames, general, tp, includeMedia)
    {
      var line := WriteRecord(users[i], fieldnames, general, tp, includeMedia);
      lines := lines + [line];
      assert users[..i + 1][..i] == users[..i];
      i := i + 1;
    }
    assert users[..i] == users;
    out := CsvFile(true, lines);
  }

  /** `writer.writerow(row)` for one user's projected row. */
  method WriteRecord(u: User, fieldnames: seq<string>, general: seq<string>, tp: TargetPermissions, includeMedia: bool)
    returns (line: Line)
    requires forall a :: a in general ==> a in fieldnames
    ensures line == Record(RecordCells(u, fieldnames, general, tp, includeMedia))
  {
    var row := ProjectRow(u, fieldnames, general, tp, includeMedia);
    var written := WriteRow(fieldnames, row);
    RecordCellsWritten(u, fieldnames, general, tp, includeMedia);
    match written {
      case Ok(cells) =>
        line := Record(cells);
      case Err(_) =>
        assert false;
        line := Record([]);
    }
  }

  /** The number of header lines in a file. */
  function HeaderCount(lines: seq<Line>): (n: nat)
    ensures n <= |lines|
  {
    if lines == [] then 0
    else HeaderCount(lines[..|lines| - 1]) + (if lines[|lines| - 1].Header? then 1 else 0)
  }

  /** Record lines add no header. */
  lemma {:induction false} HeaderCountRecords(prefix: seq<Line>, records: seq<Line>)
    requires forall i :: 0 <= i < |records| ==> records[i].Record?
    ensures HeaderCount(prefix + records) == HeaderCount(prefix)
    decreases |records|
  {
    if records == [] {
      assert prefix + records == prefix;
    } else {
      var init := records[..|records| - 1];
      assert (prefix + records)[..|prefix + records| - 1] == prefix + init;
      HeaderCountRecords(prefix, init);
    }
  }

  /**
   * The file an export of `users` leaves when it starts afresh: untouched when
   * there are no users; otherwise the header of the columns computed from the
   * first user, then one record per user.
   */
  function ExportedFile(users: seq<User>, general: seq<string>, tp: TargetPermissions, includeMedia: bool, file: CsvFile): (r: CsvFile)
    ensures file.WellFormed() ==> r.WellFormed()
  {
    if users == [] then file
    else
      var f := Fieldnames(users[0], general, tp, includeMedia);
      CsvFile(true, [Header(f)] + Records(users, f, general, tp, includeMedia))
  }

  /**
   * Appending the records of a further batch, under the columns fixed by the
   * first user, to an export gives the export of both batches together.
   */
  lemma ExportedFileAppend(before: seq<User>, more: seq<User>, general: seq<string>, tp: TargetPermissions, includeMedia: bool, file: CsvFile)
    requires before != []
    ensures var f := Fieldnames(before[0], general, tp, includeMedia);
            ExportedFile(before + more, general, tp, includeMedia, file)
            == CsvFile(true, ExportedFile(before, general, tp, includeMedia, file).lines + Records(more, f, general, tp, includeMedia))
  {
    var f := Fieldnames(before[0], general, tp, includeMedia);
    assert (before + more)[0] == before[0];
    RecordsConcat(before, more, f, general, tp, includeMedia);
  }

  /**
   * A non-empty export holds exactly one header, as its first line, followed
   * by one record per user, each with one cell per column.
   */
  lemma ExportedFileShape(users: seq<User>, general: seq<string>, tp: TargetPermissions, includeMedia: bool, file: CsvFile)
    requires users != []
    ensures var out := ExportedFile(users, general, tp, includeMedia, file);
            var f := Fieldnames(users[0], general, tp, includeMedia);
            && out.present
            && |out.lines| == |users| + 1
            && out.lines[0] == Header(f)
            && HeaderCount(out.lines) == 1
            && (forall i :: 1 <= i < |out.lines| ==> out.lines[i].Record? && |out.lines[i].cells| == |f|)
  {
    var f := Fieldnames(users[0], general, tp, includeMedia);
    var recs := Records(users, f, general, tp, includeMedia);
    RecordsAt(users, f, general, tp, includeMedia);
    HeaderCountRecords([Header(f)], recs);
    assert HeaderCount([Header(f)]) == 1 by {
      assert [Header(f)][..0] == [];
    }
  }
}
