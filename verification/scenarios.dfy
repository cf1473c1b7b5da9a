/**
 * Short runs of the two loops on a fresh output directory, stated for any
 * lines of the right kinds: what ends up on disk, in the name list and in
 * `f_out`.
 */
module Scenarios {
  import opened PyStr
  import opened FileModel
  import opened Lines
  import opened Splitter
  import opened LegacySplitter

  /** The description file and a table file never share a path. */
  lemma TableIsNotDescription(dir: string, table: string)
    requires EndsWith(table, Csv)
    ensures table != JoinPath(dir, ProtocolDescription)
  {
    var p := JoinPath(dir, ProtocolDescription);
    assert p[|p| - 4..] == ".txt";
  }

  /**
   * Protocol then Step on a fresh directory: the description file holds the
   * Protocol line and is still open, and the Step line names the next table.
   */
  method DescribedStep(outputDirectory: string, stem: string, protocol: string, step: string)
    returns (run: RunState)
    requires Classify(protocol) == ProtocolLine && Classify(step) == StepLine
    ensures fresh(run) && run.Valid()
    ensures var dir := JoinPath(outputDirectory, Replace(stem, " ", "_"));
            var description := JoinPath(dir, ProtocolDescription);
            run.outdir == dir && run.files == map[description := protocol] && run.fOut == Open(description)
            && run.fFilename == Some(JoinPath(dir, StepBaseName(step))) && run.protFilename == Some(description)
            && run.count == 0 && run.filenames == [description]
  {
    run := new RunState(map[], outputDirectory);
    run.BeginFile(stem);
    var r := run.ProcessLine(protocol);
    r := run.ProcessLine(step);
  }

  /**
   * Protocol, Step, `,Read`, one data row, blank line: the description file
   * holds the Protocol line, the table named from the Step and Read lines
   * holds the repaired row, and the handle is closed.
   */
  method OneSection(outputDirectory: string, stem: string,
                    protocol: string, step: string, read: string, row: string)
    returns (outcome: Outcome, disk: map<string, string>, names: seq<string>, handle: Handle)
    requires Classify(protocol) == ProtocolLine && Classify(step) == StepLine
    requires Classify(read) == ReadLine && Classify(row) == CommaLine
    ensures outcome == Ok
    ensures var dir := JoinPath(outputDirectory, Replace(stem, " ", "_"));
            var description := JoinPath(dir, ProtocolDescription);
            var table := ReadName(JoinPath(dir, StepBaseName(step)), read);
            names == [description, table]
            && disk.Keys == {description, table}
            && disk[description] == protocol
            && disk[table] == RepairCommaLine(row)
            && handle == Closed(table)
  {
    var run := DescribedStep(outputDirectory, stem, protocol, step);
    ghost var table := ReadName(JoinPath(run.outdir, StepBaseName(step)), read);
    TableIsNotDescription(run.outdir, table);
    var r := run.ProcessLine(read);
    r := run.ProcessLine(row);
    assert Classify("\n") == BlankLine;
    outcome := run.ProcessLine("\n");
    disk, names, handle := run.files, run.filenames, run.fOut;
  }

  /**
   * Step then `,Read` on a fresh directory: the table named from the two
   * lines is created empty and left open.
   */
  method OpenTable(outputDirectory: string, stem: string, step: string, read: string)
    returns (run: RunState)
    requires Classify(step) == StepLine && Classify(read) == ReadLine
    ensures fresh(run) && run.Valid()
    ensures var base := JoinPath(JoinPath(outputDirectory, Replace(stem, " ", "_")), StepBaseName(step));
            var table := ReadName(base, read);
            run.outdir == JoinPath(outputDirectory, Replace(stem, " ", "_"))
            && run.files == map[table := ""] && run.fOut == Open(table)
            && run.fFilename == Some(table) && run.count == 0 && run.filenames == [table]
  {
    run := new RunState(map[], outputDirectory);
    run.BeginFile(stem);
    var r := run.ProcessLine(step);
    r := run.ProcessLine(read);
  }

  /**
   * Step, `,Read`, one data row and a blank line on a fresh directory: the
   * run that the collision scenario below starts from.
   */
  method FirstTable(outputDirectory: string, stem: string, step: string, read: string, row: string)
    returns (run: RunState)
    requires Classify(step) == StepLine && Classify(read) == ReadLine && Classify(row) == CommaLine
    ensures fresh(run) && run.Valid()
    ensures var base := JoinPath(JoinPath(outputDirectory, Replace(stem, " ", "_")), StepBaseName(step));
            var table := ReadName(base, read);
            run.outdir == JoinPath(outputDirectory, Replace(stem, " ", "_"))
            && run.files == map[table := RepairCommaLine(row)] && run.fOut == Closed(table)
            && run.fFilename == Some(table) && run.count == 0 && run.filenames == [table]
  {
    run := OpenTable(outputDirectory, stem, step, read);
    var r := run.ProcessLine(row);
    assert "" + RepairCommaLine(row) == RepairCommaLine(row);
    assert Classify("\n") == BlankLine;
    r := run.ProcessLine("\n");
  }

  /**
   * The same Step and `,Read` pair twice, with a blank line between the
   * tables: the second table goes to the name with `_1` before `.csv`, the
   * first keeps its content, and both runs record the unsuffixed name.
   */
  method ReadCollision(outputDirectory: string, stem: string,
                       step: string, read: string, row1: string, row2: string)
    returns (outcome: Outcome, disk: map<string, string>, names: seq<string>, count: nat)
    requires Classify(step) == StepLine && Classify(read) == ReadLine
    requires Classify(row1) == CommaLine && Classify(row2) == CommaLine
    ensures outcome == Ok
    ensures var dir := JoinPath(outputDirectory, Replace(stem, " ", "_"));
            var table := ReadName(JoinPath(dir, StepBaseName(step)), read);
            var second := CollisionName(table, 1);
            names == [table, table] && count == 1
            && second != table
            && disk.Keys == {table, second}
            && disk[table] == RepairCommaLine(row1)
            && disk[second] == RepairCommaLine(row2)
  {
    var run := FirstTable(outputDirectory, stem, step, read, row1);
    ghost var table := ReadName(JoinPath(run.outdir, StepBaseName(step)), read);
    ghost var second := CollisionName(table, 1);
    var r := run.ProcessLine(step);
    r := run.ProcessLine(read);
    assert run.count == 1 && run.fOut == Open(second);
    assert run.files == map[table := RepairCommaLine(row1), second := ""];
    outcome := run.ProcessLine(row2);
    assert "" + RepairCommaLine(row2) == RepairCommaLine(row2);
    disk, names, count := run.files, run.filenames, run.count;
  }

  /**
   * Protocol, then Notes, then a data row: Notes replaces the description
   * with its own line and closes the handle, so the row cannot be written.
   */
  method NotesClosesDescription(outputDirectory: string, stem: string,
                                protocol: string, notes: string, row: string)
    returns (outcome: Outcome, disk: map<string, string>)
    requires Classify(protocol) == ProtocolLine && Classify(notes) == NotesLine
    requires Classify(row) == CommaLine
    ensures var description := JoinPath(JoinPath(outputDirectory, Replace(stem, " ", "_")), ProtocolDescription);
            outcome == Fail(WriteToClosed(description))
            && disk == map[description := notes]
  {
    var run := new RunState(map[], outputDirectory);
    run.BeginFile(stem);
    var r := run.ProcessLine(protocol);
    r := run.ProcessLine(notes);
    outcome := run.ProcessLine(row);
    disk := run.files;
  }

  /**
   * The earlier script on a `,Read` line, one data row and a blank line: the
   * run that the collision scenario below starts from.
   */
  method LegacyFirstTable(dirRoot: string, read: string, row: string) returns (run: LegacyRun)
    requires Classify(read) == ReadLine && Classify(row) == CommaLine
    ensures fresh(run) && run.Valid()
    ensures var table := JoinPath(dirRoot, Label(read) + Csv);
            run.dirRoot == dirRoot && run.files == map[table := RepairCommaLine(row)] && run.fOut == Closed(table)
            && run.count == 0 && run.filenames == [table]
  {
    run := new LegacyRun(map[], dirRoot);
    var r := run.ProcessLine(read);
    r := run.ProcessLine(row);
    assert "" + RepairCommaLine(row) == RepairCommaLine(row);
    assert Classify("\n") == BlankLine;
    r := run.ProcessLine("\n");
  }

  /**
   * The earlier script on the same `,Read` line twice: the second table goes
   * to the name with `_1` after `.csv`.
   */
  method LegacyReadCollision(dirRoot: string, read: string, row1: string, row2: string)
    returns (outcome: Outcome, disk: map<string, string>, names: seq<string>, count: nat)
    requires Classify(read) == ReadLine
    requires Classify(row1) == CommaLine && Classify(row2) == CommaLine
    ensures outcome == Ok
    ensures var table := JoinPath(dirRoot, Label(read) + Csv);
            var second := LegacyCollisionName(table, 1);
            names == [table, table] && count == 1
            && disk.Keys == {table, second}
            && disk[table] == RepairCommaLine(row1)
            && disk[second] == RepairCommaLine(row2)
  {
    var run := LegacyFirstTable(dirRoot, read, row1);
    var r := run.ProcessLine(read);
    outcome := run.ProcessLine(row2);
    disk, names, count := run.files, run.filenames, run.count;
  }
}
