/**
 * The module-level dispatch loop of parse_promega_csv.py, the earlier
 * single-file script. It differs from PromegaParser.py in four places: a
 * `,Read` name is the label alone, its collision counter goes after the
 * `.csv`, an existing description file also bumps the counter (without
 * changing the path), and Step lines are written to the description file
 * like Notes lines instead of naming the next table.
 *
 * `LegacyNext` says what one iteration does and `LegacyRunLines` what the
 * whole loop does; the methods of `LegacyRun` are proved to do exactly that.
 */
module LegacySplitter {
  import opened FileModel
  import opened Lines

  /** The kinds of line that can raise the counter in this script. */
  const Bumpers: set<LineKind> := {ProtocolLine, ReadLine}

  /** The disk and the variables this loop rebinds, as one value. */
  datatype LegacyVars = LegacyVars(
    files: map<string, string>,
    fOut: Handle,
    protFilename: Option<string>,
    count: nat,
    filenames: seq<string>)
  {
    /** An open handle always names a file on disk. */
    predicate Consistent() {
      fOut.Open? ==> fOut.path in files
    }
  }

  /**
   * The lines whose branch raises in this script, given the variables they
   * read: Step or Notes before any Protocol, a blank line before any file was
   * opened, a data row with no open file.
   */
  predicate LegacyRaises(line: string, v: LegacyVars)
  {
    var kind := Classify(line);
    || ((kind == StepLine || kind == NotesLine) && v.protFilename.None?)
    || (kind == BlankLine && v.fOut.Unbound?)
    || (kind == CommaLine && !v.fOut.Open?)
  }

  /**
   * One iteration of the loop on `line`: the outcome and the new variables.
   * The chain tests Protocol, `,Read`, Results, Step or Notes, blank, comma;
   * because the prefixes exclude one another (Lines.ClassifyOrderFree) this
   * is the same split as `Classify`, with PlateResults falling to the final
   * `else`. A line that raises leaves everything as it was.
   */
  function LegacyNext(dirRoot: string, v: LegacyVars, line: string): (step: (Outcome, LegacyVars))
    requires v.Consistent()
    ensures step.1.Consistent()
    ensures step.0.Fail? <==> LegacyRaises(line, v)
    ensures step.0.Fail? ==> step.1 == v
    ensures v.files.Keys <= step.1.files.Keys
    ensures v.count <= step.1.count <= v.count + (if Classify(line) in Bumpers then 1 else 0)
    ensures v.filenames <= step.1.filenames
    ensures |step.1.filenames| == |v.filenames| + (if step.0.Ok? && Classify(line) in Triggers then 1 else 0)
  {
    match Classify(line)
    // Protocol: the path never changes, but finding the file already there bumps the counter.
    case ProtocolLine =>
      var p := JoinPath(dirRoot, ProtocolDescription);
      var count := if p in v.files then v.count + 1 else v.count;
      (Ok, v.(files := v.files[p := line], fOut := Open(p), protFilename := Some(p),
              count := count, filenames := v.filenames + [p]))
    // ,Read: the label alone names the table; on collision the counter goes after `.csv`.
    case ReadLine =>
      var name := JoinPath(dirRoot, Label(line) + Csv);
      var clash := name in v.files;
      var count := if clash then v.count + 1 else v.count;
      var target := if clash then LegacyCollisionName(name, count) else name;
      (Ok, v.(files := v.files[target := ""], fOut := Open(target), count := count,
              filenames := v.filenames + [name]))
    // Results: open `dir_root/label.csv`, truncating it, with no collision check.
    case ResultsLine =>
      var name := JoinPath(dirRoot, Label(line) + Csv);
      (Ok, v.(files := v.files[name := ""], fOut := Open(name), filenames := v.filenames + [name]))
    // Step or Notes: rewrite the description file with just this line; the `with` block closes it.
    case StepLine =>
      if v.protFilename.None? then (Fail(NameError(ProtFilename)), v)
      else
        var p := v.protFilename.value;
        (Ok, v.(files := v.files[p := line], fOut := Closed(p)))
    case NotesLine =>
      if v.protFilename.None? then (Fail(NameError(ProtFilename)), v)
      else
        var p := v.protFilename.value;
        (Ok, v.(files := v.files[p := line], fOut := Closed(p)))
    // Blank line: close an open handle, ignore a closed one, never write.
    case BlankLine =>
      match v.fOut {
        case Unbound => (Fail(NameError(FOut)), v)
        case Open(p) => (Ok, v.(fOut := Closed(p)))
        case Closed(_) => (Ok, v)
      }
    // Comma line: append the repaired line through the open handle.
    case CommaLine =>
      match v.fOut {
        case Unbound => (Fail(NameError(FOut)), v)
        case Closed(p) => (Fail(WriteToClosed(p)), v)
        case Open(p) => (Ok, v.(files := v.files[p := v.files[p] + RepairCommaLine(line)]))
      }
    // Everything else, PlateResults included: dropped.
    case PlateResultsLine => (Ok, v)
    case OtherLine => (Ok, v)
  }

  /** The loop over the lines of the input file: every line in turn, until one raises. */
  function LegacyRunLines(dirRoot: string, v: LegacyVars, lines: seq<string>): (run: (Outcome, LegacyVars))
    requires v.Consistent()
    ensures run.1.Consistent()
    decreases |lines|
  {
    if |lines| == 0 then (Ok, v)
    else
      var prior := LegacyRunLines(dirRoot, v, lines[..|lines| - 1]);
      if prior.0.Fail? then prior else LegacyNext(dirRoot, prior.1, lines[|lines| - 1])
  }

  /** Once a line has raised, the lines after it change nothing. */
  lemma {:induction false} LegacyRunLinesStops(dirRoot: string, v: LegacyVars, s: seq<string>, t: seq<string>)
    requires v.Consistent() && LegacyRunLines(dirRoot, v, s).0.Fail?
    ensures LegacyRunLines(dirRoot, v, s + t) == LegacyRunLines(dirRoot, v, s)
    decreases |t|
  {
    if |t| == 0 {
      assert s + t == s;
    } else {
      LegacyRunLinesStops(dirRoot, v, s, t[..|t| - 1]);
      assert (s + t)[..|s + t| - 1] == s + t[..|t| - 1];
    }
  }

  /**
   * What the run does to the disk, the name list and the counter: paths are
   * only added, names only appended and the counter only raised. A run that
   * succeeds appends one name per Protocol, `,Read` and Results line and
   * raises the counter at most once per Protocol or `,Read` line.
   */
  lemma {:induction false} LegacyRunLinesTally(dirRoot: string, v: LegacyVars, lines: seq<string>)
    requires v.Consistent()
    ensures var run := LegacyRunLines(dirRoot, v, lines);
            v.files.Keys <= run.1.files.Keys && v.filenames <= run.1.filenames && v.count <= run.1.count
            && (run.0.Ok? ==>
                  |run.1.filenames| == |v.filenames| + CountOf(lines, Triggers)
                  && run.1.count <= v.count + CountOf(lines, Bumpers))
    decreases |lines|
  {
    if |lines| > 0 {
      LegacyRunLinesTally(dirRoot, v, lines[..|lines| - 1]);
    }
  }

  /**
   * Where the run stops: when the first `done` lines run without raising and
   * either that is all of them or line `done` raises, the run ends with the
   * variables those `done` lines left, it fails exactly when lines remain and
   * then line `done` raises on them, and the tallies of `LegacyRunLinesTally`
   * hold of those `done` lines.
   */
  lemma {:induction false} LegacyRunLinesAt(dirRoot: string, v: LegacyVars, lines: seq<string>, done: nat)
    requires v.Consistent() && done <= |lines|
    requires LegacyRunLines(dirRoot, v, lines[..done]).0.Ok?
    requires done < |lines| ==> LegacyRunLines(dirRoot, v, lines[..done + 1]).0.Fail?
    ensures var w := LegacyRunLines(dirRoot, v, lines[..done]).1;
            var run := LegacyRunLines(dirRoot, v, lines);
            run.1 == w
            && (run.0.Ok? <==> done == |lines|)
            && (done < |lines| ==> run == LegacyRunLines(dirRoot, v, lines[..done + 1]) && LegacyRaises(lines[done], w))
            && v.files.Keys <= w.files.Keys && v.filenames <= w.filenames && v.count <= w.count
            && |w.filenames| == |v.filenames| + CountOf(lines[..done], Triggers)
            && w.count <= v.count + CountOf(lines[..done], Bumpers)
  {
    LegacyRunLinesTally(dirRoot, v, lines[..done]);
    if done < |lines| {
      assert lines[..done + 1][..done] == lines[..done];
      LegacyRunLinesStops(dirRoot, v, lines[..done + 1], lines[done + 1..]);
      assert lines[..done + 1] + lines[done + 1..] == lines;
    } else {
      assert lines[..done] == lines;
    }
  }

  /**
   * The run succeeds exactly when no line raises on the variables the lines
   * before it left.
   */
  lemma {:induction false} LegacyRunLinesOk(dirRoot: string, v: LegacyVars, lines: seq<string>)
    requires v.Consistent()
    ensures LegacyRunLines(dirRoot, v, lines).0.Ok? <==>
            forall k :: 0 <= k < |lines| ==> !LegacyRaises(lines[k], LegacyRunLines(dirRoot, v, lines[..k]).1)
    decreases |lines|
  {
    if |lines| > 0 {
      var n := |lines| - 1;
      var init := lines[..n];
      LegacyRunLinesOk(dirRoot, v, init);
      if LegacyRunLines(dirRoot, v, lines).0.Ok? {
        forall k | 0 <= k < |lines|
          ensures !LegacyRaises(lines[k], LegacyRunLines(dirRoot, v, lines[..k]).1)
        {
          if k < n {
            assert lines[k] == init[k] && lines[..k] == init[..k];
          } else {
            assert lines[..k] == init;
          }
        }
      } else if LegacyRunLines(dirRoot, v, init).0.Fail? {
        var k :| 0 <= k < |init| && LegacyRaises(init[k], LegacyRunLines(dirRoot, v, init[..k]).1);
        assert lines[k] == init[k] && lines[..k] == init[..k];
      } else {
        assert lines[..n] == init;
        assert LegacyRaises(lines[n], LegacyRunLines(dirRoot, v, lines[..n]).1);
      }
    }
  }

  class LegacyRun {
    /** `str(dir_root.absolute())`: the directory named after the input file. */
    const dirRoot: string
    /** Every file on disk: path to content. */
    var files: map<string, string>
    /** `f_out` */
    var fOut: Handle
    /** `prot_filename` */
    var protFilename: Option<string>
    /** `count` */
    var count: nat
    /** `filename_list` */
    var filenames: seq<string>

    /** The disk and the loop's variables as one value. */
    ghost function Vars(): LegacyVars
      reads this
    {
      LegacyVars(files, fOut, protFilename, count, filenames)
    }

    ghost predicate Valid()
      reads this
    {
      Vars().Consistent()
    }

    /** The state when the loop starts: nothing bound yet, counter at zero. */
    constructor (initial: map<string, string>, dirRoot: string)
      ensures Valid()
      ensures this.dirRoot == dirRoot && files == initial
      ensures fOut == Unbound && protFilename == None && count == 0 && filenames == []
    {
      this.dirRoot := dirRoot;
      files := initial;
      fOut := Unbound;
      protFilename := None;
      count := 0;
      filenames := [];
    }

    /** One iteration of the loop: the outcome and new variables `LegacyNext` gives. */
    method ProcessLine(line: string) returns (r: Outcome)
      requires Valid()
      modifies this
      ensures Valid()
      ensures (r, Vars()) == LegacyNext(dirRoot, old(Vars()), line)
    {
      r := Ok;
      match Classify(line)
      case ProtocolLine =>
        var p := JoinPath(dirRoot, ProtocolDescription);
        if p in files {
          count := count + 1;
        }
        protFilename := Some(p);
        files := files[p := line];
        fOut := Open(p);
        filenames := filenames + [p];
      case ReadLine =>
        var name := JoinPath(dirRoot, Label(line) + Csv);
        if name in files {
          count := count + 1;
          var target := LegacyCollisionName(name, count);
          files := files[target := ""];
          fOut := Open(target);
        } else {
          files := files[name := ""];
          fOut := Open(name);
        }
        filenames := filenames + [name];
      case ResultsLine =>
        var name := JoinPath(dirRoot, Label(line) + Csv);
        files := files[name := ""];
        fOut := Open(name);
        filenames := filenames + [name];
      case StepLine | NotesLine =>
        if protFilename.None? {
          return Fail(NameError(ProtFilename));
        }
        files := files[protFilename.value := line];
        fOut := Closed(protFilename.value);
      case BlankLine =>
        match fOut {
          case Unbound => return Fail(NameError(FOut));
          case Open(p) => fOut := Closed(p);
          case Closed(_) =>
        }
      case CommaLine =>
        match fOut {
          case Unbound => return Fail(NameError(FOut));
          case Closed(p) => return Fail(WriteToClosed(p));
          case Open(p) => files := files[p := files[p] + RepairCommaLine(line)];
        }
      case PlateResultsLine | OtherLine =>
    }

    /**
     * The loop over the lines of the input file. The outcome and the final
     * variables are those of `LegacyRunLines`; `done` lines ran without
     * raising, and when the run failed line `done` raised.
     */
    method Run(lines: seq<string>) returns (r: Outcome, done: nat)
      requires Valid()
      modifies this
      ensures Valid()
      ensures (r, Vars()) == LegacyRunLines(dirRoot, old(Vars()), lines)
      ensures done <= |lines|
      ensures r.Ok? <==> done == |lines|
      ensures LegacyRunLines(dirRoot, old(Vars()), lines[..done]) == (Ok, Vars())
      ensures r.Fail? ==> done < |lines| && LegacyRaises(lines[done], Vars())
      ensures |filenames| == |old(filenames)| + CountOf(lines[..done], Triggers)
      ensures old(filenames) <= filenames
      ensures old(count) <= count <= old(count) + CountOf(lines[..done], Bumpers)
      ensures old(files).Keys <= files.Keys
    {
      ghost var start := Vars();
      r, done := Ok, 0;
      while done < |lines|
        invariant Valid()
        invariant done <= |lines|
        invariant LegacyRunLines(dirRoot, start, lines[..done]) == (Ok, Vars())
      {
        var step := ProcessLine(lines[done]);
        assert lines[..done + 1][..done] == lines[..done];
        assert LegacyRunLines(dirRoot, start, lines[..done + 1]) == (step, Vars());
        if step.Fail? {
          r := step;
          break;
        }
        done := done + 1;
      }
      LegacyRunLinesAt(dirRoot, start, lines, done);
    }
  }
}
