/**
 * The dispatch loop of PromegaParser.py (`main`, one pass over the lines of
 * each input file). The variables the loop rebinds are the fields of
 * `RunState`; the output directory is a map from path to content, where
 * opening a path for writing sets its content to "" and a write appends.
 *
 * `Next` says what one iteration does to those variables, `RunLines` what
 * the loop over one input file does and `RunFiles` what the loop over all
 * input files does; the methods of `RunState` are proved to do exactly that.
 */
module Splitter {
  import opened PyStr
  import opened FileModel
  import opened Lines

  /** The disk and the variables the loop rebinds, as one value. */
  datatype LoopVars = LoopVars(
    files: map<string, string>,
    fOut: Handle,
    fFilename: Option<string>,
    protFilename: Option<string>,
    count: nat,
    filenames: seq<string>)
  {
    /** An open handle always names a file on disk. */
    predicate Consistent() {
      fOut.Open? ==> fOut.path in files
    }
  }

  /**
   * The lines whose branch raises, given the variables they read: `,Read`
   * before any name is bound, Notes before any Protocol, a blank line before
   * any file was opened, a data row with no open file.
   */
  predicate Raises(line: string, v: LoopVars)
  {
    match Classify(line)
    case ReadLine => v.fFilename.None?
    case NotesLine => v.protFilename.None?
    case BlankLine => v.fOut.Unbound?
    case CommaLine => !v.fOut.Open?
    case _ => false
  }

  /** `output_directory / floc.stem.replace(' ', '_')` */
  function OutDir(outputDirectory: string, stem: string): string {
    JoinPath(outputDirectory, Replace(stem, " ", "_"))
  }

  /** A new input file resets the counter and the name list, nothing else. */
  function Begin(v: LoopVars): LoopVars {
    v.(count := 0, filenames := [])
  }

  /**
   * One iteration of the loop on `line`, with `outdir` bound: the outcome and
   * the new variables. A line that raises leaves everything as it was.
   */
  function Next(outdir: string, v: LoopVars, line: string): (step: (Outcome, LoopVars))
    requires v.Consistent()
    ensures step.1.Consistent()
    ensures step.0.Fail? <==> Raises(line, v)
    ensures step.0.Fail? ==> step.1 == v
    ensures v.files.Keys <= step.1.files.Keys
    ensures v.count <= step.1.count <= v.count + (if Classify(line) == ReadLine then 1 else 0)
    ensures v.filenames <= step.1.filenames
    ensures |step.1.filenames| == |v.filenames| + (if step.0.Ok? && Classify(line) in Triggers then 1 else 0)
  {
    match Classify(line)
    // Protocol: (re)create the description file holding just this line and keep it open.
    case ProtocolLine =>
      var p := JoinPath(outdir, ProtocolDescription);
      (Ok, v.(files := v.files[p := line], fOut := Open(p), protFilename := Some(p),
              filenames := v.filenames + [p]))
    // Step: only the pending name changes.
    case StepLine =>
      (Ok, v.(fFilename := Some(JoinPath(outdir, StepBaseName(line)))))
    // ,Read: extend the current name; on collision bump the counter and open the suffixed name.
    case ReadLine =>
      if v.fFilename.None? then (Fail(NameError(FFilename)), v)
      else
        var name := ReadName(v.fFilename.value, line);
        var clash := name in v.files;
        var count := if clash then v.count + 1 else v.count;
        var target := if clash then CollisionName(name, count) else name;
        (Ok, v.(files := v.files[target := ""], fOut := Open(target), fFilename := Some(name),
                count := count, filenames := v.filenames + [name]))
    // Results: open `outdir/label.csv`, truncating it, with no collision check.
    case ResultsLine =>
      var name := JoinPath(outdir, Label(line) + Csv);
      (Ok, v.(files := v.files[name := ""], fOut := Open(name), fFilename := Some(name),
              filenames := v.filenames + [name]))
    // Notes: rewrite the description file with just this line; the `with` block closes it.
    case NotesLine =>
      if v.protFilename.None? then (Fail(NameError(ProtFilename)), v)
      else
        var p := v.protFilename.value;
        (Ok, v.(files := v.files[p := line], fOut := Closed(p)))
    // Blank line: close an open handle, ignore a closed one, never write.
    case BlankLine =>
      match v.fOut {
        case Unbound => (Fail(NameError(FOut)), v)
        case Open(p) => (Ok, v.(fOut := Closed(p)))
        case Closed(_) => (Ok, v)
      }
    // Comma line: append the repaired line through the open handle.
    case CommaLine =>
      match v.fOut {
        case Unbound => (Fail(NameError(FOut)), v)
        case Closed(p) => (Fail(WriteToClosed(p)), v)
        case Open(p) => (Ok, v.(files := v.files[p := v.files[p] + RepairCommaLine(line)]))
      }
    // PlateResults and anything unrecognised: dropped.
    case PlateResultsLine => (Ok, v)
    case OtherLine => (Ok, v)
  }

  /**
   * The loop over the lines of one input file: every line in turn, until one
   * raises; the variables are those the last line that ran left behind.
   */
  function RunLines(outdir: string, v: LoopVars, lines: seq<string>): (run: (Outcome, LoopVars))
    requires v.Consistent()
    ensures run.1.Consistent()
    decreases |lines|
  {
    if |lines| == 0 then (Ok, v)
    else
      var prior := RunLines(outdir, v, lines[..|lines| - 1]);
      if prior.0.Fail? then prior else Next(outdir, prior.1, lines[|lines| - 1])
  }

  /** Once a line has raised, the lines after it change nothing. */
  lemma {:induction false} RunLinesStops(outdir: string, v: LoopVars, s: seq<string>, t: seq<string>)
    requires v.Consistent() && RunLines(outdir, v, s).0.Fail?
    ensures RunLines(outdir, v, s + t) == RunLines(outdir, v, s)
    decreases |t|
  {
    if |t| == 0 {
      assert s + t == s;
    } else {
      RunLinesStops(outdir, v, s, t[..|t| - 1]);
      assert (s + t)[..|s + t| - 1] == s + t[..|t| - 1];
    }
  }

  /**
   * What a file's run does to the disk, the name list and the counter: paths
   * are only added, names only appended and the counter only raised. A run
   * that succeeds appends one name per Protocol, `,Read` and Results line and
   * raises the counter at most once per `,Read` line.
   */
  lemma {:induction false} RunLinesTally(outdir: string, v: LoopVars, lines: seq<string>)
    requires v.Consistent()
    ensures var run := RunLines(outdir, v, lines);
            v.files.Keys <= run.1.files.Keys && v.filenames <= run.1.filenames && v.count <= run.1.count
            && (run.0.Ok? ==>
                  |run.1.filenames| == |v.filenames| + CountOf(lines, Triggers)
                  && run.1.count <= v.count + CountOf(lines, {ReadLine}))
    decreases |lines|
  {
    if |lines| > 0 {
      RunLinesTally(outdir, v, lines[..|lines| - 1]);
    }
  }

  /**
   * Where a file's run stops: when its first `done` lines run without raising
   * and either that is all of them or line `done` raises, the run ends with
   * the variables those `done` lines left, it fails exactly when lines remain
   * and then line `done` raises on them, and the tallies of `RunLinesTally`
   * hold of those `done` lines.
   */
  lemma {:induction false} RunLinesAt(outdir: string, v: LoopVars, lines: seq<string>, done: nat)
    requires v.Consistent() && done <= |lines|
    requires RunLines(outdir, v, lines[..done]).0.Ok?
    requires done < |lines| ==> RunLines(outdir, v, lines[..done + 1]).0.Fail?
    ensures var w := RunLines(outdir, v, lines[..done]).1;
            var run := RunLines(outdir, v, lines);
            run.1 == w
            && (run.0.Ok? <==> done == |lines|)
            && (done < |lines| ==> run == RunLines(outdir, v, lines[..done + 1]) && Raises(lines[done], w))
            && v.files.Keys <= w.files.Keys && v.filenames <= w.filenames && v.count <= w.count
            && |w.filenames| == |v.filenames| + CountOf(lines[..done], Triggers)
            && w.count <= v.count + CountOf(lines[..done], {ReadLine})
  {
    RunLinesTally(outdir, v, lines[..done]);
    if done < |lines| {
      assert lines[..done + 1][..done] == lines[..done];
      RunLinesStops(outdir, v, lines[..done + 1], lines[done + 1..]);
      assert lines[..done + 1] + lines[done + 1..] == lines;
    } else {
      assert lines[..done] == lines;
    }
  }

  /**
   * A file's run succeeds exactly when no line raises on the variables the
   * lines before it left: both that a raising line makes the run fail and
   * that a run fails only on a raising line.
   */
  lemma {:induction false} RunLinesOk(outdir: string, v: LoopVars, lines: seq<string>)
    requires v.Consistent()
    ensures RunLines(outdir, v, lines).0.Ok? <==>
            forall k :: 0 <= k < |lines| ==> !Raises(lines[k], RunLines(outdir, v, lines[..k]).1)
    decreases |lines|
  {
    if |lines| > 0 {
      var n := |lines| - 1;
      var init := lines[..n];
      RunLinesOk(outdir, v, init);
      if RunLines(outdir, v, lines).0.Ok? {
        forall k | 0 <= k < |lines|
          ensures !Raises(lines[k], RunLines(outdir, v, lines[..k]).1)
        {
          if k < n {
            assert lines[k] == init[k] && lines[..k] == init[..k];
          } else {
            assert lines[..k] == init;
          }
        }
      } else if RunLines(outdir, v, init).0.Fail? {
        var k :| 0 <= k < |init| && Raises(init[k], RunLines(outdir, v, init[..k]).1);
        assert lines[k] == init[k] && lines[..k] == init[..k];
      } else {
        assert lines[..n] == init;
        assert Raises(lines[n], RunLines(outdir, v, lines[..n]).1);
      }
    }
  }

  /**
   * The loop over the input files, each given by its stem and its lines,
   * until a line raises; every file starts from what the previous one left.
   */
  function RunFiles(outputDirectory: string, v: LoopVars, inputs: seq<(string, seq<string>)>): (run: (Outcome, LoopVars))
    requires v.Consistent()
    ensures run.1.Consistent()
    decreases |inputs|
  {
    if |inputs| == 0 then (Ok, v)
    else
      var prior := RunFiles(outputDirectory, v, inputs[..|inputs| - 1]);
      if prior.0.Fail? then prior
      else
        var (stem, lines) := inputs[|inputs| - 1];
        RunLines(OutDir(outputDirectory, stem), Begin(prior.1), lines)
  }

  /** One more file, after a prefix of the files that ran without raising. */
  lemma RunFilesExtend(outputDirectory: string, v: LoopVars, inputs: seq<(string, seq<string>)>, n: nat)
    requires v.Consistent() && n < |inputs| && RunFiles(outputDirectory, v, inputs[..n]).0.Ok?
    ensures RunFiles(outputDirectory, v, inputs[..n + 1])
            == RunLines(OutDir(outputDirectory, inputs[n].0), Begin(RunFiles(outputDirectory, v, inputs[..n]).1), inputs[n].1)
  {
    assert inputs[..n + 1][..n] == inputs[..n];
  }

  /**
   * What the run over the input files does to the disk, the name list and the
   * counter: paths are only added, and after a run that succeeds the name list
   * and the counter are those of the last file alone, since every file starts
   * them afresh.
   */
  lemma {:induction false} RunFilesTally(outputDirectory: string, v: LoopVars, inputs: seq<(string, seq<string>)>)
    requires v.Consistent()
    ensures var run := RunFiles(outputDirectory, v, inputs);
            v.files.Keys <= run.1.files.Keys
            && (run.0.Ok? && |inputs| > 0 ==>
                  var lines := inputs[|inputs| - 1].1;
                  |run.1.filenames| == CountOf(lines, Triggers) && run.1.count <= CountOf(lines, {ReadLine}))
    decreases |inputs|
  {
    if |inputs| > 0 {
      var init := inputs[..|inputs| - 1];
      RunFilesTally(outputDirectory, v, init);
      var prior := RunFiles(outputDirectory, v, init);
      if prior.0.Ok? {
        RunLinesTally(OutDir(outputDirectory, inputs[|inputs| - 1].0), Begin(prior.1), inputs[|inputs| - 1].1);
      }
    }
  }

  /**
   * Where the run over the input files stops: when the first `done` files run
   * without raising and either that is all of them or file `done` raises, the
   * run is that of the first `done` files, or of the first `done + 1`.
   */
  lemma {:induction false} RunFilesAt(outputDirectory: string, v: LoopVars, inputs: seq<(string, seq<string>)>, done: nat)
    requires v.Consistent() && done <= |inputs|
    requires RunFiles(outputDirectory, v, inputs[..done]).0.Ok?
    requires done < |inputs| ==> RunFiles(outputDirectory, v, inputs[..done + 1]).0.Fail?
    ensures var run := RunFiles(outputDirectory, v, inputs);
            (run.0.Ok? <==> done == |inputs|)
            && run == (if done < |inputs| then RunFiles(outputDirectory, v, inputs[..done + 1])
                       else RunFiles(outputDirectory, v, inputs[..done]))
  {
    if done < |inputs| {
      assert RunFiles(outputDirectory, v, inputs) == RunFiles(outputDirectory, v, inputs[..done + 1]) by {
        RunFilesStops(outputDirectory, v, inputs[..done + 1], inputs[done + 1..]);
        assert inputs[..done + 1] + inputs[done + 1..] == inputs;
      }
    } else {
      assert inputs[..done] == inputs;
    }
  }

  /** Once a file has raised, the files after it change nothing. */
  lemma {:induction false} RunFilesStops(outputDirectory: string, v: LoopVars,
                                         s: seq<(string, seq<string>)>, t: seq<(string, seq<string>)>)
    requires v.Consistent() && RunFiles(outputDirectory, v, s).0.Fail?
    ensures RunFiles(outputDirectory, v, s + t) == RunFiles(outputDirectory, v, s)
    decreases |t|
  {
    if |t| == 0 {
      assert s + t == s;
    } else {
      RunFilesStops(outputDirectory, v, s, t[..|t| - 1]);
      assert (s + t)[..|s + t| - 1] == s + t[..|t| - 1];
    }
  }

  class RunState {
    /** The value of `--output_directory`. */
    const outputDirectory: string
    /** Every file on disk: path to content. */
    var files: map<string, string>
    /** `outdir`: the directory of the input file being read. */
    var outdir: string
    /** `f_out` */
    var fOut: Handle
    /** `f_filename`: rebound by Step, `,Read` and Results lines. */
    var fFilename: Option<string>
    /** `prot_filename` */
    var protFilename: Option<string>
    /** `count`: the collision counter of the current input file. */
    var count: nat
    /** `filename_list` of the current input file. */
    var filenames: seq<string>

    /** The disk and the loop's variables as one value. */
    ghost function Vars(): LoopVars
      reads this
    {
      LoopVars(files, fOut, fFilename, protFilename, count, filenames)
    }

    ghost predicate Valid()
      reads this
    {
      Vars().Consistent()
    }

    /** The state before the first input file: nothing bound yet. */
    constructor (initial: map<string, string>, outputDirectory: string)
      ensures Valid()
      ensures this.outputDirectory == outputDirectory && outdir == outputDirectory
      ensures files == initial && fOut == Unbound && fFilename == None && protFilename == None
      ensures count == 0 && filenames == []
    {
      this.outputDirectory := outputDirectory;
      files := initial;
      outdir := outputDirectory;
      fOut := Unbound;
      fFilename := None;
      protFilename := None;
      count := 0;
      filenames := [];
    }

    /**
     * Start a new input file: bind its directory and reset the counter and
     * the name list. `f_out`, `f_filename` and `prot_filename` keep whatever
     * the previous file left in them.
     */
    method BeginFile(stem: string)
      requires Valid()
      modifies this
      ensures Valid()
      ensures outdir == OutDir(outputDirectory, stem)
      ensures Vars() == Begin(old(Vars()))
    {
      outdir := OutDir(outputDirectory, stem);
      count := 0;
      filenames := [];
    }

    /**
     * One iteration of the loop: the outcome and the new variables are those
     * `Next` gives. A line whose branch reads an unbound variable, or writes
     * through a closed handle, raises and changes nothing.
     */
    method ProcessLine(line: string) returns (r: Outcome)
      requires Valid()
      modifies this
      ensures Valid()
      ensures outdir == old(outdir)
      ensures (r, Vars()) == Next(outdir, old(Vars()), line)
    {
      r := Ok;
      match Classify(line)
      case ProtocolLine =>
        var p := JoinPath(outdir, ProtocolDescription);
        protFilename := Some(p);
        files := files[p := line];
        fOut := Open(p);
        filenames := filenames + [p];
      case StepLine =>
        fFilename := Some(JoinPath(outdir, StepBaseName(line)));
      case ReadLine =>
        if fFilename.None? {
          return Fail(NameError(FFilename));
        }
        var name := ReadName(fFilename.value, line);
        fFilename := Some(name);
        if name in files {
          count := count + 1;
          var target := CollisionName(name, count);
          files := files[target := ""];
          fOut := Open(target);
        } else {
          files := files[name := ""];
          fOut := Open(name);
        }
        filenames := filenames + [name];
      case ResultsLine =>
        var name := JoinPath(outdir, Label(line) + Csv);
        fFilename := Some(name);
        files := files[name := ""];
        fOut := Open(name);
        filenames := filenames + [name];
      case NotesLine =>
        if protFilename.None? {
          return Fail(NameError(ProtFilename));
        }
        files := files[protFilename.value := line];
        fOut := Closed(protFilename.value);
      case BlankLine =>
        match fOut {
          case Unbound => return Fail(NameError(FOut));
          case Open(p) => fOut := Closed(p);
          case Closed(_) =>
        }
      case CommaLine =>
        match fOut {
          case Unbound => return Fail(NameError(FOut));
          case Closed(p) => return Fail(WriteToClosed(p));
          case Open(p) => files := files[p := files[p] + RepairCommaLine(line)];
        }
      case PlateResultsLine =>
      case OtherLine =>
    }

    /**
     * The loop over one input file's lines, after its directory is bound. The
     * outcome and the final variables are those of `RunLines`; `done` lines
     * ran without raising, and when the run failed line `done` raised.
     */
    method ProcessFile(stem: string, lines: seq<string>) returns (r: Outcome, done: nat)
      requires Valid()
      modifies this
      ensures Valid()
      ensures outdir == OutDir(outputDirectory, stem)
      ensures (r, Vars()) == RunLines(outdir, Begin(old(Vars())), lines)
      ensures done <= |lines|
      ensures r.Ok? <==> done == |lines|
      ensures RunLines(outdir, Begin(old(Vars())), lines[..done]) == (Ok, Vars())
      ensures r.Fail? ==> done < |lines| && Raises(lines[done], Vars())
      ensures |filenames| == CountOf(lines[..done], Triggers)
      ensures count <= CountOf(lines[..done], {ReadLine})
      ensures old(files).Keys <= files.Keys
    {
      BeginFile(stem);
      ghost var start := Vars();
      r, done := Ok, 0;
      while done < |lines|
        invariant Valid()
        invariant outdir == OutDir(outputDirectory, stem)
        invariant done <= |lines|
        invariant RunLines(outdir, start, lines[..done]) == (Ok, Vars())
      {
        var step := ProcessLine(lines[done]);
        assert lines[..done + 1][..done] == lines[..done];
        assert RunLines(outdir, start, lines[..done + 1]) == (step, Vars());
        if step.Fail? {
          r := step;
          break;
        }
        done := done + 1;
      }
      RunLinesAt(outdir, start, lines, done);
    }

    /**
     * The loop over the input files, each given by its stem and its lines.
     * The outcome and the final variables are those of `RunFiles`; an
     * exception ends the whole run, in file `done`.
     */
    method ProcessFiles(inputs: seq<(string, seq<string>)>) returns (r: Outcome, done: nat)
      requires Valid()
      modifies this
      ensures Valid()
      ensures (r, Vars()) == RunFiles(outputDirectory, old(Vars()), inputs)
      ensures done <= |inputs|
      ensures r.Ok? <==> done == |inputs|
      ensures r.Ok? && |inputs| > 0 ==>
        var (stem, lines) := inputs[|inputs| - 1];
        outdir == OutDir(outputDirectory, stem)
        && |filenames| == CountOf(lines, Triggers) && count <= CountOf(lines, {ReadLine})
      ensures r.Fail? ==>
        done < |inputs| &&
        exists k :: 0 <= k < |inputs[done].1| && Raises(inputs[done].1[k], Vars())
      ensures old(files).Keys <= files.Keys
    {
      ghost var start := Vars();
      r, done := Ok, 0;
      while done < |inputs|
        invariant Valid()
        invariant done <= |inputs|
        invariant r.Ok?
        invariant RunFiles(outputDirectory, start, inputs[..done]) == (Ok, Vars())
        invariant done > 0 ==> outdir == OutDir(outputDirectory, inputs[done - 1].0)
      {
        var stem, lines := inputs[done].0, inputs[done].1;
        var lineCount;
        r, lineCount := ProcessFile(stem, lines);
        assert RunFiles(outputDirectory, start, inputs[..done + 1]) == (r, Vars()) by {
          RunFilesExtend(outputDirectory, start, inputs, done);
        }
        if r.Fail? {
          assert Raises(inputs[done].1[lineCount], Vars());
          break;
        }
        done := done + 1;
      }
      RunFilesAt(outputDirectory, start, inputs, done);
      RunFilesTally(outputDirectory, start, inputs);
    }
  }
}
