/**
 * The pure part of the splitter: how a line of a GloMax Multi+ export is
 * classified, how a comma-led data line is repaired before it is written,
 * and how output file names are built from Step, Read and Results lines.
 * Both scripts share these expressions.
 */
module Lines {
  import opened PyStr

  const ProtocolDescription := "Protocol_Description.txt"
  const Csv := ".csv"

  datatype LineKind =
    | ProtocolLine | StepLine | ReadLine | ResultsLine | NotesLine
    | BlankLine | CommaLine | PlateResultsLine | OtherLine

  /** The dispatch order of the loop: the first test that holds decides. */
  function Classify(line: string): LineKind {
    if StartsWith(line, "Protocol") then ProtocolLine
    else if StartsWith(line, "Step") then StepLine
    else if StartsWith(line, ",Read") then ReadLine
    else if StartsWith(line, "Results") then ResultsLine
    else if StartsWith(line, "Notes") then NotesLine
    else if line == "\n" then BlankLine
    else if StartsWith(line, ",") then CommaLine
    else if StartsWith(line, "PlateResults") then PlateResultsLine
    else OtherLine
  }

  /** How many of `lines` are of one of the given kinds. */
  function CountOf(lines: seq<string>, kinds: set<LineKind>): nat
  {
    if |lines| == 0 then 0
    else CountOf(lines[..|lines| - 1], kinds) + (if Classify(lines[|lines| - 1]) in kinds then 1 else 0)
  }

  /** The kinds of line that open an output file and record its name. */
  const Triggers: set<LineKind> := {ProtocolLine, ReadLine, ResultsLine}

  /**
   * Apart from `,Read` (which is tested before `,`), the prefixes exclude one
   * another, so each kind is decided by its own test alone and the order of
   * the chain does not matter; this is why the two scripts, which test in
   * different orders, classify alike.
   */
  lemma ClassifyOrderFree(line: string)
    ensures Classify(line) == ProtocolLine <==> StartsWith(line, "Protocol")
    ensures Classify(line) == StepLine <==> StartsWith(line, "Step")
    ensures Classify(line) == ReadLine <==> StartsWith(line, ",Read")
    ensures Classify(line) == ResultsLine <==> StartsWith(line, "Results")
    ensures Classify(line) == NotesLine <==> StartsWith(line, "Notes")
    ensures Classify(line) == BlankLine <==> line == "\n"
    ensures Classify(line) == CommaLine <==> StartsWith(line, ",") && !StartsWith(line, ",Read")
    ensures Classify(line) == PlateResultsLine <==> StartsWith(line, "PlateResults")
  {
    if |line| > 0 {
      assert StartsWith(line, "Protocol") ==> line[0] == 'P';
      assert StartsWith(line, "PlateResults") ==> line[0] == 'P' && line[1] == 'l';
      assert StartsWith(line, "Protocol") ==> line[1] == 'r';
      assert StartsWith(line, "Step") ==> line[0] == 'S';
      assert StartsWith(line, ",Read") ==> line[0] == ',';
      assert StartsWith(line, ",") ==> line[0] == ',';
      assert StartsWith(line, "Results") ==> line[0] == 'R';
      assert StartsWith(line, "Notes") ==> line[0] == 'N';
      assert line == "\n" ==> line[0] == '\n';
    }
  }

  /**
   * The repair written in place of a line that starts with a comma: a leading
   * `,,` collapses every doubled comma, an inner `,,` leaves the line alone,
   * and otherwise the leading commas go and every `:` becomes `,`.
   */
  function RepairCommaLine(line: string): string {
    if StartsWith(line, ",,") then Replace(line, ",,", ",")
    else if Contains(line, ",,") && !StartsWith(line, ",,") then line
    else Replace(LStrip(line, ','), ":", ",")
  }

  /** A line led by `,,` comes out strictly shorter, still led by one comma. */
  lemma RepairCollapsesLeadingPair(line: string)
    requires StartsWith(line, ",,")
    ensures |RepairCommaLine(line)| < |line|
    ensures StartsWith(RepairCommaLine(line), ",")
  {
    assert Replace(line, ",,", ",") == "," + Replace(line[2..], ",,", ",");
  }

  /**
   * A line led by `,,` with no further doubled comma after that pair loses
   * just its first comma: `,,A,B` is written as `,A,B`.
   */
  lemma RepairCollapsesSinglePair(line: string)
    requires StartsWith(line, ",,") && !Contains(line[2..], ",,")
    ensures RepairCommaLine(line) == line[1..]
  {
    ReplaceWithoutMatch(line[2..], ",,", ",");
    assert Replace(line, ",,", ",") == "," + line[2..];
    assert line[1..] == [line[1]] + line[2..];
  }

  /** A line with a doubled comma somewhere but not at its start is written as read. */
  lemma RepairKeepsInnerPair(line: string, i: nat)
    requires !StartsWith(line, ",,") && OccursAt(line, ",,", i)
    ensures RepairCommaLine(line) == line
  {
    ContainsIffOccurs(line, ",,");
  }

  /**
   * A line led by a single comma and free of `,,` loses exactly that comma
   * and has each `:` turned into `,`, character by character.
   */
  lemma RepairDropsLeadingComma(line: string)
    requires StartsWith(line, ",") && forall i :: !OccursAt(line, ",,", i)
    ensures |RepairCommaLine(line)| == |line| - 1
    ensures ':' !in RepairCommaLine(line)
    ensures forall i :: 0 <= i < |line| - 1 ==>
              RepairCommaLine(line)[i] == if line[i + 1] == ':' then ',' else line[i + 1]
  {
    assert !OccursAt(line, ",,", 0);
    ContainsIffOccurs(line, ",,");
    var stripped := LStrip(line, ',');
    LStripSpec(line, ',');
    assert stripped == line[1..];
    ReplaceCharAt(stripped, ':', ',');
    ReplaceCharRemoves(stripped, ':', ',');
  }

  /** `line.lstrip(',').strip('\n').replace(' ', '_')`: the table title in a file name. */
  function Label(line: string): string {
    Replace(Strip(LStrip(line, ','), '\n'), " ", "_")
  }

  /**
   * A label holds no space, neither starts nor ends with a newline, and is
   * never longer than the line.
   */
  lemma LabelShape(line: string)
    ensures ' ' !in Label(line)
    ensures |Label(line)| <= |line|
    ensures |Label(line)| > 0 ==> Label(line)[0] != '\n' && Label(line)[|Label(line)| - 1] != '\n'
  {
    var trimmed := Strip(LStrip(line, ','), '\n');
    StripSpec(LStrip(line, ','), '\n');
    ReplaceCharAt(trimmed, ' ', '_');
    ReplaceCharRemoves(trimmed, ' ', '_');
  }

  /**
   * `"_".join(line.replace('.', ',').replace(' ', '').split(',')[0:3])`:
   * the base name a Step line leaves for the next Read table.
   */
  function StepBaseName(line: string): string {
    var tokens := Split(Replace(Replace(line, ".", ","), " ", ""), ',');
    Join(if |tokens| <= 3 then tokens else tokens[..3], "_")
  }

  /** A Step base name holds no space, period or comma. */
  lemma StepBaseNameClean(line: string)
    ensures ' ' !in StepBaseName(line) && '.' !in StepBaseName(line) && ',' !in StepBaseName(line)
  {
    var commas := Replace(line, ".", ",");
    var cleaned := Replace(commas, " ", "");
    var tokens := Split(cleaned, ',');
    var kept := if |tokens| <= 3 then tokens else tokens[..3];
    assert StepBaseName(line) == Join(kept, "_");
    ReplaceCharRemoves(line, '.', ',');
    ReplaceDeletes(commas, ' ');
    assert multiset(cleaned)['.'] == multiset(commas)['.'] == 0;
    assert '.' !in cleaned;
    JoinAvoids(kept, "_", ' ');
    JoinAvoids(kept, "_", '.');
    JoinAvoids(kept, "_", ',');
  }

  /**
   * The base name of a Step line starts with `Step`: its first token is kept
   * whole. The rest of the line (its newline included, when the line has
   * fewer than four tokens) follows in the remaining tokens.
   */
  lemma StepBaseNameStartsWithStep(line: string)
    requires StartsWith(line, "Step")
    ensures StartsWith(StepBaseName(line), "Step")
  {
    var commas := Replace(line, ".", ",");
    var cleaned := Replace(commas, " ", "");
    var tokens := Split(cleaned, ',');
    var kept := if |tokens| <= 3 then tokens else tokens[..3];
    assert StepBaseName(line) == Join(kept, "_");
    var rest := line[4..];
    assert line == "Step" + rest;
    ReplaceSkipsPrefix("Step", rest, ".", ",");
    assert commas == "Step" + Replace(rest, ".", ",");
    ReplaceSkipsPrefix("Step", Replace(rest, ".", ","), " ", "");
    assert cleaned == "Step" + Replace(Replace(rest, ".", ","), " ", "");
    SplitSkipsPrefix("Step", Replace(Replace(rest, ".", ","), " ", ""), ',');
    assert kept[0] == tokens[0];
    JoinStartsWithFirst(kept, "_");
  }

  /** `f_filename.with_name(f_filename.name + "_" + label + '.csv')` */
  function ReadName(prev: string, line: string): (name: string)
    ensures EndsWith(name, Csv)
  {
    prev + "_" + Label(line) + Csv
  }

  /**
   * `f_filename.with_name(f_filename.stem + '_{}'.format(count) + f_filename.suffix)`
   * for a name ending in `.csv`: the counter goes between stem and extension.
   */
  function CollisionName(name: string, count: nat): (r: string)
    requires EndsWith(name, Csv)
    ensures EndsWith(r, Csv)
    ensures StartsWith(r, name[..|name| - |Csv|] + "_")
    ensures |r| > |name|
  {
    name[..|name| - |Csv|] + "_" + NatToString(count) + Csv
  }

  /** Different counter values give different suffixed names. */
  lemma CollisionNameInjective(name: string, m: nat, n: nat)
    requires EndsWith(name, Csv)
    requires CollisionName(name, m) == CollisionName(name, n)
    ensures m == n
  {
    var stem := name[..|name| - |Csv|] + "_";
    var r := CollisionName(name, m);
    assert r[|stem|..|r| - |Csv|] == NatToString(m);
    assert CollisionName(name, n)[|stem|..|r| - |Csv|] == NatToString(n);
    NatToStringInjective(m, n);
  }

  /**
   * `f_filename + '_{}'.format(count)` in the earlier script: the counter goes
   * after the `.csv`, so the suffixed name no longer ends in `.csv`.
   */
  function LegacyCollisionName(name: string, count: nat): (r: string)
    ensures StartsWith(r, name + "_")
    ensures |r| > |name| + 1
    ensures !EndsWith(r, Csv)
  {
    var digits := NatToString(count);
    var r := name + "_" + digits;
    assert r[|r| - 1] == digits[|digits| - 1];
    r
  }

  /** Different counter values give different suffixed names in the earlier script too. */
  lemma LegacyCollisionNameInjective(name: string, m: nat, n: nat)
    requires LegacyCollisionName(name, m) == LegacyCollisionName(name, n)
    ensures m == n
  {
    var r := LegacyCollisionName(name, m);
    assert r[|name| + 1..] == NatToString(m);
    assert LegacyCollisionName(name, n)[|name| + 1..] == NatToString(n);
    NatToStringInjective(m, n);
  }
}
