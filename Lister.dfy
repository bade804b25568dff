/**
 * The logic of DirectoryFileLister's `Main` (DirectoryFileLister/Program.cs):
 * resolving the scan root, turning each file's metadata into one record
 * line, and printing the collected records with a running counter.
 *
 * The command-line parser, the file system, the version-resource reader,
 * the date formatting and the concurrent bag are outside the model: their
 * results come in as parameters.
 */
module Lister {
  import opened Wrappers
  import opened Strings
  import opened Seqs

  /** What the command-line parser produced: the two arguments, or the message of a CommandLineException. */
  datatype CommandLine =
    | Parsed(searchPath: Option<string>, wait: bool)
    | ParseError(message: string)

  /**
   * One file as the enumeration and the metadata readers describe it:
   * `FileInfo.FullName`, `FileVersionInfo.FileVersion` (which may be null)
   * and the two halves of the locale-dependent last-write time.
   */
  datatype FileEntry = FileEntry(fullName: string, fileVersion: Option<string>, shortDate: string, shortTime: string)

  /**
   * How a run ends, with the lines it wrote to standard output.
   * Completed: the run got through its output; `waitsForKey` says whether
   * it then blocks on `Console.ReadKey`. Without a wait it goes on to
   * `Environment.ExitCode = 0`; with one, the exception `ReadKey` throws
   * when input is redirected is not modelled, so the exit code is set only
   * once a key arrives.
   * ParseFailed: a CommandLineException was caught; the exit code is not set.
   * Faulted: an exception other than CommandLineException escaped `Main`;
   * the last entry of `stdout` was written without a line terminator.
   */
  datatype Outcome =
    | Completed(stdout: seq<string>, waitsForKey: bool)
    | ParseFailed(stdout: seq<string>)
    | Faulted(stdout: seq<string>)

  const VersionSentinel := "0.0.0.0"
  const RecordFieldWidth: nat := 20
  const CounterWidth: nat := 8

  // ---------------------------------------------------------------------
  // Root resolution
  // ---------------------------------------------------------------------

  /**
   * The directory to scan: the `searchPath` argument unless it is absent or
   * empty, otherwise the directory of the running executable (`exeDir`,
   * the result of `Path.GetDirectoryName`, which may itself be null).
   */
  function ResolveRoot(searchPath: Option<string>, exeDir: Option<string>): (root: Option<string>)
    ensures IsNullOrEmpty(searchPath) ==> root == exeDir
    ensures !IsNullOrEmpty(searchPath) ==> root == searchPath && root.value != []
    ensures root.None? ==> searchPath.None? || searchPath == Some([])
  {
    if IsNullOrEmpty(searchPath) then exeDir else searchPath
  }

  /** A root is null only when both sources of a root fail, and then it is null. */
  lemma ResolveRootNone(searchPath: Option<string>, exeDir: Option<string>)
    ensures ResolveRoot(searchPath, exeDir).None? <==> IsNullOrEmpty(searchPath) && exeDir.None?
  {
  }

  // ---------------------------------------------------------------------
  // One record per file
  // ---------------------------------------------------------------------

  /** The file version, with the sentinel "0.0.0.0" for a null or empty one. */
  function FileVersionOrDefault(fileVersion: Option<string>): (version: string)
    ensures version != []
    ensures IsNullOrEmpty(fileVersion) ==> version == VersionSentinel
    ensures !IsNullOrEmpty(fileVersion) ==> version == fileVersion.value
  {
    if IsNullOrEmpty(fileVersion) then VersionSentinel else fileVersion.value
  }

  /** The sentinel shows exactly when there is no version or the version is the sentinel itself. */
  lemma SentinelShown(fileVersion: Option<string>)
    ensures FileVersionOrDefault(fileVersion) == VersionSentinel
            <==> IsNullOrEmpty(fileVersion) || fileVersion == Some(VersionSentinel)
  {
  }

  /** `ToShortDateString() + " " + ToShortTimeString()`. */
  function LastModified(e: FileEntry): (s: string)
    ensures |s| == |e.shortDate| + 1 + |e.shortTime|
    ensures s[..|e.shortDate|] == e.shortDate && s[|e.shortDate|] == ' ' && s[|e.shortDate| + 1..] == e.shortTime
  {
    e.shortDate + " " + e.shortTime
  }

  /** `fullName.Replace(root, "")`: every occurrence of the root string removed. */
  function RelativePath(fullName: string, root: string): (rel: string)
    requires |root| > 0
    ensures |rel| <= |fullName|
  {
    ReplaceAll(fullName, root, "")
  }

  /** A file directly under the root, whose path repeats the root nowhere else, gets the rest of its path. */
  lemma RelativePathOfChild(root: string, rest: string)
    requires |root| > 0
    requires forall i :: 0 < i ==> !OccursAt(root, root + rest, i)
    ensures RelativePath(root + rest, root) == rest
  {
    ReplaceAllLeadingOnly(root, rest);
  }

  /** A path that does not contain the root string is printed whole. */
  lemma RelativePathOutsideRoot(fullName: string, root: string)
    requires |root| > 0
    requires forall i :: !OccursAt(root, fullName, i)
    ensures RelativePath(fullName, root) == fullName
  {
    ReplaceAllAbsent(fullName, root, "");
  }

  /** The root's separator is kept: `/scan/sub/dir/file.txt` under `/scan` prints as `/sub/dir/file.txt`. */
  lemma RelativePathExample()
    ensures RelativePath("/scan/sub/dir/file.txt", "/scan") == "/sub/dir/file.txt"
  {
    var root, rest := "/scan", "/sub/dir/file.txt";
    assert root + rest == "/scan/sub/dir/file.txt";
    forall i | 0 < i
      ensures !OccursAt(root, root + rest, i)
    {
      // an occurrence needs "sc" at i + 1, which appears only at index 1
      OccursAtChar(root, root + rest, i, 1);
      OccursAtChar(root, root + rest, i, 2);
    }
    ReplaceAllLeadingOnly(root, rest);
  }

  /** String removal is not path relativisation: a later repetition of the root is removed too. */
  lemma RelativePathRepeatedRoot()
    ensures RelativePath("/a/b/a/c", "/a") == "/b/c"
  {
    var root := "/a";
    assert "/a/b/a/c"[..2] == root && "/a/b/a/c"[2..] == "/b/a/c";
    assert "/b/a/c"[..2] != root by { assert "/b/a/c"[..2][1] == 'b'; }
    assert "/b/a/c"[1..] == "b/a/c";
    assert "b/a/c"[..2] != root by { assert "b/a/c"[..2][0] == 'b'; }
    assert "b/a/c"[1..] == "/a/c";
    assert "/a/c"[..2] == root && "/a/c"[2..] == "/c";
    assert "/c"[..2] != root by { assert "/c"[..2][1] == 'c'; }
    assert "/c"[1..] == "c";
    assert ReplaceAll("/c", root, "") == "/c";
    assert ReplaceAll("/a/c", root, "") == "/c";
    assert ReplaceAll("b/a/c", root, "") == "b/c";
  }

  /** A sibling directory whose name extends the root's loses only the shared part of its path. */
  lemma RelativePathSiblingOfRoot()
    ensures RelativePath("/app2/x", "/app") == "2/x"
  {
    assert "/app2/x"[..4] == "/app" && "/app2/x"[4..] == "2/x";
  }

  /**
   * `$"{lastModified.PadRight(20)} {version.PadRight(20)} {relativePath} "`.
   * The version column starts right after the padded timestamp and one
   * space; the line ends with a space.
   */
  function RecordLine(lastModified: string, version: string, relativePath: string): (line: string)
    ensures |line| == Max(|lastModified|, RecordFieldWidth) + Max(|version|, RecordFieldWidth) + |relativePath| + 3
    ensures line[..|lastModified|] == lastModified
    ensures var v := Max(|lastModified|, RecordFieldWidth) + 1;
            line[v - 1] == ' ' && line[v..v + |version|] == version
    ensures var p := Max(|lastModified|, RecordFieldWidth) + Max(|version|, RecordFieldWidth) + 2;
            line[p - 1] == ' ' && line[p..|line| - 1] == relativePath
    ensures line[|line| - 1] == ' '
  {
    var a := PadRight(lastModified, RecordFieldWidth);
    var b := PadRight(version, RecordFieldWidth);
    var line := a + " " + b + " " + relativePath + " ";
    assert line[..|lastModified|] == a[..|lastModified|];
    assert line[|a| + 1..|a| + 1 + |version|] == b[..|version|];
    assert line[|a| + |b| + 2..|line| - 1] == relativePath;
    line
  }

  /** With both fields within 20 characters the columns are fixed: version at 21, path at 42. */
  lemma RecordColumns(lastModified: string, version: string, relativePath: string)
    requires |lastModified| <= RecordFieldWidth && |version| <= RecordFieldWidth
    ensures var line := RecordLine(lastModified, version, relativePath);
            && |line| == 43 + |relativePath|
            && line[..20] == PadRight(lastModified, 20)
            && line[20] == ' '
            && line[21..41] == PadRight(version, 20)
            && line[41] == ' '
            && line[42..42 + |relativePath|] == relativePath
            && line[42 + |relativePath|] == ' '
  {
    var a := PadRight(lastModified, RecordFieldWidth);
    var b := PadRight(version, RecordFieldWidth);
    var line := RecordLine(lastModified, version, relativePath);
    assert line == a + " " + b + " " + relativePath + " ";
    assert line[..20] == a;
    assert line[21..41] == b;
  }

  /** The record the parallel loop adds to the bag for one file. */
  function Record(root: string, e: FileEntry): (line: string)
    requires |root| > 0
    ensures |line| > |LastModified(e)|
    ensures line[..|LastModified(e)|] == LastModified(e)
    ensures line[|line| - 1] == ' '
  {
    RecordLine(LastModified(e), FileVersionOrDefault(e.fileVersion), RelativePath(e.fullName, root))
  }

  /** The records of a sequence of files, in the same order. */
  function Records(root: string, es: seq<FileEntry>): (rs: seq<string>)
    requires |root| > 0
    ensures |rs| == |es|
  {
    Map(e => Record(root, e), es)
  }

  /** The `k`-th record is the record of the `k`-th file. */
  lemma RecordsAt(root: string, es: seq<FileEntry>, k: int)
    requires |root| > 0 && 0 <= k < |es|
    ensures Records(root, es)[k] == Record(root, es[k])
  {
    MapAt(e => Record(root, e), es, k);
  }

  /** One more file, one more record at the end. */
  lemma RecordsAppend(root: string, es: seq<FileEntry>, e: FileEntry)
    requires |root| > 0
    ensures Records(root, es + [e]) == Records(root, es) + [Record(root, e)]
  {
    MapAppend(e => Record(root, e), es, e);
  }

  /** Reordering the files reorders their records: the same records, as many times each. */
  lemma RecordsPermutation(root: string, s: seq<FileEntry>, t: seq<FileEntry>)
    requires |root| > 0
    requires multiset(s) == multiset(t)
    ensures multiset(Records(root, s)) == multiset(Records(root, t))
  {
    MapPermutation(e => Record(root, e), s, t);
  }

  // ---------------------------------------------------------------------
  // Rendering with a counter
  // ---------------------------------------------------------------------

  /** `$"{counter.ToString().PadRight(8)} {result}"`. */
  function NumberedLine(counter: nat, result: string): (line: string)
    ensures var w := Max(|NatToDecimal(counter)|, CounterWidth);
            |line| == w + 1 + |result| && line[w] == ' ' && line[w + 1..] == result
  {
    var p := PadRight(NatToDecimal(counter), CounterWidth);
    var line := p + " " + result;
    assert line[|p| + 1..] == result;
    line
  }

  /**
   * Reads a numbered line back: the counter, written as a canonical
   * numeral, then spaces up to the eighth column and one more, then the
   * record.
   */
  function SplitNumbered(line: string): Option<(nat, string)>
  {
    var k := LeadingDigits(line);
    var w := Max(k, CounterWidth);
    if k == 0 || (line[0] == '0' && k > 1) || |line| <= w then None
    else if forall i :: k <= i <= w ==> line[i] == ' ' then Some((DecimalValue(line[..k]), line[w + 1..]))
    else None
  }

  /** Every numbered line can be read back into its counter and its record. */
  lemma NumberedLineRoundTrip(counter: nat, result: string)
    ensures SplitNumbered(NumberedLine(counter, result)) == Some((counter, result))
  {
    var d := NatToDecimal(counter);
    var p := PadRight(d, CounterWidth);
    var line := NumberedLine(counter, result);
    assert line == p + " " + result;
    assert line[..|d|] == d;
    assert line[|d|] == ' ';
    var k := LeadingDigits(line);
    assert k == |d|;
    DecimalValueOfNatToDecimal(counter);
  }

  /** A line that reads back as (counter, record) is that counter's numbered line for that record. */
  lemma SplitNumberedSound(line: string, counter: nat, result: string)
    requires SplitNumbered(line) == Some((counter, result))
    ensures line == NumberedLine(counter, result)
  {
    var k := LeadingDigits(line);
    var w := Max(k, CounterWidth);
    var d := line[..k];
    assert IsCanonicalDecimal(d);
    NatToDecimalOfDecimalValue(d);
    assert NatToDecimal(counter) == d;
    var head := line[..w];
    assert head[..k] == d;
    PadRightUnique(d, CounterWidth, head);
    assert line == head + [line[w]] + line[w + 1..];
  }

  /** Numbered lines with the same text have the same counter and the same record. */
  lemma NumberedLineInjective(i: nat, a: string, j: nat, b: string)
    requires NumberedLine(i, a) == NumberedLine(j, b)
    ensures i == j && a == b
  {
    NumberedLineRoundTrip(i, a);
    NumberedLineRoundTrip(j, b);
  }

  /** The record part of a printed numbered line ("" for a line that is not one). */
  function RecordText(line: string): string
  {
    match SplitNumbered(line)
    case Some(p) => p.1
    case None => ""
  }

  function RecordTexts(lines: seq<string>): (texts: seq<string>)
    ensures |texts| == |lines|
    ensures forall k :: 0 <= k < |lines| ==> texts[k] == RecordText(lines[k])
  {
    seq(|lines|, k requires 0 <= k < |lines| => RecordText(lines[k]))
  }

  /**
   * The render loop: walk the results in the order the bag yields them,
   * increment the counter, and emit the numbered line for each.
   */
  method Render(results: seq<string>) returns (lines: seq<string>, counter: int)
    ensures counter == |results| && |lines| == |results|
    ensures forall k :: 0 <= k < |results| ==> lines[k] == NumberedLine(k + 1, results[k])
  {
    lines := [];
    counter := 0;
    for i := 0 to |results|
      invariant counter == i
      invariant |lines| == i
      invariant forall k :: 0 <= k < i ==> lines[k] == NumberedLine(k + 1, results[k])
    {
      var result := results[i];
      counter := counter + 1;
      lines := lines + [NumberedLine(counter, result)];
    }
  }

  /**
   * What Render prints is a bijection between the counters 1..n and the
   * results: line k reads back as counter k + 1 with the k-th result, so
   * every result is printed exactly once.
   */
  lemma RenderedLinesReadBack(results: seq<string>, lines: seq<string>)
    requires |lines| == |results|
    requires forall k :: 0 <= k < |results| ==> lines[k] == NumberedLine(k + 1, results[k])
    ensures forall k :: 0 <= k < |lines| ==> SplitNumbered(lines[k]) == Some((k + 1, results[k]))
    ensures RecordTexts(lines) == results
  {
    forall k | 0 <= k < |lines|
      ensures SplitNumbered(lines[k]) == Some((k + 1, results[k]))
    {
      NumberedLineRoundTrip(k + 1, results[k]);
    }
  }

  // ---------------------------------------------------------------------
  // The whole run
  // ---------------------------------------------------------------------

  /** The key prompt, written only when the `--wait` switch is set. */
  function WaitPrompt(wait: bool): (lines: seq<string>)
    ensures |lines| == if wait then 1 else 0
    ensures forall i :: 0 <= i < |lines| ==> lines[i] == "Press any key to continue..."
  {
    if wait then ["Press any key to continue..."] else []
  }

  /**
   * The parallel loop: each file's record goes into the bag. `files` is
   * the order in which the bag will hand the records back; as a record
   * depends on its own file only, one pass in that order builds the
   * drained sequence.
   */
  method CollectRecords(root: string, files: seq<FileEntry>) returns (bag: seq<string>)
    requires |root| > 0
    ensures bag == Records(root, files)
  {
    bag := [];
    for k := 0 to |files|
      invariant bag == Records(root, files[..k])
    {
      var file := files[k];
      RecordsAppend(root, files[..k], file);
      TakeNext(files, k);
      bag := bag + [Record(root, file)];
    }
    assert files[..|files|] == files;
  }

  /**
   * Everything `Main` writes after the scan: "Done." on the "Scanning..."
   * line, the numbered records, and the prompt when it waits for a key.
   */
  method Report(results: seq<string>, wait: bool) returns (out: Outcome)
    ensures out.Completed? && out.waitsForKey == wait
    ensures |out.stdout| == 1 + |results| + |WaitPrompt(wait)|
    ensures out.stdout[0] == "Scanning...Done."
    ensures forall k :: 0 <= k < |results| ==> out.stdout[1 + k] == NumberedLine(k + 1, results[k])
    ensures out.stdout[1 + |results|..] == WaitPrompt(wait)
    ensures RecordTexts(out.stdout[1..1 + |results|]) == results
  {
    var lines, counter := Render(results);
    RenderedLinesReadBack(results, lines);
    out := Completed(["Scanning...Done."] + lines + WaitPrompt(wait), wait);
    assert out.stdout[1..1 + |lines|] == lines;
    assert out.stdout[1 + |lines|..] == WaitPrompt(wait);
  }

  /**
   * What a scan that got a listing prints: "Done." on the "Scanning..."
   * line, then line `k + 1` numbered `k + 1` and carrying the record of
   * `yielded[k]`, then the key prompt when asked to wait. Read back, the
   * numbered lines carry every record of the listing exactly once.
   */
  ghost predicate ScanPrinted(root: string, files: seq<FileEntry>, yielded: seq<FileEntry>, wait: bool, out: Outcome)
    requires |root| > 0
  {
    && out.Completed? && out.waitsForKey == wait
    && |yielded| == |files|
    && |out.stdout| == 1 + |files| + |WaitPrompt(wait)|
    && out.stdout[0] == "Scanning...Done."
    && (forall k :: 0 <= k < |yielded| ==> out.stdout[1 + k] == NumberedLine(k + 1, Record(root, yielded[k])))
    && out.stdout[1 + |files|..] == WaitPrompt(wait)
    && multiset(RecordTexts(out.stdout[1..1 + |files|])) == multiset(Records(root, files))
  }

  /**
   * `Main` from the root check on: no root, no scan; an empty root or a
   * failing enumeration throws out of `Main`; otherwise every file's record
   * is collected and printed. `listing` is what `GetFiles` returns for the
   * root (`None`: it threw, for instance because the directory does not
   * exist); `yielded` is the order in which the bag hands the records
   * back, a reordering of the listing.
   */
  method Scan(dirSearchPath: Option<string>, listing: Option<seq<FileEntry>>, yielded: seq<FileEntry>, wait: bool)
    returns (out: Outcome)
    requires listing.Some? ==> multiset(yielded) == multiset(listing.value)
    ensures dirSearchPath.None? ==> out == Completed(["Scanning...Done."] + WaitPrompt(wait), wait)
    ensures dirSearchPath.Some? && (dirSearchPath.value == [] || listing.None?) ==> out == Faulted(["Scanning..."])
    ensures dirSearchPath.Some? && dirSearchPath.value != [] && listing.Some? ==>
              ScanPrinted(dirSearchPath.value, listing.value, yielded, wait, out)
  {
    if dirSearchPath.None? {
      out := Report([], wait);
    } else if dirSearchPath.value == [] || listing.None? {
      // `new DirectoryInfo("")` or `GetFiles` throws; nothing catches it
      out := Faulted(["Scanning..."]);
    } else {
      var root := dirSearchPath.value;
      var results := CollectRecords(root, yielded);
      assert |yielded| == |multiset(yielded)| == |listing.value|;
      RecordsPermutation(root, yielded, listing.value);
      out := Report(results, wait);
      forall k | 0 <= k < |yielded|
        ensures out.stdout[1 + k] == NumberedLine(k + 1, Record(root, yielded[k]))
      {
        RecordsAt(root, yielded, k);
      }
    }
  }

  /**
   * `Main` after argument parsing: a CommandLineException's message is
   * printed; otherwise the root is resolved and scanned.
   */
  method Run(commandLine: CommandLine, exeDir: Option<string>, listing: Option<seq<FileEntry>>, yielded: seq<FileEntry>)
    returns (out: Outcome)
    requires listing.Some? ==> multiset(yielded) == multiset(listing.value)
    ensures commandLine.ParseError? ==>
              out == ParseFailed(["Unknown CommandLineException error: " + commandLine.message])
    ensures commandLine.Parsed? && ResolveRoot(commandLine.searchPath, exeDir).None? ==>
              out == Completed(["Scanning...Done."] + WaitPrompt(commandLine.wait), commandLine.wait)
    ensures commandLine.Parsed? && ResolveRoot(commandLine.searchPath, exeDir) == Some([]) ==>
              out == Faulted(["Scanning..."])
    ensures commandLine.Parsed? && ResolveRoot(commandLine.searchPath, exeDir).Some? && listing.None? ==>
              out == Faulted(["Scanning..."])
    ensures commandLine.Parsed? && ResolveRoot(commandLine.searchPath, exeDir).Some? &&
            ResolveRoot(commandLine.searchPath, exeDir).value != [] && listing.Some? ==>
              ScanPrinted(ResolveRoot(commandLine.searchPath, exeDir).value, listing.value, yielded, commandLine.wait, out)
  {
    match commandLine
    case ParseError(message) =>
      out := ParseFailed(["Unknown CommandLineException error: " + message]);
    case Parsed(searchPath, wait) =>
      var dirSearchPath := ResolveRoot(searchPath, exeDir);
      out := Scan(dirSearchPath, listing, yielded, wait);
  }
}
