# DirectoryFileLister — a Dafny model of its core

DirectoryFileLister is a console program. It scans a directory tree and prints one line per file. Each line holds a counter, the file's last-write time, its file version and its path relative to the scan root. This project models the string and path logic inside `Main`:

- how the root is resolved;
- how each file's record line is built: the relative path by string removal, the `"0.0.0.0"` version sentinel and the `PadRight(20)` columns;
- how the collected records are printed with a running counter;
- which outcome a run ends in, and what it writes to standard output.

Files:

- `Wrappers.dfy`: `Option`, which stands in for a .NET reference that may be null.
- `Strings.dfy`: the .NET string operations the core uses, over strings of Unicode scalar values (see "## Left out"). These are `string.IsNullOrEmpty`, `PadRight`, `Replace` (ordinal, left to right, non-overlapping) and `Int32.ToString` on non-negative values, with its inverse.
- `Seqs.dfy`: mapping over sequences, and the fact that mapping keeps a reordering a reordering.
- `Lister.dfy`: the program's logic. `Run` is `Main` after argument parsing. `Scan` covers everything from the root check onwards. `CollectRecords` is the parallel loop. `Render` is the counter loop. `Report` produces the output written after the scan.

Inputs that come from outside the program are parameters:

- the parsed command line (`CommandLine`);
- the executable's directory (`exeDir`; `Path.GetDirectoryName` may return null);
- the result of `GetFiles` (`listing`; `None` means it threw);
- each file's full name, file version, and short date and time strings (`FileEntry`);
- the order in which the concurrent bag gives the records back (`yielded`). This must be a reordering of the listing, expressed as multiset equality. Render is proved for every such order.

Behaviour of the code that the model keeps:

- A missing root directory does not give zero records. `DirectoryInfo.GetFiles` throws `DirectoryNotFoundException`, and `Main` catches only `CommandLineException`. The `Faulted` outcome covers this case (`listing == None`).
- A file whose metadata cannot be read is not given sentinel values; see "## Left out".
- An empty root is also `Faulted`, because `new DirectoryInfo("")` throws. This can only happen when the executable directory is `""`. It also keeps `String.Replace` away from an empty `oldValue`, for which .NET throws.

## Model

| member | source | states |
|---|---|---|
| `Strings.IsNullOrEmpty` | DirectoryFileLister/Program.cs:43 | A string counts as null or empty unless it is present and has at least one character; the same test picks the version at line 57. |
| `Lister.ResolveRoot` | DirectoryFileLister/Program.cs:43 | If `searchPath` is null or empty, the root is the executable's directory. Otherwise the root is `searchPath` unchanged, and that root is non-empty. |
| `Lister.ResolveRootNone` | DirectoryFileLister/Program.cs:43-47 | The root is null exactly when `searchPath` is null or empty and the executable directory is null. |
| `Lister.FileVersionOrDefault` | DirectoryFileLister/Program.cs:57-59 | The version is never empty. It is `"0.0.0.0"` for a null or empty `FileVersion`, and `FileVersion` itself otherwise. |
| `Lister.SentinelShown` | DirectoryFileLister/Program.cs:57-59 | `"0.0.0.0"` is printed exactly when the version is null or empty, or is `"0.0.0.0"` itself. |
| `Lister.LastModified` | DirectoryFileLister/Program.cs:60 | The timestamp is the short date, one space, then the short time. Both parts can be recovered by position. |
| `Strings.ReplaceAll` | DirectoryFileLister/Program.cs:53 | Replace-all never lengthens a string when the replacement is no longer than the pattern. |
| `Strings.ReplaceAllAbsent` | DirectoryFileLister/Program.cs:53 | Where the pattern does not occur, `Replace` returns the string unchanged. |
| `Strings.ReplaceAllLeadingOnly` | DirectoryFileLister/Program.cs:53 | Removing `prefix` from `prefix + rest` leaves `rest`, provided `prefix` occurs nowhere else. |
| `Lister.RelativePath` | DirectoryFileLister/Program.cs:53 | The relative path is never longer than the full name. |
| `Lister.RelativePathOfChild` | DirectoryFileLister/Program.cs:53 | If `full = root + rest` and the root occurs only at index 0, the relative path is `rest`. |
| `Lister.RelativePathOutsideRoot` | DirectoryFileLister/Program.cs:53 | A full name that does not contain the root string is printed whole. |
| `Lister.RelativePathExample` | DirectoryFileLister/Program.cs:53 | `/scan/sub/dir/file.txt` under root `/scan` prints as `/sub/dir/file.txt`, so the separator is kept. |
| `Lister.RelativePathRepeatedRoot` | DirectoryFileLister/Program.cs:53 | A later repetition of the root is removed too: `/a/b/a/c` under `/a` prints as `/b/c`. |
| `Lister.RelativePathSiblingOfRoot` | DirectoryFileLister/Program.cs:53 | A sibling directory that extends the root's name keeps only the rest: `/app2/x` under `/app` prints as `2/x`. |
| `Strings.PadRight` | DirectoryFileLister/Program.cs:62 | The length is `max(\|s\|, width)`, the result starts with `s`, and every added character is a space. |
| `Strings.PadRightUnique` | DirectoryFileLister/Program.cs:62 | These three properties determine the padded string. |
| `Lister.RecordLine` | DirectoryFileLister/Program.cs:62 | Length is `max(\|t\|,20) + max(\|v\|,20) + \|path\| + 3`. The line starts with the timestamp. The version follows the padded timestamp and one space. The path follows the padded version and one space. The line ends with a space. |
| `Lister.RecordColumns` | DirectoryFileLister/Program.cs:62 | If both fields are at most 20 characters, the line is padded timestamp at 0-19, a space at 20, padded version at 21-40, a space at 41, the path from 42, and a final space. |
| `Lister.Record` | DirectoryFileLister/Program.cs:53-62 | A file's record starts with its timestamp and ends with a space. |
| `Lister.Records` | DirectoryFileLister/Program.cs:51-63 | The bag holds one record per file. |
| `Lister.RecordsAt` | DirectoryFileLister/Program.cs:51-63 | The k-th collected record is the record of the k-th file. |
| `Lister.RecordsPermutation` | DirectoryFileLister/Program.cs:46-63 | Reordering the files reorders the records: the same records, each the same number of times. |
| `Lister.CollectRecords` | DirectoryFileLister/Program.cs:51-63 | The loop collects exactly the record of every file, in order. |
| `Strings.NatToDecimal` | DirectoryFileLister/Program.cs:71 | `counter.ToString()` is a canonical decimal numeral: digits only, and no leading zero unless the value is 0. |
| `Strings.DecimalValueOfNatToDecimal` | DirectoryFileLister/Program.cs:71 | Reading back the numeral gives the number. |
| `Strings.NatToDecimalOfDecimalValue` | DirectoryFileLister/Program.cs:71 | Every canonical numeral is the numeral of its own value. |
| `Strings.NatToDecimalInjective` | DirectoryFileLister/Program.cs:71 | Different counters get different numerals. |
| `Lister.NumberedLine` | DirectoryFileLister/Program.cs:71 | The record starts one space after the counter column, which is `max(\|digits\|, 8)` wide. |
| `Lister.NumberedLineRoundTrip` | DirectoryFileLister/Program.cs:71 | Every numbered line reads back as its counter and its record. |
| `Lister.SplitNumberedSound` | DirectoryFileLister/Program.cs:71 | A line that reads back as (counter, record) is exactly that counter's line for that record. |
| `Lister.NumberedLineInjective` | DirectoryFileLister/Program.cs:68-71 | Two equal numbered lines have the same counter and the same record. |
| `Lister.Render` | DirectoryFileLister/Program.cs:67-72 | Exactly one line per result. Line k (0-based) is `PadRight(ToString(k+1), 8) + " " + results[k]`. After the loop the counter equals the number of results. |
| `Lister.RenderedLinesReadBack` | DirectoryFileLister/Program.cs:67-72 | The printed lines map one-to-one onto the counters 1..n and the results: line k reads back as (k+1, results[k]). |
| `Lister.WaitPrompt` | DirectoryFileLister/Program.cs:74-76 | With `--wait` set, exactly one line, "Press any key to continue...", is written. Without it, nothing is. |
| `Lister.Report` | DirectoryFileLister/Program.cs:66-78 | Output is "Done." on the "Scanning..." line, then the numbered results, then the key prompt when waiting. The run gets through all its output, and records whether it then waits for a key. |
| `Lister.Scan` | DirectoryFileLister/Program.cs:45-72 | With a null root, no record is printed but "Done." still is. With an empty root or a failed enumeration, the run faults after "Scanning...". Otherwise line k+1 holds counter k+1 and record `yielded[k]`, and the printed records are those of the listing, each exactly once. |
| `Lister.Run` | DirectoryFileLister/Program.cs:39-86 | A parse error prints "Unknown CommandLineException error: " and the message. Otherwise the outcome is `Scan` of the resolved root. |

## Left out

- Command-line parsing with CommandLineParser (Program.cs:20-41): a foreign library. Its result is the `CommandLine` input.
- `Assembly.GetEntryAssembly().Location` and `Path.GetDirectoryName` (Program.cs:43): process and platform queries. Their result is the `exeDir` input.
- `DirectoryInfo.GetFiles` with `AllDirectories` (Program.cs:49-50): file-system I/O. The model receives the listing, or `None` when enumeration throws. It does not model which files a tree holds.
- `FileVersionInfo.GetVersionInfo` and `FileInfo` (Program.cs:55-56): I/O. The version and timestamp are inputs. A read that throws inside the parallel loop, which .NET reports as an `AggregateException`, is not modelled.
- `ToShortDateString` and `ToShortTimeString` (Program.cs:60): locale-dependent formatting. Both strings are opaque inputs.
- `Parallel.ForEach` and `ConcurrentBag` (Program.cs:46, 51): concurrency. The order in which the bag yields records is the `yielded` parameter, and every reordering of the listing is allowed.
- `Console.ReadKey` (Program.cs:77): blocking console input. The model records only that the run waits (`waitsForKey`). The `InvalidOperationException` it throws when input is redirected or there is no console is not modelled. That exception would escape `Main` after the prompt, before `Environment.ExitCode = 0` (Program.cs:80).
- `Environment.ExitCode = 0` (Program.cs:80): a process side effect. `Completed` is the only outcome that reaches it.
- The platform's line terminator: output is modelled as a sequence of lines.
- `Lister.Render`: the counter is unbounded while the C# counter is a 32-bit `int`. It cannot wrap, because the listing is a .NET array and holds fewer than 2^31 - 1 files.
- `Lister.LastModified`: takes the timestamp to be `shortDate + " " + shortTime`. In Program.cs:60 the interpolated text is passed to `string.Format` with no arguments, so braces in it are read again as format syntax. `"{{"` would print as `"{"`, and `"{0}"` or a lone brace throws `FormatException` inside the parallel loop, which ends the run after "Scanning...". The built-in cultures' short date and time patterns produce no braces.
- `Strings.PadRight`: counts Unicode scalar values, while .NET counts UTF-16 code units. For a version or timestamp that holds a character outside the Basic Multilingual Plane, .NET's `PadRight(20)` adds one space fewer per such character than the model does. A file name with a lone surrogate cannot be written in the model at all.
