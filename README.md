# Whitespace pre-commit hook for Mercurial, modelled in Dafny

`hooks.py` is a Mercurial `pretxncommit` hook. When a commit is about to be
recorded, the hook looks at every file the commit changes that still exists
in the committed revision. It drops third-party files (a `/thirdParty/`
segment in the path), files with a known MIME type, and files whose type
tools fill with whitespace (`.targets`, `.sln`, `.fsproj`, `.csproj`).

It runs three line checks over what remains:

- leading tabs, waived for `.py`, `.markdown` and `.md` files;
- trailing whitespace;
- whitespace-only lines.

If any check reports a line, the hook writes a report through `ui.warn`
and returns true, which rolls the transaction back. The report has one
section per failing check, separated by a blank line. Each section lists
every failing file and each of its offending lines with its 1-based
number. Otherwise the hook writes nothing and returns false.

The model has five modules:

- `Seqs` covers order-preserving filtering, which is how the hook's list
  comprehensions and `itertools.ifilter` behave.
- `PyText` covers the Python 2 byte-string primitives the hook relies on:
  `\s`, case-insensitive literal search, `str.splitlines`,
  `os.path.splitext` and decimal formatting of line numbers.
- `Classifier` covers which files are looked at, and which may indent
  with tabs. This includes the regular expression the hook builds from a
  list of suffixes, read as the regular expression engine reads it.
- `Scanner` covers the three line checks. Each one is given as a direct
  test on the characters of a line, and also as its regular expression
  read literally, with a lemma proving that the two agree. This module
  also covers the numbered lines each check reports for a file.
- `Hook` covers the hook itself. `Ui` is a class whose `warnings`
  sequence receives each `warn` call. `PreTxnCommitHook` is a method that
  walks the failing files with loops and is proved against the functional
  `Report` of the findings. The lemmas beside them state what the result
  and the report mean.

In three places the names in the code suggest one thing and the code does
another. The model follows the code:

- **Suffix matching.** The suffix pattern is `^\.py|\.markdown|\.md$`.
  The helper that builds it is named as a stand-in for set membership
  (hooks.py:32). But alternation binds loosest, so every suffix except the
  last is matched as a prefix of the extension. For example, `.pyx` and
  `.slnx` count as listed types, while `.mdx` and `.csprojx` do not.
- **Binary files.** `isBinaryFile` does not inspect the content. A file
  counts as binary exactly when a MIME type is known for its path
  (hooks.py:22). This excludes, for instance, files whose type is
  registered as text.
- **Third-party files.** A top-level `thirdParty/` directory has no slash
  before it, so its files are not treated as third-party.

## Model

| member | source | states |
|---|---|---|
| Seqs.Filter | hooks.py:75-79 | the filtered list is no longer than the input and every element kept satisfies the condition |
| Seqs.FilterIsSubsequence | hooks.py:75-79 | filtering keeps the relative order of what it keeps |
| Seqs.FilterCounts | hooks.py:75-79 | every occurrence of a satisfying element is kept and none of another |
| Seqs.FilterKeepsOnlySatisfying | hooks.py:75-79 | an element is in the filtered list exactly when it is in the input and satisfies the condition |
| Seqs.FilterEmpty | hooks.py:77-81 | the filtered list is empty exactly when no element satisfies the condition |
| PyText.IsWhitespace | hooks.py:52-58 | `\s` in a byte-string pattern: space, tab, line feed, carriage return, form feed and vertical tab |
| PyText.Lower | hooks.py:26-40 | the case folding of `re.IGNORECASE` on byte strings: ASCII capitals map to their lower-case letters and every other character to itself |
| PyText.ContainsIgnoringCase | hooks.py:26 | a case-insensitive literal search succeeds exactly when some position starts a case-insensitive copy of the pattern |
| PyText.OccursAtShift | hooks.py:26 | an occurrence at position i of a string is an occurrence at i-1 of its tail |
| PyText.OccursAtIgnoresCase | hooks.py:26 | occurrences are the same in two strings that differ only in letter case |
| PyText.ContainsIgnoresCase | hooks.py:26 | the search gives the same answer on two strings that differ only in letter case |
| PyText.LineBreakIndex | hooks.py:49 | the first line break is found, and there is none before it |
| PyText.SplitLines | hooks.py:49 | `splitlines` yields break-free lines, no lines exactly for the empty string, and at most one line per character |
| PyText.SplitLinesOfTerminated | hooks.py:49 | round trip: break-free lines each ended by `\n`, `\r` or `\r\n`, plus an optional unterminated last line, split back into exactly those lines |
| PyText.SplitLinesOfLine | hooks.py:49 | a non-empty break-free string is a single line |
| PyText.SplitLinesStep | hooks.py:49 | a first line and its terminator split off as the first line |
| PyText.LastIndexOf | hooks.py:40 | the last occurrence of a character is found, or -1 when there is none |
| PyText.SplitExt | hooks.py:40 | `os.path.splitext` splits the path into a root and an extension that concatenate back to the path. The extension is empty or a dot followed by characters that are neither dot nor slash. It is non-empty exactly when the last path segment holds a dot with something other than a dot before it |
| PyText.DotSuffixIsExtension | hooks.py:40 | what follows the last dot of the last path segment has the shape of an extension |
| PyText.SplitExtDecision | hooks.py:40 | the test `splitext` makes on the last slash and the last dot holds exactly when the last segment holds a dot after something other than a dot |
| PyText.Extension | hooks.py:40 | the extension is a suffix of the path with the shape of an extension, and it is non-empty exactly when the last segment holds a dot after something other than a dot |
| PyText.ExtensionDetermined | hooks.py:40 | any suffix of the path that meets the contract of `Extension` is the extension, so the contract fixes the result |
| PyText.DecimalString | hooks.py:87 | a line number is written as a non-empty string of decimal digits, with a leading zero only for 0 |
| PyText.DecimalRoundTrip | hooks.py:87 | reading the written number back gives the number |
| Classifier.SuffixAlternation | hooks.py:32-33 | the built pattern has one alternative per suffix, the literal `.suffix`, with `^` on the first and `$` on the last only |
| Classifier.EndAnchorHolds | hooks.py:33 | `$` without MULTILINE holds at the end of the string or just before a line feed that ends it; the same anchor ends the patterns at hooks.py:55 and 58 |
| Classifier.BranchMatches | hooks.py:40 | one alternative matches at the start of the string when its literal is a case-insensitive prefix and, if it carries `$`, the anchor holds right after the literal |
| Classifier.PatternMatches | hooks.py:40 | `re.match` of the alternation under IGNORECASE succeeds when some alternative matches at position 0; `SuffixMatchRule` states this in terms of the suffixes |
| Classifier.SuffixMatchRule | hooks.py:32-40 | an extension matches exactly when it starts, ignoring case, with `.suffix` for a suffix other than the last, or is wholly the last `.suffix` |
| Classifier.EmptyExtensionMatchesOnlyEmptyPattern | hooks.py:32-40 | a file without an extension matches only the pattern built from no suffix |
| Classifier.PatternIgnoresCase | hooks.py:40 | matching ignores letter case in the extension |
| Classifier.ExactMembershipImpliesMatch | hooks.py:32-40 | every extension that is exactly one of the listed types matches the pattern |
| Classifier.IsFileOfOneOfASetOfTypes | hooks.py:39-40 | a file without an extension is of a listed type only when the pattern accepts the empty extension |
| Classifier.LeadingTabPatternRule | hooks.py:28-35 | the leading-tab pattern accepts an extension that starts with `.py` or `.markdown`, or is `.md`, ignoring case |
| Classifier.ToolManagedPatternRule | hooks.py:30-37 | the tool-managed pattern accepts an extension that starts with `.targets`, `.sln` or `.fsproj`, or is `.csproj`, ignoring case |
| Classifier.IsFileThatRequiresLeadingTabs | hooks.py:42-43 | the leading-tab waiver holds exactly for the extensions of the leading-tab rule |
| Classifier.IsFileThatWillBeMessedUpByATool | hooks.py:45-46 | the tool-managed exclusion holds exactly for the extensions of the tool-managed rule |
| Classifier.IsThirdPartyFile | hooks.py:25-26 | a path is third-party exactly when `/thirdParty/` occurs in it, ignoring case |
| Classifier.LeadingTabPrefixCases | hooks.py:28-40 | `.PYX` matches though it is not a listed type, while `.mdx` does not match |
| Classifier.ToolManagedPrefixCases | hooks.py:30-40 | `.slnx` matches though it is not a listed type, while `.csprojx` does not match |
| Classifier.ThirdPartyCases | hooks.py:26 | `src/ThirdParty/lib.js` is third-party and `thirdParty/lib.js` is not |
| Classifier.IsBinaryFile | hooks.py:21-22 | a file is binary when a MIME type is known for its path; the lookup is the `hasMimeType` parameter |
| Classifier.IsRelevant | hooks.py:75 | a file is relevant when it is neither third-party, nor binary, nor tool-managed |
| Scanner.LeadingWhitespaceLength | hooks.py:52 | the run of whitespace that starts a line is measured exactly |
| Scanner.HasLeadingTab | hooks.py:52 | the leading whitespace of a line holds a tab and something other than whitespace follows it; `LeadingTabMeaning` proves this is what `^\s*\t\s*\S` finds |
| Scanner.HasTrailingWhitespace | hooks.py:55 | a line ends in whitespace and is not all whitespace; `TrailingWhitespaceMeaning` proves this is what `\S\s+$` finds |
| Scanner.IsWhitespaceOnly | hooks.py:58 | a line is non-empty and all whitespace; `WhitespaceOnlyMeaning` proves this is what `^\s+$` finds |
| Scanner.LeadingTabPatternMatches | hooks.py:52 | `^\s*\t\s*\S` read literally: whitespace from the start to a tab, whitespace after it, then a non-whitespace character; the reference side of `LeadingTabMeaning` |
| Scanner.TrailingWhitespacePatternMatches | hooks.py:55 | `\S\s+$` read literally: a non-whitespace character, at least one whitespace character, then the end anchor; the reference side of `TrailingWhitespaceMeaning` |
| Scanner.WhitespaceOnlyPatternMatches | hooks.py:58 | `^\s+$` read literally: at least one whitespace character from the start, then the end anchor; the reference side of `WhitespaceOnlyMeaning` |
| Scanner.LeadingTabMeaning | hooks.py:52 | the direct leading-tab test holds exactly when `^\s*\t\s*\S` matches the line |
| Scanner.TrailingWhitespaceMeaning | hooks.py:55 | the direct trailing-whitespace test holds exactly when `\S\s+$` matches the line |
| Scanner.TrailingWhitespaceFound | hooks.py:55 | a line with trailing whitespace is matched by `\S\s+$` |
| Scanner.TrailingWhitespaceOnlyWhereFound | hooks.py:55 | any match of `\S\s+$` shows trailing whitespace |
| Scanner.LastNonWhitespaceIndex | hooks.py:55 | the last non-whitespace character of a line is found, and only whitespace follows it |
| Scanner.WhitespaceOnlyMeaning | hooks.py:58 | the direct whitespace-only test holds exactly when `^\s+$` matches the line |
| Scanner.LineChecksExclusive | hooks.py:52-58 | no line is both trailing-whitespace and whitespace-only, or both leading-tab and whitespace-only, and an empty line fails no check |
| Scanner.MatchingLines | hooks.py:48-49 | every reported line is the numbered line of the input it names and fails the check, numbers strictly increase, and every failing line is reported |
| Scanner.LinesMatching | hooks.py:48-49 | empty content reports nothing |
| Scanner.LinesContainingLeadingTabs | hooks.py:51-52 | a file whose type allows leading tabs reports nothing, empty content reports nothing, and every reported line has a leading tab |
| Scanner.LinesContainingTrailingWhitespace | hooks.py:54-55 | empty content reports nothing, and every reported line has trailing whitespace |
| Scanner.WhitespaceOnlyLines | hooks.py:57-58 | empty content reports nothing, and every reported line is whitespace only |
| Scanner.LeadingTabExemption | hooks.py:51-58 | a file whose type allows leading tabs gets no leading-tab report, while the other two checks still report every matching line |
| Scanner.OnlyLeadingTabsDependOnPath | hooks.py:51-58 | the trailing-whitespace and whitespace-only reports depend only on the content |
| Scanner.PythonFileExample | hooks.py:48-58 | in `a.py` holding `\tfoo`, `bar ` and `   `, no leading tab is reported, line 2 is reported for trailing whitespace and line 3 for being whitespace only |
| Scanner.ExampleLines | hooks.py:49 | the example's content splits into its three lines |
| Hook.Ui.Warn | hooks.py:83 | a warning is appended to the output, and nothing else changes |
| Hook.FileContexts | hooks.py:70-72 | the files checked are the changed files still present in the revision, in the order of the change list, each with its content |
| Hook.RelevantFileContexts | hooks.py:75 | the relevant files keep the order of the checked files and are exactly those that are relevant |
| Hook.FilesFailing | hooks.py:77-79 | the failing files keep the order of the relevant files and are exactly those for which the check reports a line |
| Hook.FlaggedFiles | hooks.py:77-79 | the three lists of failing files computed from the same relevant files; `FlaggedFilesCharacterised` states their contents |
| Hook.Flagged.Rejects | hooks.py:81 | the hook's return value: true exactly when some list of failing files is non-empty; `RejectsIffSomeFileFails` states it in terms of the files |
| Hook.FlaggedFilesCharacterised | hooks.py:75-79 | each list of failing files keeps the order of the relevant files and holds exactly the relevant files the check reports a line for, and the relevant files are exactly the present changed files that are not excluded |
| Hook.ExcludedFilesNeverFlagged | hooks.py:75 | a third-party file, a file of a known MIME type and a tool-managed file are never in a list of failing files |
| Hook.RejectsIffSomeFileFails | hooks.py:77-111 | the hook rejects exactly when some relevant file fails some check |
| Hook.RejectionHasWitness | hooks.py:81-109 | a rejection has a relevant file and a check it fails |
| Hook.AcceptanceHasNoFailure | hooks.py:81-111 | an accepted commit has no relevant file that fails any check |
| Hook.LeadingDigits | hooks.py:87 | the run of digits that starts a string is measured exactly |
| Hook.Header | hooks.py:83-103 | a section header is neither the separator nor indented like the entries under it |
| Hook.FileLine | hooks.py:85 | the path line of a failing file is indented and gives the path back between the tab and the closing newlines |
| Hook.LineEntry | hooks.py:87 | a line entry is indented and ends with a newline |
| Hook.LineEntryRoundTrip | hooks.py:87 | a line entry `\tLine #n:text\n` reads back as the same number and text, whatever characters the text holds |
| Hook.LineEntries | hooks.py:86-87 | one indented entry per reported line, in order |
| Hook.FileReports | hooks.py:84-86 | each failing file is paired with the lines its check reports |
| Hook.FileEntries | hooks.py:84-87 | every path line and line entry of a section is indented by a tab, so none is a separator |
| Hook.FindingsOf | hooks.py:81-107 | there is something to report exactly when the hook rejects |
| Hook.Section | hooks.py:82-87 | a section is empty exactly when its list of files is, otherwise it opens with its header and holds no separator |
| Hook.Report | hooks.py:81-107 | the report of the findings is empty exactly when nothing failed |
| Hook.Joined | hooks.py:89-100 | the three sections laid out with the two conditional separators of the code; `JoinedJoinsPresent` states what that layout is |
| Hook.Present | hooks.py:81-107 | the present sections are counted and each is one of the three and non-empty |
| Hook.JoinedJoinsPresent | hooks.py:89-100 | the code's conditional separators put exactly one separator between neighbouring present sections |
| Hook.JoinSectionsEnds | hooks.py:81-107 | joined sections are empty only when there are none, and otherwise open with the first section's first warning and do not end with a separator |
| Hook.JoinSectionsSeparators | hooks.py:89-100 | joined sections hold one separator fewer than there are sections |
| Hook.JoinedShape | hooks.py:81-107 | the layout is empty exactly when all sections are, opens with the first present section's first warning and never ends with a separator |
| Hook.JoinedSeparators | hooks.py:89-100 | the layout holds one separator fewer than there are present sections |
| Hook.ReportShape | hooks.py:81-111 | there is output exactly when the hook rejects, and the output never ends with a blank separator |
| Hook.ReportSeparators | hooks.py:89-100 | the report holds one separator fewer than there are failing checks |
| Hook.ReportOpensWithFirstHeader | hooks.py:82-103 | a report opens with the header of the first failing check |
| Hook.WarnLines | hooks.py:86-87 | the loop writes one entry per reported line, in order |
| Hook.WarnFile | hooks.py:85-87 | a failing file is written as its path line and then its line entries |
| Hook.WarnSection | hooks.py:83-87 | the loop writes the header and then each file's entries, in order |
| Hook.WarnSectionIfAny | hooks.py:82-87 | a section is written exactly when its list is non-empty |
| Hook.WarnSeparatorIf | hooks.py:89-90 | a separator is written exactly when asked for |
| Hook.WarnReport | hooks.py:81-107 | the `warn` calls write exactly the report of the findings |
| Hook.PreTxnCommitHook | hooks.py:60-111 | the hook returns true exactly when some list of failing files is non-empty, and appends exactly the report of those files to the output (nothing when it accepts) |

## Left out

- Mercurial's `repo[node]`, `changeContext.files()` and file contexts are
  not modelled as such. The revision is a map from the files it contains
  to their contents, and the changed files are a list of names.
- `mimetypes.guess_type` consults a platform table that is not part of
  this model. `hasMimeType` is a parameter, and a file is binary when it
  returns true.
- The `re` engine in general is not modelled. Only the five patterns the
  hook uses are modelled, each by its meaning on a string: the suffix
  alternation, `/thirdParty/`, and the three line patterns. `\s` is the
  ASCII set of Python 2 byte-string patterns, and case is folded for
  ASCII letters only.
- Content is modelled as a string of characters, one per byte. Encodings
  and Unicode line breaks, which Python 2 byte strings do not split on,
  are not modelled.
- `ui.warn` output is modelled as the list of the texts passed to it.
  Terminal colouring and buffering are not modelled.
- The report is built from each failing file's reported lines, computed
  once. The source runs the check a second time when printing, and since
  the check is a pure function of the file, both runs give the same lines.
- The hook's `**kwargs` and docstring are not modelled.
- `os.path` is modelled as `posixpath`, whose `splitext` takes the last
  segment after `/`. On Windows `os.path` is `ntpath`, whose `splitext`
  also ends the last segment at `\`. Mercurial gives file paths with `/`
  separators, so the two differ only for a file name containing `\`;
  that case is not modelled.
