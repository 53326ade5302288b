/** The pre-transaction commit hook (hooks.py:60-111): pick the changed
    files that still exist and are relevant, find those that fail each
    check, and if any does, write a report through `ui.warn` and ask for the
    transaction to be rolled back by returning true. */
module Hook {
  import opened PyText
  import opened Seqs
  import opened Classifier
  import opened Scanner

  /** The hook's output sink: the text passed to each `warn` call, in order. */
  class Ui {
    var warnings: seq<string>

    constructor ()
      ensures warnings == []
    {
      warnings := [];
    }

    method Warn(text: string)
      modifies this
      ensures warnings == old(warnings) + [text]
    {
      warnings := warnings + [text];
    }
  }

  // ---------------------------------------------------------------------------
  // Which files are flagged

  /** hooks.py:70-72. `snapshot` maps each file of the committed revision to
      its content; `changed` lists the files the commit touches, in order.
      Files that the commit removed are not in the snapshot and are dropped. */
  function FileContexts(snapshot: map<string, string>, changed: seq<string>): (files: seq<FileContext>)
    ensures |files| == |Filter((name: string) => name in snapshot, changed)|
    ensures forall i :: 0 <= i < |files| ==>
      files[i].path == Filter((name: string) => name in snapshot, changed)[i] &&
      files[i].path in snapshot && files[i].data == snapshot[files[i].path]
  {
    var names := Filter((name: string) => name in snapshot, changed);
    seq(|names|, i requires 0 <= i < |names| => FileContext(names[i], snapshot[names[i]]))
  }

  /** hooks.py:75: the files that are neither third-party nor of a known MIME
      type nor tool-managed. */
  function RelevantFileContexts(files: seq<FileContext>, hasMimeType: string -> bool): (relevant: seq<FileContext>)
    ensures IsSubsequence(relevant, files)
    ensures forall f :: f in relevant <==> f in files && IsRelevant(f.path, hasMimeType)
  {
    var keep := (f: FileContext) => IsRelevant(f.path, hasMimeType);
    FilterIsSubsequence(keep, files);
    FilterKeepsOnlySatisfying(keep, files);
    Filter(keep, files)
  }

  /** hooks.py:77-79: the files for which a check reports at least one line. */
  function FilesFailing(check: Check, files: seq<FileContext>): (failing: seq<FileContext>)
    ensures IsSubsequence(failing, files)
    ensures forall f :: f in failing <==> f in files && Matches(check, f) != []
  {
    var fails := (f: FileContext) => Matches(check, f) != [];
    FilterIsSubsequence(fails, files);
    FilterKeepsOnlySatisfying(fails, files);
    Filter(fails, files)
  }

  /** The hook's verdict on its three lists: some list is non-empty. */
  predicate SomeNonEmpty<A, B, C>(a: seq<A>, b: seq<B>, c: seq<C>) {
    a != [] || b != [] || c != []
  }

  /** The three lists of failing files the hook computes. */
  datatype Flagged = Flagged(
    leadingTabs: seq<FileContext>,
    trailingWhitespace: seq<FileContext>,
    whitespaceOnly: seq<FileContext>)
  {
    function Files(check: Check): seq<FileContext> {
      match check
      case LeadingTabs => leadingTabs
      case TrailingWhitespace => trailingWhitespace
      case WhitespaceOnly => whitespaceOnly
    }

    /** The hook's result: true rolls the transaction back. */
    predicate Rejects() {
      SomeNonEmpty(leadingTabs, trailingWhitespace, whitespaceOnly)
    }
  }

  function FlaggedFiles(snapshot: map<string, string>, changed: seq<string>, hasMimeType: string -> bool): Flagged {
    var relevant := RelevantFileContexts(FileContexts(snapshot, changed), hasMimeType);
    Flagged(FilesFailing(LeadingTabs, relevant), FilesFailing(TrailingWhitespace, relevant),
            FilesFailing(WhitespaceOnly, relevant))
  }

  /** Each list of failing files keeps the order of the relevant files and
      holds exactly those for which its check reports a line. */
  lemma FlaggedFilesCharacterised(snapshot: map<string, string>, changed: seq<string>, hasMimeType: string -> bool, check: Check)
    ensures var relevant := RelevantFileContexts(FileContexts(snapshot, changed), hasMimeType);
      var flagged := FlaggedFiles(snapshot, changed, hasMimeType).Files(check);
      IsSubsequence(flagged, relevant) &&
      (forall f :: f in flagged <==> f in relevant && Matches(check, f) != []) &&
      (forall f :: f in relevant <==>
        f in FileContexts(snapshot, changed) && IsRelevant(f.path, hasMimeType))
  {
    var files := FileContexts(snapshot, changed);
    var relevant := RelevantFileContexts(files, hasMimeType);
    var failing := (f: FileContext) => Matches(check, f) != [];
    assert FlaggedFiles(snapshot, changed, hasMimeType).Files(check) == Filter(failing, relevant) by {
      match check
      case LeadingTabs =>
      case TrailingWhitespace =>
      case WhitespaceOnly =>
    }
    FilterIsSubsequence(failing, relevant);
    FilterKeepsOnlySatisfying(failing, relevant);
    FilterKeepsOnlySatisfying((f: FileContext) => IsRelevant(f.path, hasMimeType), files);
  }

  /** A third-party file, a file of a known MIME type and a tool-managed
      file are never in a list of failing files, whatever their content. */
  lemma ExcludedFilesNeverFlagged(snapshot: map<string, string>, changed: seq<string>, hasMimeType: string -> bool, f: FileContext)
    requires IsThirdPartyFile(f.path) || hasMimeType(f.path) || IsFileThatWillBeMessedUpByATool(f.path)
    ensures var flagged := FlaggedFiles(snapshot, changed, hasMimeType);
      f !in flagged.leadingTabs && f !in flagged.trailingWhitespace && f !in flagged.whitespaceOnly
  {
    var files := FileContexts(snapshot, changed);
    FilterKeepsOnlySatisfying((f: FileContext) => IsRelevant(f.path, hasMimeType), files);
    var relevant := RelevantFileContexts(files, hasMimeType);
    assert f !in relevant;
    forall check: Check ensures f !in FilesFailing(check, relevant) {
      FilterKeepsOnlySatisfying((f: FileContext) => Matches(check, f) != [], relevant);
    }
  }

  /** The hook rejects exactly when some relevant file that the commit
      changed and still contains fails some check. */
  lemma RejectsIffSomeFileFails(snapshot: map<string, string>, changed: seq<string>, hasMimeType: string -> bool)
    ensures var relevant := RelevantFileContexts(FileContexts(snapshot, changed), hasMimeType);
      FlaggedFiles(snapshot, changed, hasMimeType).Rejects() <==>
      exists f, check :: f in relevant && Matches(check, f) != []
  {
    if FlaggedFiles(snapshot, changed, hasMimeType).Rejects() {
      RejectionHasWitness(snapshot, changed, hasMimeType);
    } else {
      AcceptanceHasNoFailure(snapshot, changed, hasMimeType);
    }
  }

  lemma RejectionHasWitness(snapshot: map<string, string>, changed: seq<string>, hasMimeType: string -> bool)
    requires FlaggedFiles(snapshot, changed, hasMimeType).Rejects()
    ensures exists f, check ::
      f in RelevantFileContexts(FileContexts(snapshot, changed), hasMimeType) && Matches(check, f) != []
  {
    var flagged := FlaggedFiles(snapshot, changed, hasMimeType);
    var check := if flagged.leadingTabs != [] then LeadingTabs
      else if flagged.trailingWhitespace != [] then TrailingWhitespace
      else WhitespaceOnly;
    var files := flagged.Files(check);
    assert files != [];
    FlaggedFilesCharacterised(snapshot, changed, hasMimeType, check);
    assert files[0] in files;
  }

  lemma AcceptanceHasNoFailure(snapshot: map<string, string>, changed: seq<string>, hasMimeType: string -> bool)
    requires !FlaggedFiles(snapshot, changed, hasMimeType).Rejects()
    ensures forall f, check ::
      f in RelevantFileContexts(FileContexts(snapshot, changed), hasMimeType) ==> Matches(check, f) == []
  {
    var relevant := RelevantFileContexts(FileContexts(snapshot, changed), hasMimeType);
    if f, check :| f in relevant && Matches(check, f) != [] {
      assert FlaggedFiles(snapshot, changed, hasMimeType).Files(check) == [];
      FlaggedFilesCharacterised(snapshot, changed, hasMimeType, check);
      assert false;
    }
  }

  // ---------------------------------------------------------------------------
  // The report

  /** hooks.py:83, 93 and 103: a header is neither a separator nor
      indented like the entries that follow it. */
  function Header(check: Check): (header: string)
    ensures header != "\n" && |header| > 0 && !IsIndented(header)
  {
    "Files found containing " + Failure(check) + "...\n\n"
  }

  /** What each header says the listed files contain. */
  function Failure(check: Check): string {
    match check
    case LeadingTabs => "leading tabs"
    case TrailingWhitespace => "trailing whitespace"
    case WhitespaceOnly => "whitespace-only lines"
  }

  /** hooks.py:85: the path of a failing file, indented, from which the
      path can be read back. */
  function FileLine(path: string): (text: string)
    ensures IsIndented(text) && |text| == |path| + 3 && text[1..|text| - 2] == path
  {
    "\t" + path + "\n\n"
  }

  /** hooks.py:87: one reported line, indented and ended by a newline;
      `LineEntryRoundTrip` reads it back. */
  function LineEntry(m: NumberedLine): (text: string)
    ensures IsIndented(text) && text[|text| - 1] == '\n'
  {
    "\tLine #" + DecimalString(m.number) + ":" + m.text + "\n"
  }

  datatype Option<T> = None | Some(value: T)

  /** The length of the run of decimal digits that `s` starts with. */
  function LeadingDigits(s: string): (k: nat)
    ensures k <= |s| && IsDigitString(s[..k])
    ensures k < |s| ==> !('0' <= s[k] <= '9')
  {
    if s != [] && '0' <= s[0] <= '9' then
      var k := 1 + LeadingDigits(s[1..]);
      assert forall i :: 1 <= i < k ==> s[..k][i] == s[1..][..k - 1][i - 1];
      k
    else 0
  }

  lemma {:induction false} LeadingDigitsOfNumber(digits: string, rest: string)
    requires IsDigitString(digits)
    requires rest != [] && rest[0] == ':'
    ensures LeadingDigits(digits + rest) == |digits|
  {
    if digits != [] {
      assert (digits + rest)[1..] == digits[1..] + rest;
      LeadingDigitsOfNumber(digits[1..], rest);
    }
  }

  /** Reads a line entry back: the number between `#` and the first `:`,
      and the text between that `:` and the final newline. */
  function ParseLineEntry(text: string): Option<NumberedLine> {
    if |text| >= 8 && text[..7] == "\tLine #" && text[|text| - 1] == '\n' then
      var body := text[7..|text| - 1];
      var k := LeadingDigits(body);
      if k < |body| && body[k] == ':' then Some(NumberedLine(DecimalValue(body[..k]), body[k + 1..]))
      else None
    else None
  }

  /** What sits between a prefix and a suffix can be cut back out. */
  lemma Framed(prefix: string, body: string, suffix: string)
    ensures var text := prefix + body + suffix;
      text[..|prefix|] == prefix && text[|prefix|..|text| - |suffix|] == body &&
      text[|text| - |suffix|..] == suffix
  {
  }

  /** A line entry names its line unambiguously: reading it back gives the
      line number and the line text, whatever characters the text holds. */
  lemma LineEntryRoundTrip(m: NumberedLine)
    ensures ParseLineEntry(LineEntry(m)) == Some(m)
  {
    var digits := DecimalString(m.number);
    var body := digits + ":" + m.text;
    AppendAssociates("\tLine #", digits, ":");
    AppendAssociates("\tLine #", digits + ":", m.text);
    assert LineEntry(m) == "\tLine #" + body + "\n";
    Framed("\tLine #", body, "\n");
    assert body == digits + (":" + m.text);
    LeadingDigitsOfNumber(digits, ":" + m.text);
    assert body[..|digits|] == digits;
    assert body[|digits| + 1..] == m.text;
    DecimalRoundTrip(m.number);
  }

  /** The text of a warning is indented by a tab, so none of them is the
      separator `"\n"`. */
  predicate IsIndented(text: string) {
    |text| > 0 && text[0] == '\t'
  }

  /** One `warn` call per reported line, in order. */
  function LineEntries(matches: seq<NumberedLine>): (texts: seq<string>)
    ensures |texts| == |matches|
    ensures forall k :: 0 <= k < |texts| ==> texts[k] == LineEntry(matches[k]) && IsIndented(texts[k])
  {
    if matches == [] then []
    else LineEntries(matches[..|matches| - 1]) + [LineEntry(matches[|matches| - 1])]
  }

  /** A failing file with the lines its check reports. */
  datatype FileReport = FileReport(path: string, lines: seq<NumberedLine>)

  /** The report of each file of a list, for one check. */
  function FileReports(check: Check, files: seq<FileContext>): (reports: seq<FileReport>)
    ensures |reports| == |files|
    ensures forall i :: 0 <= i < |files| ==> reports[i] == FileReport(files[i].path, Matches(check, files[i]))
  {
    seq(|files|, i requires 0 <= i < |files| => FileReport(files[i].path, Matches(check, files[i])))
  }

  /** For each file in turn, its path line and then its reported lines. */
  function FileEntries(reports: seq<FileReport>): (texts: seq<string>)
    ensures forall k :: 0 <= k < |texts| ==> IsIndented(texts[k])
  {
    if reports == [] then []
    else
      var r := reports[|reports| - 1];
      FileEntries(reports[..|reports| - 1]) + [FileLine(r.path)] + LineEntries(r.lines)
  }

  /** A section: non-empty, and none of its warnings is the separator. */
  predicate IsSection(texts: seq<string>) {
    |texts| > 0 && "\n" !in texts
  }

  /** What the report says about the three lists: each failing file with
      the lines its check reports. */
  datatype Findings = Findings(
    leadingTabs: seq<FileReport>,
    trailingWhitespace: seq<FileReport>,
    whitespaceOnly: seq<FileReport>)
  {
    predicate Rejects() {
      SomeNonEmpty(leadingTabs, trailingWhitespace, whitespaceOnly)
    }
  }

  /** The findings for the three lists of failing files; there are findings
      exactly when the hook rejects. */
  function FindingsOf(flagged: Flagged): (findings: Findings)
    ensures |findings.leadingTabs| == |flagged.leadingTabs|
    ensures |findings.trailingWhitespace| == |flagged.trailingWhitespace|
    ensures |findings.whitespaceOnly| == |flagged.whitespaceOnly|
    ensures findings.Rejects() <==> flagged.Rejects()
  {
    Findings(FileReports(LeadingTabs, flagged.leadingTabs), FileReports(TrailingWhitespace, flagged.trailingWhitespace),
             FileReports(WhitespaceOnly, flagged.whitespaceOnly))
  }

  /** The warnings for one list of failing files: nothing when the list is
      empty, otherwise its header followed by the entries of each file. */
  function Section(check: Check, reports: seq<FileReport>): (section: seq<string>)
    ensures section == [] <==> reports == []
    ensures section != [] ==> IsSection(section) && section[0] == Header(check)
  {
    if reports == [] then []
    else
      var texts := [Header(check)] + FileEntries(reports);
      assert "\n" !in texts by {
        forall k | 0 <= k < |texts| ensures texts[k] != "\n" {
          if k > 0 {
            assert IsIndented(texts[k]);
          }
        }
      }
      texts
  }

  /** The `warn` calls of hooks.py:81-107, as written: a section for each
      non-empty list, and a `"\n"` between a section and any earlier one. */
  function Report(findings: Findings): (report: seq<string>)
    ensures report == [] <==> !findings.Rejects()
  {
    var a := Section(LeadingTabs, findings.leadingTabs);
    var b := Section(TrailingWhitespace, findings.trailingWhitespace);
    var c := Section(WhitespaceOnly, findings.whitespaceOnly);
    JoinedShape(a, b, c);
    Joined(a, b, c)
  }

  /** Three possibly absent sections laid out as hooks.py:81-107 lays them
      out: the second is preceded by `"\n"` when the first is present, the
      third when either of the others is. */
  function Joined(a: seq<string>, b: seq<string>, c: seq<string>): seq<string> {
    a + (if a != [] && b != [] then ["\n"] else []) + b +
    (if (a != [] || b != []) && c != [] then ["\n"] else []) + c
  }

  /** The present sections, in order. */
  function Present(a: seq<string>, b: seq<string>, c: seq<string>): (sections: seq<seq<string>>)
    ensures |sections| == (if a != [] then 1 else 0) + (if b != [] then 1 else 0) + (if c != [] then 1 else 0)
    ensures forall k :: 0 <= k < |sections| ==> sections[k] in [a, b, c] && sections[k] != []
  {
    (if a != [] then [a] else []) + (if b != [] then [b] else []) + (if c != [] then [c] else [])
  }

  /** Sections joined with exactly one `"\n"` between neighbours. */
  function JoinSections(sections: seq<seq<string>>): seq<string> {
    if sections == [] then []
    else if |sections| == 1 then sections[0]
    else sections[0] + ["\n"] + JoinSections(sections[1..])
  }

  /** The layout of the code is the present sections joined with one
      separator between neighbours, none before the first and none after
      the last. */
  lemma JoinedJoinsPresent(a: seq<string>, b: seq<string>, c: seq<string>)
    ensures Joined(a, b, c) == JoinSections(Present(a, b, c))
  {
    var sections := Present(a, b, c);
    var sep: seq<string> := ["\n"];
    if a != [] && b != [] && c != [] {
      assert Joined(a, b, c) == a + sep + b + sep + c;
      assert sections == [a, b, c] && sections[1..] == [b, c] && [b, c][1..] == [c];
      assert JoinSections([b, c]) == b + sep + c;
      AppendAssociates(a + sep + b, sep, c);
      AppendAssociates(a + sep, b, sep + c);
      AppendAssociates(a, sep, b + sep + c);
      AppendAssociates(b, sep, c);
    } else if a != [] && b != [] {
      assert Joined(a, b, c) == a + sep + b;
      assert sections == [a, b] && sections[1..] == [b];
    } else if a != [] && c != [] {
      assert Joined(a, b, c) == a + sep + c;
      assert sections == [a, c] && sections[1..] == [c];
    } else if b != [] && c != [] {
      assert Joined(a, b, c) == b + sep + c;
      assert sections == [b, c] && sections[1..] == [c];
    } else if a != [] {
      assert Joined(a, b, c) == a;
      assert sections == [a];
    } else if b != [] {
      assert Joined(a, b, c) == b;
      assert sections == [b];
    } else if c != [] {
      assert Joined(a, b, c) == c;
      assert sections == [c];
    }
  }

  /** Joined sections are empty only when there are none; otherwise they
      start with the first section and do not end with a separator. */
  lemma {:induction false} JoinSectionsEnds(sections: seq<seq<string>>)
    requires forall k :: 0 <= k < |sections| ==> IsSection(sections[k])
    ensures var joined := JoinSections(sections);
      (joined == [] <==> sections == []) &&
      (sections != [] ==> (|sections[0]| > 0 && joined != [] &&
        joined[0] == sections[0][0] && joined[|joined| - 1] != "\n"))
  {
    if |sections| > 1 {
      JoinSectionsEnds(sections[1..]);
      var rest := JoinSections(sections[1..]);
      assert JoinSections(sections) == sections[0] + ["\n"] + rest;
    } else if |sections| == 1 {
      assert sections[0][|sections[0]| - 1] in sections[0];
    }
  }

  /** Joined sections hold one separator fewer than there are sections. */
  lemma {:induction false} JoinSectionsSeparators(sections: seq<seq<string>>)
    requires forall k :: 0 <= k < |sections| ==> IsSection(sections[k])
    ensures multiset(JoinSections(sections))["\n"] == (if sections == [] then 0 else |sections| - 1)
  {
    if |sections| > 1 {
      JoinSectionsSeparators(sections[1..]);
      var rest := JoinSections(sections[1..]);
      assert JoinSections(sections) == sections[0] + ["\n"] + rest;
      assert multiset(sections[0])["\n"] == 0;
    } else if |sections| == 1 {
      assert multiset(sections[0])["\n"] == 0;
    }
  }

  /** Three possibly absent sections laid out as the code does: output
      exactly when one is present, starting with the first present section
      and never ending in `"\n"`. */
  lemma JoinedShape(a: seq<string>, b: seq<string>, c: seq<string>)
    requires a == [] || IsSection(a)
    requires b == [] || IsSection(b)
    requires c == [] || IsSection(c)
    ensures Joined(a, b, c) == [] <==> a == [] && b == [] && c == []
    ensures var joined := Joined(a, b, c);
      joined != [] ==>
        joined[0] == (if a != [] then a[0] else if b != [] then b[0] else c[0]) &&
        joined[|joined| - 1] != "\n"
  {
    var sections := PresentSections(a, b, c);
    JoinSectionsEnds(sections);
    if sections != [] {
      assert sections[0] == (if a != [] then a else if b != [] then b else c);
    }
  }

  /** One `"\n"` between each two present sections of the layout. */
  lemma JoinedSeparators(a: seq<string>, b: seq<string>, c: seq<string>)
    requires a == [] || IsSection(a)
    requires b == [] || IsSection(b)
    requires c == [] || IsSection(c)
    ensures var present := (if a != [] then 1 else 0) + (if b != [] then 1 else 0) + (if c != [] then 1 else 0);
      multiset(Joined(a, b, c))["\n"] == (if present == 0 then 0 else present - 1)
  {
    var sections := PresentSections(a, b, c);
    JoinSectionsSeparators(sections);
  }

  /** The present sections of the layout, each one a section. */
  lemma PresentSections(a: seq<string>, b: seq<string>, c: seq<string>) returns (sections: seq<seq<string>>)
    requires a == [] || IsSection(a)
    requires b == [] || IsSection(b)
    requires c == [] || IsSection(c)
    ensures sections == Present(a, b, c)
    ensures Joined(a, b, c) == JoinSections(sections)
    ensures forall k :: 0 <= k < |sections| ==> IsSection(sections[k])
  {
    sections := Present(a, b, c);
    forall k | 0 <= k < |sections| ensures IsSection(sections[k]) {
      assert sections[k] in [a, b, c];
    }
    JoinedJoinsPresent(a, b, c);
  }

  /** The hook reports exactly when it rejects: an accepted commit produces
      no output, and a rejected one does not end with a separator. */
  lemma ReportShape(findings: Findings)
    ensures findings.Rejects() <==> Report(findings) != []
    ensures Report(findings) != [] ==> Report(findings)[|Report(findings)| - 1] != "\n"
  {
    var a := Section(LeadingTabs, findings.leadingTabs);
    var b := Section(TrailingWhitespace, findings.trailingWhitespace);
    var c := Section(WhitespaceOnly, findings.whitespaceOnly);
    JoinedShape(a, b, c);
  }

  /** One `"\n"` separates each two neighbouring sections of a report: there
      is one fewer separator than there are failing checks. */
  lemma ReportSeparators(findings: Findings)
    ensures var failing := (if findings.leadingTabs != [] then 1 else 0) +
        (if findings.trailingWhitespace != [] then 1 else 0) + (if findings.whitespaceOnly != [] then 1 else 0);
      multiset(Report(findings))["\n"] == (if failing == 0 then 0 else failing - 1)
  {
    var a := Section(LeadingTabs, findings.leadingTabs);
    var b := Section(TrailingWhitespace, findings.trailingWhitespace);
    var c := Section(WhitespaceOnly, findings.whitespaceOnly);
    JoinedSeparators(a, b, c);
  }

  /** A report opens with the header of the first check that failed. */
  lemma ReportOpensWithFirstHeader(findings: Findings)
    requires findings.Rejects()
    ensures Report(findings) != []
    ensures Report(findings)[0] == Header(if findings.leadingTabs != [] then LeadingTabs
                                          else if findings.trailingWhitespace != [] then TrailingWhitespace
                                          else WhitespaceOnly)
  {
    var a := Section(LeadingTabs, findings.leadingTabs);
    var b := Section(TrailingWhitespace, findings.trailingWhitespace);
    var c := Section(WhitespaceOnly, findings.whitespaceOnly);
    JoinedShape(a, b, c);
  }

  // ---------------------------------------------------------------------------
  // The hook

  /** One more file adds its path line and its reported lines. */
  lemma FileEntriesStep(reports: seq<FileReport>, i: nat)
    requires i < |reports|
    ensures FileEntries(reports[..i + 1]) ==
      FileEntries(reports[..i]) + [FileLine(reports[i].path)] + LineEntries(reports[i].lines)
  {
    assert reports[..i + 1][..i] == reports[..i];
  }

  /** One more reported line adds its entry. */
  lemma LineEntriesStep(matches: seq<NumberedLine>, j: nat)
    requires j < |matches|
    ensures LineEntries(matches[..j + 1]) == LineEntries(matches[..j]) + [LineEntry(matches[j])]
  {
    assert matches[..j + 1][..j] == matches[..j];
  }

  /** The `warn` calls for the reported lines of one file. */
  method WarnLines(ui: Ui, matches: seq<NumberedLine>)
    modifies ui
    ensures ui.warnings == old(ui.warnings) + LineEntries(matches)
  {
    var j := 0;
    while j < |matches|
      invariant 0 <= j <= |matches|
      invariant ui.warnings == old(ui.warnings) + LineEntries(matches[..j])
    {
      ui.Warn(LineEntry(matches[j]));
      LineEntriesStep(matches, j);
      j := j + 1;
    }
    assert matches[..j] == matches;
  }

  /** The `warn` calls for one failing file: its path line, then its
      reported lines. */
  method WarnFile(ui: Ui, report: FileReport)
    modifies ui
    ensures ui.warnings == old(ui.warnings) + [FileLine(report.path)] + LineEntries(report.lines)
  {
    ui.Warn(FileLine(report.path));
    WarnLines(ui, report.lines);
  }

  /** The `warn` calls for one non-empty list: the header, then for each
      file its path line followed by its reported lines. */
  method WarnSection(ui: Ui, header: string, reports: seq<FileReport>)
    modifies ui
    ensures ui.warnings == old(ui.warnings) + [header] + FileEntries(reports)
  {
    ui.Warn(header);
    var i := 0;
    while i < |reports|
      invariant 0 <= i <= |reports|
      invariant ui.warnings == old(ui.warnings) + [header] + FileEntries(reports[..i])
    {
      ghost var before := old(ui.warnings) + [header];
      WarnFile(ui, reports[i]);
      FileEntriesStep(reports, i);
      AppendAssociates(before, FileEntries(reports[..i]), [FileLine(reports[i].path)]);
      AppendAssociates(before, FileEntries(reports[..i]) + [FileLine(reports[i].path)], LineEntries(reports[i].lines));
      i := i + 1;
    }
    assert reports[..i] == reports;
  }

  /** The `warn` calls for one list of failing files: its section when the
      list is non-empty, nothing otherwise. */
  method WarnSectionIfAny(ui: Ui, check: Check, reports: seq<FileReport>)
    modifies ui
    ensures ui.warnings == old(ui.warnings) + Section(check, reports)
  {
    if reports != [] {
      WarnSection(ui, Header(check), reports);
    }
  }

  /** The separating `warn("\n")` of hooks.py:89-90 and 99-100. */
  method WarnSeparatorIf(ui: Ui, separate: bool)
    modifies ui
    ensures ui.warnings == old(ui.warnings) + (if separate then ["\n"] else [])
  {
    if separate {
      ui.Warn("\n");
    }
  }

  lemma AppendFive(w: seq<string>, a: seq<string>, s: seq<string>, b: seq<string>, t: seq<string>, c: seq<string>)
    ensures w + a + s + b + t + c == w + (a + s + b + t + c)
  {
  }

  /** hooks.py:81-107: the whole report of the findings. */
  method WarnReport(ui: Ui, findings: Findings)
    modifies ui
    ensures ui.warnings == old(ui.warnings) + Report(findings)
  {
    var lt, tw, wo := findings.leadingTabs, findings.trailingWhitespace, findings.whitespaceOnly;
    WarnSectionIfAny(ui, LeadingTabs, lt);
    WarnSeparatorIf(ui, lt != [] && tw != []);
    WarnSectionIfAny(ui, TrailingWhitespace, tw);
    WarnSeparatorIf(ui, (lt != [] || tw != []) && wo != []);
    WarnSectionIfAny(ui, WhitespaceOnly, wo);
    AppendFive(old(ui.warnings), Section(LeadingTabs, lt), if lt != [] && tw != [] then ["\n"] else [],
               Section(TrailingWhitespace, tw), if (lt != [] || tw != []) && wo != [] then ["\n"] else [],
               Section(WhitespaceOnly, wo));
  }

  /** `preTxnCommitHook`: returns true (roll back) exactly when some check
      fails on some relevant changed file, after writing the report of
      every failure to `ui`; an accepted commit writes nothing. */
  method PreTxnCommitHook(ui: Ui, snapshot: map<string, string>, changed: seq<string>, hasMimeType: string -> bool)
    returns (reject: bool)
    modifies ui
    ensures reject == FlaggedFiles(snapshot, changed, hasMimeType).Rejects()
    ensures ui.warnings == old(ui.warnings) + Report(FindingsOf(FlaggedFiles(snapshot, changed, hasMimeType)))
  {
    var fileContexts := FileContexts(snapshot, changed);
    var relevant := RelevantFileContexts(fileContexts, hasMimeType);
    var lt := FilesFailing(LeadingTabs, relevant);
    var tw := FilesFailing(TrailingWhitespace, relevant);
    var wo := FilesFailing(WhitespaceOnly, relevant);
    var flagged := Flagged(lt, tw, wo);
    assert flagged == FlaggedFiles(snapshot, changed, hasMimeType);
    var findings := FindingsOf(flagged);
    if lt != [] || tw != [] || wo != [] {
      WarnReport(ui, findings);
      return true;
    }
    ReportShape(findings);
    return false;
  }
}
