/** The three whitespace checks, run line by line over a file's content
    (hooks.py:48-58). Each regular expression of the hook is given twice: as
    a direct test over the characters of a line, which the model uses, and
    as the regular expression read literally (some way of cutting the line
    fits the pattern), and lemmas prove the two agree. */
module Scanner {
  import opened PyText
  import opened Classifier

  /** A reported line: its 1-based number and its text. */
  datatype NumberedLine = NumberedLine(number: nat, text: string)

  /** The three checks, in the order the report lists them. */
  datatype Check = LeadingTabs | TrailingWhitespace | WhitespaceOnly

  // ---------------------------------------------------------------------------
  // Line predicates

  /** Length of the run of whitespace that starts the line. */
  function LeadingWhitespaceLength(line: string): (k: nat)
    ensures k <= |line| && AllWhitespace(line[..k])
    ensures k < |line| ==> !IsWhitespace(line[k])
  {
    if line == [] || !IsWhitespace(line[0]) then 0
    else
      var k := 1 + LeadingWhitespaceLength(line[1..]);
      assert line[..k] == [line[0]] + line[1..][..k - 1];
      k
  }

  /** `^\s*\t\s*\S`: the leading whitespace holds a tab and something other
      than whitespace follows it. */
  predicate HasLeadingTab(line: string) {
    var k := LeadingWhitespaceLength(line);
    k < |line| && '\t' in line[..k]
  }

  /** `\S\s+$`: the line holds something other than whitespace and ends in
      whitespace. */
  predicate HasTrailingWhitespace(line: string) {
    |line| > 0 && IsWhitespace(line[|line| - 1]) && !AllWhitespace(line)
  }

  /** `^\s+$`: the line is not empty and is all whitespace. */
  predicate IsWhitespaceOnly(line: string) {
    |line| > 0 && AllWhitespace(line)
  }

  function LineMatches(check: Check, line: string): bool {
    match check
    case LeadingTabs => HasLeadingTab(line)
    case TrailingWhitespace => HasTrailingWhitespace(line)
    case WhitespaceOnly => IsWhitespaceOnly(line)
  }

  // ---------------------------------------------------------------------------
  // The patterns read literally

  /** `re.search(r"^\s*\t\s*\S", line)`: whitespace up to `i`, a tab at `i`,
      whitespace up to `j`, and a non-whitespace character at `j`. */
  ghost predicate LeadingTabPatternMatches(line: string) {
    exists i, j :: 0 <= i < j < |line| && AllWhitespace(line[..i]) && line[i] == '\t' &&
      AllWhitespace(line[i + 1..j]) && !IsWhitespace(line[j])
  }

  /** `re.search(r"\S\s+$", line)`: a non-whitespace character at `i`, then
      at least one whitespace character up to `e`, where `$` holds. */
  ghost predicate TrailingWhitespacePatternMatches(line: string) {
    exists i, e :: 0 <= i && i + 1 < e <= |line| && !IsWhitespace(line[i]) &&
      AllWhitespace(line[i + 1..e]) && EndAnchorHolds(line, e)
  }

  /** `re.search(r"^\s+$", line)`: at least one whitespace character from
      the start up to `e`, where `$` holds. */
  ghost predicate WhitespaceOnlyPatternMatches(line: string) {
    exists e :: 0 < e <= |line| && AllWhitespace(line[..e]) && EndAnchorHolds(line, e)
  }

  lemma LeadingTabMeaning(line: string)
    ensures HasLeadingTab(line) <==> LeadingTabPatternMatches(line)
  {
    var k := LeadingWhitespaceLength(line);
    if HasLeadingTab(line) {
      var i :| 0 <= i < k && line[..k][i] == '\t';
      assert line[..i] == line[..k][..i] && line[i + 1..k] == line[..k][i + 1..];
      assert AllWhitespace(line[..i]) && AllWhitespace(line[i + 1..k]);
    }
    if LeadingTabPatternMatches(line) {
      var i, j :| 0 <= i < j < |line| && AllWhitespace(line[..i]) && line[i] == '\t' &&
        AllWhitespace(line[i + 1..j]) && !IsWhitespace(line[j]);
      forall m | 0 <= m < j ensures IsWhitespace(line[m]) {
        if m < i {
          assert line[..i][m] == line[m];
        } else if m > i {
          assert line[i + 1..j][m - i - 1] == line[m];
        }
      }
      if k < j {
        assert false;
      }
      assert line[..k][i] == '\t';
    }
  }

  lemma TrailingWhitespaceMeaning(line: string)
    ensures HasTrailingWhitespace(line) <==> TrailingWhitespacePatternMatches(line)
  {
    if HasTrailingWhitespace(line) {
      TrailingWhitespaceFound(line);
    }
    if TrailingWhitespacePatternMatches(line) {
      var i, e :| 0 <= i && i + 1 < e <= |line| && !IsWhitespace(line[i]) &&
        AllWhitespace(line[i + 1..e]) && EndAnchorHolds(line, e);
      TrailingWhitespaceOnlyWhereFound(line, i, e);
    }
  }

  /** A line with trailing whitespace is cut as the pattern wants after its
      last character that is not whitespace. */
  lemma TrailingWhitespaceFound(line: string)
    requires HasTrailingWhitespace(line)
    ensures TrailingWhitespacePatternMatches(line)
  {
    var i := LastNonWhitespaceIndex(line);
    assert i + 1 < |line|;
    assert AllWhitespace(line[i + 1..|line|]) by {
      var tail := line[i + 1..|line|];
      assert forall m :: 0 <= m < |tail| ==> tail[m] == line[i + 1 + m];
    }
    assert EndAnchorHolds(line, |line|);
  }

  /** Any cut that fits the pattern shows trailing whitespace. */
  lemma TrailingWhitespaceOnlyWhereFound(line: string, i: nat, e: nat)
    requires i + 1 < e <= |line| && !IsWhitespace(line[i])
    requires AllWhitespace(line[i + 1..e]) && EndAnchorHolds(line, e)
    ensures HasTrailingWhitespace(line)
  {
    assert !AllWhitespace(line);
    if e == |line| {
      assert line[i + 1..e][e - i - 2] == line[|line| - 1];
    }
  }

  /** The last character of a line that is not all whitespace which is
      itself not whitespace. */
  function LastNonWhitespaceIndex(line: string): (i: nat)
    requires !AllWhitespace(line)
    ensures i < |line| && !IsWhitespace(line[i])
    ensures forall m :: i < m < |line| ==> IsWhitespace(line[m])
  {
    if !IsWhitespace(line[|line| - 1]) then |line| - 1
    else
      var init := line[..|line| - 1];
      assert !AllWhitespace(init) by {
        var m :| 0 <= m < |line| && !IsWhitespace(line[m]);
        assert init[m] == line[m];
      }
      LastNonWhitespaceIndex(init)
  }

  lemma WhitespaceOnlyMeaning(line: string)
    ensures IsWhitespaceOnly(line) <==> WhitespaceOnlyPatternMatches(line)
  {
    if IsWhitespaceOnly(line) {
      assert line[..|line|] == line;
      assert EndAnchorHolds(line, |line|);
    }
    if WhitespaceOnlyPatternMatches(line) {
      var e :| 0 < e <= |line| && AllWhitespace(line[..e]) && EndAnchorHolds(line, e);
      forall m | 0 <= m < |line| ensures IsWhitespace(line[m]) {
        if m < e {
          assert line[..e][m] == line[m];
        }
      }
    }
  }

  /** A line is never reported both for trailing whitespace and for being
      whitespace only, nor both for a leading tab and for being whitespace
      only; an empty line is reported by no check. */
  lemma LineChecksExclusive(line: string)
    ensures !(HasTrailingWhitespace(line) && IsWhitespaceOnly(line))
    ensures !(HasLeadingTab(line) && IsWhitespaceOnly(line))
    ensures line == [] ==> forall check :: !LineMatches(check, line)
  {
  }

  // ---------------------------------------------------------------------------
  // Numbered lines that match

  /** `filter` over `zip(count(1), lines)`: the numbered lines a check
      reports, in order. */
  function MatchingLines(check: Check, lines: seq<string>): (matches: seq<NumberedLine>)
    ensures forall m :: 0 <= m < |matches| ==>
      1 <= matches[m].number <= |lines| && lines[matches[m].number - 1] == matches[m].text &&
      LineMatches(check, matches[m].text)
    ensures forall m, m' :: 0 <= m < m' < |matches| ==> matches[m].number < matches[m'].number
    ensures forall i :: 0 <= i < |lines| && LineMatches(check, lines[i]) ==> NumberedLine(i + 1, lines[i]) in matches
  {
    if lines == [] then []
    else
      var init := lines[..|lines| - 1];
      var last := lines[|lines| - 1];
      var earlier := MatchingLines(check, init);
      assert forall i :: 0 <= i < |init| ==> lines[i] == init[i];
      if LineMatches(check, last) then
        var matches := earlier + [NumberedLine(|lines|, last)];
        assert matches[|earlier|] == NumberedLine(|lines|, last);
        assert forall m :: 0 <= m < |earlier| ==> matches[m] == earlier[m];
        matches
      else earlier
  }

  /** `linesMatchingRegularExpression`: the checked lines are those of
      `splitlines()`. */
  function LinesMatching(check: Check, data: string): (matches: seq<NumberedLine>)
    ensures data == [] ==> matches == []
  {
    MatchingLines(check, SplitLines(data))
  }

  /** `linesContainingLeadingTabs`: nothing for a file whose type allows
      leading tabs, otherwise lines indented with a tab. */
  function LinesContainingLeadingTabs(f: FileContext): (matches: seq<NumberedLine>)
    ensures IsFileThatRequiresLeadingTabs(f.path) ==> matches == []
    ensures f.data == [] ==> matches == []
    ensures forall k :: 0 <= k < |matches| ==> HasLeadingTab(matches[k].text)
  {
    if IsFileThatRequiresLeadingTabs(f.path) then [] else LinesMatching(LeadingTabs, f.data)
  }

  /** `linesContainingTrailingWhitespace`: lines that end in whitespace
      after something else. */
  function LinesContainingTrailingWhitespace(f: FileContext): (matches: seq<NumberedLine>)
    ensures f.data == [] ==> matches == []
    ensures forall k :: 0 <= k < |matches| ==> HasTrailingWhitespace(matches[k].text)
  {
    LinesMatching(TrailingWhitespace, f.data)
  }

  /** `whitespaceOnlyLines`: non-empty lines of whitespace alone. */
  function WhitespaceOnlyLines(f: FileContext): (matches: seq<NumberedLine>)
    ensures f.data == [] ==> matches == []
    ensures forall k :: 0 <= k < |matches| ==> IsWhitespaceOnly(matches[k].text)
  {
    LinesMatching(WhitespaceOnly, f.data)
  }

  /** What a check reports for a file. */
  function Matches(check: Check, f: FileContext): seq<NumberedLine> {
    match check
    case LeadingTabs => LinesContainingLeadingTabs(f)
    case TrailingWhitespace => LinesContainingTrailingWhitespace(f)
    case WhitespaceOnly => WhitespaceOnlyLines(f)
  }

  /** For a file whose type allows leading tabs the leading-tab report is
      empty whatever the content, while the other two checks still report
      every matching line of the content. */
  lemma LeadingTabExemption(f: FileContext)
    requires IsFileThatRequiresLeadingTabs(f.path)
    ensures Matches(LeadingTabs, f) == []
    ensures Matches(TrailingWhitespace, f) == MatchingLines(TrailingWhitespace, SplitLines(f.data))
    ensures Matches(WhitespaceOnly, f) == MatchingLines(WhitespaceOnly, SplitLines(f.data))
  {
  }

  /** The trailing-whitespace and whitespace-only reports depend only on the
      content; the path matters to the leading-tab report alone. */
  lemma OnlyLeadingTabsDependOnPath(f: FileContext, g: FileContext)
    requires f.data == g.data
    ensures Matches(TrailingWhitespace, f) == Matches(TrailingWhitespace, g)
    ensures Matches(WhitespaceOnly, f) == Matches(WhitespaceOnly, g)
    ensures IsFileThatRequiresLeadingTabs(f.path) == IsFileThatRequiresLeadingTabs(g.path) ==>
      Matches(LeadingTabs, f) == Matches(LeadingTabs, g)
  {
  }

  /** The worked example: in `a.py`, holding a tab-indented line, a line
      with a trailing space and a line of spaces, the leading tab is allowed
      and the other two lines are reported by their own checks. */
  lemma PythonFileExample()
    ensures var f := FileContext("a.py", "\tfoo\nbar \n   \n");
      Matches(LeadingTabs, f) == [] &&
      Matches(TrailingWhitespace, f) == [NumberedLine(2, "bar ")] &&
      Matches(WhitespaceOnly, f) == [NumberedLine(3, "   ")]
  {
    var f := FileContext("a.py", "\tfoo\nbar \n   \n");
    ExampleIsPython();
    LeadingTabExemption(f);
    var lines := ExampleLines();
    ExampleMatches(TrailingWhitespace, lines);
    ExampleMatches(WhitespaceOnly, lines);
  }

  /** The trailing-whitespace and whitespace-only checks on the example's
      lines. */
  lemma ExampleMatches(check: Check, lines: seq<string>)
    requires lines == ["\tfoo", "bar ", "   "] && check != LeadingTabs
    ensures MatchingLines(check, lines) ==
      if check == TrailingWhitespace then [NumberedLine(2, "bar ")] else [NumberedLine(3, "   ")]
  {
    assert lines[..2] == ["\tfoo", "bar "] && lines[..2][..1] == ["\tfoo"] && lines[..2][..1][..0] == [];
    assert !IsWhitespace('o') && !IsWhitespace('r') && IsWhitespace(' ');
    assert !AllWhitespace("\tfoo") by { assert "\tfoo"[1] == 'f'; }
    assert !AllWhitespace("bar ") by { assert "bar "[0] == 'b'; }
    assert AllWhitespace("   ");
    assert LineMatches(check, "\tfoo") == false;
    assert LineMatches(check, "bar ") == (check == TrailingWhitespace);
    assert LineMatches(check, "   ") == (check == WhitespaceOnly);
    var one, two := ["\tfoo"], ["\tfoo", "bar "];
    assert MatchingLines(check, one) == [] by {
      assert one[..0] == [] && one[0] == "\tfoo";
    }
    assert MatchingLines(check, two) == if check == TrailingWhitespace then [NumberedLine(2, "bar ")] else [] by {
      assert two[..1] == one && two[1] == "bar ";
    }
    assert lines[..2] == two && lines[2] == "   ";
  }

  /** The content of the worked example splits into its three lines. */
  lemma ExampleLines() returns (lines: seq<string>)
    ensures lines == ["\tfoo", "bar ", "   "] && SplitLines("\tfoo\nbar \n   \n") == lines
  {
    lines := ["\tfoo", "bar ", "   "];
    var ends := ["\n", "\n", "\n"];
    assert forall k :: 0 <= k < |lines| ==> HasNoLineBreak(lines[k]) && IsTerminator(ends[k]) by {
      assert HasNoLineBreak(lines[0]) && HasNoLineBreak(lines[1]) && HasNoLineBreak(lines[2]);
    }
    ExampleTerminated(lines, ends);
    SplitLinesOfTerminated(lines, ends, []);
  }

  /** The example's lines, each closed by `"\n"`, make up its content. */
  lemma ExampleTerminated(lines: seq<string>, ends: seq<string>)
    requires lines == ["\tfoo", "bar ", "   "] && ends == ["\n", "\n", "\n"]
    ensures Terminated(lines, ends) + [] == "\tfoo\nbar \n   \n"
  {
    assert Terminated(lines[2..], ends[2..]) == "   \n";
    assert Terminated(lines[1..], ends[1..]) == "bar \n   \n";
  }

  /** `a.py` has the extension `.py`, whose leading tabs are allowed. */
  lemma ExampleIsPython()
    ensures IsFileThatRequiresLeadingTabs("a.py")
  {
    var path := "a.py";
    assert LastIndexOf(path, '/') < 0 < 1 < |path| && path[0] != '.' && path[1] == '.';
    var ext := Extension(path);
    assert ext[0] == '.' && |ext| <= 4;
    assert path[4 - |ext|] == '.';
    assert ext == ".py";
    assert ".py"[..3] == ".py";
  }

}
