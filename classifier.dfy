/** Which changed files the hook looks at, and which of them may indent
    with tabs (hooks.py:21-46). A path is a `/`-separated string. */
module Classifier {
  import opened PyText

  /** A changed file as the hook sees it: its path and its full content. */
  datatype FileContext = FileContext(path: string, data: string)

  // ---------------------------------------------------------------------------
  // Suffix patterns

  /** File types whose leading tabs are not reported. */
  const LeadingTabSuffices: seq<string> := ["py", "markdown", "md"]

  /** File types that tools fill with whitespace; they are not checked at all. */
  const ToolManagedSuffices: seq<string> := ["targets", "sln", "fsproj", "csproj"]

  /** One alternative of a pattern made of escaped literals joined by `|`:
      whether `^` stands before it, its literal text, whether `$` ends it. */
  datatype Branch = Branch(anchoredAtStart: bool, literal: string, anchoredAtEnd: bool)

  /** The pattern `^{0}$` with `{0}` the `|`-join of the escaped `.suffix`
      literals. Alternation binds loosest, so `^` belongs to the first
      alternative and `$` to the last; with no suffix at all the pattern is
      `^$`. */
  function SuffixAlternation(suffices: seq<string>): (branches: seq<Branch>)
    ensures |branches| == if suffices == [] then 1 else |suffices|
    ensures forall k :: 0 <= k < |branches| ==>
      (branches[k].anchoredAtStart <==> k == 0) && (branches[k].anchoredAtEnd <==> k == |branches| - 1)
    ensures suffices == [] ==> branches[0].literal == []
    ensures forall k :: 0 <= k < |suffices| ==> branches[k].literal == "." + suffices[k]
  {
    if suffices == [] then [Branch(true, [], true)]
    else seq(|suffices|, k requires 0 <= k < |suffices| => Branch(k == 0, "." + suffices[k], k == |suffices| - 1))
  }

  /** `$` without MULTILINE holds at position `i` of `s`: at the end, or just
      before a line feed that ends the string. */
  predicate EndAnchorHolds(s: string, i: nat) {
    i == |s| || (i == |s| - 1 && s[i] == '\n')
  }

  /** `lit` matches the whole of `s` up to the end anchor, ignoring case. */
  predicate MatchesWholly(s: string, lit: string) {
    StartsWithIgnoringCase(s, lit) && EndAnchorHolds(s, |lit|)
  }

  predicate BranchMatches(b: Branch, s: string) {
    if b.anchoredAtEnd then MatchesWholly(s, b.literal) else StartsWithIgnoringCase(s, b.literal)
  }

  /** `re.match(pattern, s, re.IGNORECASE)` for an alternation of literals:
      `re.match` only tries position 0, so `^` adds nothing there. */
  predicate PatternMatches(branches: seq<Branch>, s: string) {
    exists k :: 0 <= k < |branches| && BranchMatches(branches[k], s)
  }

  /** The rule the built pattern applies: every suffix but the last is
      matched as a prefix of the extension, only the last one must match
      the whole extension. */
  lemma SuffixMatchRule(suffices: seq<string>, ext: string)
    requires suffices != []
    ensures PatternMatches(SuffixAlternation(suffices), ext) <==>
      (exists k :: 0 <= k < |suffices| - 1 && StartsWithIgnoringCase(ext, "." + suffices[k])) ||
      MatchesWholly(ext, "." + suffices[|suffices| - 1])
  {
    var branches := SuffixAlternation(suffices);
    var n := |suffices|;
    if PatternMatches(branches, ext) {
      var k :| 0 <= k < n && BranchMatches(branches[k], ext);
      if k < n - 1 {
        assert StartsWithIgnoringCase(ext, "." + suffices[k]);
      }
    }
    if exists k :: 0 <= k < n - 1 && StartsWithIgnoringCase(ext, "." + suffices[k]) {
      var k :| 0 <= k < n - 1 && StartsWithIgnoringCase(ext, "." + suffices[k]);
      assert BranchMatches(branches[k], ext);
    }
    if MatchesWholly(ext, "." + suffices[n - 1]) {
      assert BranchMatches(branches[n - 1], ext);
    }
  }

  /** A file without an extension is of none of the listed types; only the
      degenerate pattern `^$` built from no suffix accepts it. */
  lemma EmptyExtensionMatchesOnlyEmptyPattern(suffices: seq<string>)
    ensures PatternMatches(SuffixAlternation(suffices), []) <==> suffices == []
  {
    var branches := SuffixAlternation(suffices);
    if suffices == [] {
      assert BranchMatches(branches[0], []);
    } else {
      forall k | 0 <= k < |branches| ensures !BranchMatches(branches[k], []) {
        assert |branches[k].literal| > 0;
      }
    }
  }

  /** Matching ignores the case of ASCII letters in the extension. */
  lemma PatternIgnoresCase(branches: seq<Branch>, s: string, s': string)
    requires EqualIgnoringCase(s, s')
    ensures PatternMatches(branches, s) <==> PatternMatches(branches, s')
  {
    forall b: Branch ensures BranchMatches(b, s) <==> BranchMatches(b, s') {
      if |b.literal| <= |s| {
        var t, t' := s[..|b.literal|], s'[..|b.literal|];
        assert forall i :: 0 <= i < |t| ==> Lower(t[i]) == Lower(t'[i]);
      }
      if |b.literal| < |s| {
        var i := |b.literal|;
        assert Lower(s[i]) == Lower(s'[i]);
        assert s[i] == '\n' <==> s'[i] == '\n';
      }
    }
    if PatternMatches(branches, s) {
      var k :| 0 <= k < |branches| && BranchMatches(branches[k], s);
      assert BranchMatches(branches[k], s');
    }
    if PatternMatches(branches, s') {
      var k :| 0 <= k < |branches| && BranchMatches(branches[k], s');
      assert BranchMatches(branches[k], s);
    }
  }

  /** The set membership the pattern stands for: the extension is, ignoring
      case, exactly a dot followed by one of the suffices. */
  predicate IsExactlyOneOf(suffices: seq<string>, ext: string) {
    exists k :: 0 <= k < |suffices| && EqualIgnoringCase(ext, "." + suffices[k])
  }

  /** The pattern accepts every extension that set membership accepts (and,
      by `SuffixMatchRule`, longer ones too). */
  lemma ExactMembershipImpliesMatch(suffices: seq<string>, ext: string)
    requires IsExactlyOneOf(suffices, ext)
    ensures PatternMatches(SuffixAlternation(suffices), ext)
  {
    var k :| 0 <= k < |suffices| && EqualIgnoringCase(ext, "." + suffices[k]);
    var branches := SuffixAlternation(suffices);
    assert ext[..|"." + suffices[k]|] == ext;
    assert BranchMatches(branches[k], ext);
  }

  // ---------------------------------------------------------------------------
  // Path predicates

  /** `isFileOfOneOfASetOfTypes`: the pattern matched against the extension. */
  function IsFileOfOneOfASetOfTypes(path: string, branches: seq<Branch>): (isOfType: bool)
    ensures isOfType ==> Extension(path) != [] || PatternMatches(branches, [])
  {
    PatternMatches(branches, Extension(path))
  }

  /** The leading-tab pattern accepts an extension that starts with `.py`
      or `.markdown`, or is `.md`, all ignoring case. */
  lemma LeadingTabPatternRule(ext: string)
    ensures PatternMatches(SuffixAlternation(LeadingTabSuffices), ext) <==>
      (StartsWithIgnoringCase(ext, ".py") || StartsWithIgnoringCase(ext, ".markdown") || MatchesWholly(ext, ".md"))
  {
    var s := LeadingTabSuffices;
    SuffixMatchRule(s, ext);
    assert "." + s[0] == ".py" && "." + s[1] == ".markdown" && "." + s[2] == ".md";
    if exists k :: 0 <= k < 2 && StartsWithIgnoringCase(ext, "." + s[k]) {
      var k :| 0 <= k < 2 && StartsWithIgnoringCase(ext, "." + s[k]);
      assert k == 0 || k == 1;
    }
  }

  /** The tool-managed pattern accepts an extension that starts with
      `.targets`, `.sln` or `.fsproj`, or is `.csproj`, all ignoring case. */
  lemma ToolManagedPatternRule(ext: string)
    ensures PatternMatches(SuffixAlternation(ToolManagedSuffices), ext) <==>
      (StartsWithIgnoringCase(ext, ".targets") || StartsWithIgnoringCase(ext, ".sln") ||
       StartsWithIgnoringCase(ext, ".fsproj") || MatchesWholly(ext, ".csproj"))
  {
    var s := ToolManagedSuffices;
    SuffixMatchRule(s, ext);
    assert "." + s[0] == ".targets" && "." + s[1] == ".sln" && "." + s[2] == ".fsproj" && "." + s[3] == ".csproj";
    if exists k :: 0 <= k < 3 && StartsWithIgnoringCase(ext, "." + s[k]) {
      var k :| 0 <= k < 3 && StartsWithIgnoringCase(ext, "." + s[k]);
      assert k == 0 || k == 1 || k == 2;
    }
  }

  /** `isFileThatRequiresLeadingTabs`: the leading-tab check is waived when
      the extension starts with `.py` or `.markdown`, or is `.md`. */
  function IsFileThatRequiresLeadingTabs(path: string): (exempt: bool)
    ensures var ext := Extension(path);
      exempt <==> (StartsWithIgnoringCase(ext, ".py") || StartsWithIgnoringCase(ext, ".markdown") || MatchesWholly(ext, ".md"))
  {
    LeadingTabPatternRule(Extension(path));
    IsFileOfOneOfASetOfTypes(path, SuffixAlternation(LeadingTabSuffices))
  }

  /** `isFileThatWillBeMessedUpByATool`: the file is skipped when the
      extension starts with `.targets`, `.sln` or `.fsproj`, or is `.csproj`. */
  function IsFileThatWillBeMessedUpByATool(path: string): (toolManaged: bool)
    ensures var ext := Extension(path);
      toolManaged <==> (StartsWithIgnoringCase(ext, ".targets") || StartsWithIgnoringCase(ext, ".sln") ||
                        StartsWithIgnoringCase(ext, ".fsproj") || MatchesWholly(ext, ".csproj"))
  {
    ToolManagedPatternRule(Extension(path));
    IsFileOfOneOfASetOfTypes(path, SuffixAlternation(ToolManagedSuffices))
  }

  /** `isThirdPartyFile`: `/thirdParty/`, slashes on both sides, occurs
      somewhere in the path, ignoring case. */
  function IsThirdPartyFile(path: string): (thirdParty: bool)
    ensures thirdParty <==> exists i: nat :: OccursAt(path, "/thirdParty/", i)
  {
    ContainsIgnoringCase(path, "/thirdParty/")
  }

  /** `isBinaryFile`: a MIME type is known for the path. The lookup table
      is a parameter of the model. */
  predicate IsBinaryFile(path: string, hasMimeType: string -> bool) {
    hasMimeType(path)
  }

  /** The condition of the comprehension at hooks.py:75. */
  predicate IsRelevant(path: string, hasMimeType: string -> bool) {
    !(IsThirdPartyFile(path) || IsBinaryFile(path, hasMimeType) || IsFileThatWillBeMessedUpByATool(path))
  }

  // ---------------------------------------------------------------------------
  // Worked cases

  /** Every listed suffix but the last is matched as a prefix: `.pyx` and
      `.slnx` count as listed although no suffix equals them, while `.mdx`
      and `.csprojx` do not, because `md` and `csproj` come last. */
  lemma LeadingTabPrefixCases()
    ensures PatternMatches(SuffixAlternation(LeadingTabSuffices), ".PYX") && !IsExactlyOneOf(LeadingTabSuffices, ".PYX")
    ensures !PatternMatches(SuffixAlternation(LeadingTabSuffices), ".mdx")
  {
    LeadingTabPatternRule(".PYX");
    assert ".PYX"[..3] == ".PY";
    LeadingTabPatternRule(".mdx");
    DiffersAt(".mdx", ".py", 1);
    assert !EndAnchorHolds(".mdx", 3);
  }

  /** The same holds of the tool-managed list: `.slnx` is caught by the
      `.sln` alternative, while `.csprojx` is not, because `.csproj` is the
      last alternative and must match the whole extension. */
  lemma ToolManagedPrefixCases()
    ensures PatternMatches(SuffixAlternation(ToolManagedSuffices), ".slnx") && !IsExactlyOneOf(ToolManagedSuffices, ".slnx")
    ensures !PatternMatches(SuffixAlternation(ToolManagedSuffices), ".csprojx")
  {
    ToolManagedPatternRule(".slnx");
    assert ".slnx"[..4] == ".sln";
    assert forall k :: 0 <= k < |ToolManagedSuffices| ==> |"." + ToolManagedSuffices[k]| != 5;
    ToolManagedPatternRule(".csprojx");
    DiffersAt(".csprojx", ".targets", 1);
    DiffersAt(".csprojx", ".sln", 1);
    DiffersAt(".csprojx", ".fsproj", 1);
    assert !EndAnchorHolds(".csprojx", 7);
  }

  /** A text that differs from a prefix at one of its positions, even
      ignoring case, does not start with it. */
  lemma DiffersAt(s: string, prefix: string, i: nat)
    requires i < |prefix| && i < |s| && Lower(s[i]) != Lower(prefix[i])
    ensures !StartsWithIgnoringCase(s, prefix)
  {
    if |prefix| <= |s| {
      assert s[..|prefix|][i] == s[i];
    }
  }

  /** The third-party test wants a slash before the segment: a top-level
      `thirdParty` directory is not recognised. */
  lemma ThirdPartyCases()
    ensures IsThirdPartyFile("src/ThirdParty/lib.js")
    ensures !IsThirdPartyFile("thirdParty/lib.js")
  {
    assert OccursAt("src/ThirdParty/lib.js", "/thirdParty/", 3);
    forall i: nat ensures !OccursAt("thirdParty/lib.js", "/thirdParty/", i) {
      var s := "thirdParty/lib.js";
      if i + 12 <= |s| {
        assert i <= 5;
        assert s[i..i + 12][0] == s[i] && s[i..i + 12][11] == s[i + 11];
      }
    }
  }
}
