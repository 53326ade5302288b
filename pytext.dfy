/** The Python 2 byte-string primitives the hook relies on: the `\s`
    character class of a byte pattern, ASCII case folding under
    `re.IGNORECASE`, `str.splitlines`, `os.path.splitext` and the decimal
    rendering of a line number by `str.format`. A `char` stands for a byte. */
module PyText {

  // ---------------------------------------------------------------------------
  // Character classes

  /** `\s` in a byte-string pattern: space, tab, line feed, carriage return,
      form feed and vertical tab. */
  predicate IsWhitespace(c: char) {
    c == ' ' || c == '\t' || c == '\n' || c == '\r' || c == 12 as char || c == 11 as char
  }

  /** The characters at which `str.splitlines` breaks a byte string. */
  predicate IsLineBreak(c: char) {
    c == '\n' || c == '\r'
  }

  predicate AllWhitespace(s: string) {
    forall i :: 0 <= i < |s| ==> IsWhitespace(s[i])
  }

  predicate HasNoLineBreak(s: string) {
    forall i :: 0 <= i < |s| ==> !IsLineBreak(s[i])
  }

  // ---------------------------------------------------------------------------
  // ASCII case folding, as `re.IGNORECASE` applies it to byte strings

  function Lower(c: char): (d: char)
    ensures 'A' <= c <= 'Z' ==> d as int == c as int + 32
    ensures !('A' <= c <= 'Z') ==> d == c
  {
    if 'A' <= c <= 'Z' then (c as int + 32) as char else c
  }

  predicate EqualIgnoringCase(s: string, t: string) {
    |s| == |t| && forall i :: 0 <= i < |s| ==> Lower(s[i]) == Lower(t[i])
  }

  predicate StartsWithIgnoringCase(s: string, prefix: string) {
    |prefix| <= |s| && EqualIgnoringCase(s[..|prefix|], prefix)
  }

  /** A case-insensitive copy of `pattern` starts at position `i` of `s`. */
  predicate OccursAt(s: string, pattern: string, i: nat) {
    i + |pattern| <= |s| && EqualIgnoringCase(s[i..i + |pattern|], pattern)
  }

  /** `re.search(pattern, s, re.IGNORECASE)` for a pattern that is a plain
      literal: some position of `s` starts a case-insensitive copy of it. */
  function ContainsIgnoringCase(s: string, pattern: string): (found: bool)
    ensures found <==> exists i: nat :: OccursAt(s, pattern, i)
    decreases |s|
  {
    if StartsWithIgnoringCase(s, pattern) then
      assert OccursAt(s, pattern, 0) by { assert s[0..|pattern|] == s[..|pattern|]; }
      true
    else if |s| <= |pattern| then
      forall i: nat ensures !OccursAt(s, pattern, i) {
        if i + |pattern| <= |s| {
          assert i == 0 && s[0..|pattern|] == s[..|pattern|];
        }
      }
      false
    else
      var found := ContainsIgnoringCase(s[1..], pattern);
      if found then
        var j: nat :| OccursAt(s[1..], pattern, j);
        OccursAtShift(s, pattern, j + 1);
        true
      else
        assert !OccursAt(s, pattern, 0) by { assert s[0..|pattern|] == s[..|pattern|]; }
        forall i: nat | i >= 1 ensures !OccursAt(s, pattern, i) {
          OccursAtShift(s, pattern, i);
        }
        false
  }

  lemma OccursAtShift(s: string, pattern: string, i: nat)
    requires i >= 1 && s != []
    ensures OccursAt(s, pattern, i) <==> OccursAt(s[1..], pattern, i - 1)
  {
    if i + |pattern| <= |s| {
      var u, v := s[1..][i - 1..i - 1 + |pattern|], s[i..i + |pattern|];
      assert forall k :: 0 <= k < |u| ==> u[k] == v[k];
      assert u == v;
    }
  }

  lemma OccursAtIgnoresCase(s: string, s': string, pattern: string, i: nat)
    requires EqualIgnoringCase(s, s')
    ensures OccursAt(s, pattern, i) <==> OccursAt(s', pattern, i)
  {
    if i + |pattern| <= |s| {
      var t, t' := s[i..i + |pattern|], s'[i..i + |pattern|];
      assert forall k :: 0 <= k < |t| ==> t[k] == s[i + k] && t'[k] == s'[i + k];
      assert forall k :: 0 <= k < |t| ==> Lower(t[k]) == Lower(t'[k]);
    }
  }

  /** Case folding is what `re.IGNORECASE` ignores: two spellings that differ
      only in the case of letters are found in the same strings. */
  lemma ContainsIgnoresCase(s: string, s': string, pattern: string)
    requires EqualIgnoringCase(s, s')
    ensures ContainsIgnoringCase(s, pattern) == ContainsIgnoringCase(s', pattern)
  {
    if ContainsIgnoringCase(s, pattern) {
      var i: nat :| OccursAt(s, pattern, i);
      OccursAtIgnoresCase(s, s', pattern, i);
    }
    if ContainsIgnoringCase(s', pattern) {
      var i: nat :| OccursAt(s', pattern, i);
      OccursAtIgnoresCase(s, s', pattern, i);
    }
  }

  // ---------------------------------------------------------------------------
  // str.splitlines()

  /** Index of the first line break of `s`, or `|s|` when there is none. */
  function LineBreakIndex(s: string): (i: nat)
    ensures i <= |s|
    ensures HasNoLineBreak(s[..i])
    ensures i < |s| ==> IsLineBreak(s[i])
  {
    if s == [] || IsLineBreak(s[0]) then 0
    else
      var i := 1 + LineBreakIndex(s[1..]);
      assert s[..i] == [s[0]] + s[1..][..i - 1];
      i
  }

  /** Python 2 `str.splitlines()` on a byte string: lines end at `\n`, `\r`
      or `\r\n`, terminators are dropped, a final terminator does not open
      an empty last line, and the empty string has no lines. */
  function SplitLines(s: string): (lines: seq<string>)
    ensures forall k :: 0 <= k < |lines| ==> HasNoLineBreak(lines[k])
    ensures lines == [] <==> s == []
    ensures |lines| <= |s|
    decreases |s|
  {
    if s == [] then []
    else
      var i := LineBreakIndex(s);
      var next := if i == |s| then i
                  else if s[i] == '\r' && i + 1 < |s| && s[i + 1] == '\n' then i + 2
                  else i + 1;
      [s[..i]] + SplitLines(s[next..])
  }

  /** A line terminator recognised by `str.splitlines`. */
  predicate IsTerminator(t: string) {
    t == "\n" || t == "\r" || t == "\r\n"
  }

  /** Lines written out, line `k` followed by terminator `ends[k]`. */
  function Terminated(lines: seq<string>, ends: seq<string>): string
    requires |ends| == |lines|
  {
    if lines == [] then [] else lines[0] + ends[0] + Terminated(lines[1..], ends[1..])
  }

  /** No `\r` terminator is directly followed by an empty line ended by
      `\n`: written out, the two would read as one `\r\n`. */
  predicate NoMergedTerminators(lines: seq<string>, ends: seq<string>)
    requires |ends| == |lines|
  {
    forall k :: 0 <= k < |lines| - 1 ==> !(ends[k] == "\r" && lines[k + 1] == [] && ends[k + 1] == "\n")
  }

  /** Round trip: splitting text made of break-free lines, each ended by any
      of the three terminators, and an optional unterminated last line gives
      back exactly those lines. */
  lemma {:induction false} SplitLinesOfTerminated(lines: seq<string>, ends: seq<string>, tail: string)
    requires |ends| == |lines|
    requires forall k :: 0 <= k < |lines| ==> HasNoLineBreak(lines[k]) && IsTerminator(ends[k])
    requires NoMergedTerminators(lines, ends)
    requires HasNoLineBreak(tail)
    ensures SplitLines(Terminated(lines, ends) + tail) == lines + (if tail == [] then [] else [tail])
    decreases |lines|
  {
    if lines == [] {
      assert Terminated(lines, ends) + tail == tail;
      if tail != [] {
        SplitLinesOfLine(tail);
      }
    } else {
      NoMergedTerminatorsOfLater(lines, ends);
      SplitLinesOfTerminated(lines[1..], ends[1..], tail);
      SplitLinesOfFirstLine(lines, ends, tail);
    }
  }

  /** The later lines of well-terminated text are well terminated. */
  lemma NoMergedTerminatorsOfLater(lines: seq<string>, ends: seq<string>)
    requires |ends| == |lines| && lines != []
    requires NoMergedTerminators(lines, ends)
    ensures NoMergedTerminators(lines[1..], ends[1..])
  {
    forall k | 0 <= k < |lines| - 2
      ensures !(ends[1..][k] == "\r" && lines[1..][k + 1] == [] && ends[1..][k + 1] == "\n")
    {
      assert ends[1..][k] == ends[k + 1] && lines[1..][k + 1] == lines[k + 2] && ends[1..][k + 1] == ends[k + 2];
    }
  }

  /** The induction step of the round trip: the first line and its
      terminator split off in front of the later lines. */
  lemma SplitLinesOfFirstLine(lines: seq<string>, ends: seq<string>, tail: string)
    requires |ends| == |lines| && lines != []
    requires forall k :: 0 <= k < |lines| ==> HasNoLineBreak(lines[k]) && IsTerminator(ends[k])
    requires NoMergedTerminators(lines, ends)
    requires HasNoLineBreak(tail)
    requires SplitLines(Terminated(lines[1..], ends[1..]) + tail) == lines[1..] + (if tail == [] then [] else [tail])
    ensures SplitLines(Terminated(lines, ends) + tail) == lines + (if tail == [] then [] else [tail])
  {
    var rest := Terminated(lines[1..], ends[1..]) + tail;
    var last := if tail == [] then [] else [tail];
    FirstLineSplitsOff(lines, ends, tail);
    SplitLinesStep(lines[0], ends[0], rest);
    ConsAppend(lines, last);
  }

  lemma ConsAppend(lines: seq<string>, last: seq<string>)
    requires lines != []
    ensures [lines[0]] + (lines[1..] + last) == lines + last
  {
    assert lines == [lines[0]] + lines[1..];
  }

  /** Terminated text is its first line, that line's terminator, and the
      rest; a `\r` terminator is never followed by a `\n` that starts the
      rest. */
  lemma FirstLineSplitsOff(lines: seq<string>, ends: seq<string>, tail: string)
    requires |ends| == |lines| && lines != []
    requires forall k :: 0 <= k < |lines| ==> HasNoLineBreak(lines[k]) && IsTerminator(ends[k])
    requires NoMergedTerminators(lines, ends)
    requires HasNoLineBreak(tail)
    ensures var rest := Terminated(lines[1..], ends[1..]) + tail;
      Terminated(lines, ends) + tail == lines[0] + ends[0] + rest &&
      (ends[0] == "\r" && rest != [] ==> rest[0] != '\n')
  {
    var later := Terminated(lines[1..], ends[1..]);
    var rest := later + tail;
    assert Terminated(lines, ends) == lines[0] + ends[0] + later;
    AppendAssociates(lines[0] + ends[0], later, tail);
    if ends[0] == "\r" && rest != [] {
      if lines[1..] != [] {
        TerminatedStart(lines[1..], ends[1..], tail);
        assert !(ends[0] == "\r" && lines[1] == [] && ends[1] == "\n");
      } else {
        assert rest == tail;
        assert !IsLineBreak(tail[0]);
      }
    }
  }

  lemma AppendAssociates<T>(a: seq<T>, b: seq<T>, c: seq<T>)
    ensures a + b + c == a + (b + c)
  {
  }

  /** A non-empty break-free string is one line. */
  lemma SplitLinesOfLine(line: string)
    requires line != [] && HasNoLineBreak(line)
    ensures SplitLines(line) == [line]
  {
    LineBreakIndexOfLine(line, []);
    assert line + [] == line;
    assert line[..|line|] == line;
  }

  /** One break-free line and its terminator split off as the first line. */
  lemma SplitLinesStep(line: string, end: string, rest: string)
    requires HasNoLineBreak(line) && IsTerminator(end)
    requires end == "\r" && rest != [] ==> rest[0] != '\n'
    ensures SplitLines(line + end + rest) == [line] + SplitLines(rest)
  {
    var s := line + end + rest;
    assert s == line + (end + rest);
    LineBreakIndexOfLine(line, end + rest);
    assert s[..|line|] == line;
    assert s[|line| + |end|..] == rest;
  }

  /** A break-free line followed by anything breaks exactly after the line. */
  lemma {:induction false} LineBreakIndexOfLine(line: string, rest: string)
    requires HasNoLineBreak(line)
    requires rest == [] || IsLineBreak(rest[0])
    ensures LineBreakIndex(line + rest) == |line|
    decreases |line|
  {
    if line != [] {
      assert (line + rest)[1..] == line[1..] + rest;
      LineBreakIndexOfLine(line[1..], rest);
    }
  }

  /** Terminated text whose first character is `\n` begins with an empty
      line ended by `\n`. */
  lemma TerminatedStart(lines: seq<string>, ends: seq<string>, tail: string)
    requires |ends| == |lines| && lines != []
    requires forall k :: 0 <= k < |lines| ==> HasNoLineBreak(lines[k]) && IsTerminator(ends[k])
    ensures var s := Terminated(lines, ends) + tail;
      s != [] && (s[0] == '\n' ==> lines[0] == [] && ends[0] == "\n")
  {
    var head := lines[0] + ends[0];
    var t := Terminated(lines, ends);
    assert IsTerminator(ends[0]);
    assert |head| > 0 && t == head + Terminated(lines[1..], ends[1..]);
    assert (Terminated(lines, ends) + tail)[0] == t[0] == head[0];
    if lines[0] == [] {
      assert head == ends[0];
    }
  }

  // ---------------------------------------------------------------------------
  // os.path.splitext (posixpath)

  /** Index of the last occurrence of `c` in `s`, or -1 (`str.rfind`). */
  function LastIndexOf(s: string, c: char): (r: int)
    ensures -1 <= r < |s|
    ensures r >= 0 ==> s[r] == c
    ensures forall k :: r < k < |s| ==> s[k] != c
  {
    if s == [] then -1
    else if s[|s| - 1] == c then |s| - 1
    else LastIndexOf(s[..|s| - 1], c)
  }

  predicate AllDots(s: string) {
    forall i :: 0 <= i < |s| ==> s[i] == '.'
  }

  /** The shape of an extension: empty, or a dot followed by characters
      that are neither dots nor slashes. */
  predicate IsExtension(ext: string) {
    ext == [] || (ext[0] == '.' && forall i :: 1 <= i < |ext| ==> ext[i] != '.' && ext[i] != '/')
  }

  /** The final `/`-separated segment of `path` holds a `.` with something
      other than a dot before it in that segment. */
  predicate HasExtension(path: string) {
    exists i, j :: LastIndexOf(path, '/') < i < j < |path| && path[i] != '.' && path[j] == '.'
  }

  /** `os.path.splitext`: the extension runs from the last `.` of the final
      `/`-separated segment to the end, unless everything in that segment
      before the dot is itself a dot (a hidden file such as `.bashrc`), in
      which case it is empty. Together the clauses determine the split: a
      non-empty extension is a dot with no dot after it, so it starts at the
      last dot of the path. */
  function SplitExt(path: string): (parts: (string, string))
    ensures parts.0 + parts.1 == path
    ensures IsExtension(parts.1)
    ensures parts.1 != [] <==> HasExtension(path)
  {
    var sep := LastIndexOf(path, '/');
    var dot := LastIndexOf(path, '.');
    SplitExtDecision(path, sep, dot);
    if dot > sep && !AllDots(path[sep + 1..dot]) then
      var root, ext := path[..dot], path[dot..];
      assert root + ext == path;
      DotSuffixIsExtension(path, sep, dot);
      (root, ext)
    else
      assert path + [] == path;
      (path, [])
  }

  /** The test `splitext` makes on the last slash and the last dot is
      `HasExtension`. */
  lemma SplitExtDecision(path: string, sep: int, dot: int)
    requires sep == LastIndexOf(path, '/') && dot == LastIndexOf(path, '.')
    ensures (dot > sep && !AllDots(path[sep + 1..dot])) <==> HasExtension(path)
  {
    if dot > sep && !AllDots(path[sep + 1..dot]) {
      var k :| 0 <= k < |path[sep + 1..dot]| && path[sep + 1..dot][k] != '.';
      assert path[sep + 1 + k] != '.';
      assert LastIndexOf(path, '/') < sep + 1 + k < dot < |path| && path[dot] == '.';
    }
    if HasExtension(path) {
      var i, j :| sep < i < j < |path| && path[i] != '.' && path[j] == '.';
      assert j <= dot;
      assert path[sep + 1..dot][i - sep - 1] != '.';
    }
  }

  /** From the last dot, when it lies after the last slash, to the end of
      a path is an extension. */
  lemma DotSuffixIsExtension(path: string, sep: int, dot: int)
    requires -1 <= sep < dot < |path| && path[dot] == '.'
    requires forall k :: sep < k < |path| ==> path[k] != '/'
    requires forall k :: dot < k < |path| ==> path[k] != '.'
    ensures IsExtension(path[dot..])
  {
    var ext := path[dot..];
    forall i | 1 <= i < |ext| ensures ext[i] != '.' && ext[i] != '/' {
      assert ext[i] == path[dot + i];
    }
  }

  /** The extension `os.path.splitext(path)[1]`: a suffix of the path. */
  function Extension(path: string): (ext: string)
    ensures IsExtension(ext)
    ensures |ext| <= |path| && ext == path[|path| - |ext|..]
    ensures ext != [] <==> HasExtension(path)
  {
    var parts := SplitExt(path);
    assert path[|parts.0|..] == parts.1;
    parts.1
  }

  /** The contract of `Extension` leaves no choice: any suffix of the path
      shaped like an extension and empty exactly when the path has none is
      the extension. */
  lemma ExtensionDetermined(path: string, ext: string)
    requires IsExtension(ext) && |ext| <= |path| && ext == path[|path| - |ext|..]
    requires ext != [] <==> HasExtension(path)
    ensures ext == Extension(path)
  {
    var e := Extension(path);
    if ext != [] && |ext| != |e| {
      assert false;
    }
    assert |ext| == |e|;
  }

  // ---------------------------------------------------------------------------
  // Decimal rendering of a natural number ("{0}".format(n))

  function DigitChar(d: nat): (c: char)
    requires d < 10
    ensures '0' <= c <= '9'
  {
    ('0' as int + d) as char
  }

  predicate IsDigitString(s: string) {
    forall i :: 0 <= i < |s| ==> '0' <= s[i] <= '9'
  }

  function DecimalString(n: nat): (s: string)
    ensures |s| >= 1 && IsDigitString(s)
    ensures s[0] == '0' ==> n == 0
  {
    if n < 10 then [DigitChar(n)] else DecimalString(n / 10) + [DigitChar(n % 10)]
  }

  /** The number a string of decimal digits denotes. */
  function DecimalValue(s: string): nat
    requires IsDigitString(s)
  {
    if s == [] then 0 else 10 * DecimalValue(s[..|s| - 1]) + (s[|s| - 1] as int - '0' as int)
  }

  /** Rendering a line number and reading it back gives the same number, so
      the numbers in a report identify the lines. */
  lemma {:induction false} DecimalRoundTrip(n: nat)
    ensures DecimalValue(DecimalString(n)) == n
  {
    if n >= 10 {
      var s := DecimalString(n);
      assert s[..|s| - 1] == DecimalString(n / 10);
      DecimalRoundTrip(n / 10);
    }
  }
}
