/**
 * The Shopify taxonomy converter: each input line of the form
 * `gid://...   : text` becomes the TSV row `gid://...<TAB>text`; blank lines
 * are ignored, comment lines and lines that do not match are skipped and
 * counted.
 *
 * The line pattern `^(gid://[^\s]+)\s+:\s+(.+)$` is written out as a matcher
 * (`MatchLine`) and proved equivalent to a positional description of the
 * pattern's language (`MatchAt`).
 */
module ShopifyConvert {
  import opened Wrappers
  import opened Text
  import opened TsvFormat
  import opened Seqs

  const Prefix: string := "gid://"

  // ---- The line pattern ----------------------------------------------------

  /**
   * The end of the run that starts at `p` and consists of whitespace
   * (`space`) or of non-whitespace (`!space`).
   */
  function Run(line: string, p: nat, space: bool): (r: nat)
    requires p <= |line|
    ensures p <= r <= |line|
    decreases |line| - p
  {
    if p == |line| || IsSpace(line[p]) != space then p else Run(line, p + 1, space)
  }

  /** A run is as long as it can be: every character in it is of its kind, the next one is not. */
  lemma {:induction false} RunFacts(line: string, p: nat, space: bool)
    requires p <= |line|
    ensures forall q :: p <= q < Run(line, p, space) ==> IsSpace(line[q]) == space
    ensures Run(line, p, space) == |line| || IsSpace(line[Run(line, p, space)]) != space
    decreases |line| - p
  {
    if p < |line| && IsSpace(line[p]) == space {
      RunFacts(line, p + 1, space);
    }
  }

  /** A run is determined by where it starts. */
  lemma RunUnique(line: string, p: nat, space: bool, r: nat)
    requires p <= r <= |line|
    requires forall q :: p <= q < r ==> IsSpace(line[q]) == space
    requires r == |line| || IsSpace(line[r]) != space
    ensures Run(line, p, space) == r
  {
    RunFacts(line, p, space);
  }

  /**
   * The pattern matches `line` with group 1 `line[..i]` and group 2
   * `line[k..]`: `gid://`, non-whitespace up to `i`, whitespace up to the
   * colon at `j`, whitespace up to `k`, then at least one character other
   * than a newline up to the end.
   */
  predicate MatchAt(line: string, i: nat, j: nat, k: nat) {
    && 6 < i < j && j + 1 < k < |line|
    && line[..6] == Prefix
    && (forall q :: 6 <= q < i ==> !IsSpace(line[q]))
    && (forall q :: i <= q < j ==> IsSpace(line[q]))
    && line[j] == ':'
    && (forall q :: j < q < k ==> IsSpace(line[q]))
    && (forall q :: k <= q < |line| ==> line[q] != '\n')
  }

  /** `pattern.match(line)`: the two groups, or `None`. */
  function MatchLine(line: string): Option<(string, string)> {
    if |line| < 6 || line[..6] != Prefix then None
    else
      var i := Run(line, 6, false);
      if i == 6 || i == |line| then None
      else
        var j := Run(line, i, true);
        if j == |line| || line[j] != ':' then None
        else
          match TextStart(line, j)
          case None => None
          case Some(k) => Some((line[..i], line[k..]))
  }

  /**
   * Where group 2 starts after the colon at `j`: after the whitespace run,
   * or, when only whitespace follows, at the last character; `None` when
   * `\s+(.+)$` cannot match there.
   */
  function TextStart(line: string, j: nat): (r: Option<nat>)
    requires j < |line|
    ensures r.Some? ==> j + 1 < r.value < |line|
  {
    var m := Run(line, j + 1, true);
    if m == j + 1 then None
    else if m < |line| then
      if '\n' in line[m..] then None else Some(m)
    else if |line| - (j + 1) >= 2 && line[|line| - 1] != '\n' then Some(|line| - 1)
    else None
  }

  /** Group 2 as found is a valid end of a match, and any valid end is found. */
  lemma TextStartFacts(line: string, j: nat)
    requires j < |line|
    ensures TextStart(line, j).Some? ==>
      var k := TextStart(line, j).value;
      && (forall q :: j < q < k ==> IsSpace(line[q]))
      && (forall q :: k <= q < |line| ==> line[q] != '\n')
  {
    RunFacts(line, j + 1, true);
    var m := Run(line, j + 1, true);
    if m < |line| && '\n' !in line[m..] {
      forall q | m <= q < |line|
        ensures line[q] != '\n'
      {
        assert line[q] == line[m..][q - m];
      }
    }
  }

  /** Whenever the rest of the pattern can match after the colon at `j`, it is found, with the same stripped text. */
  lemma TextStartComplete(line: string, j: nat, k: nat)
    requires j + 1 < k < |line|
    requires forall q :: j < q < k ==> IsSpace(line[q])
    requires forall q :: k <= q < |line| ==> line[q] != '\n'
    ensures TextStart(line, j).Some?
    ensures Trim(line[TextStart(line, j).value..]) == Trim(line[j + 1..])
  {
    var m := Run(line, j + 1, true);
    RunFacts(line, j + 1, true);
    assert m >= k;
    if m < |line| {
      NoNewlineAfter(line, k, m);
      TextAfterRun(line, j, m);
      SuffixTrim(line, j + 1, m);
      assert Trim(line[TextStart(line, j).value..]) == Trim(line[j + 1..]);
    } else {
      TextAllSpace(line, j);
      SuffixTrim(line, j + 1, |line| - 1);
      assert Trim(line[TextStart(line, j).value..]) == Trim(line[j + 1..]);
    }
  }

  /** Text follows the whitespace after the colon: group 2 starts where the text does. */
  lemma TextAfterRun(line: string, j: nat, m: nat)
    requires j < |line| && m == Run(line, j + 1, true)
    requires j + 1 < m < |line| && '\n' !in line[m..]
    ensures TextStart(line, j) == Some(m)
  {
  }

  /** Only whitespace follows the colon: group 2 is the last character. */
  lemma TextAllSpace(line: string, j: nat)
    requires j + 2 < |line| && Run(line, j + 1, true) == |line| && line[|line| - 1] != '\n'
    ensures TextStart(line, j) == Some(|line| - 1)
  {
  }

  /** A leading whitespace character does not change what `strip()` gives. */
  lemma TrimSpaceStep(s: string)
    requires s != [] && IsSpace(s[0])
    ensures Trim(s[1..]) == Trim(s)
  {
    assert TrimStart(s) == TrimStart(s[1..]);
  }

  /** Every match the matcher reports is a match of the pattern. */
  lemma MatchLineSound(line: string) returns (i: nat, j: nat, k: nat)
    requires MatchLine(line).Some?
    ensures MatchAt(line, i, j, k)
    ensures MatchLine(line).value == (line[..i], line[k..])
  {
    i := Run(line, 6, false);
    RunFacts(line, 6, false);
    j := Run(line, i, true);
    RunFacts(line, i, true);
    k := TextStart(line, j).value;
    TextStartFacts(line, j);
  }

  /**
   * Every match of the pattern is found, its first group is the same one, and
   * its second group strips to the text after the colon, stripped: the
   * result does not depend on how the pattern splits the line.
   */
  lemma MatchLineComplete(line: string, i: nat, j: nat, k: nat)
    requires MatchAt(line, i, j, k)
    ensures MatchLine(line).Some?
    ensures MatchLine(line).value.0 == line[..i]
    ensures Trim(MatchLine(line).value.1) == Trim(line[j + 1..])
  {
    RunUnique(line, 6, false, i);
    RunUnique(line, i, true, j);
    TextStartComplete(line, j, k);
    assert MatchLine(line) == Some((line[..i], line[TextStart(line, j).value..]));
  }

  /** A suffix of a newline-free tail is newline-free. */
  lemma NoNewlineAfter(line: string, k: nat, m: nat)
    requires k <= m <= |line|
    requires forall q :: k <= q < |line| ==> line[q] != '\n'
    ensures '\n' !in line[m..]
  {
    forall q | 0 <= q < |line| - m
      ensures line[m..][q] != '\n'
    {
      assert line[m..][q] == line[m + q];
    }
  }

  /** Dropping whitespace from the front of a suffix does not change what it strips to. */
  lemma {:induction false} SuffixTrim(line: string, p: nat, m: nat)
    requires p <= m <= |line|
    requires forall q :: p <= q < m ==> IsSpace(line[q])
    ensures Trim(line[m..]) == Trim(line[p..])
    decreases m - p
  {
    if p < m {
      SuffixTrim(line, p + 1, m);
      assert line[p..][1..] == line[p + 1..];
      TrimSpaceStep(line[p..]);
    }
  }

  /** The pattern matches exactly when the matcher reports a match. */
  lemma MatchLineIff(line: string)
    ensures MatchLine(line).Some? <==> exists i: nat, j: nat, k: nat :: MatchAt(line, i, j, k)
  {
    if MatchLine(line).Some? {
      var i, j, k := MatchLineSound(line);
    } else if exists i: nat, j: nat, k: nat :: MatchAt(line, i, j, k) {
      var i: nat, j: nat, k: nat :| MatchAt(line, i, j, k);
      MatchLineComplete(line, i, j, k);
    }
  }

  // ---- Lines -------------------------------------------------------------

  /** What the loop does with one input line. */
  datatype LineKind = Blank | Comment | Row(id: string, text: string) | Mismatch

  /** One iteration of the loop: strip the line ending, then blank, comment, match or mismatch. */
  function Classify(raw: string): LineKind {
    var line := RStripNewlines(raw);
    if Trim(line) == [] then Blank
    else if Trim(line)[0] == '#' then Comment
    else
      match MatchLine(line)
      case None => Mismatch
      case Some(groups) => Row(Trim(groups.0), Trim(groups.1))
  }

  /** The row a line of this kind writes, if any. */
  function RowOf(k: LineKind): seq<Category> {
    if k.Row? then [Category(k.id, k.text)] else []
  }

  /** Whether a line of this kind counts as skipped. */
  function SkipOf(k: LineKind): nat {
    if k.Comment? || k.Mismatch? then 1 else 0
  }

  /** The rows written for `lines`, in input order. */
  function Converted(lines: seq<string>): seq<Category> {
    if lines == [] then [] else Converted(lines[..|lines| - 1]) + RowOf(Classify(lines[|lines| - 1]))
  }

  /** The final `skipped_count`: comments and mismatches. */
  function Skipped(lines: seq<string>): nat {
    if lines == [] then 0 else Skipped(lines[..|lines| - 1]) + SkipOf(Classify(lines[|lines| - 1]))
  }

  /** Rows and the skip count grow line by line, in input order. */
  lemma ConvertedSnoc(lines: seq<string>, raw: string)
    ensures Converted(lines + [raw]) == Converted(lines) + RowOf(Classify(raw))
    ensures Skipped(lines + [raw]) == Skipped(lines) + SkipOf(Classify(raw))
  {
    assert (lines + [raw])[..|lines|] == lines;
  }

  /** The number of lines that are not whitespace only. */
  function NonBlank(lines: seq<string>): nat {
    if lines == [] then 0
    else NonBlank(lines[..|lines| - 1]) + (if AllSpace(lines[|lines| - 1]) then 0 else 1)
  }

  /** What the converter ends with: an exit status, or the output file and the two counters. */
  datatype Outcome = Exit(status: int) | Finished(text: string, converted: nat, skipped: nat)

  /**
   * `convert_shopify_tsv`: the input is the file's lines as Python reads
   * them, or `None` when the file does not exist.
   */
  method ConvertShopifyTsv(input: Option<seq<string>>) returns (r: Outcome)
    ensures input.None? ==> r == Exit(1)
    ensures input.Some? ==>
      r == Finished(TsvText(Converted(input.value)), |Converted(input.value)|, Skipped(input.value))
  {
    if input.None? {
      return Exit(1);
    }
    var lines := input.value;
    var text := Header;
    var convertedCount := 0;
    var skippedCount := 0;
    for n := 0 to |lines|
      invariant Progress(lines, n, text, convertedCount, skippedCount)
    {
      ghost var text0, converted0, skipped0 := text, convertedCount, skippedCount;
      var kind := Classify(lines[n]);
      if kind.Row? {
        text := text + (Line(Category(kind.id, kind.text)) + "\n");
        convertedCount := convertedCount + 1;
      } else if kind.Comment? || kind.Mismatch? {
        skippedCount := skippedCount + 1;
      }
      LineStep(lines, n, kind, text0, converted0, skipped0, text, convertedCount, skippedCount);
    }
    Done(lines, text, convertedCount, skippedCount);
    return Finished(text, convertedCount, skippedCount);
  }

  /** The loop's state after the first `n` lines. */
  ghost predicate Progress(lines: seq<string>, n: nat, text: string, converted: nat, skipped: nat) {
    && n <= |lines|
    && text == Header + RowsText(Converted(lines[..n]))
    && converted == |Converted(lines[..n])|
    && skipped == Skipped(lines[..n])
  }

  /** One iteration: the line's row, if any, is written and counted; a comment or mismatch is counted. */
  lemma LineStep(lines: seq<string>, n: nat, kind: LineKind, text: string, converted: nat, skipped: nat,
                 text': string, converted': nat, skipped': nat)
    requires Progress(lines, n, text, converted, skipped) && n < |lines| && kind == Classify(lines[n])
    requires text' == if kind.Row? then text + (Line(Category(kind.id, kind.text)) + "\n") else text
    requires converted' == converted + |RowOf(kind)|
    requires skipped' == skipped + SkipOf(kind)
    ensures Progress(lines, n + 1, text', converted', skipped')
  {
    TakeSnoc(lines, n);
    ConvertedSnoc(lines[..n], lines[n]);
    var before := Converted(lines[..n]);
    if kind.Row? {
      var c := Category(kind.id, kind.text);
      RowsTextSnoc(before, c);
      AppendAssoc(Header, RowsText(before), Line(c) + "\n");
    } else {
      AppendNil(before);
    }
  }

  /** After the last line the state is the whole file's. */
  lemma Done(lines: seq<string>, text: string, converted: nat, skipped: nat)
    requires Progress(lines, |lines|, text, converted, skipped)
    ensures text == TsvText(Converted(lines)) && converted == |Converted(lines)| && skipped == Skipped(lines)
  {
    assert lines[..|lines|] == lines;
  }

  // ---- Properties ----------------------------------------------------------

  /** A line is blank exactly when it is whitespace only, line ending included. */
  lemma BlankIffSpace(raw: string)
    ensures Classify(raw).Blank? <==> AllSpace(raw)
  {
    var line := RStripNewlines(raw);
    TrimEmpty(line);
    if AllSpace(line) {
      forall q | 0 <= q < |raw|
        ensures IsSpace(raw[q])
      {
        if q < |line| {
          assert raw[q] == line[q];
        }
      }
    }
  }

  /** Every non-blank line is counted exactly once: as converted or as skipped. */
  lemma {:induction false} CountsAddUp(lines: seq<string>)
    ensures |Converted(lines)| + Skipped(lines) == NonBlank(lines)
  {
    if lines != [] {
      CountsAddUp(lines[..|lines| - 1]);
      BlankIffSpace(lines[|lines| - 1]);
    }
  }

  /** A line whose stripped form starts with `#` is skipped as a comment. */
  lemma CommentSkipped(raw: string)
    requires Trim(RStripNewlines(raw)) != [] && Trim(RStripNewlines(raw))[0] == '#'
    ensures Classify(raw) == Comment
  {
  }

  /**
   * A row comes from a match: its id is `gid://` followed by non-whitespace,
   * its text is the stripped remainder after the colon.
   */
  lemma RowFromMatch(raw: string) returns (i: nat, j: nat, k: nat)
    requires Classify(raw).Row?
    ensures Prefix <= Classify(raw).id && HasNoSpace(Classify(raw).id)
    ensures IsTrimmed(Classify(raw).text)
    ensures MatchAt(RStripNewlines(raw), i, j, k)
    ensures Classify(raw).id == RStripNewlines(raw)[..i]
    ensures Classify(raw).text == Trim(RStripNewlines(raw)[j + 1..])
  {
    var line := RStripNewlines(raw);
    var g := MatchLine(line).value;
    assert Classify(raw) == Row(Trim(g.0), Trim(g.1));
    i, j, k := MatchLineSound(line);
    MatchLineComplete(line, i, j, k);
    GroupOne(line, i, j, k);
    TrimmedIsFixed(line[..i]);
    assert Classify(raw).id == line[..i];
    assert Classify(raw).text == Trim(line[j + 1..]);
  }

  /** Group 1 is `gid://` followed by non-whitespace. */
  lemma GroupOne(line: string, i: nat, j: nat, k: nat)
    requires MatchAt(line, i, j, k)
    ensures Prefix <= line[..i] && HasNoSpace(line[..i]) && IsTrimmed(line[..i])
  {
    var id := line[..i];
    forall q | 0 <= q < |id|
      ensures !IsSpace(id[q])
    {
      if q < 6 {
        assert id[q] == Prefix[q];
      }
    }
  }

  /** A row with a non-empty text is one the TSV reader accepts unchanged. */
  lemma RowWritable(raw: string)
    requires Classify(raw).Row? && Classify(raw).text != []
    ensures Writable(Category(Classify(raw).id, Classify(raw).text))
  {
    var line := RStripNewlines(raw);
    var g := MatchLine(line).value;
    assert Classify(raw) == Row(Trim(g.0), Trim(g.1));
    MatchWritable(line);
  }

  /** The stripped groups of a match form a writable row when the text is not empty. */
  lemma MatchWritable(line: string)
    requires MatchLine(line).Some? && Trim(MatchLine(line).value.1) != []
    ensures Writable(Category(Trim(MatchLine(line).value.0), Trim(MatchLine(line).value.1)))
  {
    var i, j, k := MatchLineSound(line);
    var id := line[..i];
    var text := Trim(line[k..]);
    GroupOne(line, i, j, k);
    TrimmedIsFixed(id);
    NoNewlineAfter(line, k, k);
    TrimKeepsAbsent(line[k..], '\n');
    NoSpaceNoBreak(id);
  }

  /** Text without whitespace holds no tab and no newline. */
  lemma NoSpaceNoBreak(s: string)
    requires HasNoSpace(s)
    ensures '\t' !in s && '\n' !in s
  {
    assert IsSpace('\t') && IsSpace('\n');
  }

  /**
   * The converted file reads back as exactly the converted rows, provided no
   * matched line has a whitespace-only text after the colon.
   */
  lemma {:induction false} ConvertedReadsBack(lines: seq<string>)
    requires forall n :: 0 <= n < |lines| && Classify(lines[n]).Row? ==> Classify(lines[n]).text != []
    ensures forall c :: c in Converted(lines) ==> Writable(c)
    ensures ParsedCategories(TsvText(Converted(lines))) == Converted(lines)
  {
    if lines != [] {
      var init := lines[..|lines| - 1];
      var last := lines[|lines| - 1];
      assert forall n :: 0 <= n < |init| ==> init[n] == lines[n];
      ConvertedReadsBack(init);
      if Classify(last).Row? {
        RowWritable(last);
      }
    }
    ReadWritten(Converted(lines));
  }

  /** A line with only whitespace after the colon. */
  const BlankTextLine: string := "gid://x :  "

  lemma BlankTextLineMatches()
    ensures MatchAt(BlankTextLine, 7, 8, 10)
    ensures BlankTextLine[..7] == "gid://x" && BlankTextLine[9..] == "  "
  {
    assert BlankTextLine[..6] == Prefix;
  }

  lemma BlankTextLineIsData()
    ensures RStripNewlines(BlankTextLine) == BlankTextLine
    ensures Trim(BlankTextLine) != [] && Trim(BlankTextLine)[0] == 'g'
  {
    assert LeadingSpace(BlankTextLine) == 0;
  }

  /** Such a line still matches, and gives a row with an empty text. */
  lemma WhitespaceText()
    ensures Classify(BlankTextLine) == Row("gid://x", "")
  {
    BlankTextLineMatches();
    BlankTextLineIsData();
    MatchLineComplete(BlankTextLine, 7, 8, 10);
    TrimEmpty("  ");
    TrimmedIsFixed("gid://x");
  }
}
