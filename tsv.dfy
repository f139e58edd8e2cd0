/**
 * The standard category TSV format: a header line, then one `id<TAB>text`
 * row per category. `ParseTSV` is the reader of the vector service
 * (`parseTSV`); `TsvText` is what the Python conversion scripts write.
 */
module TsvFormat {
  import opened Wrappers
  import opened Text
  import opened Seqs

  /** A taxonomy category, as read from one data row. */
  datatype Category = Category(id: string, text: string)

  /** What the reader guarantees of every category it emits. */
  predicate WellFormed(c: Category) {
    && c.id != [] && c.text != []
    && IsTrimmed(c.id) && IsTrimmed(c.text)
    && '\t' !in c.id
  }

  /** A category that can be written as a single row and read back unchanged. */
  predicate Writable(c: Category) {
    WellFormed(c) && '\n' !in c.id && '\n' !in c.text
  }

  // ---- Writer --------------------------------------------------------------

  const HeaderLine: string := "category_id\tcategory_text"

  /** The header every converter writes first. */
  const Header: string := HeaderLine + "\n"

  /** The row text of one category, without its line terminator. */
  function Line(c: Category): string {
    c.id + "\t" + c.text
  }

  /** `f"{id}\t{text}\n"` for each category, in order. */
  function RowsText(cats: seq<Category>): string {
    if cats == [] then "" else RowsText(cats[..|cats| - 1]) + Line(cats[|cats| - 1]) + "\n"
  }

  /** The whole file a converter writes for the given rows. */
  function TsvText(cats: seq<Category>): string {
    Header + RowsText(cats)
  }

  /** Writing one more row appends its line to the text. */
  lemma RowsTextSnoc(cats: seq<Category>, c: Category)
    ensures RowsText(cats + [c]) == RowsText(cats) + (Line(c) + "\n")
  {
    SnocInit(cats, c);
    AppendAssoc(RowsText(cats), Line(c), "\n");
  }

  // ---- Reader --------------------------------------------------------------

  /**
   * The body of the parsing loop for one line: trim it, split at the first
   * tab, trim both sides and keep the row only if both are non-empty.
   */
  function ParseLine(raw: string): (r: Option<Category>)
    ensures r.Some? ==> WellFormed(r.value)
  {
    var line := Trim(raw);
    if line == [] then None
    else
      var tab := IndexOf(line, '\t');
      if tab == -1 then None
      else
        var id := Trim(line[..tab]);
        var text := Trim(line[tab + 1..]);
        assert '\t' !in id by {
          TrimKeepsAbsent(line[..tab], '\t');
        }
        if id != [] && text != [] then Some(Category(id, text)) else None
  }

  /** A line without a newline yields a row without one. */
  lemma ParseLineNoNewline(raw: string)
    requires '\n' !in raw
    ensures ParseLine(raw).Some? ==> Writable(ParseLine(raw).value)
  {
    var line := Trim(raw);
    TrimKeepsAbsent(raw, '\n');
    if line != [] {
      var tab := IndexOf(line, '\t');
      if tab != -1 {
        assert '\n' !in line[..tab] && '\n' !in line[tab + 1..];
        TrimKeepsAbsent(line[..tab], '\n');
        TrimKeepsAbsent(line[tab + 1..], '\n');
      }
    }
  }

  function Emitted(raw: string): seq<Category> {
    match ParseLine(raw)
    case Some(c) => [c]
    case None => []
  }

  /** The categories produced by the data lines `lines`, in order. */
  function Rows(lines: seq<string>): (r: seq<Category>)
    ensures |r| <= |lines|
  {
    if lines == [] then []
    else Rows(lines[..|lines| - 1]) + Emitted(lines[|lines| - 1])
  }

  /** The lines the reader iterates over: the trimmed content split at newlines. */
  function Lines(content: string): (ls: seq<string>)
    ensures |ls| >= 1
  {
    Split(Trim(content), '\n')
  }

  /** What `parseTSV(content)` returns: the first line is the header and skipped. */
  function ParsedCategories(content: string): seq<Category> {
    Rows(Lines(content)[1..])
  }

  /** `parseTSV`: the loop over the lines after the header, pushing each kept row. */
  method ParseTSV(content: string) returns (categories: seq<Category>)
    ensures categories == ParsedCategories(content)
    ensures forall j :: 0 <= j < |categories| ==> Writable(categories[j])
  {
    var lines := Lines(content);
    categories := [];
    var i := 1;
    assert lines[1..i] == [];
    while i < |lines|
      invariant 1 <= i <= |lines|
      invariant categories == Rows(lines[1..i])
    {
      ghost var before := categories;
      EmittedSteps(lines[i]);
      var line := Trim(lines[i]);
      if line == [] {
        AppendNil(before);
      } else {
        var tabIndex := IndexOf(line, '\t');
        if tabIndex == -1 {
          AppendNil(before);
        } else {
          var id := Trim(line[..tabIndex]);
          var text := Trim(line[tabIndex + 1..]);
          if id != [] && text != [] {
            categories := categories + [Category(id, text)];
          } else {
            AppendNil(before);
          }
        }
      }
      assert categories == before + Emitted(lines[i]);
      ParseStep(lines, i, before, categories);
      i := i + 1;
    }
    assert lines[1..i] == lines[1..];
    ParsedWritable(content);
  }

  // ---- Properties of the reader --------------------------------------------

  /** One iteration of the reader's loop adds what line `i` emits. */
  lemma ParseStep(lines: seq<string>, i: nat, cats: seq<Category>, cats': seq<Category>)
    requires 1 <= i < |lines|
    requires cats == Rows(lines[1..i]) && cats' == cats + Emitted(lines[i])
    ensures cats' == Rows(lines[1..i + 1])
  {
    SliceSnoc(lines, 1, i);
    RowsSnoc(lines[1..i], lines[i]);
  }

  /** The loop body's three exits, stated on `Emitted`. */
  lemma EmittedSteps(raw: string)
    ensures Trim(raw) == [] ==> Emitted(raw) == []
    ensures Trim(raw) != [] && IndexOf(Trim(raw), '\t') == -1 ==> Emitted(raw) == []
    ensures Trim(raw) != [] && IndexOf(Trim(raw), '\t') != -1 ==>
      var line := Trim(raw);
      var tab := IndexOf(line, '\t');
      var id := Trim(line[..tab]);
      var text := Trim(line[tab + 1..]);
      Emitted(raw) == if id != [] && text != [] then [Category(id, text)] else []
  {
  }

  /** Rows of a concatenation are the concatenation of rows: file order is kept. */
  lemma {:induction false} RowsAppend(a: seq<string>, b: seq<string>)
    ensures Rows(a + b) == Rows(a) + Rows(b)
    decreases |b|
  {
    if b == [] {
      AppendNil(a);
      AppendNil(Rows(a));
    } else {
      var b', x := b[..|b| - 1], b[|b| - 1];
      SplitLast(b);
      AppendAssoc(a, b', [x]);
      RowsSnoc(a + b', x);
      RowsSnoc(b', x);
      RowsAppend(a, b');
      AppendAssoc(Rows(a), Rows(b'), Emitted(x));
    }
  }

  lemma RowsSnoc(ls: seq<string>, x: string)
    ensures Rows(ls + [x]) == Rows(ls) + Emitted(x)
  {
    SnocInit(ls, x);
  }

  /** Every row comes from one line and is well formed; lines without newlines give single-line rows. */
  lemma {:induction false} RowsWellFormed(lines: seq<string>)
    requires forall i :: 0 <= i < |lines| ==> '\n' !in lines[i]
    ensures forall j :: 0 <= j < |Rows(lines)| ==> Writable(Rows(lines)[j])
    decreases |lines|
  {
    if lines != [] {
      RowsWellFormed(lines[..|lines| - 1]);
      ParseLineNoNewline(lines[|lines| - 1]);
    }
  }

  /** Everything the reader emits is well formed and free of newlines. */
  lemma ParsedWritable(content: string)
    ensures forall j :: 0 <= j < |ParsedCategories(content)| ==> Writable(ParsedCategories(content)[j])
  {
    var ls := Lines(content);
    SplitPieces(Trim(content), '\n');
    assert forall i :: 0 <= i < |ls[1..]| ==> '\n' !in ls[1..][i];
    RowsWellFormed(ls[1..]);
  }

  /** Blank lines and lines without a tab (after trimming) emit nothing. */
  lemma SkippedLines(raw: string)
    requires AllSpace(raw) || '\t' !in Trim(raw)
    ensures ParseLine(raw) == None
  {
    TrimEmpty(raw);
  }

  /** At most one category per line after the header, and never more than the newlines of the file. */
  lemma ParsedBound(content: string)
    ensures |ParsedCategories(content)| <= |Lines(content)| - 1
    ensures |ParsedCategories(content)| <= |Split(content, '\n')| - 1
  {
    var t := Trim(content);
    TrimCount(content, '\n');
    SplitLength(t, '\n');
    SplitLength(content, '\n');
  }

  /** A file of whitespace only, the empty file included, yields no categories. */
  lemma EmptyContent(content: string)
    requires AllSpace(content)
    ensures ParsedCategories(content) == []
  {
    TrimEmpty(content);
    assert Split("", '\n') == [""];
  }

  /**
   * The first line is only ever a header: replacing it by any other
   * non-blank line without a newline changes nothing.
   */
  lemma HeaderIgnored(h1: string, h2: string, body: string)
    requires '\n' !in h1 && '\n' !in h2
    requires !AllSpace(h1) && !AllSpace(h2)
    ensures ParsedCategories(h1 + "\n" + body) == ParsedCategories(h2 + "\n" + body)
  {
    ParsedAfterHeader(h1, body);
    ParsedAfterHeader(h2, body);
  }

  /** With a non-blank first line, the rows are those of the rest of the file. */
  lemma ParsedAfterHeader(h: string, body: string)
    requires '\n' !in h && !AllSpace(h)
    ensures !AllSpace(body) ==> ParsedCategories(h + "\n" + body) == Rows(Split(TrimEnd(body), '\n'))
    ensures AllSpace(body) ==> ParsedCategories(h + "\n" + body) == []
  {
    var s := h + "\n" + body;
    var hs := TrimStart(h);
    assert TrimStart(s) == hs + "\n" + body by {
      LeadingSpaceAppend(h, "\n" + body);
      assert s == h + ("\n" + body);
    }
    assert '\n' !in hs by {
      assert forall j :: 0 <= j < |hs| ==> hs[j] == h[LeadingSpace(h) + j];
    }
    if AllSpace(body) {
      HeaderOnly(hs, body);
    } else {
      HeaderThenRows(hs, body);
    }
  }

  lemma HeaderOnly(hs: string, body: string)
    requires '\n' !in hs && AllSpace(body)
    ensures Split(TrimEnd(hs + "\n" + body), '\n') == [TrimEnd(hs)]
  {
    assert AllSpace("\n" + body);
    assert hs + "\n" + body == hs + ("\n" + body);
    TrailingSpaceAppendSpace(hs, "\n" + body);
    var t := TrimEnd(hs);
    assert forall j :: 0 <= j < |t| ==> t[j] == hs[j];
    SplitNoSeparator(t, '\n');
  }

  lemma HeaderThenRows(hs: string, body: string)
    requires '\n' !in hs && !AllSpace(body)
    ensures Split(TrimEnd(hs + "\n" + body), '\n') == [hs] + Split(TrimEnd(body), '\n')
  {
    TrailingSpaceAppend(hs + "\n", body);
    SplitCons(hs, '\n', TrimEnd(body));
  }

  /** A line without a tab is dropped. */
  lemma DroppedNoTab()
    ensures ParseLine("C") == None
  {
    TrimKeepsAbsent("C", '\t');
    SkippedLines("C");
  }

  /** A line that starts with its only tab is dropped: trimming the line removes that tab. */
  lemma DroppedEmptyId()
    ensures ParseLine("\tbaz") == None
  {
    var s := "\tbaz";
    assert LeadingSpace(s[1..]) == 0;
    assert TrimStart(s) == "baz";
    assert TrailingSpaceStart("baz") == 3;
    TrimKeepsAbsent("baz", '\t');
    SkippedLines(s);
  }

  /** A row whose text is empty is dropped. */
  lemma DroppedEmptyText()
    ensures ParseLine("A\t") == None
  {
    var s := "A\t";
    assert TrimStart(s) == s;
    assert TrailingSpaceStart(s[..1]) == 1;
    assert Trim(s) == "A";
    TrimKeepsAbsent("A", '\t');
    SkippedLines(s);
  }

  /** A blank line is dropped. */
  lemma DroppedBlank()
    ensures ParseLine("   ") == None
  {
    SkippedLines("   ");
  }

  /** The text after the first tab is kept whole, inner tabs included. */
  lemma LineRoundTrip(c: Category)
    requires WellFormed(c)
    ensures ParseLine(Line(c)) == Some(c)
    ensures Emitted(Line(c)) == [c]
  {
    var line := Line(c);
    assert IsTrimmed(line);
    TrimmedIsFixed(line);
    IndexOfAfter(c.id, '\t', c.text);
    assert line[..|c.id|] == c.id;
    assert line[|c.id| + 1..] == c.text;
    TrimmedIsFixed(c.id);
    TrimmedIsFixed(c.text);
  }

  function LinesOf(cats: seq<Category>): (ls: seq<string>)
    ensures |ls| == |cats|
  {
    if cats == [] then [] else LinesOf(cats[..|cats| - 1]) + [Line(cats[|cats| - 1])]
  }

  lemma {:induction false} RowsOfLines(cats: seq<Category>)
    requires forall j :: 0 <= j < |cats| ==> WellFormed(cats[j])
    ensures Rows(LinesOf(cats)) == cats
    decreases |cats|
  {
    if cats != [] {
      var init := cats[..|cats| - 1];
      var last := cats[|cats| - 1];
      assert LinesOf(cats) == LinesOf(init) + [Line(last)];
      RowsSnoc(LinesOf(init), Line(last));
      RowsOfLines(init);
      LineRoundTrip(last);
      SplitLast(cats);
    }
  }

  lemma {:induction false} JoinSnoc(ps: seq<string>, x: string, d: char)
    requires |ps| >= 1
    ensures Join(ps + [x], d) == Join(ps, d) + [d] + x
    decreases |ps|
  {
    if |ps| > 1 {
      AppendTail(ps, [x]);
      JoinSnoc(ps[1..], x, d);
    }
  }

  /** The rows of a non-empty file body are its lines joined by newlines, plus a final newline. */
  lemma {:induction false} RowsTextAsJoin(cats: seq<Category>)
    requires cats != []
    ensures RowsText(cats) == Join(LinesOf(cats), '\n') + "\n"
    decreases |cats|
  {
    var init := cats[..|cats| - 1];
    var c := cats[|cats| - 1];
    if init != [] {
      RowsTextAsJoin(init);
      assert LinesOf(cats) == LinesOf(init) + [Line(c)];
      JoinSnoc(LinesOf(init), Line(c), '\n');
    }
  }

  lemma {:induction false} LinesOfWritable(cats: seq<Category>)
    requires forall j :: 0 <= j < |cats| ==> Writable(cats[j])
    ensures forall i :: 0 <= i < |cats| ==> '\n' !in LinesOf(cats)[i]
    decreases |cats|
  {
    if cats != [] {
      var c := cats[|cats| - 1];
      LinesOfWritable(cats[..|cats| - 1]);
      assert '\n' !in Line(c);
    }
  }

  /** A joined text ends with the last character of its last part. */
  lemma JoinLastChar(ps: seq<string>, d: char)
    requires ps != [] && ps[|ps| - 1] != []
    ensures Join(ps, d) != []
    ensures Join(ps, d)[|Join(ps, d)| - 1] == ps[|ps| - 1][|ps[|ps| - 1]| - 1]
  {
    if |ps| > 1 {
      SplitLast(ps);
      JoinSnoc(ps[..|ps| - 1], ps[|ps| - 1], d);
    }
  }

  /** The last row of a written file ends in a non-space character. */
  lemma LastLineEnd(cats: seq<Category>)
    requires cats != []
    requires WellFormed(cats[|cats| - 1])
    ensures Join(LinesOf(cats), '\n') != []
    ensures !IsSpace(Join(LinesOf(cats), '\n')[|Join(LinesOf(cats), '\n')| - 1])
  {
    var ls := LinesOf(cats);
    var c := cats[|cats| - 1];
    assert ls[|ls| - 1] == Line(c);
    JoinLastChar(ls, '\n');
    assert Line(c)[|Line(c)| - 1] == c.text[|c.text| - 1];
  }

  /** The body lines of a written file are exactly the rows' lines. */
  lemma BodyLines(cats: seq<Category>)
    requires cats != []
    requires forall j :: 0 <= j < |cats| ==> Writable(cats[j])
    ensures !AllSpace(RowsText(cats))
    ensures Split(TrimEnd(RowsText(cats)), '\n') == LinesOf(cats)
  {
    var j := Join(LinesOf(cats), '\n');
    RowsTextAsJoin(cats);
    LastLineEnd(cats);
    assert !IsSpace(RowsText(cats)[|j| - 1]);
    TrimEndLast(j, '\n');
    LinesOfWritable(cats);
    SplitJoin(LinesOf(cats), '\n');
  }

  /** The header line is one non-blank line. */
  lemma HeaderLineFacts()
    ensures !AllSpace(HeaderLine) && '\n' !in HeaderLine
  {
    assert !IsSpace(HeaderLine[0]);
  }

  /**
   * Reading back what a converter wrote gives exactly the written rows, for
   * rows the reader itself could have produced.
   */
  lemma ReadWritten(cats: seq<Category>)
    requires forall j :: 0 <= j < |cats| ==> Writable(cats[j])
    ensures ParsedCategories(TsvText(cats)) == cats
  {
    HeaderLineFacts();
    assert TsvText(cats) == HeaderLine + "\n" + RowsText(cats);
    if cats == [] {
      ParsedAfterHeader(HeaderLine, "");
    } else {
      BodyLines(cats);
      ParsedAfterHeader(HeaderLine, RowsText(cats));
      RowsOfLines(cats);
    }
  }
}
