/**
 Exporting the conversation: the plain-text layout, the paragraph story that the
 PDF path builds line by line, and the choice between the two by file name.
 The document library is abstract: a story is the sequence of flowables handed to
 it, each one a styled paragraph or a vertical spacer.
 */
module Export {
  import opened Text
  import opened Feedback
  import opened Transcript

  /** The paragraph styles of the PDF export. */
  datatype Style = TitleStyle | QuestionStyle | AnswerStyle | NormalStyle

  /** One element of the PDF story. */
  datatype Flowable = Paragraph(text: string, style: Style) | Spacer(height: nat)

  /** The title of both export formats. */
  const DocumentTitle: string := "🔮 Conversación con Gemini 🔮"

  /** Width of the rule under the plain-text title. */
  const RuleWidth: nat := 40

  /** Everything the plain-text export writes before the transcript: the title line,
      a rule of `=` and an empty line. */
  function TxtPreamble(): (p: string)
    ensures |p| == |DocumentTitle| + 1 + RuleWidth + 2
    ensures p[..|DocumentTitle|] == DocumentTitle
    ensures p[|DocumentTitle|] == '\n'
    ensures forall k :: |DocumentTitle| + 1 <= k < |DocumentTitle| + 1 + RuleWidth ==> p[k] == '='
    ensures p[|p| - 2..] == "\n\n"
  {
    DocumentTitle + "\n" + Repeat('=', RuleWidth) + "\n\n"
  }

  /** The plain-text export of a transcript. */
  function TxtDocument(transcript: string): (doc: string)
    ensures StartsWith(doc, TxtPreamble())
    ensures doc[|TxtPreamble()|..] == transcript
  {
    TxtPreamble() + transcript
  }

  /** Reading a plain-text export back: the transcript after the preamble. */
  function ReadTxtDocument(doc: string): Option<string> {
    if StartsWith(doc, TxtPreamble()) then Some(doc[|TxtPreamble()|..]) else None
  }

  /** The plain-text export keeps the transcript verbatim: reading it back gives the
      transcript, and every document that reads back is the export of what it gives. */
  lemma TxtRoundTrip(transcript: string, doc: string)
    ensures ReadTxtDocument(TxtDocument(transcript)) == Some(transcript)
    ensures ReadTxtDocument(doc) == Some(transcript) ==> TxtDocument(transcript) == doc
  {
    var d := TxtDocument(transcript);
    assert d[..|TxtPreamble()|] + d[|TxtPreamble()|..] == d;
    if ReadTxtDocument(doc) == Some(transcript) {
      assert StartsWith(doc, TxtPreamble());
      assert doc[..|TxtPreamble()|] + doc[|TxtPreamble()|..] == doc;
    }
  }

  /** A line that survives into the PDF: one that is not empty after stripping,
      that is, one with a character that is not whitespace. */
  predicate IsContentLine(line: string) {
    !AllSpace(line)
  }

  /** The style of a kept line, from its first character. */
  function LineStyle(line: string): (s: Style)
    ensures s == QuestionStyle <==> line != [] && line[0] == QuestionMarker
    ensures s == AnswerStyle <==> line != [] && line[0] == AnswerMarker
    ensures s != TitleStyle
  {
    if StartsWith(line, [QuestionMarker]) then QuestionStyle
    else if StartsWith(line, [AnswerMarker]) then AnswerStyle
    else NormalStyle
  }

  /** The lines that survive into the PDF, in their order. */
  function KeptLines(lines: seq<string>): (kept: seq<string>)
    ensures |kept| <= |lines|
    ensures forall k :: 0 <= k < |kept| ==> IsContentLine(kept[k])
  {
    if lines == [] then []
    else (if IsContentLine(lines[0]) then [lines[0]] else []) + KeptLines(lines[1..])
  }

  /** The flowables for one line: its paragraph and a small spacer, or nothing. */
  function LineFlowables(line: string): (fs: seq<Flowable>)
    ensures fs == [] <==> AllSpace(line)
    ensures fs != [] ==> |fs| == 2 && fs[0].Paragraph? && fs[0].text == line && fs[1] == Spacer(6)
  {
    if IsContentLine(line) then [Paragraph(line, LineStyle(line)), Spacer(6)] else []
  }

  /** The flowables for a sequence of lines. */
  function Body(lines: seq<string>): (body: seq<Flowable>)
    ensures |body| == 2 * |KeptLines(lines)|
  {
    if lines == [] then [] else LineFlowables(lines[0]) + Body(lines[1..])
  }

  /** What the PDF story starts with: the title paragraph and a spacer. */
  function StoryHead(): seq<Flowable> {
    [Paragraph(DocumentTitle, TitleStyle), Spacer(12)]
  }

  /** The whole PDF story of a transcript. */
  function PdfStory(transcript: string): (story: seq<Flowable>)
    ensures |story| == 2 + 2 * |KeptLines(Split(transcript, '\n'))|
    ensures story[0] == Paragraph(DocumentTitle, TitleStyle) && story[1] == Spacer(12)
  {
    StoryHead() + Body(Split(transcript, '\n'))
  }

  /** Filtering distributes over concatenation: the kept lines keep their order. */
  lemma {:induction false} KeptLinesAppend(a: seq<string>, b: seq<string>)
    ensures KeptLines(a + b) == KeptLines(a) + KeptLines(b)
  {
    if a != [] {
      KeptLinesAppend(a[1..], b);
      assert (a + b)[0] == a[0];
      assert (a + b)[1..] == a[1..] + b;
    } else {
      assert a + b == b;
    }
  }

  /** Exactly the content lines are kept. */
  lemma {:induction false} KeptLinesExactly(lines: seq<string>)
    ensures |KeptLines(lines)| <= |lines|
    ensures forall l :: l in KeptLines(lines) <==> l in lines && IsContentLine(l)
  {
    if lines != [] {
      KeptLinesExactly(lines[1..]);
      assert lines == [lines[0]] + lines[1..];
    }
  }

  lemma {:induction false} BodyAppend(a: seq<string>, b: seq<string>)
    ensures Body(a + b) == Body(a) + Body(b)
  {
    if a != [] {
      BodyAppend(a[1..], b);
      var ab := a + b;
      assert ab[0] == a[0] && ab[1..] == a[1..] + b;
      assert Body(ab) == LineFlowables(a[0]) + Body(a[1..] + b);
    } else {
      assert a + b == b;
    }
  }

  /** The PDF body is one styled paragraph and one spacer per kept line, in order. */
  lemma {:induction false} BodyShape(lines: seq<string>)
    ensures Shaped(Body(lines), KeptLines(lines))
  {
    if lines != [] {
      BodyShape(lines[1..]);
      if IsContentLine(lines[0]) {
        ShapedCons(lines[0], Body(lines[1..]), KeptLines(lines[1..]));
      }
    }
  }

  /** `body` holds, for each line of `kept` in order, its styled paragraph and a spacer. */
  predicate Shaped(body: seq<Flowable>, kept: seq<string>) {
    && |body| == 2 * |kept|
    && forall k :: 0 <= k < |kept| ==>
         body[2 * k] == Paragraph(kept[k], LineStyle(kept[k])) && body[2 * k + 1] == Spacer(6)
  }

  lemma ShapedCons(line: string, body: seq<Flowable>, kept: seq<string>)
    requires Shaped(body, kept)
    ensures Shaped([Paragraph(line, LineStyle(line)), Spacer(6)] + body, [line] + kept)
  {
    var body', kept' := [Paragraph(line, LineStyle(line)), Spacer(6)] + body, [line] + kept;
    forall k | 1 <= k < |kept'|
      ensures body'[2 * k] == Paragraph(kept'[k], LineStyle(kept'[k])) && body'[2 * k + 1] == Spacer(6)
    {
      assert body'[2 * k] == body[2 * (k - 1)] && body'[2 * k + 1] == body[2 * (k - 1) + 1];
    }
  }

  /** The PDF path of the export: walk the transcript's lines, appending a styled
      paragraph and a spacer for every line that is not blank. */
  method BuildStory(transcript: string) returns (story: seq<Flowable>)
    ensures story == PdfStory(transcript)
  {
    var lines := Split(transcript, '\n');
    story := StoryHead();
    for i := 0 to |lines|
      invariant story == StoryHead() + Body(lines[..i])
    {
      BodyStep(lines, i);
      story := AppendLine(story, lines[i]);
    }
    assert lines[..|lines|] == lines;
  }

  lemma BodyStep(lines: seq<string>, i: nat)
    requires i < |lines|
    ensures Body(lines[..i + 1]) == Body(lines[..i]) + LineFlowables(lines[i])
  {
    BodyAppend(lines[..i], [lines[i]]);
    assert lines[..i + 1] == lines[..i] + [lines[i]];
    assert [lines[i]][1..] == [];
  }

  /** One step of the export loop: a line that is not blank gets a paragraph in the
      style its first character selects, followed by a spacer. */
  method AppendLine(story: seq<Flowable>, line: string) returns (story': seq<Flowable>)
    ensures story' == story + LineFlowables(line)
  {
    story' := story;
    if Strip(line) != [] {
      var style := NormalStyle;
      if StartsWith(line, [QuestionMarker]) {
        style := QuestionStyle;
      } else if StartsWith(line, [AnswerMarker]) {
        style := AnswerStyle;
      }
      story' := story' + [Paragraph(line, style)];
      story' := story' + [Spacer(6)];
    }
  }

  /** The lines of a transcript that ends with a line break continue with the lines
      of whatever is appended to it. */
  lemma {:induction false} SplitAfterBreak(pre: string, s: string)
    requires pre == [] || pre[|pre| - 1] == '\n'
    ensures var lines := Split(pre, '\n');
            Split(pre + s, '\n') == lines[..|lines| - 1] + Split(s, '\n')
  {
    if pre == [] {
      assert pre + s == s;
    } else {
      var rest := pre[1..];
      assert pre == [pre[0]] + rest;
      assert pre + s == [pre[0]] + (rest + s);
      SplitAfterBreak(rest, s);
      SplitCons(pre[0], rest, '\n');
      SplitCons(pre[0], rest + s, '\n');
      var rl := Split(rest, '\n');
      if pre[0] == '\n' {
        ConsPrefix([], rl);
      } else {
        BrokenSplitsTwice(rest, '\n');
        ConsFirst(pre[0], rl, Split(s, '\n'));
      }
    }
  }

  /** One unfolding of `Split` on a string given by its first character. */
  lemma SplitCons(c: char, t: string, sep: char)
    ensures Split([c] + t, sep)
         == if c == sep then [[]] + Split(t, sep)
            else [[c] + Split(t, sep)[0]] + Split(t, sep)[1..]
  {
    assert ([c] + t)[1..] == t;
  }

  lemma ConsPrefix(x: string, rl: seq<string>)
    requires |rl| >= 1
    ensures ([x] + rl)[..|[x] + rl| - 1] == [x] + rl[..|rl| - 1]
  {
  }

  /** A non-empty string that ends with the separator has at least two parts. */
  lemma BrokenSplitsTwice(t: string, sep: char)
    requires t != [] && t[|t| - 1] == sep
    ensures |Split(t, sep)| >= 2
  {
    JoinSplit(t, sep);
    var parts := Split(t, sep);
    assert !Free(t, sep);
    assert parts[0] != t;
  }

  /** Gluing a character onto the first line commutes with dropping the last line and
      appending other lines, as long as there are at least two lines. */
  lemma ConsFirst(c: char, rl: seq<string>, more: seq<string>)
    requires |rl| >= 2 && |more| >= 1
    ensures var rs := rl[..|rl| - 1] + more;
            var lines := [[c] + rl[0]] + rl[1..];
            [[c] + rs[0]] + rs[1..] == lines[..|lines| - 1] + more
  {
    var rs := rl[..|rl| - 1] + more;
    assert rs[0] == rl[0];
    assert rs[1..] == rl[1..|rl| - 1] + more;
  }

  /** The first line of a string starts with any separator-free prefix of it. */
  lemma {:induction false} SplitHeadPrefix(p: string, s: string, sep: char)
    requires Free(p, sep)
    ensures StartsWith(Split(p + s, sep)[0], p)
  {
    if p != [] {
      SplitHeadPrefix(p[1..], s, sep);
      assert (p + s)[1..] == p[1..] + s;
    }
  }

  /** Where a question is echoed into a transcript, the PDF story gets, at that point,
      a paragraph in the question style that opens with the echoed question's head. */
  lemma EchoedQuestionStyled(pre: string, question: string, rest: string)
    requires pre == [] || pre[|pre| - 1] == '\n'
    ensures var lines := Split(pre, '\n');
            var before := Body(lines[..|lines| - 1]);
            var body := Body(Split(pre + QuestionEcho(question) + rest, '\n'));
            && |body| > |before|
            && body[..|before|] == before
            && body[|before|].Paragraph?
            && body[|before|].style == QuestionStyle
            && StartsWith(body[|before|].text, QuestionLead)
  {
    LeadsArePrintable();
    var tail := question + "\n" + rest;
    assert pre + QuestionEcho(question) + rest == pre + ("\n" + (QuestionLead + tail));
    EchoStyled(pre, QuestionLead, tail);
  }

  /** Where an answer is rendered into a transcript, the PDF story gets, at that point,
      a paragraph in the answer style that opens with the rendered answer's head. */
  lemma EchoedAnswerStyled(pre: string, answer: string, sentiment: string, rest: string)
    requires pre == [] || pre[|pre| - 1] == '\n'
    ensures var lines := Split(pre, '\n');
            var before := Body(lines[..|lines| - 1]);
            var body := Body(Split(pre + AnswerEcho(answer, sentiment) + rest, '\n'));
            && |body| > |before|
            && body[..|before|] == before
            && body[|before|].Paragraph?
            && body[|before|].style == AnswerStyle
            && StartsWith(body[|before|].text, AnswerLead)
  {
    LeadsArePrintable();
    var tail := sentiment + "]: " + answer + "\n" + rest;
    AnswerEchoShape(pre, answer, sentiment, rest);
    EchoStyled(pre, AnswerLead, tail);
  }

  lemma AnswerEchoShape(pre: string, answer: string, sentiment: string, rest: string)
    ensures pre + AnswerEcho(answer, sentiment) + rest
         == pre + ("\n" + (AnswerLead + (sentiment + "]: " + answer + "\n" + rest)))
  {
    var echo := AnswerEcho(answer, sentiment);
    assert echo == "\n" + (AnswerLead + (sentiment + "]: " + answer + "\n"));
  }

  /** The two heads hold no line break, open with their marker, and select their style. */
  lemma LeadsArePrintable()
    ensures Free(QuestionLead, '\n') && QuestionLead != [] && !IsSpace(QuestionLead[0])
    ensures Free(AnswerLead, '\n') && AnswerLead != [] && !IsSpace(AnswerLead[0])
    ensures LineStyle(QuestionLead) == QuestionStyle && LineStyle(AnswerLead) == AnswerStyle
  {
    assert AnswerLead[..1] == [AnswerMarker];
    assert QuestionLead[..1] == [QuestionMarker];
  }

  /** Common part of the two lemmas above: a line break, then a lead that opens with a
      character other than whitespace and holds no line break, then anything. The
      paragraph for that line gets the style of the lead. */
  lemma {:induction false} EchoStyled(pre: string, lead: string, tail: string)
    requires pre == [] || pre[|pre| - 1] == '\n'
    requires Free(lead, '\n') && lead != [] && !IsSpace(lead[0])
    ensures var lines := Split(pre, '\n');
            var before := Body(lines[..|lines| - 1]);
            var body := Body(Split(pre + ("\n" + (lead + tail)), '\n'));
            && |body| > |before|
            && body[..|before|] == before
            && body[|before|].Paragraph?
            && body[|before|].style == LineStyle(lead)
            && StartsWith(body[|before|].text, lead)
  {
    var lines := Split(pre, '\n');
    var s := "\n" + (lead + tail);
    SplitAfterBreak(pre, s);
    assert s[1..] == lead + tail;
    var after := Split(lead + tail, '\n');
    assert Split(s, '\n') == [[]] + after;
    SplitHeadPrefix(lead, tail, '\n');
    var first := after[0];
    assert first[0] == lead[0];
    assert first[..1] == lead[..1];
    assert IsContentLine(first) by {
      assert !AllSpace(first) by { assert !IsSpace(first[0]); }
    }
    assert LineStyle(first) == LineStyle(lead);
    BodyAppend(lines[..|lines| - 1], [[]] + after);
    assert Body([[]] + after) == Body(after) by {
      assert !IsContentLine([]) by { assert AllSpace([]); }
      assert ([[]] + after)[1..] == after;
    }
    assert Body(after) == LineFlowables(first) + Body(after[1..]);
  }

  /** What an export does with the destination chosen in the save dialog. */
  datatype ExportAction =
    | Cancelled
    | WroteTxt(path: string, document: string)
    | WrotePdf(path: string, story: seq<Flowable>)
    | WriteFailed(path: string)    // the write was attempted and raised
    | NothingWritten(path: string) // no format matched the name

  /** What the user is told afterwards. */
  datatype Notice = NoNotice | SuccessNotice(path: string) | ErrorNotice(reason: string) | UnsupportedNotice(path: string)

  /** The destination names a format the export knows. */
  predicate KnownFormat(path: string) {
    EndsWith(path, ".txt") || EndsWith(path, ".pdf")
  }

  /** The export as the client performs it: an empty name cancels; a name ending in
      `.txt` or `.pdf` selects the format; `writeError` is the failure of the file
      write, if any. A name with any other ending writes nothing and still reports
      success. */
  function ExportAsWritten(path: string, transcript: string, writeError: Option<string>): (r: (ExportAction, Notice))
    ensures r.0.Cancelled? <==> path == []
    ensures path == [] ==> r.1 == NoNotice
    ensures EndsWith(path, ".txt") ==>
              r.0 == if writeError.None? then WroteTxt(path, TxtDocument(transcript)) else WriteFailed(path)
    ensures EndsWith(path, ".pdf") && !EndsWith(path, ".txt") ==>
              r.0 == if writeError.None? then WrotePdf(path, PdfStory(transcript)) else WriteFailed(path)
    ensures path != [] && !KnownFormat(path) ==> r.0 == NothingWritten(path)
    ensures KnownFormat(path) && writeError.Some? ==> r.1 == ErrorNotice(writeError.value)
    ensures path != [] && (writeError.None? || !KnownFormat(path)) ==> r.1 == SuccessNotice(path)
  {
    if path == [] then (Cancelled, NoNotice)
    else if EndsWith(path, ".txt") then
      if writeError.Some? then (WriteFailed(path), ErrorNotice(writeError.value))
      else (WroteTxt(path, TxtDocument(transcript)), SuccessNotice(path))
    else if EndsWith(path, ".pdf") then
      if writeError.Some? then (WriteFailed(path), ErrorNotice(writeError.value))
      else (WrotePdf(path, PdfStory(transcript)), SuccessNotice(path))
    else (NothingWritten(path), SuccessNotice(path))
  }

  /** A destination without a known extension gets a success notice for a file that
      was never written. */
  lemma UnknownExtensionReportsSuccess(transcript: string)
    ensures ExportAsWritten("conversacion.md", transcript, None)
         == (NothingWritten("conversacion.md"), SuccessNotice("conversacion.md"))
  {
    assert !EndsWith("conversacion.md", ".txt") by { assert "conversacion.md"[14] != "txt"[2]; }
    assert !EndsWith("conversacion.md", ".pdf") by { assert "conversacion.md"[14] != "pdf"[2]; }
  }

  /** The export with the success notice reserved for a written file: any other
      extension is reported as unsupported. */
  function Export(path: string, transcript: string, writeError: Option<string>): (r: (ExportAction, Notice))
    ensures r.1.SuccessNotice? <==> (r.0.WroteTxt? || r.0.WrotePdf?)
    ensures r.0.Cancelled? <==> path == []
    ensures path == [] ==> r.1 == NoNotice
    ensures EndsWith(path, ".txt") ==>
              r.0 == if writeError.None? then WroteTxt(path, TxtDocument(transcript)) else WriteFailed(path)
    ensures EndsWith(path, ".pdf") && !EndsWith(path, ".txt") ==>
              r.0 == if writeError.None? then WrotePdf(path, PdfStory(transcript)) else WriteFailed(path)
    ensures path != [] && !KnownFormat(path) ==> r == (NothingWritten(path), UnsupportedNotice(path))
    ensures KnownFormat(path) && writeError.Some? ==> r.1 == ErrorNotice(writeError.value)
  {
    if path != [] && !KnownFormat(path) then
      (NothingWritten(path), UnsupportedNotice(path))
    else ExportAsWritten(path, transcript, writeError)
  }

  /** The corrected export differs from the client's only where no format matched:
      there it reports the name as unsupported instead of as exported. */
  lemma ExportDiffersOnlyWhenUnsupported(path: string, transcript: string, writeError: Option<string>)
    ensures Export(path, transcript, writeError) == ExportAsWritten(path, transcript, writeError)
            <==> path == [] || KnownFormat(path)
  {
  }
}
