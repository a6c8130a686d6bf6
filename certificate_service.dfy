/**
 * The certificate generator of `lib/certificateService.ts`: greedy word
 * wrapping by rendered width, the placement of the name, the wrapped
 * completion line and the date on the template page, the storage path of
 * the generated PDF, and the fixed order of the pipeline (template, draw,
 * upload, public URL, database row).
 *
 * Font metrics are parameters: a `Measure` gives the rendered width of a
 * text in one font at one size, and `Fonts` gives `widthOfTextAtSize` for
 * the regular and the bold font. Nothing is assumed about them.
 */
module CertificateService {
  import opened Base
  import opened Text
  import opened Numbers

  /** The rendered width of a text in one font at one size. */
  type Measure = string -> real

  /** `font.widthOfTextAtSize(text, size)` for the two embedded fonts. */
  datatype Fonts = Fonts(regular: (string, real) -> real, bold: (string, real) -> real)

  const BucketName: string := "certificates"
  const TemplatePath: string := "templates/anchor-certificate-template.pdf"

  const NameSize: real := 28.0
  const CourseSize: real := 16.0
  const DateSize: real := 12.0
  /** Distance between the baselines of two wrapped course lines. */
  const CourseLineHeight: real := CourseSize + 3.0

  function CourseMeasure(fonts: Fonts): Measure
  {
    t => fonts.regular(t, CourseSize)
  }

  function NameMeasure(fonts: Fonts): Measure
  {
    t => fonts.bold(t, NameSize)
  }

  // ---------- wrapByWidth ----------

  /** The two variables of the wrapping loop: the finished lines and the line being filled. */
  datatype WrapState = WrapState(lines: seq<string>, current: string)

  /** One iteration of the wrapping loop on one word. */
  function WrapStep(st: WrapState, word: string, maxWidth: real, width: Measure): WrapState
  {
    var test := if st.current != "" then st.current + " " + word else word;
    if width(test) <= maxWidth then WrapState(st.lines, test)
    else WrapState(if st.current != "" then st.lines + [st.current] else st.lines, word)
  }

  /** The loop state after the given words. */
  function WrapScan(words: seq<string>, maxWidth: real, width: Measure): WrapState
    decreases |words|
  {
    if words == [] then WrapState([], "")
    else WrapStep(WrapScan(words[..|words| - 1], maxWidth, width), words[|words| - 1], maxWidth, width)
  }

  /** The final `if (current) lines.push(current)`. */
  function WrapFlush(st: WrapState): seq<string>
  {
    if st.current != "" then st.lines + [st.current] else st.lines
  }

  /** The lines `wrapByWidth` returns for `text`. */
  function Wrap(text: string, maxWidth: real, width: Measure): seq<string>
  {
    WrapFlush(WrapScan(Split(text, ' '), maxWidth, width))
  }

  /** Words are separated by single spaces, with no space at either end. */
  predicate WellSpaced(text: string)
  {
    forall i :: 0 <= i < |text| && text[i] == ' ' ==> 0 < i < |text| - 1 && text[i + 1] != ' '
  }

  /** Each line, but the last, could not take the first word of the next one. */
  predicate Greedy(lines: seq<string>, maxWidth: real, width: Measure)
  {
    forall k :: 0 <= k < |lines| - 1 ==> width(lines[k] + " " + FirstWord(lines[k + 1])) > maxWidth
  }

  /** Splitting a well-spaced non-empty text on spaces gives no empty word. */
  lemma SplitWellSpaced(text: string)
    requires WellSpaced(text) && text != ""
    ensures forall w :: w in Split(text, ' ') ==> w != ""
  {
    SplitInnerWords(text);
    assert Split(text, ' ')[0] != "";
  }

  lemma {:induction false} SplitInnerWords(s: string)
    requires forall i :: 0 <= i < |s| && s[i] == ' ' ==> i < |s| - 1 && s[i + 1] != ' '
    ensures forall k :: 1 <= k < |Split(s, ' ')| ==> Split(s, ' ')[k] != ""
    decreases |s|
  {
    if s != "" {
      var t := s[1..];
      forall i | 0 <= i < |t| && t[i] == ' ' ensures i < |t| - 1 && t[i + 1] != ' ' {
        assert s[i + 1] == ' ';
      }
      SplitInnerWords(t);
      if s[0] == ' ' {
        assert t != "" && t[0] != ' ';
      }
    }
  }

  lemma {:induction false} ScanLinesNonEmpty(words: seq<string>, maxWidth: real, width: Measure)
    ensures forall l :: l in WrapScan(words, maxWidth, width).lines ==> l != ""
    decreases |words|
  {
    if words != [] {
      ScanLinesNonEmpty(words[..|words| - 1], maxWidth, width);
    }
  }

  lemma {:induction false} ScanFits(words: seq<string>, maxWidth: real, width: Measure)
    requires forall w :: w in words ==> ' ' !in w
    ensures var st := WrapScan(words, maxWidth, width);
      (forall l :: l in st.lines && ' ' in l ==> width(l) <= maxWidth)
      && (' ' in st.current ==> width(st.current) <= maxWidth)
    decreases |words|
  {
    if words != [] {
      var init := words[..|words| - 1];
      assert forall w :: w in init ==> w in words;
      ScanFits(init, maxWidth, width);
    }
  }

  /** One step on a non-empty line extends the joined text by a space and the word. */
  lemma StepJoin(st: WrapState, w: string, maxWidth: real, width: Measure)
    requires st.current != "" && w != ""
    ensures var st' := WrapStep(st, w, maxWidth, width);
      st'.current != "" && Join(st'.lines + [st'.current], " ") == Join(st.lines + [st.current], " ") + " " + w
  {
    var c := st.current;
    var test := c + " " + w;
    if width(test) <= maxWidth {
      if st.lines != [] {
        JoinSnoc(st.lines, test, " ");
        JoinSnoc(st.lines, c, " ");
      }
    } else {
      JoinSnoc(st.lines + [c], w, " ");
    }
  }

  lemma {:induction false} ScanJoin(words: seq<string>, maxWidth: real, width: Measure)
    requires forall w :: w in words ==> w != ""
    ensures var st := WrapScan(words, maxWidth, width);
      (words == [] ==> st.lines == [] && st.current == "")
      && (words != [] ==> st.current != "" && Join(st.lines + [st.current], " ") == Join(words, " "))
    decreases |words|
  {
    if words != [] {
      var init, w := words[..|words| - 1], words[|words| - 1];
      assert forall x :: x in init ==> x in words;
      assert w in words;
      ScanJoin(init, maxWidth, width);
      assert words == init + [w];
      if init != [] {
        JoinSnoc(init, w, " ");
        StepJoin(WrapScan(init, maxWidth, width), w, maxWidth, width);
      }
    }
  }

  lemma {:induction false} ScanGreedy(words: seq<string>, maxWidth: real, width: Measure)
    requires forall w :: w in words ==> w != "" && ' ' !in w
    ensures var st := WrapScan(words, maxWidth, width);
      Greedy(st.lines, maxWidth, width)
      && (st.lines != [] && st.current != "" ==>
            width(st.lines[|st.lines| - 1] + " " + FirstWord(st.current)) > maxWidth)
    decreases |words|
  {
    if words != [] {
      var init, w := words[..|words| - 1], words[|words| - 1];
      assert forall x :: x in init ==> x in words;
      ScanGreedy(init, maxWidth, width);
      ScanJoin(init, maxWidth, width);
      var st := WrapScan(init, maxWidth, width);
      var c := st.current;
      if c != "" {
        var test := c + " " + w;
        if width(test) <= maxWidth {
          FirstWordOfJoin(c, w);
        } else {
          FirstWordOfWord(w);
        }
      }
    }
  }

  /** The empty text wraps to no line at all. */
  lemma WrapEmpty(maxWidth: real, width: Measure)
    ensures Wrap("", maxWidth, width) == []
  {
    assert Split("", ' ') == [""];
    assert [""][..0] == [];
  }

  /** No line is ever empty. */
  lemma WrapNoEmptyLines(text: string, maxWidth: real, width: Measure)
    ensures forall l :: l in Wrap(text, maxWidth, width) ==> l != ""
  {
    ScanLinesNonEmpty(Split(text, ' '), maxWidth, width);
  }

  /** A line wider than `maxWidth` is a single word: every line holding a space fits. */
  lemma WrapLinesFit(text: string, maxWidth: real, width: Measure)
    ensures forall l :: l in Wrap(text, maxWidth, width) && ' ' in l ==> width(l) <= maxWidth
  {
    ScanFits(Split(text, ' '), maxWidth, width);
  }

  /** Joining the lines with single spaces gives a well-spaced text back: no word is split or lost. */
  lemma WrapRoundTrip(text: string, maxWidth: real, width: Measure)
    requires WellSpaced(text)
    ensures Join(Wrap(text, maxWidth, width), " ") == text
  {
    if text == "" {
      WrapEmpty(maxWidth, width);
    } else {
      var words := Split(text, ' ');
      SplitWellSpaced(text);
      ScanJoin(words, maxWidth, width);
      JoinSplit(text, ' ');
    }
  }

  /** Wrapping a well-spaced text is greedy: a line ends only when the next word would overflow it. */
  lemma WrapIsGreedy(text: string, maxWidth: real, width: Measure)
    requires WellSpaced(text)
    ensures Greedy(Wrap(text, maxWidth, width), maxWidth, width)
  {
    var words := Split(text, ' ');
    if text == "" {
      WrapEmpty(maxWidth, width);
    } else {
      SplitWellSpaced(text);
      ScanGreedy(words, maxWidth, width);
    }
  }

  /** `wrapByWidth(text, maxWidth, font, fontSize)`, with `width` measuring at that font and size. */
  method WrapByWidth(text: string, maxWidth: real, width: Measure) returns (lines: seq<string>)
    ensures lines == Wrap(text, maxWidth, width)
    ensures text == "" ==> lines == []
    ensures forall l :: l in lines ==> l != ""
    ensures forall l :: l in lines && ' ' in l ==> width(l) <= maxWidth
    ensures WellSpaced(text) ==> Join(lines, " ") == text && Greedy(lines, maxWidth, width)
  {
    var words := Split(text, ' ');
    lines := [];
    var current := "";
    for i := 0 to |words|
      invariant WrapState(lines, current) == WrapScan(words[..i], maxWidth, width)
    {
      assert words[..i + 1][..i] == words[..i];
      var word := words[i];
      var test := if current != "" then current + " " + word else word;
      if width(test) <= maxWidth {
        current := test;
      } else {
        if current != "" {
          lines := lines + [current];
        }
        current := word;
      }
    }
    assert words[..|words|] == words;
    if current != "" {
      lines := lines + [current];
    }
    if text == "" {
      WrapEmpty(maxWidth, width);
    }
    WrapNoEmptyLines(text, maxWidth, width);
    WrapLinesFit(text, maxWidth, width);
    if WellSpaced(text) {
      WrapRoundTrip(text, maxWidth, width);
      WrapIsGreedy(text, maxWidth, width);
    }
  }

  // ---------- placement on the page ----------

  /** `page.drawText(text, { x, y, size, font })`; `bold` tells which of the two fonts. */
  datatype DrawOp = DrawOp(text: string, x: real, y: real, size: real, bold: bool)

  /** The left edge that centres a text of width `w` on the page. */
  function CenterX(pageWidth: real, w: real): (x: real)
    ensures x + w == pageWidth - x
  {
    (pageWidth - w) / 2.0
  }

  /** The wrapping width of the course line: 78% of the page. */
  function BarWidth(pageWidth: real): real
  {
    pageWidth * 0.78
  }

  /** The anchor the wrapped course lines are centred around. */
  function CourseBarCenterY(pageHeight: real): real
  {
    pageHeight * 0.24
  }

  /** `courseLineHeight * (wrappedLines.length - 1 || 1)`. */
  function BlockHeight(n: nat): real
  {
    CourseLineHeight * (if n - 1 != 0 then (n - 1) as real else 1.0)
  }

  /** The baseline of the k-th of n wrapped lines: the loop's `lineY` after k decrements. */
  function Baseline(n: nat, k: nat, pageHeight: real): real
  {
    CourseBarCenterY(pageHeight) + BlockHeight(n) / 2.0 - (k as real) * CourseLineHeight
  }

  /** The name, in bold, centred on its measured width, at 46% of the page height. */
  function NameOp(nameText: string, pageWidth: real, pageHeight: real, width: Measure): (op: DrawOp)
    ensures op.text == nameText && op.bold && op.size == NameSize
    ensures op.x + width(nameText) == pageWidth - op.x
    ensures op.y == pageHeight * 0.46
  {
    DrawOp(nameText, CenterX(pageWidth, width(nameText)), pageHeight * 0.46, NameSize, true)
  }

  /** The wrapped course lines, each centred, stacked as a block around the course bar. */
  function LineOps(lines: seq<string>, pageWidth: real, pageHeight: real, width: Measure): (ops: seq<DrawOp>)
    ensures |ops| == |lines|
    ensures forall k :: 0 <= k < |ops| ==>
      ops[k].text == lines[k] && !ops[k].bold && ops[k].size == CourseSize
      && ops[k].x + width(lines[k]) == pageWidth - ops[k].x
    ensures forall k :: 0 <= k < |ops| - 1 ==> ops[k].y - ops[k + 1].y == 19.0
    ensures |ops| >= 2 ==>
      ops[0].y - CourseBarCenterY(pageHeight) == (|ops| - 1) as real * 19.0 / 2.0
      && CourseBarCenterY(pageHeight) - ops[|ops| - 1].y == (|ops| - 1) as real * 19.0 / 2.0
    ensures |ops| == 1 ==> ops[0].y == CourseBarCenterY(pageHeight) + 19.0 / 2.0
  {
    seq(|lines|, k requires 0 <= k < |lines| =>
      DrawOp(lines[k], CenterX(pageWidth, width(lines[k])), Baseline(|lines|, k, pageHeight), CourseSize, false))
  }

  /** The date, at a fixed spot near the bottom left, whatever its width. */
  function DateOp(completionDate: string, pageWidth: real, pageHeight: real): (op: DrawOp)
    ensures op.text == completionDate && !op.bold && op.size == DateSize
    ensures op.x == pageWidth * 0.14 && op.y == pageHeight * 0.12
  {
    DrawOp(completionDate, pageWidth * 0.14, pageHeight * 0.12, DateSize, false)
  }

  /** The drawing loop over the wrapped lines, which lowers `lineY` by one line height per line. */
  method DrawCourseLines(lines: seq<string>, pageWidth: real, pageHeight: real, width: Measure)
    returns (ops: seq<DrawOp>)
    ensures ops == LineOps(lines, pageWidth, pageHeight, width)
  {
    var totalBlockHeight := CourseLineHeight * (if |lines| - 1 != 0 then (|lines| - 1) as real else 1.0);
    var lineY := CourseBarCenterY(pageHeight) + totalBlockHeight / 2.0;
    ops := [];
    for i := 0 to |lines|
      invariant |ops| == i
      invariant lineY == Baseline(|lines|, i, pageHeight)
      invariant forall k :: 0 <= k < i ==> ops[k] == LineOps(lines, pageWidth, pageHeight, width)[k]
    {
      var w := width(lines[i]);
      var x := (pageWidth - w) / 2.0;
      ops := ops + [DrawOp(lines[i], x, lineY, CourseSize, false)];
      lineY := lineY - CourseLineHeight;
    }
  }

  /** Everything drawn on the template, in drawing order. */
  function Drawing(nameText: string, completionLine: string, completionDate: string,
                   pageWidth: real, pageHeight: real, fonts: Fonts): seq<DrawOp>
  {
    var lines := Wrap(completionLine, BarWidth(pageWidth), CourseMeasure(fonts));
    [NameOp(nameText, pageWidth, pageHeight, NameMeasure(fonts))]
    + LineOps(lines, pageWidth, pageHeight, CourseMeasure(fonts))
    + [DateOp(completionDate, pageWidth, pageHeight)]
  }

  // ---------- storage path ----------

  /** `cert_${courseId}_${userId}_${now.getTime()}.pdf`. */
  function CertificateFileName(courseId: string, userId: string, nowMs: nat): string
  {
    "cert_" + courseId + "_" + userId + "_" + NatToString(nowMs) + ".pdf"
  }

  /** `${userId}/${fileName}`: the object key inside the certificates bucket. */
  function CertificatePath(userId: string, courseId: string, nowMs: nat): (path: string)
    ensures StartsWith(path, userId + "/")
    ensures EndsWith(path, ".pdf")
  {
    var path := userId + "/" + CertificateFileName(courseId, userId, nowMs);
    assert path == (userId + "/") + ("cert_" + courseId + "_" + userId + "_" + NatToString(nowMs)) + ".pdf";
    path
  }

  /** Two certificates for the same learner and course generated at different milliseconds never share a path. */
  lemma CertificatePathDistinctTimes(userId: string, courseId: string, m1: nat, m2: nat)
    requires CertificatePath(userId, courseId, m1) == CertificatePath(userId, courseId, m2)
    ensures m1 == m2
  {
    var prefix := userId + "/" + "cert_" + courseId + "_" + userId + "_";
    var d1, d2 := NatToString(m1), NatToString(m2);
    var p1 := prefix + d1 + ".pdf";
    var p2 := prefix + d2 + ".pdf";
    assert CertificatePath(userId, courseId, m1) == p1;
    assert CertificatePath(userId, courseId, m2) == p2;
    assert |d1| == |d2|;
    assert d1 == p1[|prefix|..|prefix| + |d1|];
    assert d2 == p2[|prefix|..|prefix| + |d2|];
    NatToStringInjective(m1, m2);
  }

  // ---------- the generation pipeline ----------

  datatype CertificateArgs = CertificateArgs(
    userId: string, courseId: string, nameText: string, completionLine: string, completionDate: string)

  /**
   * The answers of storage, PDF loading and the database, fixed in advance:
   * the template URL, the template page's size and fonts, the clock, the
   * upload error message (if any), the public URL of the upload, the random
   * certificate number and the id of the inserted row (None: insert failed).
   */
  datatype Backend = Backend(
    templateUrl: Option<string>,
    pageWidth: real, pageHeight: real, fonts: Fonts,
    nowMs: nat, nowIso: string,
    uploadError: Option<string>,
    publicUrl: Option<string>,
    certificateNumber: string,
    insertedId: Option<string>)

  /** The columns written to the `certificates` table. */
  datatype CertificateInsert = CertificateInsert(
    user_id: string, course_id: string, certificate_url: string,
    certificate_number: string, issued_at: string, completed_at: string)

  /** The row read back after the insert. */
  datatype CertificateRow = CertificateRow(
    id: string, certificate_url: Option<string>, certificate_number: Option<string>,
    issued_at: string, completed_at: Option<string>)

  /** What the generator does to the outside world, in order. */
  datatype Effect = Drew(op: DrawOp) | Uploaded(path: string) | Inserted(row: CertificateInsert)

  function Drawn(ops: seq<DrawOp>): (effects: seq<Effect>)
    ensures |effects| == |ops|
    ensures forall i :: 0 <= i < |ops| ==> effects[i] == Drew(ops[i])
  {
    seq(|ops|, i requires 0 <= i < |ops| => Drew(ops[i]))
  }

  /** `generateCertificate(args)`: the effects it has and what it returns or throws. */
  method GenerateCertificate(args: CertificateArgs, backend: Backend)
    returns (effects: seq<Effect>, result: Result<CertificateRow>)
    ensures !Truthy(backend.templateUrl) ==>
      effects == [] && result == Err("Could not resolve certificate template URL.")
    ensures Truthy(backend.templateUrl) ==>
      var drawing := Drawn(Drawing(args.nameText, args.completionLine, args.completionDate,
                                   backend.pageWidth, backend.pageHeight, backend.fonts));
      |effects| > |drawing|
      && effects[..|drawing|] == drawing
      && effects[|drawing|] == Uploaded(CertificatePath(args.userId, args.courseId, backend.nowMs))
      && (backend.uploadError.Some? || !Truthy(backend.publicUrl) ==>
            effects == drawing + [effects[|drawing|]] && result.Err?)
    ensures Truthy(backend.templateUrl) && backend.uploadError.Some? ==>
      result == Err(OrElse(backend.uploadError, "Failed to upload certificate PDF."))
    ensures Truthy(backend.templateUrl) && backend.uploadError.None? && !Truthy(backend.publicUrl) ==>
      result == Err("Could not generate public URL for certificate.")
    ensures Truthy(backend.templateUrl) && backend.uploadError.None? && Truthy(backend.publicUrl) ==>
      var drawing := Drawn(Drawing(args.nameText, args.completionLine, args.completionDate,
                                   backend.pageWidth, backend.pageHeight, backend.fonts));
      var row := CertificateInsert(args.userId, args.courseId, backend.publicUrl.value,
                                   backend.certificateNumber, backend.nowIso, backend.nowIso);
      effects == drawing + [Uploaded(CertificatePath(args.userId, args.courseId, backend.nowMs)), Inserted(row)]
      && (backend.insertedId.None? ==> result == Err("Failed to save certificate record."))
      && (backend.insertedId.Some? ==>
            result == Ok(CertificateRow(backend.insertedId.value, Some(backend.publicUrl.value),
                                        Some(backend.certificateNumber), backend.nowIso, Some(backend.nowIso))))
    ensures forall e :: e in effects && e.Inserted? ==>
      backend.uploadError.None? && Truthy(backend.publicUrl)
      && e.row.certificate_url == backend.publicUrl.value
      && e.row.issued_at == e.row.completed_at == backend.nowIso
      && e.row.user_id == args.userId && e.row.course_id == args.courseId
    ensures result.Ok? ==>
      effects[|effects| - 1].Inserted?
      && result.value.certificate_url == Some(backend.publicUrl.value)
      && result.value.issued_at == backend.nowIso
      && result.value.completed_at == Some(backend.nowIso)
  {
    // 1) template
    if !Truthy(backend.templateUrl) {
      return [], Err("Could not resolve certificate template URL.");
    }
    var pageWidth, pageHeight := backend.pageWidth, backend.pageHeight;

    // 2) draw
    var nameOp := NameOp(args.nameText, pageWidth, pageHeight, NameMeasure(backend.fonts));
    var lines := WrapByWidth(args.completionLine, BarWidth(pageWidth), CourseMeasure(backend.fonts));
    var lineOps := DrawCourseLines(lines, pageWidth, pageHeight, CourseMeasure(backend.fonts));
    var dateOp := DateOp(args.completionDate, pageWidth, pageHeight);
    var ops := [nameOp] + lineOps + [dateOp];
    effects := Drawn(ops);

    // 3) upload
    var filePath := CertificatePath(args.userId, args.courseId, backend.nowMs);
    effects := effects + [Uploaded(filePath)];
    if backend.uploadError.Some? {
      return effects, Err(OrElse(backend.uploadError, "Failed to upload certificate PDF."));
    }

    // 4) public URL
    if !Truthy(backend.publicUrl) {
      return effects, Err("Could not generate public URL for certificate.");
    }
    var publicUrl := backend.publicUrl.value;

    // 5) database row
    var issuedAt := backend.nowIso;
    var row := CertificateInsert(args.userId, args.courseId, publicUrl, backend.certificateNumber, issuedAt, issuedAt);
    effects := effects + [Inserted(row)];
    if backend.insertedId.None? {
      return effects, Err("Failed to save certificate record.");
    }
    result := Ok(CertificateRow(backend.insertedId.value, Some(publicUrl), Some(backend.certificateNumber),
                                issuedAt, Some(issuedAt)));
  }
}
