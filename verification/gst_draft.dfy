/**
 The GST reply-letter generator: five request strings interpolated into a
 fixed letter, then stripped of surrounding whitespace. The skeleton is the
 source's triple-quoted text with `\n` line ends; the lines "To",
 "The Proper Officer", "GST Department", "Yours faithfully," and
 "Authorized Signatory" keep their two trailing spaces.
 */
module Draft {

  import opened Text

  /** The request body. It has exactly these five fields; there is no GSTIN. */
  datatype GstDraftRequest = GstDraftRequest(
    noticeType: string,
    section: string,
    financialYear: string,
    taxpayerName: string,
    issueSummary: string
  )

  datatype GstDraftResponse = GstDraftResponse(status: string, draftText: string)

  const DraftGenerated: string := "Draft Generated"

  /* ---------------------------------------------------------------------- */
  /* The fixed parts of the letter                                           */
  /* ---------------------------------------------------------------------- */

  /** The addressee block, up to the subject line. */
  const Addressee: string := "To  \nThe Proper Officer  \nGST Department  \n\n"

  /** From the end of the financial-year line up to the taxpayer name. */
  const Salutation: string :=
    "\n\nRespected Sir/Madam,\n\nThis is in reference to the above-mentioned notice issued to\n"

  /** From the end of the taxpayer name up to the issue summary. */
  const IssueIntro: string := ".\n\nThe notice states the following issue:\n"

  /** From the end of the issue summary through the signature line, without its trailing spaces. */
  const Closing: string := ClosingParagraphs + Signature

  /** The compliance and hearing-request paragraphs and the valediction. */
  const ClosingParagraphs: string :=
    "\n\nAt the outset, the taxpayer submits that all statutory\n"
    + "compliances have been duly complied with. Any apparent\n"
    + "discrepancy may be due to clerical or reconciliation differences,\n"
    + "which are explainable with supporting records.\n\n"
    + "The taxpayer humbly requests your good office to kindly\n"
    + "consider this reply and grant an opportunity of being heard\n"
    + "before passing any adverse order.\n\n"
    + "Thanking you.\n\n"
    + "Yours faithfully,  \n"

  const Signature: string := "Authorized Signatory"

  /** The whitespace around the letter in the source literal: a newline before, two spaces and a newline after. */
  const LeadingBlank: string := "\n"
  const TrailingBlank: string := "  \n"

  function SubjectLine(req: GstDraftRequest): string {
    "Subject: Reply to " + req.noticeType + " issued under Section " + req.section
  }

  function FinancialYearLine(req: GstDraftRequest): string {
    "Financial Year: " + req.financialYear
  }

  /** The part of the letter that carries the fields, from the subject line through the issue summary. */
  function Particulars(req: GstDraftRequest): string {
    SubjectLine(req) + "\n" + FinancialYearLine(req) + Salutation + req.taxpayerName + IssueIntro + req.issueSummary
  }

  /**
   The letter between its surrounding whitespace, fields in place. Whatever
   the fields hold, it opens with "To", closes with the signature line, and
   neither end is whitespace.
   */
  function Body(req: GstDraftRequest): (r: string)
    ensures StartsWith(r, "To") && EndsWith(r, Signature)
    ensures r != [] && !IsSpace(r[0]) && !IsSpace(r[|r| - 1])
  {
    AddresseeOpensWithTo();
    ClosingEndsWithSignature();
    FramedBy(Addressee, Particulars(req), Closing, "To", Signature);
    Addressee + Particulars(req) + Closing
  }

  /**
   The f-string of the source before `strip`. Stripping it yields exactly
   the body: the whitespace `strip` removes is the skeleton's own, for any
   field values.
   */
  function Letter(req: GstDraftRequest): (r: string)
    ensures Strip(r) == Body(req)
  {
    StripSurrounded(LeadingBlank, Body(req), TrailingBlank);
    LeadingBlank + Body(req) + TrailingBlank
  }

  /* ---------------------------------------------------------------------- */
  /* The operation                                                           */
  /* ---------------------------------------------------------------------- */

  /**
   `generate_gst_draft`: the status is always "Draft Generated", and the
   text is the letter body exactly: `strip` takes away the skeleton's own
   surrounding whitespace and nothing of the body, whatever the fields hold.
   */
  function GenerateGstDraft(req: GstDraftRequest): (r: GstDraftResponse)
    ensures r.status == "Draft Generated"
    ensures r.draftText == Body(req)
  {
    GstDraftResponse(DraftGenerated, Strip(Letter(req)))
  }

  /**
   For every request the draft opens with "To" and closes with "Authorized
   Signatory", and the whitespace `strip` removed is exactly the skeleton's:
   the letter is the draft text with one newline in front and two spaces
   and a newline behind.
   */
  lemma DraftFrame(req: GstDraftRequest)
    ensures var text := GenerateGstDraft(req).draftText;
            && StartsWith(text, "To")
            && EndsWith(text, "Authorized Signatory")
            && Letter(req) == "\n" + text + "  \n"
  {
    assert LeadingBlank == "\n" && TrailingBlank == "  \n";
  }

  lemma AddresseeOpensWithTo()
    ensures StartsWith(Addressee, "To")
  {
    assert Addressee[0] == 'T' && Addressee[1] == 'o';
    assert Addressee[..2] == "To";
  }

  lemma ClosingEndsWithSignature()
    ensures EndsWith(Closing, Signature)
  {
  }

  /** What a first and a last part fix about the two ends of a three-part concatenation. */
  lemma FramedBy(first: string, middle: string, last: string, prefix: string, suffix: string)
    requires StartsWith(first, prefix) && prefix != [] && !IsSpace(prefix[0])
    requires EndsWith(last, suffix) && suffix != [] && !IsSpace(suffix[|suffix| - 1])
    ensures var s := first + middle + last;
            && StartsWith(s, prefix) && EndsWith(s, suffix)
            && s != [] && !IsSpace(s[0]) && !IsSpace(s[|s| - 1])
  {
  }

  /* ---------------------------------------------------------------------- */
  /* Properties of the rendered text                                         */
  /* ---------------------------------------------------------------------- */

  /**
   The fields appear verbatim and in a fixed order: the subject line, then
   the financial-year line, then the taxpayer name, then the issue summary,
   then the fixed closing paragraphs, which run to the end of the text.
   Each piece starts no earlier than the end of the one before it.
   */
  lemma DraftLayout(req: GstDraftRequest)
    returns (subject: nat, year: nat, name: nat, summary: nat, closing: nat)
    ensures var text := GenerateGstDraft(req).draftText;
            && OccursAt(text, SubjectLine(req), subject)
            && OccursAt(text, FinancialYearLine(req), year)
            && OccursAt(text, req.taxpayerName, name)
            && OccursAt(text, req.issueSummary, summary)
            && OccursAt(text, Closing, closing)
            && subject + |SubjectLine(req)| <= year
            && year + |FinancialYearLine(req)| <= name
            && name + |req.taxpayerName| <= summary
            && summary + |req.issueSummary| <= closing
            && closing + |Closing| == |text|
  {
    subject, year, name, summary, closing := PiecesInOrder(
      Addressee, SubjectLine(req), FinancialYearLine(req), Salutation,
      req.taxpayerName, IssueIntro, req.issueSummary, Closing);
  }

  /**
   Where the five variable pieces `s`, `y`, `n`, `i` and the tail `c` sit in
   `a + (s + "\n" + y + b + n + m + i) + c`, whatever the fixed pieces
   `a`, `b`, `m` and `c` hold.
   */
  lemma PiecesInOrder(a: string, s: string, y: string, b: string, n: string, m: string, i: string, c: string)
    returns (subject: nat, year: nat, name: nat, summary: nat, closing: nat)
    ensures var text := a + (s + "\n" + y + b + n + m + i) + c;
            && OccursAt(text, s, subject)
            && OccursAt(text, y, year)
            && OccursAt(text, n, name)
            && OccursAt(text, i, summary)
            && OccursAt(text, c, closing)
            && subject + |s| <= year
            && year + |y| <= name
            && name + |n| <= summary
            && summary + |i| <= closing
            && closing + |c| == |text|
  {
    var mid := s + "\n" + y + b + n + m + i;
    var ys, ns, ss := PiecesInMiddle(s, y, b, n, m, i);
    subject, year, name, summary, closing := |a|, |a| + ys, |a| + ns, |a| + ss, |a| + |mid|;
    OccursInside(a, mid, c, s, 0);
    OccursInside(a, mid, c, y, ys);
    OccursInside(a, mid, c, n, ns);
    OccursInside(a, mid, c, i, ss);
    OccursAtEnd(a + mid, c);
  }

  /** Where the variable pieces sit in the particulars `s + "\n" + y + b + n + m + i`. */
  lemma PiecesInMiddle(s: string, y: string, b: string, n: string, m: string, i: string)
    returns (year: nat, name: nat, summary: nat)
    ensures var mid := s + "\n" + y + b + n + m + i;
            && OccursAt(mid, s, 0)
            && OccursAt(mid, y, year)
            && OccursAt(mid, n, name)
            && OccursAt(mid, i, summary)
            && |s| <= year
            && year + |y| <= name
            && name + |n| <= summary
            && summary + |i| == |mid|
  {
    // The particulars, grown one piece at a time; each occurrence survives the growth.
    var p1 := s + "\n" + y;
    var p2 := p1 + b + n;
    year, name, summary := |s| + 1, |p1| + |b|, |p2| + |m|;
    assert OccursAt(s, s, 0);
    OccursExtended(s, s, 0, "\n");
    OccursExtended(s + "\n", s, 0, y);
    OccursAtEnd(s + "\n", y);
    OccursExtended(p1, s, 0, b);
    OccursExtended(p1, y, year, b);
    OccursExtended(p1 + b, s, 0, n);
    OccursExtended(p1 + b, y, year, n);
    OccursAtEnd(p1 + b, n);
    OccursExtended(p2, s, 0, m);
    OccursExtended(p2, y, year, m);
    OccursExtended(p2, n, name, m);
    OccursExtended(p2 + m, s, 0, i);
    OccursExtended(p2 + m, y, year, i);
    OccursExtended(p2 + m, n, name, i);
    OccursAtEnd(p2 + m, i);
  }

  /** The combined length of the five fields. */
  function FieldsLength(req: GstDraftRequest): nat {
    |req.noticeType| + |req.section| + |req.financialYear| + |req.taxpayerName| + |req.issueSummary|
  }

  /**
   Only the fields change the length: any two drafts differ in length
   by exactly the difference of their fields' combined lengths.
   */
  lemma DraftLengthIsSkeletonPlusFields(req: GstDraftRequest, other: GstDraftRequest)
    ensures |GenerateGstDraft(req).draftText| - FieldsLength(req)
            == |GenerateGstDraft(other).draftText| - FieldsLength(other)
  {
    BodyLength(req);
    BodyLength(other);
  }

  /** The body's length is a fixed amount plus the fields' combined length. */
  lemma BodyLength(req: GstDraftRequest)
    ensures |Body(req)| == |Addressee| + |"Subject: Reply to "| + |" issued under Section "| + 1
                           + |"Financial Year: "| + |Salutation| + |IssueIntro| + |Closing|
                           + FieldsLength(req)
  {
  }

  /** The draft is already stripped: stripping it again changes nothing. */
  lemma DraftIsStripped(req: GstDraftRequest)
    ensures Strip(GenerateGstDraft(req).draftText) == GenerateGstDraft(req).draftText
  {
    StripIdempotent(Letter(req));
  }
}
