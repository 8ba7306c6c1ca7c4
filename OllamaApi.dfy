/**
 * The pure helpers of the Ollama integration that turn a model's reply into
 * page data: the PRD parser with its canned fallback, and the simplified
 * user-story and competitive-analysis parsers.
 */
module OllamaApi {
  import opened Seqs
  import opened Text
  import opened PrdGenerator

  // ---------------------------------------------------------------------
  // The canned document

  const CannedAddresses := " addresses "
  const CannedFor := " for "
  const CannedLeveraging := ". By leveraging "
  const CannedDifferentiate := ", we aim to differentiate from "
  const CannedValue := " and deliver exceptional value."
  const CannedPersonas :=
    "\n\nPersona 1: Tech-Savvy Professional" +
    "\n- Values efficiency and innovation" +
    "\n- Seeks seamless experiences" +
    "\n\nPersona 2: Business Decision Maker" +
    "\n- Focuses on ROI and scalability" +
    "\n- Requires reliability and support"
  const CannedRequirements :=
    "\n\nTechnical Requirements:" +
    "\n- Cloud-native architecture" +
    "\n- RESTful API" +
    "\n- Mobile-responsive design" +
    "\n- Enterprise security" +
    "\n- Real-time analytics"
  const CannedMetrics :=
    "- User Acquisition: 10K users in Q1" +
    "\n- Engagement: 60% DAU/MAU" +
    "\n- NPS Score: >50" +
    "\n- ARR: $500K by year-end" +
    "\n- Feature Adoption: 70%"
  const CannedCompetitorsLead := "Competitors: "
  const CannedAdvantages :=
    "\n\nOur Advantages:" +
    "\n- Superior UX/UI" +
    "\n- AI-powered features" +
    "\n- Competitive pricing" +
    "\n- Faster deployment" +
    "\n- Better support"
  const CannedTimelineLead := "Timeline: "
  const CannedPhases :=
    "\n\nPhase 1 (Months 1-2): Discovery" +
    "\nPhase 2 (Months 3-4): MVP Development" +
    "\nPhase 3 (Month 5): Beta Testing" +
    "\nPhase 4 (Month 6): Launch"
  const CannedRisks :=
    "Risk: Market Competition" +
    "\nMitigation: Unique AI features" +
    "\n\nRisk: Technical Complexity" +
    "\nMitigation: Phased rollout" +
    "\n\nRisk: User Adoption" +
    "\nMitigation: Onboarding program"

  /** The eight section texts of the canned document, filled in from the form. */
  function CannedContents(f: PrdForm): (r: seq<string>)
    ensures |r| == 8
  {
    [
      f.productName + CannedAddresses + f.problemStatement + CannedFor + f.targetAudience +
        CannedLeveraging + f.keyFeatures + CannedDifferentiate + f.competitors + CannedValue,
      OrElse(f.problemStatement, DefaultProblem),
      AudienceLead + f.targetAudience + CannedPersonas,
      f.keyFeatures + CannedRequirements,
      CannedMetrics,
      CannedCompetitorsLead + f.competitors + CannedAdvantages,
      CannedTimelineLead + f.timeline + CannedPhases,
      CannedRisks
    ]
  }

  /** The structured document returned when the integration is off or the reply is simulated. */
  function CannedPrd(form: PrdForm, now: string): Prd {
    Prd(OrElse(form.productName, UntitledProduct), Zip(SectionTitles, CannedContents(form)), now)
  }

  /**
   * The canned document agrees with the page's own generated one on the
   * title, the eight headings, the problem section and the time stamp; only
   * the wording of the other sections differs.
   */
  lemma CannedMatchesGenerated(form: PrdForm, now: string)
    ensures var c, g := CannedPrd(form, now), GeneratePrd(form, now);
      && c.title == g.title
      && |c.sections| == |g.sections| == 8
      && (forall k :: 0 <= k < 8 ==> c.sections[k].title == g.sections[k].title)
      && c.sections[1] == g.sections[1]
      && c.generatedAt == g.generatedAt
  {
    GeneratePrdShape(form, now);
    var c := CannedPrd(form, now);
    assert c.sections[1] == Section(SectionTitles[1], CannedContents(form)[1]);
  }

  // ---------------------------------------------------------------------
  // Splitting a reply before its numbered headings

  /**
   * The look-ahead `(?=\d+\.\s+[A-Z])` matches at `q`: a run of digits, a
   * full stop, white space, then a capital letter. The digit and white-space
   * runs are taken whole, since the character after each cannot belong to it.
   */
  predicate HeadingAt(s: string, q: int) {
    0 <= q < |s| && LeadingDigits(s[q..]) > 0 && HeadingAfterNumber(s, q + LeadingDigits(s[q..]))
  }

  /** The rest of the look-ahead from the end `d` of the digit run: `\.\s+[A-Z]`. */
  predicate HeadingAfterNumber(s: string, d: int) {
    0 <= d && d + 1 < |s| && s[d] == '.' && IsWhitespace(s[d + 1]) &&
    d + 1 + LeadingWhitespace(s[d + 1..]) < |s| && IsUpper(s[d + 1 + LeadingWhitespace(s[d + 1..])])
  }

  /** A heading whose number is whole: the look-ahead matches and no digit comes just before. */
  predicate HeadingStartAt(s: string, q: int) {
    HeadingAt(s, q) && (q == 0 || !IsDigit(s[q - 1]))
  }

  /** The positions from `q` on where `cut` holds, in increasing order. */
  function CutsFrom(s: string, cut: int -> bool, q: nat): (r: seq<int>)
    ensures forall k :: 0 <= k < |r| ==> q <= r[k] < |s| && cut(r[k])
    ensures forall k, l :: 0 <= k < l < |r| ==> r[k] < r[l]
    ensures forall j :: q <= j < |s| && cut(j) ==> j in r
    decreases |s| - q
  {
    if q >= |s| then []
    else (if cut(q) then [q] else []) + CutsFrom(s, cut, q + 1)
  }

  /** Scans `s` from `q`, with the current piece starting at `p`. */
  function SplitScan(s: string, cut: int -> bool, p: nat, q: nat): seq<string>
    requires p < q <= |s|
    decreases |s| - q
  {
    if q == |s| then [s[p..]]
    else if cut(q) then [s[p..q]] + SplitScan(s, cut, q, q + 1)
    else SplitScan(s, cut, p, q + 1)
  }

  /**
   * `s.split(re)` for a pattern that only looks ahead: `s` is cut at every
   * position strictly inside it where `cut` holds. The empty string gives one
   * empty piece.
   */
  function SplitAt(s: string, cut: int -> bool): seq<string> {
    if s == [] then [s] else SplitScan(s, cut, 0, 1)
  }

  /** Where the pieces of `SplitAt(s, cut)` begin and end. */
  function Bounds(s: string, cut: int -> bool): seq<int> {
    [0] + CutsFrom(s, cut, 1) + [|s|]
  }

  lemma {:induction false} SplitScanBounds(s: string, cut: int -> bool, p: nat, q: nat)
    requires p < q <= |s|
    ensures var r, b := SplitScan(s, cut, p, q), [p] + CutsFrom(s, cut, q) + [|s|];
      |b| == |r| + 1 && forall k :: 0 <= k < |r| ==> b[k] < b[k + 1] && r[k] == s[b[k]..b[k + 1]]
    decreases |s| - q
  {
    var r := SplitScan(s, cut, p, q);
    if q < |s| {
      SplitScanBounds(s, cut, if cut(q) then q else p, q + 1);
      var b := [p] + CutsFrom(s, cut, q) + [|s|];
      if cut(q) {
        var b' := [q] + CutsFrom(s, cut, q + 1) + [|s|];
        assert b == [p] + b';
      } else {
        assert CutsFrom(s, cut, q) == CutsFrom(s, cut, q + 1);
      }
    }
  }

  /**
   * The pieces of a split are the stretches of `s` between consecutive
   * bounds: `0`, every position inside `s` where `cut` holds, and `|s|`.
   * So the pieces are non-empty (for non-empty `s`), they cover `s` in order,
   * and a new piece starts at exactly the positions where `cut` holds.
   */
  lemma SplitAtSpec(s: string, cut: int -> bool)
    requires s != []
    ensures var r, b := SplitAt(s, cut), Bounds(s, cut);
      && |b| == |r| + 1
      && b[0] == 0 && b[|r|] == |s|
      && (forall k :: 0 <= k < |r| ==> b[k] < b[k + 1] && r[k] == s[b[k]..b[k + 1]])
      && (forall k :: 0 < k < |r| ==> 0 < b[k] < |s| && cut(b[k]))
      && (forall j :: 0 < j < |s| && cut(j) ==> j in b)
  {
    SplitScanBounds(s, cut, 0, 1);
  }

  /** A non-empty stretch of `s` begins with `s[lo]` and ends with `s[hi - 1]`. */
  lemma StretchEdges(s: string, piece: string, lo: int, hi: int)
    requires 0 <= lo < hi <= |s| && piece == s[lo..hi]
    ensures piece != [] && piece[0] == s[lo] && piece[|piece| - 1] == s[hi - 1]
  {
  }

  /** All the pieces, one after the other. */
  function Concat(parts: seq<string>): string {
    if parts == [] then [] else parts[0] + Concat(parts[1..])
  }

  lemma {:induction false} SplitScanConcat(s: string, cut: int -> bool, p: nat, q: nat)
    requires p < q <= |s|
    ensures Concat(SplitScan(s, cut, p, q)) == s[p..]
    decreases |s| - q
  {
    if q < |s| {
      if cut(q) {
        SplitScanConcat(s, cut, q, q + 1);
        var r := SplitScan(s, cut, p, q);
        assert r[1..] == SplitScan(s, cut, q, q + 1);
        assert s[p..] == s[p..q] + s[q..];
      } else {
        SplitScanConcat(s, cut, p, q + 1);
      }
    }
  }

  /** Splitting loses nothing: the pieces put back together give the reply. */
  lemma SplitAtConcat(s: string, cut: int -> bool)
    ensures Concat(SplitAt(s, cut)) == s
  {
    if s != [] {
      SplitScanConcat(s, cut, 0, 1);
    }
  }

  /** `response.split(/(?=\d+\.\s+[A-Z])/)`, as written. */
  function SplitAtHeadings(s: string): seq<string> {
    SplitAt(s, q => HeadingAt(s, q))
  }

  /** The split the parser evidently intends: only before a heading's whole number. */
  function SplitAtHeadingStarts(s: string): seq<string> {
    SplitAt(s, q => HeadingStartAt(s, q))
  }

  /** `s` opens with a heading whose number has two digits, such as "10. Goals". */
  predicate TwoDigitHeadingFirst(s: string) {
    |s| >= 5 && IsDigit(s[0]) && IsDigit(s[1]) && s[2] == '.' && IsWhitespace(s[3]) && IsUpper(s[4])
  }

  /** The look-ahead matches at the second digit of a two-digit heading. */
  lemma HeadingAtSecondDigit(s: string)
    requires TwoDigitHeadingFirst(s)
    ensures HeadingAt(s, 1)
  {
    assert s[1..][0] == s[1] && s[1..][1] == s[2];
    assert LeadingDigits(s[1..]) == 1;
    assert s[3..][0] == s[3] && s[3..][1] == s[4];
    assert LeadingWhitespace(s[3..]) == 1;
  }

  /**
   * As written, a reply that opens with a two-digit heading such as "10. Goals"
   * is cut between the two digits: the first piece is the first digit alone
   * and the next piece starts with the second, so the number is divided.
   */
  lemma SplitAtHeadingsCutsNumber(s: string)
    requires TwoDigitHeadingFirst(s)
    ensures var r := SplitAtHeadings(s);
      |r| >= 2 && r[0] == s[..1] && r[1] != [] && r[1][0] == s[1] && !NumbersWhole(r)
  {
    var cut := q => HeadingAt(s, q);
    HeadingAtSecondDigit(s);
    assert cut(1);
    var rest := SplitScan(s, cut, 1, 2);
    var r := SplitAtHeadings(s);
    assert r == [s[0..1]] + rest;
    SplitScanFirst(s, cut, 1, 2);
    assert r[1] == rest[0];
    assert !EndsWithNonDigit(r[0]);
  }

  /** The first piece of a scan is non-empty and starts where the scan's piece starts. */
  lemma SplitScanFirst(s: string, cut: int -> bool, p: nat, q: nat)
    requires p < q <= |s|
    ensures var r := SplitScan(s, cut, p, q); |r| >= 1 && r[0] != [] && r[0][0] == s[p]
  {
    SplitScanBounds(s, cut, p, q);
    var r, b := SplitScan(s, cut, p, q), [p] + CutsFrom(s, cut, q) + [|s|];
    assert b[0] == p && b[0] < b[1] && r[0] == s[b[0]..b[1]];
    assert r[0][0] == s[p];
  }

  /**
   * No number is divided between two pieces: each piece after the first
   * starts with a digit, and the piece before it does not end in one.
   */
  predicate NumbersWhole(r: seq<string>) {
    (forall k :: 0 < k < |r| ==> StartsWithDigit(r[k])) &&
    (forall k :: 0 <= k < |r| - 1 ==> EndsWithNonDigit(r[k]))
  }

  predicate StartsWithDigit(piece: string) {
    piece != [] && IsDigit(piece[0])
  }

  predicate EndsWithNonDigit(piece: string) {
    piece != [] && !IsDigit(piece[|piece| - 1])
  }

  /** A split that only cuts where a number starts never divides a number. */
  lemma SplitAtNumbersWhole(s: string, cut: int -> bool)
    requires forall q :: 0 < q < |s| && cut(q) ==> IsDigit(s[q]) && !IsDigit(s[q - 1])
    ensures NumbersWhole(SplitAt(s, cut))
  {
    if s != [] {
      SplitAtSpec(s, cut);
      var r, b := SplitAt(s, cut), Bounds(s, cut);
      forall k | 0 < k < |r|
        ensures StartsWithDigit(r[k])
      {
        StretchEdges(s, r[k], b[k], b[k + 1]);
      }
      forall k | 0 <= k < |r| - 1
        ensures EndsWithNonDigit(r[k])
      {
        var j := k + 1;
        assert 0 < b[j] < |s| && cut(b[j]);
        StretchEdges(s, r[k], b[k], b[j]);
      }
    }
  }

  /** The corrected look-ahead only matches where a number starts. */
  lemma HeadingStartIsNumberStart(s: string, q: int)
    requires 0 < q < |s| && HeadingStartAt(s, q)
    ensures IsDigit(s[q]) && !IsDigit(s[q - 1])
  {
    assert s[q..][0] == s[q];
  }

  /** With the corrected split, no heading number is ever divided. */
  lemma SplitAtHeadingStartsKeepsNumbers(s: string)
    ensures NumbersWhole(SplitAtHeadingStarts(s))
  {
    var cut := q => HeadingStartAt(s, q);
    forall q | 0 < q < |s| && cut(q)
      ensures IsDigit(s[q]) && !IsDigit(s[q - 1])
    {
      HeadingStartIsNumberStart(s, q);
    }
    SplitAtNumbersWhole(s, cut);
  }

  /** With no cut before `m`, the first piece holds the first `m` characters. */
  lemma SplitAtFirstPieceCovers(s: string, cut: int -> bool, m: int)
    requires 0 < m <= |s|
    requires forall q :: 0 < q < m ==> !cut(q)
    ensures var r := SplitAt(s, cut); |r| >= 1 && |r[0]| >= m && r[0][..m] == s[..m]
  {
    SplitAtSpec(s, cut);
    var r, b := SplitAt(s, cut), Bounds(s, cut);
    assert b[1] >= m by {
      if |r| > 1 {
        assert 0 < b[1] < |s| && cut(b[1]);
      }
    }
    assert r[0] == s[0..b[1]];
  }

  /** The look-ahead cannot match where no digit stands. */
  lemma NoHeadingWithoutDigit(s: string, q: int)
    requires 0 <= q < |s| && !IsDigit(s[q])
    ensures !HeadingAt(s, q)
  {
    assert s[q..][0] == s[q];
  }

  /** The corrected split keeps a leading two-digit heading in the first piece, whole. */
  lemma SplitAtHeadingStartsTwoDigits(s: string)
    requires TwoDigitHeadingFirst(s)
    ensures var r := SplitAtHeadingStarts(s); |r| >= 1 && |r[0]| >= 5 && r[0][..5] == s[..5]
  {
    var cut := q => HeadingStartAt(s, q);
    forall q | 0 < q < 5
      ensures !cut(q)
    {
      if q > 1 {
        NoHeadingWithoutDigit(s, q);
      }
    }
    SplitAtFirstPieceCovers(s, cut, 5);
  }

  // ---------------------------------------------------------------------
  // Turning pieces into sections

  /** The length of a leading `^\d+\.\s+`, or 0 when `line` does not start with one. */
  function NumberingLength(line: string): (n: nat)
    ensures n <= |line|
    ensures n > 0 ==> IsDigit(line[0]) && (n == |line| || !IsWhitespace(line[n]))
  {
    var d := LeadingDigits(line);
    if d == 0 || d + 1 >= |line| || line[d] != '.' || !IsWhitespace(line[d + 1]) then 0
    else d + 1 + LeadingWhitespace(line[d + 1..])
  }

  /** `line.replace(/^\d+\.\s+/, '')`. */
  function StripNumbering(line: string): (r: string)
    ensures |r| <= |line| && r == line[|line| - |r|..]
  {
    line[NumberingLength(line)..]
  }

  /** One space before a name that does not start with white space is a run of one. */
  lemma SingleSpaceRun(name: string)
    requires name == [] || !IsWhitespace(name[0])
    ensures LeadingWhitespace(" " + name) == 1
  {
    assert (" " + name)[1..] == name;
  }

  /** The numbering of "digits. name" is the digits, the full stop and one space. */
  lemma NumberingLengthOf(digits: string, name: string)
    requires digits != [] && forall i :: 0 <= i < |digits| ==> IsDigit(digits[i])
    requires name == [] || !IsWhitespace(name[0])
    ensures NumberingLength(digits + (". " + name)) == |digits| + 2
  {
    var line := digits + (". " + name);
    LeadingDigitsOfPrefix(digits, ". " + name);
    assert line[|digits|] == '.' && line[|digits| + 1] == ' ';
    assert line[|digits| + 1..] == " " + name;
    SingleSpaceRun(name);
  }

  /** Stripping the numbering off "n. name" gives back `name`, when `name` does not start with white space. */
  lemma StripNumberingRoundTrip(n: nat, name: string)
    requires name == [] || !IsWhitespace(name[0])
    ensures StripNumbering(NatToString(n) + ". " + name) == name
  {
    var digits := NatToString(n);
    var line := digits + (". " + name);
    assert NatToString(n) + ". " + name == line;
    NumberingLengthOf(digits, name);
    assert line[|digits| + 2..] == name;
  }

  /** A run of digits followed by a non-digit is the whole leading digit run. */
  lemma LeadingDigitsOfPrefix(digits: string, rest: string)
    requires forall i :: 0 <= i < |digits| ==> IsDigit(digits[i])
    requires rest != [] && !IsDigit(rest[0])
    ensures LeadingDigits(digits + rest) == |digits|
  {
    var s := digits + rest;
    assert s[|digits|] == rest[0];
    assert forall i :: 0 <= i < |digits| ==> IsDigit(s[i]);
  }

  /** The text before the first line break. */
  function FirstLine(piece: string): string {
    SplitOn(piece, '\n')[0]
  }

  /** `split('\n').slice(1).join('\n')`: the text after the first line. */
  function RestLines(piece: string): string {
    JoinWith(SplitOn(piece, '\n')[1..], "\n")
  }

  /**
   * The first line is everything up to the first line break, and the rest is
   * everything after it (nothing when there is no line break).
   */
  lemma FirstLineAndRest(piece: string)
    ensures var i := IndexOf(piece, '\n');
      && FirstLine(piece) == piece[..i]
      && RestLines(piece) == (if i < |piece| then piece[i + 1..] else "")
  {
    var i := IndexOf(piece, '\n');
    if i < |piece| {
      JoinSplit(piece[i + 1..], '\n');
    } else {
      assert piece[..i] == piece;
    }
  }

  /** The section read from the `index`th piece, before empty ones are dropped. */
  function PieceSection(index: nat, piece: string): Section {
    Section(NatToString(index + 1) + ". " + StripNumbering(FirstLine(piece)), Trim(RestLines(piece)))
  }

  /** A section's content is empty exactly when its piece's body is blank, and otherwise trimmed. */
  lemma PieceSectionContent(index: nat, piece: string)
    ensures var c := PieceSection(index, piece).content;
      && (c == "" <==> AllWhitespace(RestLines(piece)))
      && (c != "" ==> Trimmed(c))
  {
  }

  /** Every piece read as a section, numbered by its position. */
  function PieceSections(pieces: seq<string>): (r: seq<Section>)
    ensures |r| == |pieces|
    ensures forall k :: 0 <= k < |r| ==> r[k] == PieceSection(k, pieces[k])
  {
    seq(|pieces|, k requires 0 <= k < |pieces| => PieceSection(k, pieces[k]))
  }

  predicate HasContent(s: Section) {
    s.content != ""
  }

  /** Non-empty, with no white space at either end. */
  predicate Trimmed(c: string) {
    c != [] && !IsWhitespace(c[0]) && !IsWhitespace(c[|c| - 1])
  }

  /** The `map` and `filter(s => s.content)` of the parser. */
  function ParseSections(pieces: seq<string>): seq<Section> {
    Filter(PieceSections(pieces), HasContent)
  }

  /**
   * `r` holds the sections of the pieces at the increasing positions `idx`,
   * and those are exactly the pieces whose text after the first line is not blank.
   */
  ghost predicate ReadsContentPieces(pieces: seq<string>, idx: seq<int>, r: seq<Section>) {
    && |idx| == |r|
    && IncreasingBelow(idx, |pieces|)
    && (forall k :: 0 <= k < |r| ==> r[k] == PieceSection(idx[k], pieces[idx[k]]))
    && (forall i :: 0 <= i < |pieces| ==> (i in idx <==> !AllWhitespace(RestLines(pieces[i]))))
  }

  /**
   * The parsed sections are the pieces whose text after the first line is
   * not blank, in order; each keeps the number of its piece's position in
   * its title, and its content is that text trimmed.
   */
  lemma ParseSectionsSpec(pieces: seq<string>)
    ensures var r := ParseSections(pieces);
      && |r| <= |pieces|
      && (forall k :: 0 <= k < |r| ==> Trimmed(r[k].content))
      && (exists idx: seq<int> :: ReadsContentPieces(pieces, idx, r))
  {
    var all := PieceSections(pieces);
    var r := ParseSections(pieces);
    var idx := KeptIndices(all, HasContent);
    FilterIsOrderedSelection(all, HasContent);
    forall k | 0 <= k < |r|
      ensures r[k] == PieceSection(idx[k], pieces[idx[k]]) && Trimmed(r[k].content)
    {
      assert r[k] == all[idx[k]];
      assert HasContent(r[k]);
      PieceSectionContent(idx[k], pieces[idx[k]]);
    }
    forall i | 0 <= i < |pieces|
      ensures i in idx <==> !AllWhitespace(RestLines(pieces[i]))
    {
      PieceSectionContent(i, pieces[i]);
    }
    assert ReadsContentPieces(pieces, idx, r);
  }

  /** A heading line, a line break and a body: the first line is the heading, the rest the body. */
  lemma HeadingPiece(first: string, body: string)
    requires '\n' !in first
    ensures FirstLine(first + "\n" + body) == first && RestLines(first + "\n" + body) == body
  {
    var piece := first + "\n" + body;
    var i := IndexOf(piece, '\n');
    assert piece[|first|] == '\n';
    assert piece[..|first|] == first;
    assert i == |first|;
    FirstLineAndRest(piece);
    assert piece[..|first|] == first;
    assert piece[|first| + 1..] == body;
  }

  /** A rendered number holds no line break. */
  lemma NoBreakInNumber(n: nat)
    ensures '\n' !in NatToString(n)
  {
    var digits := NatToString(n);
    assert forall i :: 0 <= i < |digits| ==> IsDigit(digits[i]);
  }

  /** The title of the section at position 0 or 1 starts "1. " or "2. ". */
  lemma FirstTitles(x: string)
    ensures NatToString(1) + ". " + x == "1. " + x
    ensures NatToString(2) + ". " + x == "2. " + x
  {
    assert DigitChar(1) == '1' && DigitChar(2) == '2';
  }

  /**
   * A heading line without a line break, a line break and a trimmed body, read
   * at position `index`: the title is the position's number and the heading
   * with its numbering stripped, and the content is the body.
   */
  lemma HeadingPieceSection(index: nat, first: string, body: string)
    requires '\n' !in first && Trimmed(body)
    ensures var sec := PieceSection(index, first + "\n" + body);
      sec.title == NatToString(index + 1) + ". " + StripNumbering(first) && sec.content == body
  {
    HeadingPiece(first, body);
    TrimUntrimmed(body);
  }

  /** The piece "n. name", line break, body at position `index` reads as "index+1. name" with that body. */
  lemma HeadingSectionAt(index: nat, n: nat, name: string, body: string)
    requires '\n' !in name && (name == [] || !IsWhitespace(name[0]))
    requires Trimmed(body)
    ensures var sec := PieceSection(index, NatToString(n) + ". " + name + "\n" + body);
      sec.title == NatToString(index + 1) + ". " + name && sec.content == body
  {
    NoBreakInNumber(n);
    StripNumberingRoundTrip(n, name);
    HeadingPieceSection(index, NatToString(n) + ". " + name, body);
  }

  /**
   * A reply that is one numbered heading and a body parses to that one
   * section, renumbered 1 whatever its own number.
   */
  lemma ParseOneSection(n: nat, name: string, body: string)
    requires '\n' !in name && (name == [] || !IsWhitespace(name[0]))
    requires Trimmed(body)
    ensures ParseSections([NatToString(n) + ". " + name + "\n" + body]) == [Section("1. " + name, body)]
  {
    var first := NatToString(n) + ". " + name;
    NoBreakInNumber(n);
    StripNumberingRoundTrip(n, name);
    ParseHeadingLine(first, body);
    FirstTitles(name);
  }

  /** A heading line, a line break and a trimmed body parse to one section numbered 1. */
  lemma ParseHeadingLine(first: string, body: string)
    requires '\n' !in first && Trimmed(body)
    ensures ParseSections([first + "\n" + body]) == [Section(NatToString(1) + ". " + StripNumbering(first), body)]
  {
    var piece, title := first + "\n" + body, NatToString(1) + ". " + StripNumbering(first);
    assert PieceSection(0, piece).title == title && PieceSection(0, piece).content == body by {
      HeadingPieceSection(0, first, body);
    }
    ParseSectionWithContent(piece, title, body);
  }

  /** A single piece whose section has content parses to exactly that section. */
  lemma ParseSectionWithContent(piece: string, title: string, content: string)
    requires PieceSection(0, piece).title == title
    requires PieceSection(0, piece).content == content && content != ""
    ensures ParseSections([piece]) == [Section(title, content)]
  {
    ParseSingle(piece);
  }

  /** One piece whose section has content: one section, with its title and content. */
  lemma OnlyPieceParses(pieces: seq<string>, title: string, content: string)
    requires |pieces| == 1
    requires PieceSection(0, pieces[0]).title == title && PieceSection(0, pieces[0]).content == content
    requires content != ""
    ensures var r := ParseSections(pieces); |r| == 1 && r[0].title == title && r[0].content == content
  {
    assert pieces == [pieces[0]];
    ParseSingle(pieces[0]);
  }

  /** A single piece gives its section, or nothing when its body is blank. */
  lemma ParseSingle(piece: string)
    ensures var sec := PieceSection(0, piece);
      ParseSections([piece]) == if HasContent(sec) then [sec] else []
  {
    SinglePieceSections(piece);
    FilterCons(PieceSection(0, piece), [], HasContent);
  }

  /** One piece gives one section, numbered from position 0. */
  lemma SinglePieceSections(piece: string)
    ensures PieceSections([piece]) == [PieceSection(0, piece)]
  {
  }

  /** A string with solid ends is its own trim. */
  lemma TrimUntrimmed(s: string)
    requires Trimmed(s)
    ensures Trim(s) == s
  {
    var r := Trim(s);
    assert LeadingWhitespace(s) == 0;
  }

  /**
   * `parsePRDResponse`, as written: the canned document when the integration
   * is off or the reply is the simulated one; otherwise the product name as
   * title (with no fallback) and the sections read from the pieces of the
   * look-ahead split `SplitAtHeadings`.
   */
  function ParsePrdResponse(response: string, form: PrdForm, useOllama: bool, now: string): (d: Prd)
    ensures !useOllama || Contains(response, "simulated response") ==> d == CannedPrd(form, now)
    ensures useOllama && !Contains(response, "simulated response") ==>
              && d.title == form.productName && d.generatedAt == now
              && d.sections == ParseSections(SplitAtHeadings(response))
              && |d.sections| <= |SplitAtHeadings(response)|
              && forall k :: 0 <= k < |d.sections| ==> Trimmed(d.sections[k].content)
  {
    if !useOllama || Contains(response, "simulated response") then CannedPrd(form, now)
    else
      ParseSectionsSpec(SplitAtHeadings(response));
      Prd(form.productName, ParseSections(SplitAtHeadings(response)), now)
  }

  /**
   * The parser with the corrected split `SplitAtHeadingStarts`, which cuts only
   * before the whole number of a heading; everything else as in `ParsePrdResponse`.
   */
  function ParsePrdResponseCorrected(response: string, form: PrdForm, useOllama: bool, now: string): (d: Prd)
    ensures !useOllama || Contains(response, "simulated response") ==> d == CannedPrd(form, now)
    ensures useOllama && !Contains(response, "simulated response") ==>
              && d.title == form.productName && d.generatedAt == now
              && d.sections == ParseSections(SplitAtHeadingStarts(response))
              && |d.sections| <= |SplitAtHeadingStarts(response)|
              && forall k :: 0 <= k < |d.sections| ==> Trimmed(d.sections[k].content)
  {
    if !useOllama || Contains(response, "simulated response") then CannedPrd(form, now)
    else
      ParseSectionsSpec(SplitAtHeadingStarts(response));
      Prd(form.productName, ParseSections(SplitAtHeadingStarts(response)), now)
  }

  // ---------------------------------------------------------------------
  // A reply that opens with a two-digit heading

  /** No decimal digit anywhere in `s`. */
  predicate NoDigit(s: string) {
    forall i :: 0 <= i < |s| ==> !IsDigit(s[i])
  }

  /** What follows a heading's number: ". ", the name, a line break and the body. */
  function AfterNumber(name: string, body: string): string {
    ". " + name + "\n" + body
  }

  /** The conditions on the name and body of a sample heading reply. */
  predicate SampleParts(name: string, body: string) {
    && name != [] && IsUpper(name[0]) && NoDigit(name) && '\n' !in name
    && NoDigit(body) && Trimmed(body)
  }

  lemma AfterNumberNoDigit(name: string, body: string)
    requires NoDigit(name) && NoDigit(body)
    ensures NoDigit(AfterNumber(name, body))
  {
    var t := AfterNumber(name, body);
    forall i | 0 <= i < |t|
      ensures !IsDigit(t[i])
    {
      if 2 <= i < 2 + |name| {
        assert t[i] == name[i - 2];
      } else if 2 + |name| < i {
        assert t[i] == body[i - 3 - |name|];
      }
    }
  }

  /**
   * In "ab. Name…" the look-ahead of the source matches at the second digit
   * and nowhere else inside the reply, while the corrected one matches nowhere
   * inside it.
   */
  lemma TwoDigitReplyCuts(a: char, b: char, name: string, body: string)
    requires IsDigit(a) && IsDigit(b) && SampleParts(name, body)
    ensures var s := [a, b] + AfterNumber(name, body);
      && (forall q :: 0 < q < |s| ==> (HeadingAt(s, q) <==> q == 1))
      && (forall q :: 0 < q < |s| ==> !HeadingStartAt(s, q))
  {
    var t := AfterNumber(name, body);
    var s := [a, b] + t;
    AfterNumberNoDigit(name, body);
    assert s[2] == '.' && s[3] == ' ' && s[4] == name[0];
    HeadingAtSecondDigit(s);
    forall q | 1 < q < |s|
      ensures !HeadingAt(s, q)
    {
      assert s[q] == t[q - 2];
      NoHeadingWithoutDigit(s, q);
    }
  }

  /** With no cut from `q` on, there are no cut positions from `q` on. */
  lemma {:induction false} CutsFromNone(s: string, cut: int -> bool, q: nat)
    requires forall j :: q <= j < |s| ==> !cut(j)
    ensures CutsFrom(s, cut, q) == []
    decreases |s| - q
  {
    if q < |s| {
      CutsFromNone(s, cut, q + 1);
    }
  }

  /** With a single cut from `q` on, at `m`, that is the only cut position. */
  lemma {:induction false} CutsFromOne(s: string, cut: int -> bool, q: nat, m: nat)
    requires q <= m < |s| && forall j :: q <= j < |s| ==> (cut(j) <==> j == m)
    ensures CutsFrom(s, cut, q) == [m]
    decreases m - q
  {
    if q < m {
      CutsFromOne(s, cut, q + 1, m);
    } else {
      CutsFromNone(s, cut, m + 1);
    }
  }

  /** A split with no cut inside `s` leaves `s` whole. */
  lemma SplitAtNoCuts(s: string, cut: int -> bool)
    requires s != [] && forall q :: 0 < q < |s| ==> !cut(q)
    ensures SplitAt(s, cut) == [s]
  {
    SplitAtSpec(s, cut);
    CutsFromNone(s, cut, 1);
    assert Bounds(s, cut) == [0, |s|];
    assert s[0..|s|] == s;
  }

  /** A split with a single cut at `m` gives the two pieces on either side of it. */
  lemma SplitAtOneCut(s: string, cut: int -> bool, m: int)
    requires 0 < m < |s| && forall q :: 0 < q < |s| ==> (cut(q) <==> q == m)
    ensures SplitAt(s, cut) == [s[..m], s[m..]]
  {
    SplitAtSpec(s, cut);
    CutsFromOne(s, cut, 1, m);
    assert Bounds(s, cut) == [0, m, |s|];
    var r := SplitAt(s, cut);
    assert r[0] == s[..m] && r[1] == s[m..];
    assert r == [r[0], r[1]];
  }

  /** A piece without a line break has no body, so its section is dropped. */
  lemma OneLineHasNoContent(index: nat, piece: string)
    requires '\n' !in piece
    ensures PieceSection(index, piece).content == ""
  {
    FirstLineAndRest(piece);
  }

  /** Of two pieces, only the second with content: one section, the second's. */
  lemma ParseSecondOnly(pieces: seq<string>, title: string, content: string)
    requires |pieces| == 2 && PieceSection(0, pieces[0]).content == ""
    requires PieceSection(1, pieces[1]).title == title && PieceSection(1, pieces[1]).content == content
    requires content != ""
    ensures var r := ParseSections(pieces); |r| == 1 && r[0].title == title && r[0].content == content
  {
    FilterSecondOnly(PieceSections(pieces), HasContent);
  }

  /** With the look-ahead matching inside `s` only at 1, the split cuts off the first character. */
  lemma HeadingsCutOnlyAfterFirst(s: string)
    requires 1 < |s| && forall q :: 0 < q < |s| ==> (HeadingAt(s, q) <==> q == 1)
    ensures SplitAtHeadings(s) == [s[..1], s[1..]]
  {
    SplitAtOneCut(s, q => HeadingAt(s, q), 1);
  }

  /** With no heading start inside `s`, the corrected split leaves it whole. */
  lemma NoHeadingStartsInside(s: string)
    requires s != [] && forall q :: 0 < q < |s| ==> !HeadingStartAt(s, q)
    ensures SplitAtHeadingStarts(s) == [s]
  {
    SplitAtNoCuts(s, q => HeadingStartAt(s, q));
  }

  /** As written, "ab. Name…" splits into the first digit alone and the rest. */
  lemma TwoDigitPiecesAsWritten(a: char, b: char, name: string, body: string)
    requires IsDigit(a) && IsDigit(b) && SampleParts(name, body)
    ensures SplitAtHeadings([a, b] + AfterNumber(name, body)) == [[a], [b] + AfterNumber(name, body)]
  {
    var s := [a, b] + AfterNumber(name, body);
    TwoDigitReplyCuts(a, b, name, body);
    HeadingsCutOnlyAfterFirst(s);
    assert s[..1] == [a] && s[1..] == [b] + AfterNumber(name, body);
  }

  /** Corrected, "ab. Name…" stays one piece. */
  lemma TwoDigitPiecesCorrected(a: char, b: char, name: string, body: string)
    requires IsDigit(a) && IsDigit(b) && SampleParts(name, body)
    ensures SplitAtHeadingStarts([a, b] + AfterNumber(name, body)) == [[a, b] + AfterNumber(name, body)]
  {
    TwoDigitReplyCuts(a, b, name, body);
    NoHeadingStartsInside([a, b] + AfterNumber(name, body));
  }

  /** A numbered heading line "d. Name" holds no line break and strips back to "Name". */
  lemma NumberedLine(digits: string, name: string)
    requires digits != [] && forall i :: 0 <= i < |digits| ==> IsDigit(digits[i])
    requires name != [] && IsUpper(name[0]) && '\n' !in name
    ensures '\n' !in digits + (". " + name)
    ensures StripNumbering(digits + (". " + name)) == name
  {
    var line := digits + (". " + name);
    assert forall i :: 0 <= i < |digits| ==> line[i] == digits[i];
    NumberingLengthOf(digits, name);
    assert line[|digits| + 2..] == name;
  }

  /** The reply read as its heading line, a line break and the body. */
  lemma AfterNumberLines(digits: string, name: string, body: string)
    ensures digits + AfterNumber(name, body) == digits + (". " + name) + "\n" + body
  {
  }

  /** "d. Name", line break, body read at position `index`. */
  lemma NumberedPieceSection(index: nat, digits: string, name: string, body: string)
    requires digits != [] && forall i :: 0 <= i < |digits| ==> IsDigit(digits[i])
    requires SampleParts(name, body)
    ensures var sec := PieceSection(index, digits + AfterNumber(name, body));
      sec.title == NatToString(index + 1) + ". " + name && sec.content == body
  {
    var first := digits + (". " + name);
    NumberedLine(digits, name);
    AfterNumberLines(digits, name, body);
    HeadingPieceSection(index, first, body);
  }

  /** A one-line piece and then "d. Name…": one section, read from the second. */
  lemma LineThenHeadingSections(line: string, digits: string, name: string, body: string)
    requires '\n' !in line
    requires digits != [] && forall i :: 0 <= i < |digits| ==> IsDigit(digits[i])
    requires SampleParts(name, body)
    ensures var r := ParseSections([line, digits + AfterNumber(name, body)]);
      |r| == 1 && r[0].title == NatToString(2) + ". " + name && r[0].content == body
  {
    var heading := digits + AfterNumber(name, body);
    var title := NatToString(2) + ". " + name;
    assert PieceSection(0, line).content == "" by {
      OneLineHasNoContent(0, line);
    }
    assert PieceSection(1, heading).title == title && PieceSection(1, heading).content == body by {
      NumberedPieceSection(1, digits, name, body);
    }
    ParseSecondOnly([line, heading], title, body);
  }

  /** The single piece "d. Name…" gives one section, numbered 1. */
  lemma HeadingOnlySections(digits: string, name: string, body: string)
    requires digits != [] && forall i :: 0 <= i < |digits| ==> IsDigit(digits[i])
    requires SampleParts(name, body)
    ensures var r := ParseSections([digits + AfterNumber(name, body)]);
      |r| == 1 && r[0].title == NatToString(1) + ". " + name && r[0].content == body
  {
    NumberedPieceSection(0, digits, name, body);
    OnlyPieceParses([digits + AfterNumber(name, body)], NatToString(1) + ". " + name, body);
  }

  /** As written, "ab. Name…" gives one section, read from the second piece. */
  lemma TwoDigitSectionsAsWritten(a: char, b: char, name: string, body: string)
    requires IsDigit(a) && IsDigit(b) && SampleParts(name, body)
    ensures var r := ParseSections(SplitAtHeadings([a, b] + AfterNumber(name, body)));
      |r| == 1 && r[0].title == "2. " + name && r[0].content == body
  {
    TwoDigitPiecesAsWritten(a, b, name, body);
    LineThenHeadingSections([a], [b], name, body);
    FirstTitles(name);
  }

  /** Corrected, "ab. Name…" gives one section, read from the whole reply. */
  lemma TwoDigitSectionsCorrected(a: char, b: char, name: string, body: string)
    requires IsDigit(a) && IsDigit(b) && SampleParts(name, body)
    ensures var r := ParseSections(SplitAtHeadingStarts([a, b] + AfterNumber(name, body)));
      |r| == 1 && r[0].title == "1. " + name && r[0].content == body
  {
    TwoDigitPiecesCorrected(a, b, name, body);
    HeadingOnlySections([a, b], name, body);
    FirstTitles(name);
  }

  /**
   * As written, a reply such as "10. Goals" line break "body" loses its
   * leading digit to a piece of its own, which has no body and is dropped;
   * the heading then sits in the second piece and is numbered 2.
   */
  lemma TwoDigitHeadingMisnumbered(a: char, b: char, name: string, body: string, form: PrdForm, now: string)
    requires IsDigit(a) && IsDigit(b) && SampleParts(name, body)
    requires !Contains([a, b] + AfterNumber(name, body), "simulated response")
    ensures var d := ParsePrdResponse([a, b] + AfterNumber(name, body), form, true, now);
      |d.sections| == 1 && d.sections[0].title == "2. " + name && d.sections[0].content == body
  {
    TwoDigitSectionsAsWritten(a, b, name, body);
  }

  /** With the corrected split the same reply gives its one section, numbered 1. */
  lemma TwoDigitHeadingNumberedFirst(a: char, b: char, name: string, body: string, form: PrdForm, now: string)
    requires IsDigit(a) && IsDigit(b) && SampleParts(name, body)
    requires !Contains([a, b] + AfterNumber(name, body), "simulated response")
    ensures var d := ParsePrdResponseCorrected([a, b] + AfterNumber(name, body), form, true, now);
      |d.sections| == 1 && d.sections[0].title == "1. " + name && d.sections[0].content == body
  {
    TwoDigitSectionsCorrected(a, b, name, body);
  }

  // ---------------------------------------------------------------------
  // The simplified story and competitor parsers

  /** A story read from a reply; unlike a generated story it has no status. */
  datatype StoryDraft = StoryDraft(
    id: int,
    title: string,
    story: string,
    acceptanceCriteria: seq<string>,
    priority: string,
    storyPoints: nat)

  /**
   * `parseUserStories`, with `now` for `Date.now()`: one medium story worth
   * five points whose text is the first 200 characters of the reply.
   */
  function ParseUserStories(response: string, now: int): (r: seq<StoryDraft>)
    ensures |r| == 1 && r[0].id == now
    ensures r[0].story <= response && |r[0].story| == if |response| < 200 then |response| else 200
    ensures r[0].title == "Story extracted from Ollama response"
    ensures r[0].acceptanceCriteria == ["Criterion from AI", "Criterion from AI", "Criterion from AI"]
    ensures r[0].priority == "Medium" && r[0].storyPoints == 5
  {
    [StoryDraft(now, "Story extracted from Ollama response", Take(response, 200),
       ["Criterion from AI", "Criterion from AI", "Criterion from AI"], "Medium", 5)]
  }

  datatype Ratings = Ratings(features: int, ux: int, performance: int, integration: int, support: int)

  datatype CompetitorEntry = CompetitorEntry(
    name: string, strengths: seq<string>, weaknesses: seq<string>, ratings: Ratings)

  datatype Analysis = Analysis(competitors: seq<CompetitorEntry>, recommendations: string)

  /** The fixed entry every competitor receives. */
  function PlaceholderEntry(name: string): CompetitorEntry {
    CompetitorEntry(name,
      ["AI-generated strength 1", "AI-generated strength 2"],
      ["AI-generated weakness 1", "AI-generated weakness 2"],
      Ratings(8, 7, 8, 7, 8))
  }

  /**
   * `parseCompetitiveAnalysis`: one placeholder entry per competitor, in the
   * given order and under the given names, and the first 500 characters of
   * the reply as the recommendations.
   */
  function ParseCompetitiveAnalysis(response: string, competitors: seq<string>): (a: Analysis)
    ensures |a.competitors| == |competitors|
    ensures forall k :: 0 <= k < |competitors| ==>
              a.competitors[k].name == competitors[k] && a.competitors[k].ratings == Ratings(8, 7, 8, 7, 8)
    ensures a.recommendations <= response
    ensures |a.recommendations| == if |response| < 500 then |response| else 500
  {
    Analysis(seq(|competitors|, k requires 0 <= k < |competitors| => PlaceholderEntry(competitors[k])),
             Take(response, 500))
  }
}
