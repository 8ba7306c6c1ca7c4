/**
 * The PRD generator page: the product form, the eight-section document it
 * generates from a fixed template, and the Markdown text and file name of
 * the download.
 */
module PrdGenerator {
  import opened Wrappers
  import opened Text

  datatype PrdForm = PrdForm(
    productName: string,
    problemStatement: string,
    targetAudience: string,
    keyFeatures: string,
    competitors: string,
    timeline: string)

  /** The form's inputs, by their `name` attribute. */
  datatype Field = ProductName | ProblemStatement | TargetAudience | KeyFeatures | Competitors | Timeline

  datatype Section = Section(title: string, content: string)

  /** A generated document; `generatedAt` is the ISO time stamp taken when it was made. */
  datatype Prd = Prd(title: string, sections: seq<Section>, generatedAt: string)

  const EmptyForm := PrdForm("", "", "", "", "", "")

  /** The document title used when the product has no name. */
  const UntitledProduct := "Untitled Product"

  /** The problem-statement section used when no problem is given. */
  const DefaultProblem := "Define the core problem this product solves"

  /** The headings of the eight sections, numbered 1 to 8. */
  const SectionTitles := [
    "1. Executive Summary", "2. Problem Statement", "3. Target Users & Personas",
    "4. Key Features & Requirements", "5. Success Metrics & KPIs", "6. Competitive Analysis",
    "7. Timeline & Milestones", "8. Risks & Mitigation"
  ]

  /** `handleChange`: the named input takes the new value; the other inputs stay. */
  function WithField(form: PrdForm, field: Field, value: string): (r: PrdForm)
    ensures FieldValue(r, field) == value
    ensures forall g :: g != field ==> FieldValue(r, g) == FieldValue(form, g)
  {
    match field
    case ProductName => form.(productName := value)
    case ProblemStatement => form.(problemStatement := value)
    case TargetAudience => form.(targetAudience := value)
    case KeyFeatures => form.(keyFeatures := value)
    case Competitors => form.(competitors := value)
    case Timeline => form.(timeline := value)
  }

  /** The value of one input of the form. */
  function FieldValue(form: PrdForm, field: Field): string {
    match field
    case ProductName => form.productName
    case ProblemStatement => form.problemStatement
    case TargetAudience => form.targetAudience
    case KeyFeatures => form.keyFeatures
    case Competitors => form.competitors
    case Timeline => form.timeline
  }

  /** `a || b` on strings: `a` unless it is empty. */
  function OrElse(a: string, b: string): (r: string)
    ensures a != "" ==> r == a
    ensures a == "" ==> r == b
  {
    if a != "" then a else b
  }

  // The fixed text around the form's values in the template.
  const SummaryAddresses := " is a revolutionary solution designed to address "
  const SummaryTargets := ". This product targets "
  const SummaryAgainst :=
    " and aims to deliver significant value through" +
    " innovative features and user-centric design. Our" +
    " competitive analysis shows strong market" +
    " opportunities against "
  const AudienceLead := "Primary Audience: "
  const Personas :=
    "\n\nUser Persona 1: Early Adopter Emma" +
    "\n- Age: 28-35" +
    "\n- Tech-savvy professional" +
    "\n- Values: Efficiency, innovation, seamless experiences" +
    "\n\nUser Persona 2: Business Leader Bob" +
    "\n- Age: 40-50" +
    "\n- Decision maker" +
    "\n- Values: ROI, reliability, scalability"
  const TechnicalRequirements :=
    "\n\nTechnical Requirements:" +
    "\n- Cloud-native architecture" +
    "\n- RESTful API design" +
    "\n- Mobile-first responsive design" +
    "\n- Enterprise-grade security" +
    "\n- Real-time analytics dashboard"
  const Metrics :=
    "- User Acquisition: 10,000 users in first quarter" +
    "\n- Engagement Rate: 60% DAU/MAU ratio" +
    "\n- Customer Satisfaction: NPS score > 50" +
    "\n- Revenue: $500K ARR by end of year" +
    "\n- Feature Adoption: 70% of users using core features"
  const CompetitorsLead := "Primary Competitors: "
  const Advantages :=
    "\n\nOur Competitive Advantages:" +
    "\n- Superior UX/UI design" +
    "\n- AI-powered automation" +
    "\n- Better pricing model" +
    "\n- Faster implementation" +
    "\n- Superior customer support"
  const TimelineLead := "Target Timeline: "
  const Phases :=
    "\n\nPhase 1 (Months 1-2): Discovery & Design" +
    "\nPhase 2 (Months 3-4): MVP Development" +
    "\nPhase 3 (Month 5): Beta Testing" +
    "\nPhase 4 (Month 6): Launch & Marketing"
  const Risks :=
    "Risk 1: Market Competition" +
    "\nMitigation: Differentiate through superior UX and AI" +
    " features" +
    "\n\nRisk 2: Technical Complexity" +
    "\nMitigation: Phased rollout with extensive testing" +
    "\n\nRisk 3: User Adoption" +
    "\nMitigation: Comprehensive onboarding and customer" +
    " success program"

  /** The eight section texts of the template, filled in from the form. */
  function TemplateContents(f: PrdForm): (r: seq<string>)
    ensures |r| == 8
  {
    [
      f.productName + SummaryAddresses + f.problemStatement + SummaryTargets + f.targetAudience +
        SummaryAgainst + f.competitors + ".",
      OrElse(f.problemStatement, DefaultProblem),
      AudienceLead + f.targetAudience + Personas,
      f.keyFeatures + TechnicalRequirements,
      Metrics,
      CompetitorsLead + f.competitors + Advantages,
      TimelineLead + f.timeline + Phases,
      Risks
    ]
  }

  /** Pairs headings with contents, one section each. */
  function Zip(titles: seq<string>, contents: seq<string>): (r: seq<Section>)
    requires |titles| == |contents|
    ensures |r| == |titles|
    ensures forall k :: 0 <= k < |r| ==> r[k] == Section(titles[k], contents[k])
  {
    seq(|titles|, k requires 0 <= k < |titles| => Section(titles[k], contents[k]))
  }

  /** `generatePRD`, once its simulated delay has passed, at time stamp `now`. */
  function GeneratePrd(form: PrdForm, now: string): Prd {
    Prd(OrElse(form.productName, UntitledProduct), Zip(SectionTitles, TemplateContents(form)), now)
  }

  /** `a + b + c` contains `b`. */
  lemma ContainsMiddle(a: string, b: string, c: string)
    ensures Contains(a + b + c, b)
  {
    assert (a + b + c)[|a|..|a| + |b|] == b;
    assert OccursAt(a + b + c, b, |a|);
  }

  /**
   * A generated document has the eight numbered headings in order and the
   * time stamp it was made at; its title is the product name, or "Untitled
   * Product" when there is none; and the problem section is the problem
   * statement, or the default text when there is none.
   */
  lemma GeneratePrdShape(form: PrdForm, now: string)
    ensures var d := GeneratePrd(form, now);
      && |d.sections| == 8
      && (forall k :: 0 <= k < 8 ==> d.sections[k].title == SectionTitles[k])
      && d.generatedAt == now
      && d.title == (if form.productName == "" then UntitledProduct else form.productName)
      && d.sections[1].content == (if form.problemStatement == "" then DefaultProblem else form.problemStatement)
  {
    var d := GeneratePrd(form, now);
    assert d.sections[1] == Section(SectionTitles[1], TemplateContents(form)[1]);
  }

  /** `a + b` contains `a`. */
  lemma ContainsFront(a: string, b: string)
    ensures Contains(a + b, a)
  {
    assert (a + b)[..|a|] == a;
    assert OccursAt(a + b, a, 0);
  }

  /** Text that contains `sub` still contains it with more text appended. */
  lemma ContainsExtend(x: string, y: string, sub: string)
    requires Contains(x, sub)
    ensures Contains(x + y, sub)
  {
    var i :| OccursAt(x, sub, i);
    assert (x + y)[i..i + |sub|] == x[i..i + |sub|];
    assert OccursAt(x + y, sub, i);
  }

  /** The executive summary names the product and the problem it addresses. */
  lemma SummaryMentionsForm(f: PrdForm)
    ensures Contains(TemplateContents(f)[0], f.productName)
    ensures Contains(TemplateContents(f)[0], f.problemStatement)
  {
    var s1 := f.productName + SummaryAddresses;
    ContainsMiddle([], f.productName, SummaryAddresses);
    assert [] + f.productName + SummaryAddresses == s1;
    var s2 := s1 + f.problemStatement;
    ContainsMiddle(s1, f.problemStatement, []);
    assert s1 + f.problemStatement + [] == s2;
    ContainsExtend(s1, f.problemStatement, f.productName);
    var s3 := s2 + SummaryTargets;
    ContainsExtend(s2, SummaryTargets, f.productName);
    ContainsExtend(s2, SummaryTargets, f.problemStatement);
    var s4 := s3 + f.targetAudience;
    ContainsExtend(s3, f.targetAudience, f.productName);
    ContainsExtend(s3, f.targetAudience, f.problemStatement);
    var s5 := s4 + SummaryAgainst;
    ContainsExtend(s4, SummaryAgainst, f.productName);
    ContainsExtend(s4, SummaryAgainst, f.problemStatement);
    var s6 := s5 + f.competitors;
    ContainsExtend(s5, f.competitors, f.productName);
    ContainsExtend(s5, f.competitors, f.problemStatement);
    ContainsExtend(s6, ".", f.productName);
    ContainsExtend(s6, ".", f.problemStatement);
    assert TemplateContents(f)[0] == s6 + ".";
  }

  /**
   * The form's name and problem appear in the executive summary, and its
   * audience, features, competitors and timeline each in their own section.
   */
  lemma GeneratePrdMentionsForm(form: PrdForm, now: string)
    ensures var ss := GeneratePrd(form, now).sections;
      && |ss| == 8
      && Contains(ss[0].content, form.productName)
      && Contains(ss[0].content, form.problemStatement)
      && Contains(ss[2].content, form.targetAudience)
      && Contains(ss[3].content, form.keyFeatures)
      && Contains(ss[5].content, form.competitors)
      && Contains(ss[6].content, form.timeline)
  {
    GeneratedContents(form, now);
    SummaryMentionsForm(form);
    SectionsMentionForm(form);
  }

  /** The document's sections carry the template's texts, in order. */
  lemma GeneratedContents(form: PrdForm, now: string)
    ensures var ss := GeneratePrd(form, now).sections;
      |ss| == 8 && forall k :: 0 <= k < 8 ==> ss[k].content == TemplateContents(form)[k]
  {
  }

  /** The audience, features, competitors and timeline each appear in their own section text. */
  lemma SectionsMentionForm(f: PrdForm)
    ensures var c := TemplateContents(f);
      && Contains(c[2], f.targetAudience)
      && Contains(c[3], f.keyFeatures)
      && Contains(c[5], f.competitors)
      && Contains(c[6], f.timeline)
  {
    var c := TemplateContents(f);
    ContainsMiddle(AudienceLead, f.targetAudience, Personas);
    ContainsFront(f.keyFeatures, TechnicalRequirements);
    ContainsMiddle(CompetitorsLead, f.competitors, Advantages);
    ContainsMiddle(TimelineLead, f.timeline, Phases);
  }

  /** The generate button is enabled once the product name and the problem are filled in. */
  predicate CanGenerate(form: PrdForm) {
    form.productName != "" && form.problemStatement != ""
  }

  /** One section as Markdown: its heading at level two, a blank line, its text. */
  function SectionMarkdown(s: Section): string {
    "## " + s.title + "\n\n" + s.content
  }

  /** The section blocks of `ss`, in order. */
  function SectionBlocks(ss: seq<Section>): (r: seq<string>)
    ensures |r| == |ss|
    ensures forall k :: 0 <= k < |ss| ==> r[k] == SectionMarkdown(ss[k])
  {
    seq(|ss|, k requires 0 <= k < |ss| => SectionMarkdown(ss[k]))
  }

  /** The downloaded text: the title at level one, then the sections separated by blank lines. */
  function Markdown(d: Prd): string {
    "# " + d.title + "\n\n" + JoinWith(SectionBlocks(d.sections), "\n\n")
  }

  /**
   * The Markdown starts with the document title as a level-one heading, and
   * every section appears in it, whole, as a level-two heading followed by
   * its text.
   */
  lemma MarkdownSpec(d: Prd)
    ensures |Markdown(d)| >= |d.title| + 4 && Markdown(d)[..|d.title| + 4] == "# " + d.title + "\n\n"
    ensures forall k :: 0 <= k < |d.sections| ==> Contains(Markdown(d), SectionMarkdown(d.sections[k]))
  {
    var m := Markdown(d);
    var head := "# " + d.title + "\n\n";
    assert |head| == |d.title| + 4;
    var blocks := SectionBlocks(d.sections);
    var body := JoinWith(blocks, "\n\n");
    assert m == head + body;
    forall k | 0 <= k < |d.sections|
      ensures Contains(m, SectionMarkdown(d.sections[k]))
    {
      var block := blocks[k];
      JoinKeepsParts(blocks, "\n\n", k);
      var i :| OccursAt(body, block, i);
      assert m[|head| + i..|head| + i + |block|] == body[i..i + |block|];
      assert OccursAt(m, block, |head| + i);
    }
  }

  /** With no sections the Markdown is the title heading and its blank line. */
  lemma MarkdownNoSections(title: string, at: string)
    ensures Markdown(Prd(title, [], at)) == "# " + title + "\n\n"
  {
    assert SectionBlocks([]) == [];
  }

  /** With one section the Markdown is the title heading, a blank line and that section's block. */
  lemma MarkdownOneSection(title: string, x: Section, at: string)
    ensures Markdown(Prd(title, [x], at)) == "# " + title + "\n\n" + SectionMarkdown(x)
  {
    assert SectionBlocks([x]) == [SectionMarkdown(x)];
  }

  /**
   * One more section at the end adds a blank line and its block at the end of
   * the Markdown: sections appear in order, separated by blank lines.
   */
  lemma MarkdownAppend(title: string, ss: seq<Section>, x: Section, at: string)
    requires ss != []
    ensures Markdown(Prd(title, ss + [x], at)) == Markdown(Prd(title, ss, at)) + "\n\n" + SectionMarkdown(x)
  {
    var blocks := SectionBlocks(ss);
    assert SectionBlocks(ss + [x]) == blocks + [SectionMarkdown(x)];
    JoinSnoc(blocks, SectionMarkdown(x), "\n\n");
  }

  /** The download's file name: the title with each white-space run turned into "-", then ".md". */
  function Filename(d: Prd): string {
    ReplaceWhitespaceRuns(d.title, '-') + ".md"
  }

  /**
   * The file name holds no white space, ends in ".md", and keeps every other
   * character of the title in order.
   */
  lemma FilenameSpec(d: Prd)
    ensures var n := Filename(d);
      && NoWhitespace(n)
      && |n| >= 3 && n[|n| - 3..] == ".md"
      && Solid(n[..|n| - 3], '-') == Solid(d.title, '-')
  {
    var r := ReplaceWhitespaceRuns(d.title, '-');
    var n := Filename(d);
    assert n[..|n| - 3] == r;
    ReplaceWhitespaceRunsKeepsText(d.title, '-');
  }

  /**
   * A white-space run in the title, with solid text on either side, becomes
   * exactly one "-" in the file name; so words without white space are kept
   * as they are, joined by single dashes.
   */
  lemma FilenameAroundRun(a: string, w: string, b: string, sections: seq<Section>, at: string)
    requires w != [] && AllWhitespace(w) && SolidEnd(a) && SolidStart(b)
    ensures Filename(Prd(a + w + b, sections, at))
            == ReplaceWhitespaceRuns(a, '-') + "-" + ReplaceWhitespaceRuns(b, '-') + ".md"
    ensures NoWhitespace(a) && NoWhitespace(b) ==> Filename(Prd(a + w + b, sections, at)) == a + "-" + b + ".md"
  {
    ReplaceRunBetween(a, w, b, '-');
    if NoWhitespace(a) && NoWhitespace(b) {
      ReplaceWhitespaceRunsNone(a, '-');
      ReplaceWhitespaceRunsNone(b, '-');
    }
  }

  /** The page's `formData` and `generatedPRD` state. */
  class PrdPage {
    var form: PrdForm
    var generated: Option<Prd>

    constructor ()
      ensures form == EmptyForm && generated == None
    {
      form := EmptyForm;
      generated := None;
    }

    /** Typing into one input. */
    method Change(field: Field, value: string)
      modifies this
      ensures form == WithField(old(form), field, value)
      ensures generated == old(generated)
    {
      form := WithField(form, field, value);
    }

    /**
     * The generate button, at time stamp `now`; it is disabled until the
     * product name and the problem are filled in.
     */
    method Generate(now: string)
      requires CanGenerate(form)
      modifies this
      ensures generated == Some(GeneratePrd(form, now))
      ensures form == old(form)
    {
      generated := Some(GeneratePrd(form, now));
    }

    /**
     * The download button, shown only once a document exists: the Markdown
     * text and the file name it is saved under.
     */
    method Download() returns (content: string, filename: string)
      requires generated.Some?
      ensures content == Markdown(generated.value) && filename == Filename(generated.value)
      ensures NoWhitespace(filename)
    {
      var d := generated.value;
      content := Markdown(d);
      filename := Filename(d);
      FilenameSpec(d);
    }
  }
}
