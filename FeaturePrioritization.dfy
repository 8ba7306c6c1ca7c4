/**
 * The RICE prioritisation page: a feature's score is
 * reach * impact * confidence / effort rounded to two decimals, the list is
 * re-ranked by a stable sort on descending score, and features are added,
 * removed and re-scored as a whole.
 *
 * Scores are kept as whole hundredths (a score of 100.8 is 10080), which is
 * exact because every input is a whole number from 1 to 10.
 */
module FeaturePrioritization {
  import opened Seqs
  import opened Arith

  /** A slider value: a whole number from 1 to 10. */
  type Rating = x: int | 1 <= x <= 10 witness 5

  datatype Feature = Feature(
    id: int,
    name: string,
    reach: Rating,
    impact: Rating,
    confidence: Rating,
    effort: Rating,
    riceScore: int)  // hundredths; 0 until the feature is first scored

  /** The "Add New Feature" form. */
  datatype FeatureForm = FeatureForm(name: string, reach: Rating, impact: Rating, confidence: Rating, effort: Rating)

  /** The four sliders of the form. */
  datatype Criterion = Reach | Impact | Confidence | Effort

  /** The form's contents on load and after a feature is added. */
  const DefaultForm := FeatureForm("", 5, 5, 5, 5)

  /** The four sample features the page starts with, all still unscored. */
  const InitialFeatures := [
    Feature(1, "AI-Powered Search", 8, 9, 7, 5, 0),
    Feature(2, "Mobile App", 9, 8, 6, 9, 0),
    Feature(3, "Analytics Dashboard", 6, 7, 8, 4, 0),
    Feature(4, "Social Integration", 7, 6, 7, 3, 0)
  ]

  // ---------------------------------------------------------------- scoring

  /**
   * `calculateRICE` followed by `parseFloat`, in hundredths: `h / 100` is the
   * two-decimal number nearest to reach * impact * confidence / effort, and on
   * an exact tie the larger one, as `toFixed(2)` chooses.
   */
  function RiceScore(reach: Rating, impact: Rating, confidence: Rating, effort: Rating): (h: int)
    ensures -(effort as int) <= 2 * (100 * (reach * impact * confidence) - h * effort) < effort
  {
    RoundHalfUp(100 * (reach * impact * confidence), effort)
  }

  /** The product of three ratings lies between 1 and 1000. */
  lemma ProductBounds(reach: Rating, impact: Rating, confidence: Rating)
    ensures 1 <= reach * impact * confidence <= 1000
  {
    MulMonotone(reach, 10, impact);
    MulMonotone(1, reach * impact, confidence);
    MulMonotone(reach * impact, 100, confidence);
  }

  /** With inputs from 1 to 10 the score lies between 0.10 and 1000.00. */
  lemma RiceScoreBounds(reach: Rating, impact: Rating, confidence: Rating, effort: Rating)
    ensures 10 <= RiceScore(reach, impact, confidence, effort) <= 100000
  {
    var h := RiceScore(reach, impact, confidence, effort);
    ProductBounds(reach, impact, confidence);
    MulMonotone(h, 9, effort);
    MulMonotone(100001, h, effort);
  }

  /** `1 * 1 * 1 / 8 = 0.125` lies halfway, and `toFixed(2)` rounds it up to 0.13. */
  lemma RiceScoreTieRoundsUp()
    ensures RiceScore(1, 1, 1, 8) == 13
  {
  }

  /** The record with its score recomputed from its own inputs. */
  function Rescored(f: Feature): Feature {
    f.(riceScore := RiceScore(f.reach, f.impact, f.confidence, f.effort))
  }

  /** The record's score agrees with its inputs. */
  predicate ScoreIsCurrent(f: Feature) {
    f.riceScore == RiceScore(f.reach, f.impact, f.confidence, f.effort)
  }

  /** `features.map(f => ({...f, riceScore: ...}))`. */
  function RescoreAll(xs: seq<Feature>): seq<Feature> {
    seq(|xs|, k requires 0 <= k < |xs| => Rescored(xs[k]))
  }

  // ---------------------------------------------------------------- ranking

  /** Scores never increase along the list. */
  predicate RankedDesc(xs: seq<Feature>) {
    forall i, j :: 0 <= i < j < |xs| ==> xs[i].riceScore >= xs[j].riceScore
  }

  /** The test "has score `v`", used to compare the records that tie on `v`. */
  function HasScore(v: int): Feature -> bool {
    (f: Feature) => f.riceScore == v
  }

  /**
   * Places `f` in front of the first record whose score is not above its own,
   * so that `f` precedes every record it ties with.
   */
  function Insert(f: Feature, xs: seq<Feature>): (r: seq<Feature>)
    ensures |r| == |xs| + 1
    ensures multiset(r) == multiset(xs) + multiset{f}
  {
    if xs == [] || f.riceScore >= xs[0].riceScore then
      [f] + xs
    else
      assert xs == [xs[0]] + xs[1..];
      [xs[0]] + Insert(f, xs[1..])
  }

  /** Inserting under a common bound stays under it. */
  lemma {:induction false} InsertBounded(f: Feature, xs: seq<Feature>, b: int)
    requires f.riceScore <= b
    requires forall k :: 0 <= k < |xs| ==> xs[k].riceScore <= b
    ensures forall k :: 0 <= k < |Insert(f, xs)| ==> Insert(f, xs)[k].riceScore <= b
  {
    if xs != [] && f.riceScore < xs[0].riceScore {
      InsertBounded(f, xs[1..], b);
    }
  }

  /** Inserting into a ranked list gives a ranked list. */
  lemma {:induction false} InsertRanked(f: Feature, xs: seq<Feature>)
    requires RankedDesc(xs)
    ensures RankedDesc(Insert(f, xs))
  {
    if xs != [] && f.riceScore < xs[0].riceScore {
      InsertRanked(f, xs[1..]);
      InsertBounded(f, xs[1..], xs[0].riceScore);
    }
  }

  /**
   * `.sort((a, b) => b.riceScore - a.riceScore)`: a stable sort by
   * descending score (insertion from the back, each record in front of the
   * ones it ties with).
   */
  function RankByScore(xs: seq<Feature>): (r: seq<Feature>)
    ensures |r| == |xs|
    ensures multiset(r) == multiset(xs)
    ensures RankedDesc(r)
  {
    if xs == [] then []
    else
      assert xs == [xs[0]] + xs[1..];
      var rest := RankByScore(xs[1..]);
      InsertRanked(xs[0], rest);
      Insert(xs[0], rest)
  }

  /** A record scoring at least the first one goes in front. */
  lemma InsertInFront(f: Feature, xs: seq<Feature>)
    requires xs == [] || f.riceScore >= xs[0].riceScore
    ensures Insert(f, xs) == [f] + xs
  {
  }

  /** Inserting behind a record with a higher score inserts into the rest. */
  lemma InsertBehind(f: Feature, xs: seq<Feature>)
    requires xs != [] && f.riceScore < xs[0].riceScore
    ensures Insert(f, xs) == [xs[0]] + Insert(f, xs[1..])
  {
  }

  /** Inserting keeps the records of any one score in their order, `f` first among its ties. */
  lemma {:induction false} InsertIsStable(f: Feature, xs: seq<Feature>, v: int)
    ensures Filter(Insert(f, xs), HasScore(v)) ==
      (if f.riceScore == v then [f] else []) + Filter(xs, HasScore(v))
  {
    var tied := HasScore(v);
    if xs == [] || f.riceScore >= xs[0].riceScore {
      InsertInFront(f, xs);
      FilterCons(f, xs, tied);
    } else {
      var head, rest := xs[0], Insert(f, xs[1..]);
      var mine := if f.riceScore == v then [f] else [];
      var theirs := if tied(head) then [head] else [];
      calc {
        Filter(Insert(f, xs), tied);
      == { InsertBehind(f, xs); FilterCons(head, rest, tied); }
        theirs + Filter(rest, tied);
      == { InsertIsStable(f, xs[1..], v); }
        theirs + (mine + Filter(xs[1..], tied));
      == { assert mine == [] || theirs == []; }
        mine + (theirs + Filter(xs[1..], tied));
      == { assert xs == [head] + xs[1..]; FilterCons(head, xs[1..], tied); }
        mine + Filter(xs, tied);
      }
    }
  }

  /**
   * The sort is stable: the records with any one score come out in the order
   * they went in.
   */
  lemma {:induction false} RankIsStable(xs: seq<Feature>, v: int)
    ensures Filter(RankByScore(xs), HasScore(v)) == Filter(xs, HasScore(v))
  {
    if xs != [] {
      var tied, rest := HasScore(v), RankByScore(xs[1..]);
      var mine := if xs[0].riceScore == v then [xs[0]] else [];
      calc {
        Filter(RankByScore(xs), tied);
        Filter(Insert(xs[0], rest), tied);
      == { InsertIsStable(xs[0], rest, v); }
        mine + Filter(rest, tied);
      == { RankIsStable(xs[1..], v); }
        mine + Filter(xs[1..], tied);
      == { FilterCons(xs[0], xs[1..], tied); assert [xs[0]] + xs[1..] == xs; }
        Filter(xs, tied);
      }
    }
  }

  /** Ranking a list that is already ranked changes nothing. */
  lemma {:induction false} RankRankedIsIdentity(xs: seq<Feature>)
    requires RankedDesc(xs)
    ensures RankByScore(xs) == xs
  {
    if xs != [] {
      RankRankedIsIdentity(xs[1..]);
      assert xs == [xs[0]] + xs[1..];
    }
  }

  // ---------------------------------------------------------------- identifiers

  /** How many records carry `id`. */
  function IdCount(xs: seq<Feature>, id: int): (n: nat)
    ensures n <= |xs|
    ensures n == 0 <==> forall k :: 0 <= k < |xs| ==> xs[k].id != id
  {
    if xs == [] then 0
    else
      var n := (if xs[0].id == id then 1 else 0) + IdCount(xs[1..], id);
      assert forall k :: 1 <= k < |xs| ==> xs[k] == xs[1..][k - 1];
      n
  }

  /** No two records share an id. */
  ghost predicate UniqueIds(xs: seq<Feature>) {
    forall id :: IdCount(xs, id) <= 1
  }

  /** The four sample features carry four different ids. */
  lemma InitialIdsUnique()
    ensures UniqueIds(InitialFeatures)
  {
    forall id ensures IdCount(InitialFeatures, id) <= 1 {
      var xs := InitialFeatures;
      assert xs[1..][1..][1..][1..] == [];
    }
  }

  lemma {:induction false} IdCountAppend(xs: seq<Feature>, ys: seq<Feature>, id: int)
    ensures IdCount(xs + ys, id) == IdCount(xs, id) + IdCount(ys, id)
  {
    if xs == [] {
      assert xs + ys == ys;
    } else {
      assert (xs + ys)[1..] == xs[1..] + ys;
      IdCountAppend(xs[1..], ys, id);
    }
  }

  lemma {:induction false} IdCountInsert(f: Feature, xs: seq<Feature>, id: int)
    ensures IdCount(Insert(f, xs), id) == IdCount(xs, id) + (if f.id == id then 1 else 0)
  {
    if xs != [] && f.riceScore < xs[0].riceScore {
      IdCountInsert(f, xs[1..], id);
      assert Insert(f, xs)[1..] == Insert(f, xs[1..]);
    } else {
      assert Insert(f, xs)[1..] == xs;
    }
  }

  /** Ranking moves records about but never adds, drops or duplicates an id. */
  lemma {:induction false} IdCountRank(xs: seq<Feature>, id: int)
    ensures IdCount(RankByScore(xs), id) == IdCount(xs, id)
  {
    if xs != [] {
      IdCountRank(xs[1..], id);
      IdCountInsert(xs[0], RankByScore(xs[1..]), id);
    }
  }

  /** Rescoring leaves every id where it was. */
  lemma {:induction false} IdCountRescore(xs: seq<Feature>, id: int)
    ensures IdCount(RescoreAll(xs), id) == IdCount(xs, id)
  {
    if xs != [] {
      IdCountRescore(xs[1..], id);
      assert RescoreAll(xs)[1..] == RescoreAll(xs[1..]);
    }
  }

  // ---------------------------------------------------------------- calculateAll

  /** `calculateAll`: every record re-scored from its inputs, then ranked. */
  function Recalculated(xs: seq<Feature>): seq<Feature> {
    RankByScore(RescoreAll(xs))
  }

  /**
   * After `calculateAll` the list is a re-ordering of the re-scored records:
   * nothing is lost or added, every score is current, id, name and inputs are
   * those of some input record, the list is ranked, and records that tie keep
   * their relative order.
   */
  lemma RecalculatedSpec(xs: seq<Feature>)
    ensures var r := Recalculated(xs);
      && |r| == |xs|
      && multiset(r) == multiset(RescoreAll(xs))
      && RankedDesc(r)
      && (forall k :: 0 <= k < |r| ==> ScoreIsCurrent(r[k]))
      && (forall k :: 0 <= k < |r| ==> exists j :: 0 <= j < |xs| && r[k] == Rescored(xs[j]))
      && (forall v :: Filter(r, HasScore(v)) == Filter(RescoreAll(xs), HasScore(v)))
  {
    var r, s := Recalculated(xs), RescoreAll(xs);
    forall k | 0 <= k < |r|
      ensures ScoreIsCurrent(r[k]) && exists j :: 0 <= j < |xs| && r[k] == Rescored(xs[j])
    {
      assert r[k] in multiset(s);
      var j :| 0 <= j < |s| && s[j] == r[k];
      assert r[k] == Rescored(xs[j]);
    }
    forall v ensures Filter(r, HasScore(v)) == Filter(s, HasScore(v)) {
      RankIsStable(s, v);
    }
  }

  /** Re-scoring records whose scores are already current changes nothing. */
  lemma RescoreCurrentIsIdentity(xs: seq<Feature>)
    requires forall k :: 0 <= k < |xs| ==> ScoreIsCurrent(xs[k])
    ensures RescoreAll(xs) == xs
  {
  }

  /** `calculateAll` is idempotent. */
  lemma RecalculatedIdempotent(xs: seq<Feature>)
    ensures Recalculated(Recalculated(xs)) == Recalculated(xs)
  {
    var r := Recalculated(xs);
    RecalculatedSpec(xs);
    RescoreCurrentIsIdentity(r);
    RankRankedIsIdentity(r);
  }

  /** After `calculateAll` on a non-empty list the score charts are shown. */
  lemma RecalculatedShowsCharts(xs: seq<Feature>)
    requires xs != []
    ensures ChartsVisible(Recalculated(xs))
  {
    var r := Recalculated(xs);
    RecalculatedSpec(xs);
    RiceScoreBounds(r[0].reach, r[0].impact, r[0].confidence, r[0].effort);
  }

  /** `calculateAll` keeps every id's multiplicity. */
  lemma RecalculatedKeepsIds(xs: seq<Feature>, id: int)
    ensures IdCount(Recalculated(xs), id) == IdCount(xs, id)
  {
    IdCountRescore(xs, id);
    IdCountRank(RescoreAll(xs), id);
  }

  // ---------------------------------------------------------------- addFeature

  /** The record `addFeature` builds from the form, scored at once. */
  function NewFeature(id: int, form: FeatureForm): (f: Feature)
    ensures f.id == id && f.name == form.name
    ensures f.reach == form.reach && f.impact == form.impact
    ensures f.confidence == form.confidence && f.effort == form.effort
    ensures ScoreIsCurrent(f)
  {
    Feature(id, form.name, form.reach, form.impact, form.confidence, form.effort,
            RiceScore(form.reach, form.impact, form.confidence, form.effort))
  }

  /**
   * `addFeature`'s new list: unchanged for an empty name; otherwise the new
   * record appended and the whole list ranked, the other records keeping
   * their (possibly stale) scores.
   */
  function WithFeature(xs: seq<Feature>, form: FeatureForm, id: int): seq<Feature> {
    if form.name == "" then xs else RankByScore(xs + [NewFeature(id, form)])
  }

  /**
   * Adding grows the list by exactly the new record, leaves every existing
   * record as it was, ranks the result and keeps ties in their prior order
   * (the new record after the existing ones it ties with).
   */
  lemma WithFeatureSpec(xs: seq<Feature>, form: FeatureForm, id: int)
    requires form.name != ""
    ensures var r, f := WithFeature(xs, form, id), NewFeature(id, form);
      && |r| == |xs| + 1
      && multiset(r) == multiset(xs) + multiset{f}
      && RankedDesc(r)
      && (forall v :: Filter(r, HasScore(v)) == Filter(xs + [f], HasScore(v)))
  {
    forall v ensures Filter(WithFeature(xs, form, id), HasScore(v)) == Filter(xs + [NewFeature(id, form)], HasScore(v)) {
      RankIsStable(xs + [NewFeature(id, form)], v);
    }
  }

  /** An id not yet in the list appears exactly once after adding; no other id's count changes. */
  lemma WithFeatureIds(xs: seq<Feature>, form: FeatureForm, id: int, other: int)
    requires form.name != ""
    ensures IdCount(WithFeature(xs, form, id), other) == IdCount(xs, other) + (if other == id then 1 else 0)
  {
    var f := NewFeature(id, form);
    IdCountRank(xs + [f], other);
    IdCountAppend(xs, [f], other);
  }

  // ---------------------------------------------------------------- removeFeature

  /** The test "does not carry `id`". */
  function IdIsNot(id: int): Feature -> bool {
    (f: Feature) => f.id != id
  }

  /** `removeFeature(id)`: `features.filter(f => f.id !== id)`. */
  function Without(xs: seq<Feature>, id: int): seq<Feature> {
    Filter(xs, IdIsNot(id))
  }

  /**
   * Removing drops exactly the records with `id`: none is left, every other
   * record stays, in its order, so a ranked list stays ranked; an absent id
   * changes nothing.
   */
  lemma WithoutSpec(xs: seq<Feature>, id: int)
    ensures var r := Without(xs, id);
      && IdCount(r, id) == 0
      && (forall f :: f in r <==> f in xs && f.id != id)
      && (RankedDesc(xs) ==> RankedDesc(r))
      && (IdCount(xs, id) == 0 ==> r == xs)
  {
    var r := Without(xs, id);
    FilterMembers(xs, IdIsNot(id));
    FilterIsOrderedSelection(xs, IdIsNot(id));
    if IdCount(xs, id) == 0 {
      FilterAllPass(xs, IdIsNot(id));
    }
  }

  /** Removing never adds a duplicate id. */
  lemma {:induction false} WithoutIds(xs: seq<Feature>, id: int, other: int)
    ensures IdCount(Without(xs, id), other) == if other == id then 0 else IdCount(xs, other)
  {
    if xs != [] {
      WithoutIds(xs[1..], id, other);
      assert xs == [xs[0]] + xs[1..];
      FilterAppend([xs[0]], xs[1..], IdIsNot(id));
      IdCountAppend(Filter([xs[0]], IdIsNot(id)), Without(xs[1..], id), other);
    }
  }

  // ---------------------------------------------------------------- charts

  /** `features.some(f => f.riceScore > 0)`: the charts are rendered. */
  predicate ChartsVisible(xs: seq<Feature>) {
    exists k :: 0 <= k < |xs| && xs[k].riceScore > 0
  }

  /** One entry of `radarData`. */
  datatype RadarPoint = RadarPoint(feature: string, reach: int, impact: int, confidence: int, effort: int)

  /** A radar axis label: the name, cut to 15 characters plus "..." when longer. */
  function RadarLabel(name: string): (r: string)
    ensures |r| == if |name| <= 15 then |name| else 18
    ensures |name| <= 15 ==> r == name
    ensures |name| > 15 ==> name[..15] <= r && r[15..] == "..."
  {
    if |name| > 15 then name[..15] + "..." else name
  }

  /**
   * The radar entry for a record: its label and inputs, with effort plotted
   * inverted so that cheaper features reach further out.
   */
  function Radar(f: Feature): (p: RadarPoint)
    ensures p.feature == RadarLabel(f.name)
    ensures p.reach == f.reach && p.impact == f.impact && p.confidence == f.confidence
    ensures p.effort + f.effort == 10 && 0 <= p.effort <= 9
  {
    RadarPoint(RadarLabel(f.name), f.reach, f.impact, f.confidence, 10 - f.effort)
  }

  // ---------------------------------------------------------------- page state

  /** The page's `features` list and `newFeature` form. */
  class FeatureBoard {
    var features: seq<Feature>
    var form: FeatureForm

    /** No two features share an id. */
    ghost predicate Valid()
      reads this
    {
      UniqueIds(features)
    }

    constructor ()
      ensures Valid()
      ensures features == InitialFeatures && form == DefaultForm
    {
      features := InitialFeatures;
      form := DefaultForm;
      InitialIdsUnique();
    }

    /** Typing in the name box. */
    method SetName(name: string)
      modifies this
      ensures features == old(features) && form == old(form).(name := name)
    {
      form := form.(name := name);
    }

    /** Moving one of the four sliders. */
    method SetCriterion(c: Criterion, value: Rating)
      modifies this
      ensures features == old(features) && form.name == old(form).name
      ensures form == match c
        case Reach => old(form).(reach := value)
        case Impact => old(form).(impact := value)
        case Confidence => old(form).(confidence := value)
        case Effort => old(form).(effort := value)
    {
      match c
      case Reach => form := form.(reach := value);
      case Impact => form := form.(impact := value);
      case Confidence => form := form.(confidence := value);
      case Effort => form := form.(effort := value);
    }

    /** "Calculate RICE Scores": re-score every feature and re-rank. */
    method CalculateAll()
      requires Valid()
      modifies this
      ensures Valid()
      ensures features == Recalculated(old(features)) && form == old(form)
      ensures RankedDesc(features)
      ensures forall k :: 0 <= k < |features| ==> ScoreIsCurrent(features[k])
    {
      ghost var before := features;
      features := RankByScore(RescoreAll(features));
      RecalculatedSpec(before);
      forall id ensures IdCount(features, id) <= 1 {
        RecalculatedKeepsIds(before, id);
      }
    }

    /**
     * "Add Feature" with `id` the clock reading `Date.now()`: nothing happens
     * for an empty name; otherwise the scored record joins the ranked list
     * and the form is reset.
     */
    method AddFeature(id: int)
      requires Valid()
      requires IdCount(features, id) == 0
      modifies this
      ensures Valid()
      ensures features == WithFeature(old(features), old(form), id)
      ensures form == if old(form).name == "" then old(form) else DefaultForm
      ensures old(form).name != "" ==> RankedDesc(features) && |features| == |old(features)| + 1
    {
      if form.name == "" {
        return;
      }
      ghost var before := features;
      var f := NewFeature(id, form);
      features := RankByScore(features + [f]);
      form := DefaultForm;
      WithFeatureSpec(before, old(form), id);
      forall other ensures IdCount(features, other) <= 1 {
        WithFeatureIds(before, old(form), id, other);
      }
    }

    /** The remove button of a feature row. */
    method RemoveFeature(id: int)
      requires Valid()
      modifies this
      ensures Valid()
      ensures features == Without(old(features), id) && form == old(form)
      ensures IdCount(features, id) == 0
    {
      ghost var before := features;
      features := Filter(features, IdIsNot(id));
      forall other ensures IdCount(features, other) <= 1 {
        WithoutIds(before, id, other);
      }
    }
  }
}
