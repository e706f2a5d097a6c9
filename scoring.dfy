/**
 * The civil-service composite score of an evaluation submission: eighteen level
 * ratings in [1,4] folded with fixed weights in three groups of six (technical,
 * own behavioural, supervisor behavioural), plus a team rating in [1,5].
 * Arithmetic is exact; the two-decimal rounding of the last two fields is left out.
 */
module Scoring {
  import opened Results
  import opened Js

  /** The `sections` object of a submission: field name to raw rating. */
  type Sections = map<string, Json>

  datatype ScoreError =
    | InvalidLevel(level: Json)       // the raw rating that was not in [1,4]
    | InvalidTeamScore(teamScore: real) // the team rating after coercion (0 for non-numeric)

  datatype Scores = Scores(
    technicalTotal: real,
    ownTotal: real,
    supTotal: real,
    teamTotal: real,
    overallResult: real,
    averagePoint: real)

  const TechnicalWeights: seq<nat> := [25, 25, 10, 10, 20, 10]
  const BehaviouralWeights: seq<nat> := [25, 20, 15, 15, 15, 10]

  const TechnicalKeys: seq<string> := ["a1", "a2", "a3", "a4", "a5", "a6"]
  const OwnKeys: seq<string> := ["b1_1", "b1_2", "b1_3", "b1_4", "b1_5", "b1_6"]
  const SupervisorKeys: seq<string> := ["b2_1", "b2_2", "b2_3", "b2_4", "b2_5", "b2_6"]
  const TeamKey: string := "team"

  /** `sections[key]`; a field that is not there reads as undefined. */
  function Field(sections: Sections, key: string): Json {
    if key in sections then sections[key] else Undefined
  }

  function Fields(sections: Sections, keys: seq<string>): (r: seq<Json>)
    ensures |r| == |keys|
    ensures forall i :: 0 <= i < |keys| ==> r[i] == Field(sections, keys[i])
  {
    seq(|keys|, i requires 0 <= i < |keys| => Field(sections, keys[i]))
  }

  /** `safeNum(value, fallback)`: the number `value` converts to, or `fallback` when that is NaN. */
  function SafeNum(value: Json, fallback: Json): (r: Json)
    ensures ToNumber(value).NaN? ==> r == fallback
    ensures ToNumber(value).Finite? ==> ToNumber(r) == ToNumber(value)
  {
    match ToNumber(value)
    case NaN => fallback
    case Finite(x) => Num(x)
  }

  /** A rating `validateLevel` accepts. */
  predicate IsLevel(v: Json) {
    ToNumber(v).Finite? && 1.0 <= ToNumber(v).x <= 4.0
  }

  /** A team rating the score accepts. */
  predicate IsTeamScore(v: Json) {
    ToNumber(v).Finite? && 1.0 <= ToNumber(v).x <= 5.0
  }

  /** The numeric value of a rating (0 for a non-numeric one, which is never accepted). */
  function LevelValue(v: Json): real {
    if ToNumber(v).Finite? then ToNumber(v).x else 0.0
  }

  /**
   * `validateLevel(level)`: the fallback for a non-numeric rating is null, and null
   * compares as 0, so non-numeric ratings are rejected like ratings below 1.
   */
  function ValidateLevel(level: Json): (r: Result<real, ScoreError>)
    ensures r.Ok? <==> IsLevel(level)
    ensures r.Ok? ==> r.value == LevelValue(level)
    ensures r.Err? ==> r.error == InvalidLevel(level)
  {
    var lvl := SafeNum(level, Null);
    if Less(ToNumber(lvl), 1.0) || Greater(ToNumber(lvl), 4.0) then Err(InvalidLevel(level))
    else Ok(ToNumber(lvl).x)
  }

  /**
   * `Number` coercion decides what a level is: `true` reads as 1 and is accepted, while
   * an empty string and null read as 0 and absent or textual ratings as NaN, so all of
   * those are rejected.
   */
  lemma LevelCoercions()
    ensures ValidateLevel(Bool(true)) == Ok(1.0)
    ensures ValidateLevel(Num(2.5)) == Ok(2.5)
    ensures ValidateLevel(Str("")) == Err(InvalidLevel(Str("")))
    ensures ValidateLevel(Null) == Err(InvalidLevel(Null))
    ensures ValidateLevel(Undefined) == Err(InvalidLevel(Undefined))
    ensures ValidateLevel(Num(4.5)) == Err(InvalidLevel(Num(4.5)))
  {
    EmptyIsZero();
  }

  /** `Number("")` is 0. */
  lemma EmptyIsZero()
    ensures ToNumber(Str("")) == Finite(0.0)
  {
    StringToNumberTrims("");
    assert Trim("") == "";
  }

  /**
   * `weight * level / 4`, the contribution of one rating, written as `weight` quarters
   * of the level added up (`WeightedProduct` proves it is the product).
   */
  function Weighted(weight: nat, level: real): real {
    if weight == 0 then 0.0 else level / 4.0 + Weighted(weight - 1, level)
  }

  /**
   * The `reduce` over one group: `sum + weight * validateLevel(score) / 4` from left to
   * right, stopping at the first rating that fails.
   */
  function Accumulate(sum: real, weights: seq<nat>, scores: seq<Json>): Result<real, ScoreError>
    requires |weights| == |scores|
    decreases |weights|
  {
    if weights == [] then Ok(sum)
    else
      match ValidateLevel(scores[0])
      case Err(e) => Err(e)
      case Ok(lvl) => Accumulate(sum + Weighted(weights[0], lvl), weights[1..], scores[1..])
  }

  // ---------------------------------------------------------------------------
  // Reference definitions the fold is proved against

  predicate AllLevels(scores: seq<Json>) {
    forall i :: 0 <= i < |scores| ==> IsLevel(scores[i])
  }

  /** Sum of weight_i * level_i / 4. */
  function Points(weights: seq<nat>, scores: seq<Json>): real
    requires |weights| == |scores|
  {
    if weights == [] then 0.0
    else Weighted(weights[0], LevelValue(scores[0])) + Points(weights[1..], scores[1..])
  }

  function WeightSum(weights: seq<nat>): nat {
    if weights == [] then 0 else weights[0] + WeightSum(weights[1..])
  }

  /** The index of the first rating that is not a level. */
  function FirstInvalid(scores: seq<Json>): (k: nat)
    requires !AllLevels(scores)
    ensures k < |scores| && !IsLevel(scores[k])
    ensures forall i :: 0 <= i < k ==> IsLevel(scores[i])
  {
    if !IsLevel(scores[0]) then 0
    else
      assert !AllLevels(scores[1..]) by {
        var j :| 0 <= j < |scores| && !IsLevel(scores[j]);
        assert scores[1..][j - 1] == scores[j];
      }
      1 + FirstInvalid(scores[1..])
  }

  /** With every rating a level, the fold adds the weighted points to the seed. */
  lemma {:induction false} AccumulateOk(sum: real, weights: seq<nat>, scores: seq<Json>)
    requires |weights| == |scores| && AllLevels(scores)
    decreases |weights|
    ensures Accumulate(sum, weights, scores) == Ok(sum + Points(weights, scores))
  {
    if weights != [] {
      assert AllLevels(scores[1..]) by {
        forall i | 0 <= i < |scores| - 1 ensures IsLevel(scores[1..][i]) {
          assert scores[1..][i] == scores[i + 1];
        }
      }
      AccumulateStep(sum, weights, scores);
      AccumulateOk(sum + Weighted(weights[0], LevelValue(scores[0])), weights[1..], scores[1..]);
    }
  }

  /**
   * The fold succeeds exactly when every rating is a level; it then adds the weighted
   * points to the seed, and otherwise it fails on the first rating that is not a level.
   */
  lemma {:induction false} AccumulateMeaning(sum: real, weights: seq<nat>, scores: seq<Json>)
    requires |weights| == |scores|
    decreases |weights|
    ensures Accumulate(sum, weights, scores).Ok? <==> AllLevels(scores)
    ensures AllLevels(scores) ==> Accumulate(sum, weights, scores) == Ok(sum + Points(weights, scores))
    ensures !AllLevels(scores) ==>
              Accumulate(sum, weights, scores) == Err(InvalidLevel(scores[FirstInvalid(scores)]))
  {
    if weights != [] {
      var step := sum + Weighted(weights[0], LevelValue(scores[0]));
      AccumulateMeaning(step, weights[1..], scores[1..]);
      if IsLevel(scores[0]) {
        AccumulateStep(sum, weights, scores);
        if !AllLevels(scores[1..]) {
          var k := FirstInvalid(scores[1..]);
          assert scores[1..][k] == scores[k + 1];
          assert FirstInvalid(scores) == 1 + k;
        }
      }
      assert AllLevels(scores) <==> IsLevel(scores[0]) && AllLevels(scores[1..]) by {
        if IsLevel(scores[0]) && AllLevels(scores[1..]) {
          forall i | 0 <= i < |scores| ensures IsLevel(scores[i]) {
            if i > 0 { assert scores[1..][i - 1] == scores[i]; }
          }
        }
      }
    }
  }

  lemma AccumulateStep(sum: real, weights: seq<nat>, scores: seq<Json>)
    requires |weights| == |scores| && weights != [] && IsLevel(scores[0])
    ensures Accumulate(sum, weights, scores)
            == Accumulate(sum + Weighted(weights[0], LevelValue(scores[0])), weights[1..], scores[1..])
  {
    assert ValidateLevel(scores[0]) == Ok(LevelValue(scores[0]));
  }

  /** The repeated addition is the product `weight * level / 4`. */
  lemma {:induction false} WeightedProduct(weight: nat, level: real)
    ensures Weighted(weight, level) == (weight as real * level) / 4.0
  {
    if weight > 0 {
      WeightedProduct(weight - 1, level);
      assert (weight as real * level) == ((weight - 1) as real * level) + level;
    }
  }

  /** Splitting a weight splits its contribution. */
  lemma {:induction false} WeightedAdd(a: nat, b: nat, level: real)
    ensures Weighted(a + b, level) == Weighted(a, level) + Weighted(b, level)
  {
    if a > 0 {
      WeightedAdd(a - 1, b, level);
      assert a + b - 1 == (a - 1) + b;
    }
  }

  /** A higher level never contributes less. */
  lemma {:induction false} WeightedMonotone(weight: nat, lo: real, hi: real)
    requires lo <= hi
    ensures Weighted(weight, lo) <= Weighted(weight, hi)
  {
    if weight > 0 {
      WeightedMonotone(weight - 1, lo, hi);
    }
  }

  /** A level in [1,4] contributes between a quarter of its weight and the whole weight. */
  lemma WeightedBounds(weight: nat, level: real)
    requires 1.0 <= level <= 4.0
    ensures weight as real / 4.0 <= Weighted(weight, level) <= weight as real
  {
    WeightedMonotone(weight, 1.0, level);
    WeightedMonotone(weight, level, 4.0);
    WeightedProduct(weight, 1.0);
    WeightedProduct(weight, 4.0);
  }

  /** With every rating in [1,4], a group's points lie in [W/4, W] for weights summing to W. */
  lemma {:induction false} PointsBounds(weights: seq<nat>, scores: seq<Json>)
    requires |weights| == |scores| && AllLevels(scores)
    ensures WeightSum(weights) as real / 4.0 <= Points(weights, scores) <= WeightSum(weights) as real
  {
    if weights != [] {
      assert AllLevels(scores[1..]) by {
        forall i | 0 <= i < |scores| - 1 ensures IsLevel(scores[1..][i]) {
          assert scores[1..][i] == scores[i + 1];
        }
      }
      PointsBounds(weights[1..], scores[1..]);
      assert IsLevel(scores[0]);
      WeightedBounds(weights[0], LevelValue(scores[0]));
    }
  }

  /** Points grow with every rating: pointwise larger ratings never give fewer points. */
  lemma {:induction false} PointsMonotone(weights: seq<nat>, lo: seq<Json>, hi: seq<Json>)
    requires |weights| == |lo| == |hi|
    requires forall i :: 0 <= i < |lo| ==> LevelValue(lo[i]) <= LevelValue(hi[i])
    ensures Points(weights, lo) <= Points(weights, hi)
  {
    if weights != [] {
      forall i | 0 <= i < |lo| - 1 ensures LevelValue(lo[1..][i]) <= LevelValue(hi[1..][i]) {
        assert lo[1..][i] == lo[i + 1] && hi[1..][i] == hi[i + 1];
      }
      PointsMonotone(weights[1..], lo[1..], hi[1..]);
      WeightedMonotone(weights[0], LevelValue(lo[0]), LevelValue(hi[0]));
    }
  }

  lemma WeightTables()
    ensures |TechnicalWeights| == |TechnicalKeys| == 6
    ensures |BehaviouralWeights| == |OwnKeys| == |SupervisorKeys| == 6
    ensures WeightSum(TechnicalWeights) == 100 && WeightSum(BehaviouralWeights) == 100
  {
  }

  // ---------------------------------------------------------------------------
  // The score

  /** `calculateCivilServiceScore(sections)` */
  function CivilServiceScore(sections: Sections): Result<Scores, ScoreError> {
    var technicalPoints :- Accumulate(0.0, TechnicalWeights, Fields(sections, TechnicalKeys));
    var technicalTotal := technicalPoints * 70.0 / 100.0;
    var ownPoints :- Accumulate(0.0, BehaviouralWeights, Fields(sections, OwnKeys));
    var ownTotal := ownPoints * 5.0 / 100.0;
    var supPoints :- Accumulate(0.0, BehaviouralWeights, Fields(sections, SupervisorKeys));
    var supTotal := supPoints * 10.0 / 100.0;
    var teamScore := ToNumber(SafeNum(Field(sections, TeamKey), Num(0.0)));
    if Less(teamScore, 1.0) || Greater(teamScore, 5.0) then Err(InvalidTeamScore(teamScore.x))
    else
      var teamTotal := (teamScore.x / 5.0) * 15.0;
      Ok(Scores(
        technicalTotal, ownTotal, supTotal, teamTotal,
        technicalTotal + ownTotal + supTotal + teamTotal,
        technicalPoints + ownPoints + supPoints))
  }

  /** All eighteen level ratings, in the order the score reads them. */
  function LevelFields(sections: Sections): seq<Json> {
    Fields(sections, TechnicalKeys) + Fields(sections, OwnKeys) + Fields(sections, SupervisorKeys)
  }

  function TechnicalPoints(sections: Sections): real {
    Points(TechnicalWeights, Fields(sections, TechnicalKeys))
  }

  function OwnPoints(sections: Sections): real {
    Points(BehaviouralWeights, Fields(sections, OwnKeys))
  }

  function SupervisorPoints(sections: Sections): real {
    Points(BehaviouralWeights, Fields(sections, SupervisorKeys))
  }

  lemma AllLevelsAppend(a: seq<Json>, b: seq<Json>)
    ensures AllLevels(a + b) <==> AllLevels(a) && AllLevels(b)
  {
    if AllLevels(a + b) {
      forall i | 0 <= i < |a| ensures IsLevel(a[i]) { assert (a + b)[i] == a[i]; }
      forall i | 0 <= i < |b| ensures IsLevel(b[i]) { assert (a + b)[|a| + i] == b[i]; }
    }
  }

  lemma FirstInvalidAppend(a: seq<Json>, b: seq<Json>)
    requires !AllLevels(a + b)
    ensures !AllLevels(a) ==> FirstInvalid(a + b) == FirstInvalid(a)
    ensures AllLevels(a) ==> !AllLevels(b) && FirstInvalid(a + b) == |a| + FirstInvalid(b)
  {
    AllLevelsAppend(a, b);
    var k := FirstInvalid(a + b);
    if !AllLevels(a) {
      var j := FirstInvalid(a);
      assert (a + b)[j] == a[j];
      assert k <= j;
      assert k < |a| ==> (a + b)[k] == a[k];
    } else {
      var j := FirstInvalid(b);
      assert (a + b)[|a| + j] == b[j];
      assert forall i :: |a| <= i < |a| + j ==> (a + b)[i] == b[i - |a|];
      assert forall i :: 0 <= i < |a| ==> (a + b)[i] == a[i];
    }
  }

  /** Every level rating of the submission lies in [1,4]. */
  predicate AllLevelsValid(sections: Sections) {
    AllLevels(Fields(sections, TechnicalKeys)) && AllLevels(Fields(sections, OwnKeys))
    && AllLevels(Fields(sections, SupervisorKeys))
  }

  /**
   * The score is computed exactly when all eighteen levels lie in [1,4] and the team
   * rating in [1,5]; it then follows the four fixed formulas, `overallResult` adds the
   * four totals and `averagePoint` adds the three groups' points without the team.
   */
  lemma ScoreMeaning(sections: Sections)
    ensures CivilServiceScore(sections).Ok? <==>
              AllLevelsValid(sections) && IsTeamScore(Field(sections, TeamKey))
    ensures CivilServiceScore(sections).Ok? ==>
              var s := CivilServiceScore(sections).value;
              var team := LevelValue(Field(sections, TeamKey));
              && s.technicalTotal == TechnicalPoints(sections) * 70.0 / 100.0
              && s.ownTotal == OwnPoints(sections) * 5.0 / 100.0
              && s.supTotal == SupervisorPoints(sections) * 10.0 / 100.0
              && s.teamTotal == team / 5.0 * 15.0
              && s.overallResult == s.technicalTotal + s.ownTotal + s.supTotal + s.teamTotal
              && s.averagePoint == TechnicalPoints(sections) + OwnPoints(sections) + SupervisorPoints(sections)
  {
    WeightTables();
    var t, o, s := Fields(sections, TechnicalKeys), Fields(sections, OwnKeys), Fields(sections, SupervisorKeys);
    AccumulateMeaning(0.0, TechnicalWeights, t);
    AccumulateMeaning(0.0, BehaviouralWeights, o);
    AccumulateMeaning(0.0, BehaviouralWeights, s);
    var team := Field(sections, TeamKey);
    var teamScore := ToNumber(SafeNum(team, Num(0.0)));
    assert teamScore.Finite?;
    assert IsTeamScore(team) <==> !(Less(teamScore, 1.0) || Greater(teamScore, 5.0));
    assert IsTeamScore(team) ==> teamScore.x == LevelValue(team);
  }

  /** The first invalid level in reading order is the first invalid one of the first failing group. */
  lemma FirstInvalidOfGroups(t: seq<Json>, o: seq<Json>, s: seq<Json>)
    requires !AllLevels(t + o + s)
    ensures var all := t + o + s;
            all[FirstInvalid(all)] ==
              if !AllLevels(t) then t[FirstInvalid(t)]
              else if !AllLevels(o) then o[FirstInvalid(o)]
              else s[FirstInvalid(s)]
  {
    var all := t + o + s;
    FirstInvalidAppend(t + o, s);
    if !AllLevels(t + o) {
      FirstInvalidAppend(t, o);
      if !AllLevels(t) {
        assert all[FirstInvalid(all)] == t[FirstInvalid(t)];
      } else {
        assert all[FirstInvalid(all)] == o[FirstInvalid(o)];
      }
    } else {
      AllLevelsAppend(t, o);
      assert all[FirstInvalid(all)] == s[FirstInvalid(s)];
    }
  }

  /**
   * A failing level makes the score fail, naming the first offending rating in reading
   * order (technical, own, supervisor).
   */
  lemma LevelErrorFirst(sections: Sections)
    requires !AllLevels(LevelFields(sections))
    ensures CivilServiceScore(sections) == Err(InvalidLevel(LevelFields(sections)[FirstInvalid(LevelFields(sections))]))
  {
    WeightTables();
    var t, o, s := Fields(sections, TechnicalKeys), Fields(sections, OwnKeys), Fields(sections, SupervisorKeys);
    AccumulateMeaning(0.0, TechnicalWeights, t);
    AccumulateMeaning(0.0, BehaviouralWeights, o);
    AccumulateMeaning(0.0, BehaviouralWeights, s);
    AllLevelsAppend(t, o);
    AllLevelsAppend(t + o, s);
    FirstInvalidOfGroups(t, o, s);
  }

  /** A fold from zero over valid levels yields exactly the points. */
  lemma GroupFold(weights: seq<nat>, scores: seq<Json>)
    requires |weights| == |scores| && AllLevels(scores)
    ensures Accumulate(0.0, weights, scores) == Ok(Points(weights, scores))
  {
    AccumulateOk(0.0, weights, scores);
  }

  /** With every level valid, each group's fold yields its points. */
  lemma GroupsScore(sections: Sections)
    requires AllLevelsValid(sections)
    ensures Accumulate(0.0, TechnicalWeights, Fields(sections, TechnicalKeys)) == Ok(TechnicalPoints(sections))
    ensures Accumulate(0.0, BehaviouralWeights, Fields(sections, OwnKeys)) == Ok(OwnPoints(sections))
    ensures Accumulate(0.0, BehaviouralWeights, Fields(sections, SupervisorKeys)) == Ok(SupervisorPoints(sections))
  {
    WeightTables();
    GroupFold(TechnicalWeights, Fields(sections, TechnicalKeys));
    GroupFold(BehaviouralWeights, Fields(sections, OwnKeys));
    GroupFold(BehaviouralWeights, Fields(sections, SupervisorKeys));
  }

  /**
   * Only when all eighteen levels are valid can the team rating be the cause, and then
   * the error carries the coerced team rating.
   */
  lemma TeamErrorLast(sections: Sections)
    requires AllLevelsValid(sections) && !IsTeamScore(Field(sections, TeamKey))
    ensures CivilServiceScore(sections) == Err(InvalidTeamScore(LevelValue(Field(sections, TeamKey))))
  {
    GroupsScore(sections);
    var team := Field(sections, TeamKey);
    var teamScore := ToNumber(SafeNum(team, Num(0.0)));
    assert teamScore.Finite? && teamScore.x == LevelValue(team);
    assert Less(teamScore, 1.0) || Greater(teamScore, 5.0);
  }

  /** Every computed `overallResult` lies in [24.25, 100] and every `averagePoint` in [75, 300]. */
  lemma ScoreBounds(sections: Sections)
    requires CivilServiceScore(sections).Ok?
    ensures 24.25 <= CivilServiceScore(sections).value.overallResult <= 100.0
    ensures 75.0 <= CivilServiceScore(sections).value.averagePoint <= 300.0
  {
    ScoreMeaning(sections);
    WeightTables();
    PointsBounds(TechnicalWeights, Fields(sections, TechnicalKeys));
    PointsBounds(BehaviouralWeights, Fields(sections, OwnKeys));
    PointsBounds(BehaviouralWeights, Fields(sections, SupervisorKeys));
  }

  predicate AllAt(scores: seq<Json>, level: real) {
    forall i :: 0 <= i < |scores| ==> ToNumber(scores[i]) == Finite(level)
  }

  /** Every level at `level` and the team rating at `team`. */
  predicate Uniform(sections: Sections, level: real, team: real) {
    && AllAt(Fields(sections, TechnicalKeys), level)
    && AllAt(Fields(sections, OwnKeys), level)
    && AllAt(Fields(sections, SupervisorKeys), level)
    && ToNumber(Field(sections, TeamKey)) == Finite(team)
  }

  lemma {:induction false} UniformPoints(weights: seq<nat>, scores: seq<Json>, level: real)
    requires |weights| == |scores| && AllAt(scores, level) && 1.0 <= level <= 4.0
    ensures AllLevels(scores)
    ensures Points(weights, scores) == Weighted(WeightSum(weights), level)
    decreases |weights|
  {
    if weights != [] {
      forall i | 0 <= i < |scores| - 1 ensures ToNumber(scores[1..][i]) == Finite(level) {
        assert scores[1..][i] == scores[i + 1];
      }
      UniformPoints(weights[1..], scores[1..], level);
      forall i | 0 <= i < |scores| ensures IsLevel(scores[i]) {
        if i > 0 { assert scores[i] == scores[1..][i - 1]; }
      }
      assert LevelValue(scores[0]) == level;
      WeightedAdd(weights[0], WeightSum(weights[1..]), level);
    }
  }

  /** A group of six ratings all at `level`, with weights summing to 100, scores 25 per level. */
  lemma UniformGroup(weights: seq<nat>, scores: seq<Json>, level: real)
    requires |weights| == |scores| && WeightSum(weights) == 100
    requires AllAt(scores, level) && 1.0 <= level <= 4.0
    ensures AllLevels(scores) && Points(weights, scores) == 25.0 * level
  {
    UniformPoints(weights, scores, level);
    WeightedProduct(100, level);
  }

  /** Every level at `level`: all levels valid and 25 points per level in each group. */
  lemma UniformValid(sections: Sections, level: real, team: real)
    requires Uniform(sections, level, team) && 1.0 <= level <= 4.0 && 1.0 <= team <= 5.0
    ensures AllLevelsValid(sections)
    ensures IsTeamScore(Field(sections, TeamKey)) && LevelValue(Field(sections, TeamKey)) == team
    ensures TechnicalPoints(sections) == OwnPoints(sections) == SupervisorPoints(sections) == 25.0 * level
  {
    WeightTables();
    UniformGroup(TechnicalWeights, Fields(sections, TechnicalKeys), level);
    UniformGroup(BehaviouralWeights, Fields(sections, OwnKeys), level);
    UniformGroup(BehaviouralWeights, Fields(sections, SupervisorKeys), level);
  }

  /** With every level at `level` and the team rating at `team`, the score has a closed form. */
  lemma UniformScore(sections: Sections, level: real, team: real)
    requires Uniform(sections, level, team) && 1.0 <= level <= 4.0 && 1.0 <= team <= 5.0
    ensures CivilServiceScore(sections).Ok?
    ensures var s := CivilServiceScore(sections).value;
            && s.technicalTotal == 70.0 * level / 4.0 && s.ownTotal == 5.0 * level / 4.0
            && s.supTotal == 10.0 * level / 4.0 && s.teamTotal == team * 3.0
            && s.overallResult == 85.0 * level / 4.0 + team * 3.0
            && s.averagePoint == 75.0 * level
  {
    UniformValid(sections, level, team);
    ScoreMeaning(sections);
  }

  /** All levels 4 with team rating 5 give the maximum: an overall result of 100. */
  lemma TopScore(sections: Sections)
    requires Uniform(sections, 4.0, 5.0)
    ensures CivilServiceScore(sections) == Ok(Scores(70.0, 5.0, 10.0, 15.0, 100.0, 300.0))
  {
    UniformValid(sections, 4.0, 5.0);
    ScoreMeaning(sections);
  }

  /** All levels 1 with team rating 1 give the minimum: an overall result of 24.25. */
  lemma BottomScore(sections: Sections)
    requires Uniform(sections, 1.0, 1.0)
    ensures CivilServiceScore(sections) == Ok(Scores(17.5, 1.25, 2.5, 3.0, 24.25, 75.0))
  {
    UniformValid(sections, 1.0, 1.0);
    ScoreMeaning(sections);
  }

  /** `overallResult` as a formula in the three groups' points and the team rating. */
  function Overall(technical: real, own: real, supervisor: real, team: real): real {
    technical * 70.0 / 100.0 + own * 5.0 / 100.0 + supervisor * 10.0 / 100.0 + team / 5.0 * 15.0
  }

  /** A computed score has valid levels and its `overallResult` follows `Overall`. */
  lemma ScoreOverall(sections: Sections)
    requires CivilServiceScore(sections).Ok?
    ensures AllLevelsValid(sections)
    ensures CivilServiceScore(sections).value.overallResult ==
              Overall(TechnicalPoints(sections), OwnPoints(sections), SupervisorPoints(sections),
                      LevelValue(Field(sections, TeamKey)))
  {
    ScoreMeaning(sections);
  }

  /** Rating by rating, `hi` is at least `lo`. */
  predicate Dominates(lo: seq<Json>, hi: seq<Json>) {
    |lo| == |hi| && forall i :: 0 <= i < |lo| ==> LevelValue(lo[i]) <= LevelValue(hi[i])
  }

  /** Pointwise larger ratings give an `Overall` at least as large. */
  lemma OverallMonotone(lo: Sections, hi: Sections)
    requires Dominates(Fields(lo, TechnicalKeys), Fields(hi, TechnicalKeys))
    requires Dominates(Fields(lo, OwnKeys), Fields(hi, OwnKeys))
    requires Dominates(Fields(lo, SupervisorKeys), Fields(hi, SupervisorKeys))
    requires LevelValue(Field(lo, TeamKey)) <= LevelValue(Field(hi, TeamKey))
    ensures Overall(TechnicalPoints(lo), OwnPoints(lo), SupervisorPoints(lo), LevelValue(Field(lo, TeamKey)))
         <= Overall(TechnicalPoints(hi), OwnPoints(hi), SupervisorPoints(hi), LevelValue(Field(hi, TeamKey)))
  {
    WeightTables();
    PointsMonotone(TechnicalWeights, Fields(lo, TechnicalKeys), Fields(hi, TechnicalKeys));
    PointsMonotone(BehaviouralWeights, Fields(lo, OwnKeys), Fields(hi, OwnKeys));
    PointsMonotone(BehaviouralWeights, Fields(lo, SupervisorKeys), Fields(hi, SupervisorKeys));
  }

  /** Raising any of the nineteen ratings, keeping them valid, never lowers `overallResult`. */
  lemma ScoreMonotone(lo: Sections, hi: Sections)
    requires CivilServiceScore(lo).Ok? && CivilServiceScore(hi).Ok?
    requires Dominates(Fields(lo, TechnicalKeys), Fields(hi, TechnicalKeys))
    requires Dominates(Fields(lo, OwnKeys), Fields(hi, OwnKeys))
    requires Dominates(Fields(lo, SupervisorKeys), Fields(hi, SupervisorKeys))
    requires LevelValue(Field(lo, TeamKey)) <= LevelValue(Field(hi, TeamKey))
    ensures CivilServiceScore(lo).value.overallResult <= CivilServiceScore(hi).value.overallResult
  {
    ScoreOverall(lo);
    ScoreOverall(hi);
    OverallMonotone(lo, hi);
  }

}
