/**
 * Prakriti aggregation: the sixteen zone areas are summed into three fixed
 * elemental groups (Fire, Water, Air), turned into percentages of their
 * total, and ranked by strength into the house label.
 */
module Prakriti {
  import opened Wrappers
  import opened RealSums
  import opened Zones

  datatype Element = Fire | Water | Air

  /** The elements in the order the grouping lists them. */
  const Elements: seq<Element> := [Fire, Water, Air]

  function ElementName(e: Element): string
  {
    match e
    case Fire => "Fire"
    case Water => "Water"
    case Air => "Air"
  }

  /** Position of an element in the grouping's order. */
  function Position(e: Element): (i: nat)
    ensures i < |Elements| && Elements[i] == e
  {
    match e
    case Fire => 0
    case Water => 1
    case Air => 2
  }

  /** The zones of each group, in the order the grouping lists them. */
  function Members(e: Element): seq<Zone>
  {
    match e
    case Fire => [E, ESE, SE, SSE, S, SSW]
    case Water => [NNW, N, NNE, NE, ENE]
    case Air => [SW, WSW, W, WNW, NW]
  }

  /**
   * The group of a zone read off the wheel: the six zones from E to SSW are
   * Fire, the five from SW to NW are Air, the five from NNW round to ENE Water.
   */
  function GroupOf(z: Zone): Element
  {
    if 4 <= Index(z) <= 9 then Fire
    else if 10 <= Index(z) <= 14 then Air
    else Water
  }

  predicate NoRepeats(zones: seq<Zone>)
  {
    forall i, j :: 0 <= i < j < |zones| ==> zones[i] != zones[j]
  }

  /** A zone is listed in a group exactly when that group is its arc of the wheel. */
  lemma GroupMembership(z: Zone, e: Element)
    ensures z in Members(e) <==> e == GroupOf(z)
  {
    match e
    case Fire => FireMembers(z);
    case Water => WaterMembers(z);
    case Air => AirMembers(z);
  }

  lemma FireMembers(z: Zone)
    ensures z in Members(Fire) <==> GroupOf(z) == Fire
  {
    match z
    case N =>
    case NNE =>
    case NE =>
    case ENE =>
    case E =>
    case ESE =>
    case SE =>
    case SSE =>
    case S =>
    case SSW =>
    case SW =>
    case WSW =>
    case W =>
    case WNW =>
    case NW =>
    case NNW =>
  }

  lemma WaterMembers(z: Zone)
    ensures z in Members(Water) <==> GroupOf(z) == Water
  {
    match z
    case N =>
    case NNE =>
    case NE =>
    case ENE =>
    case E =>
    case ESE =>
    case SE =>
    case SSE =>
    case S =>
    case SSW =>
    case SW =>
    case WSW =>
    case W =>
    case WNW =>
    case NW =>
    case NNW =>
  }

  lemma AirMembers(z: Zone)
    ensures z in Members(Air) <==> GroupOf(z) == Air
  {
    match z
    case N =>
    case NNE =>
    case NE =>
    case ENE =>
    case E =>
    case ESE =>
    case SE =>
    case SSE =>
    case S =>
    case SSW =>
    case SW =>
    case WSW =>
    case W =>
    case WNW =>
    case NW =>
    case NNW =>
  }

  /** No group lists a zone twice, and the lists hold sixteen zones between them. */
  lemma GroupListsExact(e: Element)
    ensures NoRepeats(Members(e))
    ensures |Members(Fire)| + |Members(Water)| + |Members(Air)| == |ZoneOrder|
  {
  }

  /** Sum of the areas of the listed zones, taken left to right. */
  function GroupSum(areas: seq<real>, zones: seq<Zone>): real
    requires |areas| == 16
  {
    if |zones| == 0 then 0.0 else GroupSum(areas, zones[..|zones| - 1]) + areas[Index(zones[|zones| - 1])]
  }

  /** A value per element. */
  datatype PerElement = PerElement(fire: real, water: real, air: real)

  function Get(v: PerElement, e: Element): real
  {
    match e
    case Fire => v.fire
    case Water => v.water
    case Air => v.air
  }

  /**
   * Strength of each group: the summed area of its zones. Each zone is
   * counted in exactly one group, so the strengths add up to the total area.
   */
  function Strengths(areas: seq<real>): (st: PerElement)
    requires |areas| == 16
    ensures st.fire == areas[4] + areas[5] + areas[6] + areas[7] + areas[8] + areas[9]
    ensures st.water == areas[15] + areas[0] + areas[1] + areas[2] + areas[3]
    ensures st.air == areas[10] + areas[11] + areas[12] + areas[13] + areas[14]
    ensures Total(st) == Sum(areas)
  {
    FireStrength(areas);
    WaterStrength(areas);
    AirStrength(areas);
    SumOfSixteen(areas);
    PerElement(GroupSum(areas, Members(Fire)), GroupSum(areas, Members(Water)), GroupSum(areas, Members(Air)))
  }

  function Total(v: PerElement): real
  {
    v.fire + v.water + v.air
  }

  // ---------------------------------------------------------------
  // Ranking: a stable sort by descending strength
  // ---------------------------------------------------------------

  /**
   * a ranks before b: it is strictly stronger, or equally strong and listed
   * earlier (the sort keeps equal elements in their listed order).
   */
  predicate RanksBefore(st: PerElement, a: Element, b: Element)
  {
    Get(st, a) > Get(st, b) || (Get(st, a) == Get(st, b) && Position(a) < Position(b))
  }

  predicate Ranked(st: PerElement, r: seq<Element>)
  {
    forall i, j :: 0 <= i < j < |r| ==> RanksBefore(st, r[i], r[j])
  }

  /** Inserts x after every element at least as strong as x. */
  function Insert(st: PerElement, sorted: seq<Element>, x: Element): seq<Element>
  {
    if |sorted| == 0 then [x]
    else if Get(st, sorted[0]) >= Get(st, x) then [sorted[0]] + Insert(st, sorted[1..], x)
    else [x] + sorted
  }

  /** Insertion sort of the first k elements in listed order. */
  function RankPrefix(st: PerElement, k: nat): seq<Element>
    requires k <= |Elements|
  {
    if k == 0 then [] else Insert(st, RankPrefix(st, k - 1), Elements[k - 1])
  }

  /** The groups sorted by descending strength, ties kept in listed order. */
  function Rank(st: PerElement): (r: seq<Element>)
    ensures multiset(r) == multiset(Elements)
    ensures Ranked(st, r)
  {
    RankPrefixContents(st, |Elements|);
    RankPrefixRanked(st, |Elements|);
    assert Elements[..|Elements|] == Elements;
    RankPrefix(st, |Elements|)
  }

  lemma {:induction false} InsertContents(st: PerElement, sorted: seq<Element>, x: Element)
    ensures multiset(Insert(st, sorted, x)) == multiset(sorted) + multiset{x}
  {
    if |sorted| > 0 {
      assert sorted == [sorted[0]] + sorted[1..];
      InsertContents(st, sorted[1..], x);
    }
  }

  lemma {:induction false} InsertKeepsRanked(st: PerElement, sorted: seq<Element>, x: Element)
    requires Ranked(st, sorted)
    requires forall y :: y in sorted ==> Position(y) < Position(x)
    ensures Ranked(st, Insert(st, sorted, x))
  {
    if |sorted| > 0 {
      var head, rest := sorted[0], sorted[1..];
      assert sorted == [head] + rest;
      if Get(st, head) >= Get(st, x) {
        InsertKeepsRanked(st, rest, x);
        InsertContents(st, rest, x);
        var tail := Insert(st, rest, x);
        forall j | 0 <= j < |tail|
          ensures RanksBefore(st, head, tail[j])
        {
          assert tail[j] in multiset(tail);
          if tail[j] != x {
            assert tail[j] in rest;
            var k :| 0 <= k < |rest| && rest[k] == tail[j];
            assert RanksBefore(st, sorted[0], sorted[k + 1]);
          }
        }
      } else {
        forall j | 0 < j < |sorted|
          ensures Get(st, sorted[j]) <= Get(st, head)
        {
          assert RanksBefore(st, sorted[0], sorted[j]);
        }
      }
    }
  }

  lemma PositionInverse(i: nat)
    requires i < |Elements|
    ensures Position(Elements[i]) == i
  {
    if i == 0 {
    } else if i == 1 {
    } else {
    }
  }

  lemma {:induction false} RankPrefixContents(st: PerElement, k: nat)
    requires k <= |Elements|
    ensures multiset(RankPrefix(st, k)) == multiset(Elements[..k])
    ensures forall y :: y in RankPrefix(st, k) ==> Position(y) < k
  {
    if k > 0 {
      RankPrefixContents(st, k - 1);
      var prev, x := RankPrefix(st, k - 1), Elements[k - 1];
      PositionInverse(k - 1);
      InsertContents(st, prev, x);
      assert Elements[..k] == Elements[..k - 1] + [x];
      forall y | y in RankPrefix(st, k)
        ensures Position(y) < k
      {
        assert y in multiset(prev) + multiset{x};
      }
    }
  }

  lemma {:induction false} RankPrefixRanked(st: PerElement, k: nat)
    requires k <= |Elements|
    ensures Ranked(st, RankPrefix(st, k))
  {
    if k > 0 {
      RankPrefixRanked(st, k - 1);
      RankPrefixContents(st, k - 1);
      PositionInverse(k - 1);
      InsertKeepsRanked(st, RankPrefix(st, k - 1), Elements[k - 1]);
    }
  }

  /**
   * The ranking lists strongest first, and it is the only arrangement of the
   * groups that is ranked: the stable sort has exactly one possible outcome.
   */
  lemma RankIsStableDescendingSort(st: PerElement)
    ensures forall i, j :: 0 <= i < j < |Rank(st)| ==> Get(st, Rank(st)[i]) >= Get(st, Rank(st)[j])
    ensures forall r :: multiset(r) == multiset(Elements) && Ranked(st, r) ==> r == Rank(st)
  {
    forall r | multiset(r) == multiset(Elements) && Ranked(st, r)
      ensures r == Rank(st)
    {
      RankedUnique(st, r, Rank(st));
    }
  }

  /** Only one arrangement of the groups is ranked, so the ranking is determined by the strengths. */
  lemma {:induction false} RankedUnique(st: PerElement, r1: seq<Element>, r2: seq<Element>)
    requires multiset(r1) == multiset(r2)
    requires Ranked(st, r1) && Ranked(st, r2)
    ensures r1 == r2
  {
    assert |r1| == |multiset(r1)| == |multiset(r2)| == |r2|;
    if |r1| > 0 {
      FirstRanksBefore(st, r1, r2[0]);
      FirstRanksBefore(st, r2, r1[0]);
      RanksBeforeAsymmetric(st, r1[0], r2[0]);
      TailsSameContents(r1, r2);
      RankedTail(st, r1);
      RankedTail(st, r2);
      RankedUnique(st, r1[1..], r2[1..]);
      assert r1 == [r1[0]] + r1[1..];
      assert r2 == [r2[0]] + r2[1..];
    }
  }

  lemma TailsSameContents<T>(r1: seq<T>, r2: seq<T>)
    requires 0 < |r1| && 0 < |r2| && r1[0] == r2[0]
    requires multiset(r1) == multiset(r2)
    ensures multiset(r1[1..]) == multiset(r2[1..])
  {
    assert r1 == [r1[0]] + r1[1..];
    assert r2 == [r2[0]] + r2[1..];
    assert multiset(r1[1..]) == multiset(r1) - multiset{r1[0]};
    assert multiset(r2[1..]) == multiset(r2) - multiset{r2[0]};
  }

  lemma RankedTail(st: PerElement, r: seq<Element>)
    requires 0 < |r| && Ranked(st, r)
    ensures Ranked(st, r[1..])
  {
    forall i, j | 0 <= i < j < |r| - 1
      ensures RanksBefore(st, r[1..][i], r[1..][j])
    {
      assert r[1..][i] == r[i + 1] && r[1..][j] == r[j + 1];
    }
  }

  /** The head of a ranked arrangement ranks before every other element of it. */
  lemma FirstRanksBefore(st: PerElement, r: seq<Element>, y: Element)
    requires Ranked(st, r) && y in multiset(r)
    ensures y == r[0] || RanksBefore(st, r[0], y)
  {
    var i :| 0 <= i < |r| && r[i] == y;
  }

  lemma RanksBeforeAsymmetric(st: PerElement, a: Element, b: Element)
    ensures !(RanksBefore(st, a, b) && RanksBefore(st, b, a))
  {
  }

  // ---------------------------------------------------------------
  // Label
  // ---------------------------------------------------------------

  /** The group names in ranked order, joined by "-". */
  function Label(ranking: seq<Element>): (text: string)
    ensures text == "" <==> |ranking| == 0
    ensures 0 < |ranking| ==> ElementName(ranking[0]) <= text
    ensures 1 < |ranking| ==> ElementName(ranking[0]) + "-" <= text
  {
    if |ranking| == 0 then ""
    else if |ranking| == 1 then NameFacts(ranking[0]); ElementName(ranking[0])
    else
      NameFacts(ranking[0]);
      ElementName(ranking[0]) + "-" + Label(ranking[1..])
  }

  /** Reads a group name back. */
  function ElementNamed(name: string): Option<Element>
  {
    if name == "Fire" then Some(Fire)
    else if name == "Water" then Some(Water)
    else if name == "Air" then Some(Air)
    else None
  }

  /** Splits a label at its first "-" and reads the group names back. */
  function ParseLabel(text: string): Option<seq<Element>>
    decreases |text|
  {
    if |text| == 0 then Some([])
    else if '-' !in text then
      match ElementNamed(text)
      case None => None
      case Some(e) => Some([e])
    else
      var k := FirstDash(text);
      match ElementNamed(text[..k])
      case None => None
      case Some(e) =>
        if k + 1 == |text| then None
        else
          match ParseLabel(text[k + 1..])
          case None => None
          case Some(rest) => Some([e] + rest)
  }

  /** Index of the first "-" of a string that has one. */
  function FirstDash(s: string): (k: nat)
    requires '-' in s
    ensures k < |s| && s[k] == '-' && '-' !in s[..k]
  {
    if s[0] == '-' then 0
    else
      assert '-' in s[1..] by {
        var i :| 0 <= i < |s| && s[i] == '-';
        assert s[1..][i - 1] == '-';
      }
      var k := FirstDash(s[1..]);
      assert s[..k + 1] == [s[0]] + s[1..][..k];
      k + 1
  }

  lemma FirstDashAfterName(e: Element, rest: string)
    ensures '-' in ElementName(e) + "-" + rest
    ensures FirstDash(ElementName(e) + "-" + rest) == |ElementName(e)|
  {
    var s := ElementName(e) + "-" + rest;
    assert s[|ElementName(e)|] == '-';
    var k := FirstDash(s);
    assert s[..|ElementName(e)|] == ElementName(e);
    NameFacts(e);
  }

  /** Group names are non-empty, free of "-", and read back to their group. */
  lemma NameFacts(e: Element)
    ensures 0 < |ElementName(e)| && '-' !in ElementName(e)
    ensures ElementNamed(ElementName(e)) == Some(e)
  {
    match e
    case Fire =>
    case Water =>
    case Air =>
  }

  /** A name followed by "-" parses to its group followed by whatever the rest parses to. */
  lemma ParseAfterName(e: Element, rest: string)
    requires 0 < |rest|
    ensures ParseLabel(ElementName(e) + "-" + rest) ==
      match ParseLabel(rest)
      case None => None
      case Some(tail) => Some([e] + tail)
  {
    var name, text := ElementName(e), ElementName(e) + "-" + rest;
    FirstDashAfterName(e, rest);
    NameFacts(e);
    assert text[..|name|] == name;
    assert text[|name| + 1..] == rest;
  }

  lemma ParseName(e: Element)
    ensures ParseLabel(ElementName(e)) == Some([e])
  {
    NameFacts(e);
  }

  /** Reading a label back gives the ranking it was made from. */
  lemma {:induction false} LabelRoundTrip(ranking: seq<Element>)
    requires |ranking| > 0
    ensures ParseLabel(Label(ranking)) == Some(ranking)
  {
    if |ranking| == 1 {
      ParseName(ranking[0]);
      assert ranking == [ranking[0]];
    } else {
      var tail := ranking[1..];
      LabelRoundTrip(tail);
      assert 0 < |Label(tail)| by {
        NameFacts(tail[0]);
      }
      ParseAfterName(ranking[0], Label(tail));
      assert ranking == [ranking[0]] + tail;
    }
  }

  // ---------------------------------------------------------------
  // The aggregation
  // ---------------------------------------------------------------

  datatype PrakritiReport = PrakritiReport(strength: PerElement, percentage: PerElement, ranking: seq<Element>, houseLabel: string)

  datatype PrakritiError = ZeroPrakritiTotal

  /**
   * Group strengths, their percentages of the total, the ranking and the label;
   * a total that is zero or negative is reported as an error.
   */
  function Aggregate(areas: seq<real>): (r: Result<PrakritiReport, PrakritiError>)
    requires |areas| == 16
    ensures r.Failure? <==> Sum(areas) <= 0.0
    ensures r.Success? ==> r.value.strength == Strengths(areas)
    ensures r.Success? ==> r.value.percentage == Percentages(r.value.strength, Sum(areas))
    ensures r.Success? ==> Total(r.value.percentage) == 100.0
    ensures r.Success? ==> r.value.ranking == Rank(r.value.strength) && multiset(r.value.ranking) == multiset(Elements)
    ensures r.Success? ==> Ranked(r.value.strength, r.value.ranking)
    ensures r.Success? ==> r.value.houseLabel == Label(r.value.ranking)
  {
    var st := Strengths(areas);
    var total := Total(st);
    assert total == Sum(areas);
    if total <= 0.0 then Failure(ZeroPrakritiTotal)
    else
      var pct := Percentages(st, total);
      var ranking := Rank(st);
      Success(PrakritiReport(st, pct, ranking, Label(ranking)))
  }

  /** Each strength as a percentage of total; they add up to 100 when total is the strengths' sum. */
  function Percentages(st: PerElement, total: real): (pct: PerElement)
    requires total > 0.0
    ensures pct.fire * total == st.fire * 100.0
    ensures pct.water * total == st.water * 100.0
    ensures pct.air * total == st.air * 100.0
    ensures total == Total(st) ==> Total(pct) == 100.0
  {
    var pct := PerElement(st.fire / total * 100.0, st.water / total * 100.0, st.air / total * 100.0);
    PercentagesAddUp(st.fire, st.water, st.air, total);
    pct
  }

  lemma PercentagesAddUp(f: real, w: real, a: real, total: real)
    requires total > 0.0
    ensures total == f + w + a ==> f / total * 100.0 + w / total * 100.0 + a / total * 100.0 == 100.0
  {
    assert f / total + w / total + a / total == (f + w + a) / total;
  }

  lemma FireStrength(areas: seq<real>)
    requires |areas| == 16
    ensures GroupSum(areas, Members(Fire)) == areas[4] + areas[5] + areas[6] + areas[7] + areas[8] + areas[9]
  {
    var zones := Members(Fire);
    var terms := seq(|zones|, i requires 0 <= i < |zones| => areas[Index(zones[i])]);
    GroupSumUnfold(areas, zones);
    assert terms[0] == areas[4];
    assert terms[1] == areas[5];
    assert terms[2] == areas[6];
    assert terms[3] == areas[7];
    assert terms[4] == areas[8];
    assert terms[5] == areas[9];
    assert SumTo(terms, 1) == SumTo(terms, 0) + terms[0];
    assert SumTo(terms, 2) == SumTo(terms, 1) + terms[1];
    assert SumTo(terms, 3) == SumTo(terms, 2) + terms[2];
    assert SumTo(terms, 4) == SumTo(terms, 3) + terms[3];
    assert SumTo(terms, 5) == SumTo(terms, 4) + terms[4];
    assert SumTo(terms, 6) == SumTo(terms, 5) + terms[5];
  }

  lemma WaterStrength(areas: seq<real>)
    requires |areas| == 16
    ensures GroupSum(areas, Members(Water)) == areas[15] + areas[0] + areas[1] + areas[2] + areas[3]
  {
    var zones := Members(Water);
    var terms := seq(|zones|, i requires 0 <= i < |zones| => areas[Index(zones[i])]);
    GroupSumUnfold(areas, zones);
    assert terms[0] == areas[15];
    assert terms[1] == areas[0];
    assert terms[2] == areas[1];
    assert terms[3] == areas[2];
    assert terms[4] == areas[3];
    assert SumTo(terms, 1) == SumTo(terms, 0) + terms[0];
    assert SumTo(terms, 2) == SumTo(terms, 1) + terms[1];
    assert SumTo(terms, 3) == SumTo(terms, 2) + terms[2];
    assert SumTo(terms, 4) == SumTo(terms, 3) + terms[3];
    assert SumTo(terms, 5) == SumTo(terms, 4) + terms[4];
  }

  lemma AirStrength(areas: seq<real>)
    requires |areas| == 16
    ensures GroupSum(areas, Members(Air)) == areas[10] + areas[11] + areas[12] + areas[13] + areas[14]
  {
    var zones := Members(Air);
    var terms := seq(|zones|, i requires 0 <= i < |zones| => areas[Index(zones[i])]);
    GroupSumUnfold(areas, zones);
    assert terms[0] == areas[10];
    assert terms[1] == areas[11];
    assert terms[2] == areas[12];
    assert terms[3] == areas[13];
    assert terms[4] == areas[14];
    assert SumTo(terms, 1) == SumTo(terms, 0) + terms[0];
    assert SumTo(terms, 2) == SumTo(terms, 1) + terms[1];
    assert SumTo(terms, 3) == SumTo(terms, 2) + terms[2];
    assert SumTo(terms, 4) == SumTo(terms, 3) + terms[3];
    assert SumTo(terms, 5) == SumTo(terms, 4) + terms[4];
  }

  lemma GroupSumUnfold(areas: seq<real>, zones: seq<Zone>)
    requires |areas| == 16 && 0 < |zones| <= 6
    ensures GroupSum(areas, zones) == SumTo(seq(|zones|, i requires 0 <= i < |zones| => areas[Index(zones[i])]), |zones|)
  {
    var terms := seq(|zones|, i requires 0 <= i < |zones| => areas[Index(zones[i])]);
    GroupSumAsSum(areas, zones, terms, |zones|);
    assert zones[..|zones|] == zones;
  }

  lemma {:induction false} GroupSumAsSum(areas: seq<real>, zones: seq<Zone>, terms: seq<real>, k: nat)
    requires |areas| == 16 && k <= |zones| == |terms|
    requires forall i :: 0 <= i < |zones| ==> terms[i] == areas[Index(zones[i])]
    ensures GroupSum(areas, zones[..k]) == SumTo(terms, k)
  {
    if k > 0 {
      GroupSumAsSum(areas, zones, terms, k - 1);
      assert zones[..k][..k - 1] == zones[..k - 1];
    }
  }

  lemma SumOfSixteen(s: seq<real>)
    requires |s| == 16
    ensures Sum(s) == s[0] + s[1] + s[2] + s[3] + s[4] + s[5] + s[6] + s[7]
                    + s[8] + s[9] + s[10] + s[11] + s[12] + s[13] + s[14] + s[15]
  {
    assert SumTo(s, 1) == SumTo(s, 0) + s[0];
    assert SumTo(s, 2) == SumTo(s, 1) + s[1];
    assert SumTo(s, 3) == SumTo(s, 2) + s[2];
    assert SumTo(s, 4) == SumTo(s, 3) + s[3];
    assert SumTo(s, 5) == SumTo(s, 4) + s[4];
    assert SumTo(s, 6) == SumTo(s, 5) + s[5];
    assert SumTo(s, 7) == SumTo(s, 6) + s[6];
    assert SumTo(s, 8) == SumTo(s, 7) + s[7];
    assert SumTo(s, 9) == SumTo(s, 8) + s[8];
    assert SumTo(s, 10) == SumTo(s, 9) + s[9];
    assert SumTo(s, 11) == SumTo(s, 10) + s[10];
    assert SumTo(s, 12) == SumTo(s, 11) + s[11];
    assert SumTo(s, 13) == SumTo(s, 12) + s[12];
    assert SumTo(s, 14) == SumTo(s, 13) + s[13];
    assert SumTo(s, 15) == SumTo(s, 14) + s[14];
    assert SumTo(s, 16) == SumTo(s, 15) + s[15];
  }

  /** With every zone at 100, Fire (six zones) leads Water and Air (five each), which tie in listed order. */
  lemma UniformAreasExample()
    ensures Aggregate(seq(16, _ => 100.0)).Success?
    ensures Aggregate(seq(16, _ => 100.0)).value.strength == PerElement(600.0, 500.0, 500.0)
    ensures Aggregate(seq(16, _ => 100.0)).value.ranking == [Fire, Water, Air]
    ensures Aggregate(seq(16, _ => 100.0)).value.houseLabel == "Fire-Water-Air"
  {
    UniformStrengths();
    TiedRanking(PerElement(600.0, 500.0, 500.0));
    FireWaterAirLabel();
  }

  lemma UniformStrengths()
    ensures Strengths(seq(16, _ => 100.0)) == PerElement(600.0, 500.0, 500.0)
  {
    var areas := seq(16, _ => 100.0);
    FireStrength(areas);
    WaterStrength(areas);
    AirStrength(areas);
  }

  lemma TiedRanking(st: PerElement)
    requires st == PerElement(600.0, 500.0, 500.0)
    ensures Rank(st) == [Fire, Water, Air]
  {
    var expected := [Fire, Water, Air];
    RankIsStableDescendingSort(st);
    assert Ranked(st, expected);
    assert multiset(expected) == multiset(Elements);
    RankedUnique(st, Rank(st), expected);
  }

  lemma FireWaterAirLabel()
    ensures Label([Fire, Water, Air]) == "Fire-Water-Air"
  {
    assert [Fire, Water, Air][1..] == [Water, Air];
    assert [Water, Air][1..] == [Air];
  }

  /** All-zero areas leave nothing to rank and are reported as an error. */
  lemma ZeroAreasExample()
    ensures Aggregate(seq(16, _ => 0.0)) == Failure(ZeroPrakritiTotal)
  {
    SumOfSixteen(seq(16, _ => 0.0));
  }
}
