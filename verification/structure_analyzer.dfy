/**
 * The structure analyzer (src/analyzers/structure_analyzer.py): the number
 * of H1 headings, the heading outline, image alt texts, and a fixed base.
 */
module StructureAnalyzer {
  import opened Scoring
  import opened Fetcher
  import Format

  datatype ImageDetails = ImageDetails(total: nat, withAlt: nat, withoutAlt: nat)

  /**
   * `structure` lists one entry per heading, the level `l` standing for the
   * tag name `TagName(l)`.
   */
  datatype StructureDetails = StructureDetails(
    h1Count: nat,
    h1Proper: bool,
    hierarchyProper: bool,
    structure: seq<Level>,
    images: ImageDetails)

  /** `_analyze_h1`: one H1 earns 30, several earn 15 and a message, none earns nothing and a message. */
  function AnalyzeH1(count: nat): (r: SubScore<bool>)
    ensures r.details <==> count == 1
    ensures count == 0 ==> r.points == 0 && r.recommendations == ["Add an H1 heading to the page"]
    ensures count == 1 ==> r.points == 30 && r.recommendations == []
    ensures count > 1 ==>
              && r.points == 15
              && r.recommendations == ["Use only one H1 heading (found " + Format.NatToString(count) + ")"]
  {
    if count == 0 then SubScore(0, false, ["Add an H1 heading to the page"])
    else if count == 1 then SubScore(30, true, [])
    else SubScore(15, false, ["Use only one H1 heading (found " + Format.NatToString(count) + ")"])
  }

  /** `n` copies of `l`. */
  function Repeat(l: Level, n: nat): (r: seq<Level>)
    ensures |r| == n && forall i :: 0 <= i < n ==> r[i] == l
  {
    seq(n, _ => l)
  }

  /** Number of headings at levels `from` .. 6. */
  function HeadingCount(h: HeadingTable, from: int): nat
    requires 1 <= from <= 7
    decreases 7 - from
  {
    if from == 7 then 0 else |HeadingsAt(h, from)| + HeadingCount(h, from + 1)
  }

  /** Levels sorted in non-decreasing order. */
  predicate Ordered(s: seq<Level>) {
    forall i, j :: 0 <= i < j < |s| ==> s[i] <= s[j]
  }

  /**
   * The outline from level `from` down: each heading's level, the levels
   * in order h1 .. h6, as many entries of a level as the page has headings
   * at that level.
   */
  function Outline(h: HeadingTable, from: int): (r: seq<Level>)
    requires 1 <= from <= 7
    ensures |r| == HeadingCount(h, from)
    ensures Ordered(r)
    ensures forall i :: 0 <= i < |r| ==> from <= r[i]
    ensures forall l: Level :: from <= l ==> multiset(r)[l] == |HeadingsAt(h, l)|
    ensures forall l: Level :: l < from ==> multiset(r)[l] == 0
    decreases 7 - from
  {
    if from == 7 then []
    else
      var here := Repeat(from, |HeadingsAt(h, from)|);
      var rest := Outline(h, from + 1);
      assert forall l: Level :: multiset(here)[l] == (if l == from then |here| else 0) by {
        forall l: Level
          ensures multiset(here)[l] == (if l == from then |here| else 0)
        {
          RepeatCount(from, |here|, l);
        }
      }
      here + rest
  }

  lemma {:induction false} RepeatCount(l: Level, n: nat, k: Level)
    ensures multiset(Repeat(l, n))[k] == (if k == l then n else 0)
    decreases n
  {
    if n > 0 {
      assert Repeat(l, n) == Repeat(l, n - 1) + [l];
      RepeatCount(l, n - 1, k);
    }
  }

  /** `_analyze_heading_hierarchy`: always 25 points and the page's heading outline. */
  function AnalyzeHierarchy(h: HeadingTable): (r: SubScore<seq<Level>>)
    ensures r.points == 25 && r.recommendations == []
    ensures |r.details| == HeadingCount(h, 1) && Ordered(r.details)
    ensures forall l: Level :: multiset(r.details)[l] == |HeadingsAt(h, l)|
  {
    SubScore(25, Outline(h, 1), [])
  }

  /** Number of images that have alt text. */
  function CountWithAlt(images: seq<Image>): (n: nat)
    ensures n <= |images|
    ensures n == |images| <==> forall k :: 0 <= k < |images| ==> images[k].hasAlt
  {
    if |images| == 0 then 0
    else (if images[0].hasAlt then 1 else 0) + CountWithAlt(images[1..])
  }

  /** `_analyze_images`: 15 points, less 3 per image without alt text (never below 0), with a message. */
  function AnalyzeImages(images: seq<Image>): (r: SubScore<ImageDetails>)
    ensures r.details.total == |images|
    ensures r.details.withAlt + r.details.withoutAlt == |images|
    ensures 0 <= r.points <= 15
    ensures r.details.withoutAlt == 0 <==> forall k :: 0 <= k < |images| ==> images[k].hasAlt
    ensures r.details.withoutAlt == 0 ==> r.points == 15 && r.recommendations == []
    ensures r.details.withoutAlt > 0 ==>
              && r.points == (if 15 - 3 * r.details.withoutAlt > 0 then 15 - 3 * r.details.withoutAlt else 0)
              && r.recommendations == ["Add alt text to " + Format.NatToString(r.details.withoutAlt) + " image(s)"]
  {
    var total := |images|;
    var withAlt := CountWithAlt(images);
    var withoutAlt := total - withAlt;
    var details := ImageDetails(total, withAlt, withoutAlt);
    if withoutAlt > 0 then
      var p := 15 - withoutAlt * 3;
      SubScore(if p > 0 then p else 0, details,
               ["Add alt text to " + Format.NatToString(withoutAlt) + " image(s)"])
    else SubScore(15, details, [])
  }

  /** The fixed base every page earns. */
  const BasePoints: int := 35

  /**
   * `StructureAnalyzer.analyze`: the three sub-scores plus the base, capped at
   * 100. The score lies in [60, 100], so the status is never failed; the H1
   * message, if any, comes before the image message.
   */
  function AnalyzeStructure(c: WebContent): (r: ModuleResult<StructureDetails>)
    ensures r.moduleName == "Structure"
    ensures 60 <= r.score <= 100
    ensures r.status == GetStatus(r.score) && r.status != Failed
    ensures r.recommendations == AnalyzeH1(|HeadingsAt(c.headings, 1)|).recommendations
                                 + AnalyzeImages(c.images).recommendations
    ensures |r.recommendations| <= 2
    ensures var sum := AnalyzeH1(|HeadingsAt(c.headings, 1)|).points + 25 + AnalyzeImages(c.images).points + 35;
            r.score == if sum < 100 then sum else 100
    ensures r.details == StructureDetails(|HeadingsAt(c.headings, 1)|, AnalyzeH1(|HeadingsAt(c.headings, 1)|).details,
                                          true, AnalyzeHierarchy(c.headings).details, AnalyzeImages(c.images).details)
  {
    var h1 := AnalyzeH1(|HeadingsAt(c.headings, 1)|);
    var hierarchy := AnalyzeHierarchy(c.headings);
    var imgs := AnalyzeImages(c.images);
    var total := h1.points + hierarchy.points + imgs.points + BasePoints;
    var score := if total < 100 then total else 100;
    ModuleResult(
      "Structure",
      score,
      GetStatus(score),
      StructureDetails(|HeadingsAt(c.headings, 1)|, h1.details, true, hierarchy.details, imgs.details),
      h1.recommendations + imgs.recommendations)
  }

  /** The structure score is 100 exactly when there is one H1 and at most one image lacks alt text. */
  lemma StructurePerfectIff(c: WebContent)
    ensures AnalyzeStructure(c).score == 100 <==>
              |HeadingsAt(c.headings, 1)| == 1 && AnalyzeImages(c.images).details.withoutAlt <= 1
  {
  }
}
