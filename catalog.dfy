/**
 * The text of a track card on the admin's track page: the shortened
 * description and the summary of the required skills.
 */
module Catalog {
  import opened Wrappers
  import opened Text
  import opened Numerals
  import opened Skills

  /** The number of description characters a card shows. */
  const DescriptionWidth: nat := 80

  /** The number of skills a card lists before summarising the rest. */
  const ShownSkills: nat := 3

  /** A description over 80 characters is cut to its first 80 and marked with `...`. */
  function TruncateDescription(description: string): (r: string)
    ensures |description| <= DescriptionWidth ==> r == description
    ensures |description| > DescriptionWidth ==>
      |r| == DescriptionWidth + 3 && r[..DescriptionWidth] == description[..DescriptionWidth] &&
      r[DescriptionWidth..] == "..."
  {
    if |description| > 80 then description[..80] + "..." else description
  }

  /** Shortening an already shortened description changes nothing. */
  lemma TruncateIdempotent(description: string)
    ensures TruncateDescription(TruncateDescription(description)) == TruncateDescription(description)
  {
    var r := TruncateDescription(description);
    if |description| > DescriptionWidth {
      assert r[..DescriptionWidth] + "..." == r;
    }
  }

  /** One skill's chip: `` `name Llevel` ``. */
  function Chip(b: Benchmark): string {
    "`" + b.name + " L" + IntToString(b.minLevel) + "`"
  }

  /** The chips of the first three skills, in order. */
  function Chips(required: seq<Benchmark>): (r: seq<string>)
    ensures |r| == if |required| < ShownSkills then |required| else ShownSkills
    ensures forall k | 0 <= k < |r| :: r[k] == Chip(required[k])
  {
    var n := if |required| < 3 then |required| else 3;
    seq(n, k requires 0 <= k < n => Chip(required[k]))
  }

  /** The chips line: the chips joined by spaces. */
  function SkillsText(required: seq<Benchmark>): (r: string)
    ensures r == "" <==> required == []
  {
    Join(Chips(required), " ")
  }

  /**
   * When no shown name holds a backtick, the chips line holds exactly two
   * per chip: it shows one chip for each of the first three skills.
   */
  lemma SkillsTextChips(required: seq<Benchmark>)
    requires forall k | 0 <= k < |required| && k < ShownSkills :: '`' !in required[k].name
    ensures Occurrences(SkillsText(required), '`') == 2 * |Chips(required)|
  {
    var chips := Chips(required);
    forall k | 0 <= k < |chips| ensures Occurrences(chips[k], '`') == 2 {
      var b := required[k];
      var lvl := IntToString(b.minLevel);
      IntToStringChars(b.minLevel);
      assert chips[k] == "`" + b.name + " L" + lvl + "`";
      OccurrencesAppend("`" + b.name + " L" + lvl, "`", '`');
      OccurrencesAppend("`" + b.name + " L", lvl, '`');
      OccurrencesAppend("`" + b.name, " L", '`');
      OccurrencesAppend("`", b.name, '`');
      OccurrencesAbsent(b.name, '`');
      OccurrencesAbsent(" L", '`');
      OccurrencesAbsent(lvl, '`');
      assert Occurrences("`", '`') == 1 + Occurrences("", '`');
    }
    JoinOccurrences(chips, " ", '`', 2);
  }

  /** The caption under the chips, present only when skills are left unshown. */
  function MoreCaption(required: seq<Benchmark>): (r: Option<string>)
    ensures r.Some? <==> |required| > ShownSkills
  {
    if |required| > 3 then Some("+" + IntToString(|required| - 3) + " more skills") else None
  }

  /** The caption's number and the chips account for every skill. */
  lemma CaptionCountsRest(required: seq<Benchmark>)
    requires |required| > ShownSkills
    ensures var caption := MoreCaption(required).value;
      var number := caption[1..|caption| - |" more skills"|];
      ParseInt(number) == Some(|required| - |Chips(required)|)
  {
    var caption := MoreCaption(required).value;
    var digits := IntToString(|required| - 3);
    assert caption == "+" + digits + " more skills";
    assert caption[1..|caption| - |" more skills"|] == digits;
    ParseIntToString(|required| - 3);
  }
}
