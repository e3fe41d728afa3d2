/** The priority label <-> slider level mapping
    (app/src/main/java/com/todolist/util/Utils.kt). Slider values are taken
    as their integer part, as `toInt()` yields it. */
module PriorityLabels {

  /** The five labels, indexed by level. */
  const Labels: seq<string> := ["Low", "Medium", "Important", "Very Important", "Urgent"]

  /** `priorityToFloat`: the slider level of a label; unknown labels and
      "Low" give 0. */
  function PriorityToLevel(priority: string): (r: int)
    ensures 0 <= r <= 4
    ensures 1 <= r ==> Labels[r] == priority
    ensures r == 0 ==> priority !in Labels[1..]
  {
    match priority
    case "Medium" => 1
    case "Important" => 2
    case "Very Important" => 3
    case "Urgent" => 4
    case _ => 0
  }

  /** `floatToPriority`, given the integer part of the slider value: levels
      1..4 name their label, everything else is "Low". */
  function LevelToPriority(level: int): (r: string)
    ensures r in Labels
    ensures 1 <= level <= 4 ==> r == Labels[level]
    ensures !(1 <= level <= 4) ==> r == "Low"
  {
    match level
    case 1 => "Medium"
    case 2 => "Important"
    case 3 => "Very Important"
    case 4 => "Urgent"
    case _ => "Low"
  }

  /** Label -> level -> label is the identity on the five labels. */
  lemma LabelRoundTrip(priority: string)
    requires priority in Labels
    ensures LevelToPriority(PriorityToLevel(priority)) == priority
  {
  }

  /** Level -> label -> level is the identity on the slider range 0..4. */
  lemma LevelRoundTrip(level: int)
    requires 0 <= level <= 4
    ensures PriorityToLevel(LevelToPriority(level)) == level
  {
  }

  /** A label outside the five canonicalises to "Low" after a round trip. */
  lemma UnknownLabelBecomesLow(priority: string)
    requires priority !in Labels
    ensures LevelToPriority(PriorityToLevel(priority)) == "Low"
  {
  }
}
