/**
 * `randomColors` (src/components/Notes.tsx:1422-1440): picks a colour tag for
 * a new note from a seven-entry list, at an index drawn from `Math.random`.
 * The random draw is a parameter of the model.
 */
module Colors {
  import opened NoteModel

  /** The list of colour names, in the order the source lists them. */
  const ColorNames: seq<string> := ["amber", "green", "pink", "violet", "cyan", "zinc", "neutral"]

  /** The same list as colour tags. */
  const Palette: seq<NoteType> := [Amber, Green, Pink, Violet, Cyan, Zinc, Neutral]

  /** The string literal of each tag. */
  function Name(c: NoteType): string
  {
    match c
    case Amber => "amber"
    case Green => "green"
    case Pink => "pink"
    case Violet => "violet"
    case Cyan => "cyan"
    case Zinc => "zinc"
    case Neutral => "neutral"
  }

  /** `Math.floor(random * colors.length)`, for a random draw in [0, 1). */
  function RandomIndex(random: real): (i: int)
    ensures 0.0 <= random < 1.0 ==> 0 <= i < |ColorNames|
  {
    (random * (|ColorNames| as real)).Floor
  }

  /**
   * The lookup `colors[index]` followed by the chain of string comparisons.
   * An index outside the list reads `undefined`, which matches no name and
   * falls through to "neutral".
   */
  function ColorAt(index: int): (c: NoteType)
    ensures 0 <= index < |ColorNames| ==> c == Palette[index] && Name(c) == ColorNames[index]
    ensures !(0 <= index < |ColorNames|) ==> c == Neutral
  {
    var picked: Option<string> := if 0 <= index < |ColorNames| then Some(ColorNames[index]) else None;
    if picked == Some("amber") then Amber
    else if picked == Some("green") then Green
    else if picked == Some("pink") then Pink
    else if picked == Some("violet") then Violet
    else if picked == Some("cyan") then Cyan
    else if picked == Some("zinc") then Zinc
    else Neutral
  }

  /** `randomColors()` for a given draw of `Math.random()`. */
  function RandomColor(random: real): (c: NoteType)
    ensures 0.0 <= random < 1.0 ==> Name(c) == ColorNames[RandomIndex(random)]
  {
    ColorAt(RandomIndex(random))
  }

  /** Every colour tag is produced by some draw in [0, 1). */
  lemma EveryColorReachable(c: NoteType)
    ensures exists random: real :: 0.0 <= random < 1.0 && RandomColor(random) == c
  {
    var i := match c
      case Amber => 0 case Green => 1 case Pink => 2 case Violet => 3
      case Cyan => 4 case Zinc => 5 case Neutral => 6;
    assert Palette[i] == c;
    var random := (i as real) / 7.0;
    assert random * 7.0 == i as real;
    assert RandomIndex(random) == i;
    assert RandomColor(random) == c;
  }
}
