// A sort button of the search results (components/Search/Sort.js): each button
// remembers its own direction and toggles it when clicked while selected.

module SortButtons {
  import opened Wrappers

  const ASC := "ASC"
  const DESC := "DESC"

  /** A `direction` value; `None` stands for both `null` and `undefined`. */
  type Direction = Option<string>

  datatype Icon = ArrowUp | ArrowDown | NoIcon
  datatype Colour = DisabledColour | PrimaryColour | TextColour

  /**
   * The direction a click reports and stores: an unselected button keeps its
   * direction; a selected one swaps ASC and DESC and turns anything else into null.
   */
  function Toggled(direction: Direction, selected: bool): (d: Direction)
    ensures !selected ==> d == direction
    ensures selected ==> (d == Some(ASC) <==> direction == Some(DESC))
    ensures selected ==> (d == Some(DESC) <==> direction == Some(ASC))
    ensures selected ==> (d.None? <==> direction != Some(ASC) && direction != Some(DESC))
  {
    if !selected then direction
    else if direction == Some(ASC) then Some(DESC)
    else if direction == Some(DESC) then Some(ASC)
    else None
  }

  function IconFor(direction: Direction): (icon: Icon)
    ensures icon == ArrowUp <==> direction == Some(ASC)
    ensures icon == ArrowDown <==> direction == Some(DESC)
  {
    if direction == Some(ASC) then ArrowUp
    else if direction == Some(DESC) then ArrowDown
    else NoIcon
  }

  function ColourFor(disabled: bool, selected: bool): (c: Colour)
    ensures disabled ==> c == DisabledColour
    ensures c == PrimaryColour <==> !disabled && selected
  {
    if disabled then DisabledColour else if selected then PrimaryColour else TextColour
  }

  /** Clicking a selected button swaps ASC and DESC, so two such clicks restore the direction. */
  lemma ToggleSwapsAscDesc(direction: Direction)
    requires direction == Some(ASC) || direction == Some(DESC)
    ensures Toggled(direction, true) != direction
    ensures Toggled(direction, true).Some?
    ensures Toggled(Toggled(direction, true), true) == direction
  {
  }

  /** Any other direction of a selected button becomes null, and stays null on every further click. */
  lemma ToggleOtherIsNull(direction: Direction)
    requires direction != Some(ASC) && direction != Some(DESC)
    ensures Toggled(direction, true) == None
    ensures Toggled(Toggled(direction, true), true) == None
  {
  }

  /** An unselected button keeps its direction. */
  lemma UnselectedKeepsDirection(direction: Direction)
    ensures Toggled(direction, false) == direction
  {
  }

  /** A handler call: `onClickHander(sortKey, toggledDirection)`. */
  datatype Report = Report(sortKey: string, direction: Direction)

  class SortButton {
    var direction: Direction
    /** The calls made to the `onClickHander` prop, in order. */
    var reports: seq<Report>

    /** The state starts from the `direction` prop. */
    constructor (initial: Direction)
      ensures direction == initial && reports == []
    {
      direction := initial;
      reports := [];
    }

    /** The arrow the button shows. */
    function Icon(): (icon: Icon)
      reads this
      ensures icon == ArrowUp <==> direction == Some(ASC)
      ensures icon == ArrowDown <==> direction == Some(DESC)
    {
      IconFor(direction)
    }

    /**
     * The click handler, with the props of the render the click happened in.
     * A disabled button does nothing; otherwise the handler (when given) gets
     * the same direction that is stored.
     */
    method Click(sortKey: string, selected: bool, disabled: bool, hasHandler: bool)
      modifies this
      ensures disabled ==> direction == old(direction) && reports == old(reports)
      ensures !disabled ==> direction == Toggled(old(direction), selected)
      ensures !disabled ==> reports == old(reports) + (if hasHandler then [Report(sortKey, direction)] else [])
    {
      if disabled {
        return;
      }
      var toggled: Direction;
      if !selected {
        toggled := direction;
      } else if direction == Some(ASC) {
        toggled := Some(DESC);
      } else if direction == Some(DESC) {
        toggled := Some(ASC);
      } else {
        toggled := None;
      }
      if hasHandler {
        reports := reports + [Report(sortKey, toggled)];
      }
      direction := toggled;
    }
  }
}
