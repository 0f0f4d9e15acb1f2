/** The timestep navigation of the web page: the hour offset of the left pane,
    the previous and next buttons that move it along the forecast's offsets, and
    the enabling of the four buttons while the panes load. The panes themselves
    (networks, maps, the table) are not modelled. */
module Navigation {
  import opened Text
  import App
  import LineReader

  /** The last offset the left pane can show; the right pane then shows 240. */
  const LastOffset := 234

  /** The offsets the left pane can show: every 3 hours up to 72, then every 6 up
      to 234. */
  predicate IsOffset(o: int) {
    LineReader.IsTime(o) && o <= LastOffset
  }

  /** The next button's step. */
  function NextOffset(o: int): int {
    if o < LastOffset then o + (if o < 72 then 3 else 6) else o
  }

  /** The previous button's step. */
  function PreviousOffset(o: int): int {
    if o > 0 then o - (if o < 78 then 3 else 6) else o
  }

  /** The offset shown by the right pane and its heading. */
  function RightOffset(o: int): int {
    o + (if o < 72 then 3 else 6)
  }

  /** Both buttons keep the offset among the offsets that can be shown. */
  lemma StepsStayOnGrid(o: int)
    requires IsOffset(o)
    ensures IsOffset(NextOffset(o)) && IsOffset(PreviousOffset(o))
  {
  }

  /** On the offsets, previous undoes next and next undoes previous, except at the
      ends where the button does nothing. */
  lemma StepsAreInverse(o: int)
    requires IsOffset(o)
    ensures o < LastOffset ==> PreviousOffset(NextOffset(o)) == o
    ensures o > 0 ==> NextOffset(PreviousOffset(o)) == o
    ensures o == LastOffset ==> NextOffset(o) == o
    ensures o == 0 ==> PreviousOffset(o) == o
  {
  }

  /** The right pane follows the step rule of `get_timestep_data`, and it always
      shows an hour offset of the forecast. */
  lemma RightPaneIsNextTimestep(o: int)
    requires IsOffset(o)
    ensures RightOffset(o) == App.NextTimestep(o)
    ensures LineReader.IsTime(RightOffset(o))
    ensures o < LastOffset ==> RightOffset(o) == NextOffset(o)
  {
    App.NextTimestepIsNextTime(o);
  }

  /** A run of clicks, `true` for next and `false` for previous. */
  function Clicks(o: int, clicks: seq<bool>): int
    decreases |clicks|
  {
    if |clicks| == 0 then o
    else Clicks(if clicks[0] then NextOffset(o) else PreviousOffset(o), clicks[1..])
  }

  /** From an offset on the grid, any run of clicks stays on the grid. */
  lemma {:induction false} ClicksStayOnGrid(o: int, clicks: seq<bool>)
    requires IsOffset(o)
    ensures IsOffset(Clicks(o, clicks))
    decreases |clicks|
  {
    if |clicks| > 0 {
      StepsStayOnGrid(o);
      ClicksStayOnGrid(if clicks[0] then NextOffset(o) else PreviousOffset(o), clicks[1..]);
    }
  }

  /** A heading: the simulation start and the offset in hours. */
  function Heading(o: int): string {
    "2024101900 +" + IntToString(o) + "h"
  }

  /** The page's navigation state: `currentTimeOffset`, the `disabled` flags of
      the four buttons and the two headings. `enabled` is the last argument of
      `toggleInputs`. */
  class Page {
    var currentTimeOffset: int
    var previousDisabled: bool
    var nextDisabled: bool
    var resetViewsDisabled: bool
    var resetLayoutsDisabled: bool
    var leftHeading: string
    var rightHeading: string
    ghost var enabled: bool

    /** The offset is on the grid, and each flag is as `toggleInputs(enabled)`
        left it for this offset: previous off at the first offset, next off at the
        last, and otherwise every button off exactly while loading. */
    ghost predicate Valid()
      reads this
    {
      IsOffset(currentTimeOffset) &&
      previousDisabled == (currentTimeOffset <= 0 || !enabled) &&
      nextDisabled == (currentTimeOffset >= LastOffset || !enabled) &&
      resetViewsDisabled == !enabled &&
      resetLayoutsDisabled == !enabled
    }

    /** `init`, up to the first wait for data: offset 0, inputs off, headings
        loading. */
    constructor ()
      ensures Valid()
      ensures currentTimeOffset == 0 && !enabled
      ensures leftHeading == "Loading..." && rightHeading == "Loading..."
    {
      currentTimeOffset := 0;
      enabled := false;
      previousDisabled, nextDisabled := true, true;
      resetViewsDisabled, resetLayoutsDisabled := true, true;
      leftHeading, rightHeading := "Loading...", "Loading...";
    }

    /** `toggleInputs(on)`. */
    method ToggleInputs(on: bool)
      modifies this
      ensures previousDisabled == (currentTimeOffset <= 0 || !on)
      ensures nextDisabled == (currentTimeOffset >= LastOffset || !on)
      ensures resetViewsDisabled == !on && resetLayoutsDisabled == !on
      ensures enabled == on
      ensures currentTimeOffset == old(currentTimeOffset)
      ensures leftHeading == old(leftHeading) && rightHeading == old(rightHeading)
    {
      if currentTimeOffset <= 0 {
        previousDisabled := true;
      } else {
        previousDisabled := !on;
      }
      if currentTimeOffset >= LastOffset {
        nextDisabled := true;
      } else {
        nextDisabled := !on;
      }
      resetViewsDisabled := !on;
      resetLayoutsDisabled := !on;
      enabled := on;
    }

    /** The part of `populateGraphs` before its first wait: inputs off and both
        headings loading. */
    method StartLoading()
      requires IsOffset(currentTimeOffset)
      modifies this
      ensures Valid() && !enabled
      ensures currentTimeOffset == old(currentTimeOffset)
      ensures leftHeading == "Loading..." && rightHeading == "Loading..."
    {
      ToggleInputs(false);
      leftHeading := "Loading...";
      rightHeading := "Loading...";
    }

    /** The rest of `populateGraphs` once both panes and the table have loaded:
        the headings name both offsets and the inputs come back on. */
    method FinishLoading()
      requires IsOffset(currentTimeOffset)
      modifies this
      ensures Valid() && enabled
      ensures currentTimeOffset == old(currentTimeOffset)
      ensures leftHeading == Heading(currentTimeOffset)
      ensures rightHeading == Heading(App.NextTimestep(currentTimeOffset))
    {
      leftHeading := Heading(currentTimeOffset);
      rightHeading := Heading(RightOffset(currentTimeOffset));
      ToggleInputs(true);
    }

    /** The previous button's click handler. */
    method Previous()
      requires Valid()
      modifies this
      ensures Valid() && !enabled
      ensures currentTimeOffset == PreviousOffset(old(currentTimeOffset))
      ensures leftHeading == "Loading..." && rightHeading == "Loading..."
    {
      if currentTimeOffset > 0 {
        currentTimeOffset := currentTimeOffset - (if currentTimeOffset < 78 then 3 else 6);
      }
      StartLoading();
    }

    /** The next button's click handler. */
    method Next()
      requires Valid()
      modifies this
      ensures Valid() && !enabled
      ensures currentTimeOffset == NextOffset(old(currentTimeOffset))
      ensures leftHeading == "Loading..." && rightHeading == "Loading..."
    {
      if currentTimeOffset < LastOffset {
        currentTimeOffset := currentTimeOffset + (if currentTimeOffset < 72 then 3 else 6);
      }
      StartLoading();
    }
  }
}
