/**
 * The lobby's push button: a three-phase hover/press state machine and a
 * latched `clicked` flag. The mouse is abstracted to whether the pointer is
 * inside the button's rectangle and whether the left button is down or was
 * just released.
 */
module Buttons {

  datatype Phase = Idle | Hover | MidClick

  datatype Button = Button(text: string, phase: Phase, clicked: bool)

  /** The mouse as one update sees it. */
  datatype Mouse = Mouse(inside: bool, leftDown: bool, leftReleased: bool)

  /** `Button::new`: idle and not clicked. */
  function New(text: string): (b: Button)
    ensures b.phase == Idle && !b.clicked && b.text == text
  {
    Button(text, Idle, false)
  }

  /** `Button::is_clicked`. */
  function IsClicked(b: Button): bool {
    b.clicked
  }

  /** `Button::toggle_clicked`: flips the flag and nothing else. */
  function ToggleClicked(b: Button): (r: Button)
    ensures IsClicked(r) != IsClicked(b)
    ensures r.phase == b.phase && r.text == b.text
  {
    b.(clicked := !b.clicked)
  }

  /** Toggling twice restores the button. */
  lemma ToggleTwice(b: Button)
    ensures ToggleClicked(ToggleClicked(b)) == b
  {
  }

  /**
   * `Button::update`: one step of the phase machine.
   * Idle goes to Hover when the pointer is inside. Hover goes to MidClick when
   * pressed inside and back to Idle when the pointer leaves. MidClick waits for
   * the release: inside it latches `clicked` and returns to Hover, outside it
   * drops to Idle.
   */
  function Update(b: Button, m: Mouse): (r: Button)
    ensures r.text == b.text
    ensures b.phase == Idle ==> r == b.(phase := if m.inside then Hover else Idle)
    ensures b.phase == Hover ==>
      r == b.(phase := if !m.inside then Idle else if m.leftDown then MidClick else Hover)
    ensures b.phase == MidClick && !m.leftReleased ==> r == b
    ensures b.phase == MidClick && m.leftReleased && m.inside ==> r.phase == Hover && r.clicked
    ensures b.phase == MidClick && m.leftReleased && !m.inside ==> r == b.(phase := Idle)
  {
    match b.phase
    case Idle => b.(phase := if m.inside then Hover else Idle)
    case Hover =>
      if m.inside then b.(phase := if m.leftDown then MidClick else Hover)
      else b.(phase := Idle)
    case MidClick =>
      if m.leftReleased then
        if m.inside then b.(phase := Hover, clicked := true) else b.(phase := Idle)
      else b
  }

  /** An update never clears the flag, and only a release inside while mid-click sets it. */
  lemma UpdateOnlyLatches(b: Button, m: Mouse)
    ensures b.clicked ==> Update(b, m).clicked
    ensures !b.clicked && Update(b, m).clicked <==> !b.clicked && b.phase == MidClick && m.leftReleased && m.inside
  {
  }

  /** A press cannot start from Idle: the pointer must hover first. */
  lemma IdleNeverReachesMidClick(b: Button, m: Mouse)
    requires b.phase == Idle
    ensures Update(b, m).phase != MidClick
  {
  }

  /** Hover, press and release inside, one update each, is a click from a fresh button. */
  lemma HoverPressReleaseClicks(text: string)
    ensures var hovered := Update(New(text), Mouse(true, false, false));
      var pressed := Update(hovered, Mouse(true, true, false));
      var released := Update(pressed, Mouse(true, false, true));
      !hovered.clicked && !pressed.clicked && IsClicked(released) && released.phase == Hover
  {
  }

  /** From a fresh button, no run of fewer than three updates can click it. */
  lemma ClickTakesThreeUpdates(text: string, m1: Mouse, m2: Mouse)
    ensures !Update(New(text), m1).clicked
    ensures !Update(Update(New(text), m1), m2).clicked
  {
  }
}
