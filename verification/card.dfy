/** The "Experience Post" card: its one piece of view state, the toggle
    between the picture and the directions, and the projection from the
    asynchronous load of the record to what the card shows. */
module Card {
  import opened Wrappers
  import opened Lines
  import opened Store
  import opened Format

  /** The card's `showInstructions` state. */
  datatype ViewState = ViewState(showInstructions: bool)

  /** The state a card starts in: the picture is shown. */
  const Initial: ViewState := ViewState(false)

  /** The right-hand panel: the picture, or the numbered directions. */
  datatype RightPanel = PicturePanel(url: string) | DirectionsPanel(steps: seq<string>)

  /** The panel a state shows, by name. */
  function PanelName(s: ViewState): string
  {
    if s.showInstructions then "Instructions" else "Picture"
  }

  /** Pressing the toggle button flips the panel. */
  function Toggle(s: ViewState): (t: ViewState)
    ensures t != s
    ensures PanelName(t) != PanelName(s)
  {
    ViewState(!s.showInstructions)
  }

  /** The toggle button's label. */
  function ToggleLabel(s: ViewState): string
  {
    if s.showInstructions then "Picture" else "Instructions"
  }

  /** The button is labelled with the panel a press switches to, and two
      presses give back the state they started from. */
  lemma ToggleLabelNamesNextPanel(s: ViewState)
    ensures ToggleLabel(s) == PanelName(Toggle(s))
    ensures ToggleLabel(s) != PanelName(s)
    ensures Toggle(Toggle(s)) == s
  {
  }

  /** The intro area as line 190 draws it: `formatIntro(data.intro)`. A
      missing intro is `undefined`, which is not equal to "", so a banner is
      drawn, with no text in it. */
  function IntroPanelOf(data: Hash): (p: IntroPanel)
    ensures p.Banner? <==> "intro" !in data || data["intro"] != ""
    ensures "intro" in data ==> p == FormatIntro(data["intro"])
    ensures IntroText(p) == Field(data, "intro")
  {
    if "intro" in data then FormatIntro(data["intro"]) else Banner("")
  }

  /** Everything the loaded card shows. */
  datatype CardView = CardView(intro: IntroPanel, ingredients: seq<string>,
                               toggle: Option<string>, right: RightPanel)

  /** The toggle button's guard, `data.instructions != ""`: a missing field
      is `undefined`, which is not "", so it too gets the button. */
  predicate HasToggle(data: Hash)
  {
    "instructions" !in data || data["instructions"] != ""
  }

  /** The card for a loaded record in a given state, or None when drawing it
      throws: the ingredients are always split, and the instructions are
      split when the directions show, so a missing field there is a
      `.split` on `undefined`. */
  function CardFor(data: Hash, s: ViewState): (v: Option<CardView>)
    ensures v.None? <==> "ingredients" !in data || (s.showInstructions && "instructions" !in data)
    ensures v.Some? ==> v.value.intro == IntroPanelOf(data)
    ensures v.Some? ==> v.value.ingredients == FormatIngredients(data["ingredients"])
    ensures v.Some? ==> (v.value.toggle.Some? <==> "instructions" !in data || data["instructions"] != "")
    ensures v.Some? && v.value.toggle.Some? ==> v.value.toggle.value == ToggleLabel(s)
    ensures v.Some? ==> (v.value.right.DirectionsPanel? <==> s.showInstructions)
    ensures v.Some? && v.value.right.DirectionsPanel? ==>
      v.value.right.steps == FormatInstructions(data["instructions"])
    ensures v.Some? && v.value.right.PicturePanel? ==> v.value.right.url == Field(data, "picture")
  {
    if "ingredients" !in data || (s.showInstructions && "instructions" !in data) then None
    else
      Some(CardView(
        IntroPanelOf(data),
        FormatIngredients(data["ingredients"]),
        if HasToggle(data) then Some(ToggleLabel(s)) else None,
        if s.showInstructions then DirectionsPanel(FormatInstructions(data["instructions"]))
        else PicturePanel(Field(data, "picture"))))
  }

  /** A press on the toggle. It changes the state exactly when the card is
      drawn with a toggle button, and then flips the panel; with no button
      on screen there is nothing to press. */
  function Press(data: Hash, s: ViewState): (t: ViewState)
    ensures t != s <==> CardFor(data, s).Some? && CardFor(data, s).value.toggle.Some?
    ensures t != s ==> t == Toggle(s)
  {
    var drawn := "ingredients" in data && (!s.showInstructions || "instructions" in data);
    if drawn && HasToggle(data) then Toggle(s) else s
  }

  /** The state after `n` presses, starting from `Initial`. */
  function AfterPresses(data: Hash, n: nat): ViewState
  {
    if n == 0 then Initial else Press(data, AfterPresses(data, n - 1))
  }

  /** The state after `n` presses. With both text fields stored, the
      directions show exactly when there are instructions and `n` is odd.
      Without ingredients no card is drawn, so nothing changes. With
      ingredients but no instructions field, the first press shows the
      directions, drawing them throws, and no further press is possible. */
  lemma {:induction false} PressParity(data: Hash, n: nat)
    ensures "ingredients" !in data ==> AfterPresses(data, n) == Initial
    ensures "ingredients" in data && "instructions" !in data ==>
      (AfterPresses(data, n).showInstructions <==> n >= 1)
    ensures "ingredients" in data && "instructions" in data ==>
      (AfterPresses(data, n).showInstructions <==> data["instructions"] != "" && n % 2 == 1)
  {
    if n > 0 {
      PressParity(data, n - 1);
    }
  }

  /** A record whose instructions are stored as "" never gets the toggle
      button and always shows its picture, however often it is tapped. */
  lemma NoInstructionsShowsPicture(data: Hash, n: nat)
    requires "instructions" in data && data["instructions"] == ""
    ensures AfterPresses(data, n) == Initial
    ensures CardFor(data, AfterPresses(data, n)).Some? ==>
      CardFor(data, AfterPresses(data, n)).value.right == PicturePanel(Field(data, "picture"))
      && CardFor(data, AfterPresses(data, n)).value.toggle.None?
  {
    PressParity(data, n);
  }

  /** A record with ingredients but no instructions field shows the
      "Instructions" button, and after the first press the card throws. */
  lemma MissingInstructionsThrowOnPress(data: Hash, n: nat)
    requires "ingredients" in data && "instructions" !in data
    ensures CardFor(data, Initial).Some? && CardFor(data, Initial).value.toggle == Some("Instructions")
    ensures n >= 1 ==> CardFor(data, AfterPresses(data, n)).None?
  {
    PressParity(data, n);
  }

  /** The state of the record load (`useAsync`): still loading, failed with
      a message, or finished with data or without. */
  datatype AsyncLoad = AsyncLoad(loading: bool, error: Option<string>, data: Option<Hash>)

  /** What the post shows: a one-line notice, the card, or nothing because
      the render function threw. */
  datatype Screen = Notice(text: string) | Shown(view: CardView) | Crashed

  /** The render function: the load state is checked in order (loading,
      then error, then missing data) before the card is drawn. */
  function Render(load: AsyncLoad, s: ViewState): (r: Screen)
    ensures r.Notice? <==> load.loading || load.error.Some? || load.data.None?
    ensures load.loading ==> r == Notice("Loading...")
    ensures !load.loading && load.error.Some? ==> r == Notice("Error: " + load.error.value)
    ensures !load.loading && load.error.None? && load.data.None? ==> r == Notice("No data available")
    ensures r.Crashed? <==>
      !load.loading && load.error.None? && load.data.Some? && CardFor(load.data.value, s).None?
    ensures r.Shown? ==> load.data.Some? && CardFor(load.data.value, s) == Some(r.view)
  {
    if load.loading then Notice("Loading...")
    else if load.error.Some? then Notice("Error: " + load.error.value)
    else if load.data.None? then Notice("No data available")
    else
      match CardFor(load.data.value, s)
      case None => Crashed
      case Some(v) => Shown(v)
  }

  /** The notices do not depend on the view state: only the card does. */
  lemma NoticesIgnoreViewState(load: AsyncLoad, s: ViewState, t: ViewState)
    ensures Render(load, s).Notice? ==> Render(load, t) == Render(load, s)
  {
  }
}
