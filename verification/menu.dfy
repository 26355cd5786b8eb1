/** The mobile menu: each `.menu-toggle` button flips its own `aria-expanded`
    attribute and toggles the `open` class of the one shared navigation. */
module Menu {
  import opened Wrappers

  /** `aria-expanded` of every toggle button in document order (`None` when the
      attribute is absent), and whether the navigation has class `open`. */
  datatype MenuState = MenuState(expanded: seq<Option<string>>, navOpen: bool)

  /** A button's attribute after a click: `"false"` exactly when it read
      `"true"`, and `"true"` for any other value, absence included. */
  function Flip(attr: Option<string>): (r: Option<string>)
    ensures r == Some("true") || r == Some("false")
    ensures r == Some("false") <==> attr == Some("true")
  {
    Some(if attr == Some("true") then "false" else "true")
  }

  /** The click handler of button `b`. */
  function Click(m: MenuState, b: nat): (r: MenuState)
    requires b < |m.expanded|
    ensures |r.expanded| == |m.expanded|
    ensures r.expanded[b] == Some("false") <==> m.expanded[b] == Some("true")
    ensures r.expanded[b] == Some("true") <==> m.expanded[b] != Some("true")
    ensures forall k :: 0 <= k < |m.expanded| && k != b ==> r.expanded[k] == m.expanded[k]
    ensures r.navOpen != m.navOpen
  {
    MenuState(m.expanded[b := Flip(m.expanded[b])], !m.navOpen)
  }

  /** Two clicks on the same button restore the menu once its attribute reads
      `"true"` or `"false"`. */
  lemma ClickTwiceRestores(m: MenuState, b: nat)
    requires b < |m.expanded|
    requires m.expanded[b] == Some("true") || m.expanded[b] == Some("false")
    ensures Click(Click(m, b), b) == m
  {
    assert Click(Click(m, b), b).expanded == m.expanded;
  }

  /** An absent or unexpected attribute is not restored: two clicks leave
      `"false"`, although the navigation is back where it was. */
  lemma ClickTwiceNormalises(m: MenuState, b: nat)
    requires b < |m.expanded|
    requires m.expanded[b] != Some("true") && m.expanded[b] != Some("false")
    ensures Click(Click(m, b), b).expanded[b] == Some("false")
    ensures Click(Click(m, b), b).navOpen == m.navOpen
  {
  }

  /** With a single toggle button, "the attribute says the menu is open" and "the
      navigation is open" agree after every click once they agree at all. */
  predicate InSync(m: MenuState) {
    |m.expanded| == 1 && (m.expanded[0] == Some("true") <==> m.navOpen)
  }

  lemma SingleToggleStaysInSync(m: MenuState)
    requires InSync(m)
    ensures InSync(Click(m, 0))
  {
  }

  /** With two toggle buttons the shared navigation toggles once per click on
      either, so each button can claim the menu is open while it is closed. */
  lemma TwoTogglesCanDisagree()
    ensures var m := MenuState([Some("false"), Some("false")], false);
      var r := Click(Click(m, 0), 1);
      && r.expanded == [Some("true"), Some("true")] && !r.navOpen
  {
  }
}
