/** The window's session flags and the keys that flip them. */
module ViewState {
  /** The two layouts of the composite view. */
  datatype ViewMode = SideBySide | Analytics4Q

  /** The other layout. */
  function Toggled(m: ViewMode): (r: ViewMode)
    ensures r != m
  {
    if m == Analytics4Q then SideBySide else Analytics4Q
  }

  /** The keys the window handles; any other key goes to the base window. */
  datatype Key = KeyF | KeyT | KeyS | KeyEscape | OtherKey(code: int)

  /** The flags a key press can change. */
  datatype Toggles = Toggles(freezeHistory: bool, showGraph: bool, mode: ViewMode)

  /** Recording on, chart hidden, four-quadrant layout. */
  const DefaultToggles: Toggles := Toggles(false, false, Analytics4Q)

  /** The flags after a key press. */
  function OnKey(t: Toggles, k: Key): (r: Toggles)
    ensures r.freezeHistory != t.freezeHistory <==> k == KeyF
    ensures r.showGraph != t.showGraph <==> k == KeyT
    ensures r.mode != t.mode <==> k == KeyS
  {
    match k
    case KeyF => t.(freezeHistory := !t.freezeHistory)
    case KeyT => t.(showGraph := !t.showGraph)
    case KeyS => t.(mode := Toggled(t.mode))
    case _ => t
  }

  /** A view mode is one of exactly two values, and toggling twice is the
      identity. */
  lemma ViewModeTwoValues(m: ViewMode)
    ensures m == SideBySide || m == Analytics4Q
    ensures Toggled(Toggled(m)) == m
  {
  }

  /** Pressing the same key twice restores every flag. */
  lemma OnKeyInvolution(t: Toggles, k: Key)
    ensures OnKey(OnKey(t, k), k) == t
  {
  }
}
