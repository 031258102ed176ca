/** The month button (components/month-button.tsx): its style and whether
    it reacts to clicks. */
module MonthButton {

  import opened Wrappers

  /** A calendar month; `month` counts from 0 (January) as `Date` does. */
  datatype YearMonth = YearMonth(year: int, month: int)

  datatype Style = PendingStyle | UnavailableStyle | SelectedStyle | DefaultStyle

  /** `getButtonStyle`: pending first, then unavailable, then selected. */
  function ButtonStyle(isAvailable: bool, isPending: bool, isSelected: bool): (st: Style)
    ensures isPending <==> st == PendingStyle
    ensures st == UnavailableStyle <==> !isPending && !isAvailable
    ensures st == SelectedStyle <==> !isPending && isAvailable && isSelected
  {
    if isPending then PendingStyle
    else if !isAvailable then UnavailableStyle
    else if isSelected then SelectedStyle
    else DefaultStyle
  }

  /** `isSelected` changes the style exactly when the button is available
      and not pending. */
  lemma SelectionMattersOnlyWhenActive(isAvailable: bool, isPending: bool)
    ensures ButtonStyle(isAvailable, isPending, true) != ButtonStyle(isAvailable, isPending, false)
            <==> isAvailable && !isPending
  {
  }

  /** The props, with the two optional flags possibly absent. */
  datatype Props = Props(month: YearMonth, isAvailable: bool, isPending: Option<bool>, isSelected: Option<bool>)

  /** What is rendered: the month, the style, and whether the click
      handler is attached. */
  datatype Button = Button(month: YearMonth, style: Style, clickable: bool)

  function OrFalse(flag: Option<bool>): bool {
    flag.Some? && flag.value
  }

  function Render(p: Props): (b: Button)
    ensures b.month == p.month
    ensures b.clickable <==> p.isAvailable
    ensures b.style == ButtonStyle(p.isAvailable, OrFalse(p.isPending), OrFalse(p.isSelected))
  {
    Button(p.month, ButtonStyle(p.isAvailable, OrFalse(p.isPending), OrFalse(p.isSelected)), p.isAvailable)
  }

  /** Absent flags act as `false`: an available button without them gets
      the default style; a pending button still takes clicks when it is
      available, since only availability gates the handler. */
  lemma AbsentFlagsAreFalse(month: YearMonth, isAvailable: bool)
    ensures Render(Props(month, isAvailable, None, None)) ==
            Render(Props(month, isAvailable, Some(false), Some(false)))
    ensures isAvailable ==> Render(Props(month, true, None, None)).style == DefaultStyle
    ensures Render(Props(month, isAvailable, Some(true), None)).clickable == isAvailable
  {
  }
}
