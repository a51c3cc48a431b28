/** The `{ show, type, title, message }` popup state kept by the login, registration and
    password-recovery pages, with the `showPopup` / `closePopup` updates they share. */
module Popups {

  datatype Popup = Popup(show: bool, kind: string, title: string, message: string)

  /** `useState({ show: false, type: "", title: "", message: "" })`. */
  const Initial := Popup(false, "", "", "")

  /** The title of the popup every page raises when its form validator fails. */
  const ValidationTitle := "Error de validación"

  /** `showPopup(type, title, message)`: replaces the whole popup and makes it visible. */
  function Shown(kind: string, title: string, message: string): (p: Popup)
    ensures p.show && p.kind == kind && p.title == title && p.message == message
  {
    Popup(true, kind, title, message)
  }

  /** `closePopup()`: `{ ...popup, show: false }` hides the popup and keeps its contents. */
  function Closed(p: Popup): (r: Popup)
    ensures !r.show && r.kind == p.kind && r.title == p.title && r.message == p.message
  {
    p.(show := false)
  }

  /** The icon of the login and recovery popups: a warning sign for "error", a check mark
      for "success" and an information sign for every other type. */
  function Icon(kind: string): (icon: string)
    ensures icon == "⚠️" <==> kind == "error"
    ensures icon == "✅" <==> kind == "success"
    ensures icon == "ℹ️" <==> kind != "error" && kind != "success"
  {
    if kind == "error" then "⚠️" else if kind == "success" then "✅" else "ℹ️"
  }

  /** The icon of the registration popup, which knows only two cases. */
  function TwoWayIcon(kind: string): (icon: string)
    ensures icon == "⚠️" <==> kind == "error"
    ensures icon == "✅" <==> kind != "error"
  {
    if kind == "error" then "⚠️" else "✅"
  }
}
