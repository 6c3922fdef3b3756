/** The navbar style decision and the floating-bubble offsets of the site script
    (Front-end/scripts/app.js). The page's data attributes, scroll position, hero presence
    and collapse state are parameters; the navbar's class list is a set of class names. */
module Navbar {
  import opened Wrappers

  /** `String.prototype.toLowerCase`, restricted to the ASCII letters. */
  function ToLower(s: string): (r: string)
    ensures |r| == |s|
    ensures forall i :: 0 <= i < |s| ==> r[i] == (if 'A' <= s[i] <= 'Z' then (s[i] as int + 32) as char else s[i])
  {
    if s == "" then "" else
      var c := s[0];
      [if 'A' <= c <= 'Z' then (c as int + 32) as char else c] + ToLower(s[1..])
  }

  lemma ToLowerIdempotent(s: string)
    ensures ToLower(ToLower(s)) == ToLower(s)
  {
  }

  /** `a || b`, for string-valued data attributes: an absent or empty attribute is falsy. */
  function OrElse(a: Option<string>, fallback: string): (r: string)
    ensures a.Some? && a.value != "" ==> r == a.value
    ensures a.None? || a.value == "" ==> r == fallback
  {
    if a.Some? && a.value != "" then a.value else fallback
  }

  /** The configured mode: the navbar's own attribute, else the body's, else "auto". */
  function ResolveMode(navbarAttr: Option<string>, bodyAttr: Option<string>): (r: string)
    ensures r != ""
    ensures navbarAttr.Some? && navbarAttr.value != "" ==> r == navbarAttr.value
    ensures (navbarAttr.None? || navbarAttr.value == "") && bodyAttr.Some? && bodyAttr.value != "" ==> r == bodyAttr.value
    ensures (navbarAttr.None? || navbarAttr.value == "") && (bodyAttr.None? || bodyAttr.value == "") ==> r == "auto"
  {
    OrElse(Some(OrElse(navbarAttr, OrElse(bodyAttr, "auto"))), "auto")
  }

  /** The colour theme: the navbar's attribute, or "auto", lower-cased. */
  function ResolveTheme(themeAttr: Option<string>): (r: string)
    ensures themeAttr.None? || themeAttr.value == "" ==> r == "auto"
    ensures themeAttr.Some? && themeAttr.value != "" ==> r == ToLower(themeAttr.value)
    ensures themeAttr.Some? && themeAttr.value != "" ==> |r| == |themeAttr.value|
    ensures forall i :: 0 <= i < |r| ==> !('A' <= r[i] <= 'Z')
    ensures themeAttr == Some("DARK") || themeAttr == Some("Dark") ==> r == "dark"
  {
    // "auto" is already lower-case, so lower-casing the fallback is left out.
    if themeAttr.Some? && themeAttr.value != "" then
      ToLowerHasNoUpper(themeAttr.value);
      LowerDark();
      ToLower(themeAttr.value)
    else "auto"
  }

  /** Lower-casing leaves no ASCII capital behind. */
  lemma ToLowerHasNoUpper(s: string)
    ensures forall i :: 0 <= i < |ToLower(s)| ==> !('A' <= ToLower(s)[i] <= 'Z')
  {
  }

  lemma LowerDark()
    ensures ToLower("DARK") == "dark" && ToLower("Dark") == "dark"
  {
    var upper, title := ToLower("DARK"), ToLower("Dark");
    assert upper[0] == title[0] == 'd' && upper[1] == title[1] == 'a';
    assert upper[2] == title[2] == 'r' && upper[3] == title[3] == 'k';
  }

  /** The pixel threshold past which the page counts as scrolled. */
  const ScrollThreshold: real := 10.0

  /** The two outcomes `setSolid` and `setTransparent`; a transparent bar carries its text
      scheme. */
  datatype Style = Solid | Transparent(dark: bool)

  /** The style `onScroll` applies. Mode names are compared after lower-casing; any mode other
      than "solid" or "transparent" behaves as "auto". */
  function NavbarStyle(mode: string, theme: string, hasHero: bool, scrollY: real, expanded: bool): (r: Style)
    ensures ToLower(mode) == "solid" ==> r == Solid
    ensures ToLower(mode) == "transparent" ==> (r == Solid <==> scrollY > ScrollThreshold || expanded)
    ensures ToLower(mode) != "solid" && ToLower(mode) != "transparent" ==>
              (r == Solid <==> !hasHero || scrollY > ScrollThreshold || expanded)
    ensures r.Transparent? ==> (r.dark <==> theme == "dark" || (theme == "auto" && hasHero))
  {
    var scrolled := scrollY > ScrollThreshold;
    var m := ToLower(OrElse(Some(mode), "auto"));
    var transparent := Transparent(theme == "dark" || (theme == "auto" && hasHero));
    if m == "solid" then Solid
    else if m == "transparent" then (if scrolled || expanded then Solid else transparent)
    else if hasHero then (if scrolled || expanded then Solid else transparent)
    else Solid
  }

  /** Once the page is scrolled past the threshold or the menu is open, every mode shows the
      solid bar. */
  lemma ScrolledIsSolidWhen(mode: string, theme: string, hasHero: bool, scrollY: real, expanded: bool)
    ensures scrollY > ScrollThreshold || expanded ==> NavbarStyle(mode, theme, hasHero, scrollY, expanded) == Solid
  {
  }

  /** Mode matching ignores letter case. */
  lemma ModeCaseInsensitive(mode: string, theme: string, hasHero: bool, scrollY: real, expanded: bool)
    ensures NavbarStyle(mode, theme, hasHero, scrollY, expanded) == NavbarStyle(ToLower(mode), theme, hasHero, scrollY, expanded)
  {
    ToLowerIdempotent(mode);
  }

  /** The four classes the style manages. */
  const TransparentClass := "navbar-transparent"
  const ScrolledClass := "navbar-scrolled"
  const DarkClass := "navbar-dark"
  const LightClass := "navbar-light"

  predicate Managed(c: string) {
    c == TransparentClass || c == ScrolledClass || c == DarkClass || c == LightClass
  }

  /** The class list after `setSolid` or `setTransparent`. */
  function ApplyStyle(classes: set<string>, style: Style): (r: set<string>)
    ensures (TransparentClass in r) != (ScrolledClass in r)
    ensures (DarkClass in r) != (LightClass in r)
    ensures TransparentClass in r <==> style.Transparent?
    ensures DarkClass in r <==> style.Transparent? && style.dark
    ensures forall c :: !Managed(c) ==> (c in r <==> c in classes)
  {
    match style
    case Solid => classes + {ScrolledClass, LightClass} - {TransparentClass, DarkClass}
    case Transparent(dark) =>
      var base := classes + {TransparentClass} - {ScrolledClass};
      if dark then base + {DarkClass} - {LightClass} else base + {LightClass} - {DarkClass}
  }

  /** Re-running `onScroll` leaves no trace of earlier runs: the last style applied decides the
      managed classes on its own. */
  lemma LastStyleWins(classes: set<string>, first: Style, second: Style)
    ensures ApplyStyle(ApplyStyle(classes, first), second) == ApplyStyle(classes, second)
  {
    var a := ApplyStyle(ApplyStyle(classes, first), second);
    var b := ApplyStyle(classes, second);
    forall c | c in a ensures c in b {
      if !Managed(c) { assert c in ApplyStyle(classes, first); }
    }
    forall c | c in b ensures c in a {
      if !Managed(c) { assert c in ApplyStyle(classes, first); }
    }
  }

  /** One run of `onScroll` on the navbar's class list, from the page's attributes and state.
      However the attributes are set, the bar ends up either transparent or scrolled, never
      both, and an explicit "solid" mode (in any letter case) always yields the scrolled, light
      bar. */
  function OnScroll(classes: set<string>, navbarAttr: Option<string>, bodyAttr: Option<string>, themeAttr: Option<string>,
                    hasHero: bool, scrollY: real, expanded: bool): (r: set<string>)
    ensures (TransparentClass in r) != (ScrolledClass in r)
    ensures (DarkClass in r) != (LightClass in r)
    ensures ToLower(ResolveMode(navbarAttr, bodyAttr)) == "solid" ==> ScrolledClass in r && LightClass in r
    ensures scrollY > ScrollThreshold || expanded ==> ScrolledClass in r && LightClass in r
    ensures (navbarAttr.None? || navbarAttr.value == "") && (bodyAttr.None? || bodyAttr.value == "") ==>
              (TransparentClass in r <==> hasHero && scrollY <= ScrollThreshold && !expanded)
    ensures forall c :: !Managed(c) ==> (c in r <==> c in classes)
  {
    var mode := ResolveMode(navbarAttr, bodyAttr);
    var style := NavbarStyle(mode, ResolveTheme(themeAttr), hasHero, scrollY, expanded);
    ScrolledIsSolidWhen(mode, ResolveTheme(themeAttr), hasHero, scrollY, expanded);
    ApplyStyle(classes, style)
  }

  /** Pixel constants of `ensureBubbleStacking`. */
  const Gap := 8
  const BaseBottom := 16
  const DefaultFaqHeight := 56

  /** `Math.round(height) || 56` when the FAQ button exists, else 56: the height rounded to the
      nearest integer, halves upward, with a zero result replaced by the fallback. */
  function FaqHeight(measured: Option<real>): (r: int)
    ensures r != 0
    ensures measured.None? ==> r == DefaultFaqHeight
    ensures measured.Some? && r != DefaultFaqHeight ==> r as real - 0.5 <= measured.value < r as real + 0.5
    ensures measured.Some? && !(-0.5 <= measured.value < 0.5) && !(DefaultFaqHeight as real - 0.5 <= measured.value < DefaultFaqHeight as real + 0.5) ==>
              r as real - 0.5 <= measured.value < r as real + 0.5
    ensures measured.Some? && -0.5 <= measured.value < 0.5 ==> r == DefaultFaqHeight
  {
    if measured.None? then DefaultFaqHeight
    else
      var rounded := (measured.value + 0.5).Floor;
      if rounded == 0 then DefaultFaqHeight else rounded
  }

  /** Where the two bubbles sit, in pixels from the bottom of the window. */
  datatype Stack = Stack(faqBottom: int, faqHeight: int, cartBottom: int)

  function BubbleStack(measured: Option<real>): (r: Stack)
    ensures r.faqBottom == BaseBottom && r.faqHeight == FaqHeight(measured)
    ensures r.cartBottom - (r.faqBottom + r.faqHeight) == Gap
  {
    var h := FaqHeight(measured);
    Stack(BaseBottom, h, BaseBottom + h + Gap)
  }

  /** Without a measurable FAQ button the cart bubble sits 80 pixels up; a whole-pixel height
      h moves it to 24 + h. */
  lemma CartBottomValues(h: int)
    requires h != 0
    ensures BubbleStack(None).cartBottom == 80
    ensures BubbleStack(Some(h as real)).cartBottom == 24 + h
  {
    assert (h as real + 0.5).Floor == h;
  }
}
