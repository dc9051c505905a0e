/**
 * The navigation bar's logic: which link is active, the avatar's initials, where
 * the avatar leads, and the mobile menu's `open` flag.
 */
module Navbar {
  import opened Wrappers
  import JsString
  import Seqs

  /** `isActive(href)` under the current `pathname`: exact for "/", a plain prefix test otherwise. */
  function IsActive(pathname: string, href: string): (b: bool)
    ensures href == "/" ==> (b <==> pathname == "/")
    ensures href != "/" ==> (b <==> JsString.StartsWith(pathname, href))
  {
    pathname == href || (href != "/" && JsString.StartsWith(pathname, href))
  }

  /** The prefix test also marks sibling paths active: "/generationsX" activates "/generations". */
  lemma IsActivePrefixQuirk()
    ensures IsActive("/generations/abc", "/generations")
    ensures IsActive("/generationsX", "/generations")
    ensures !IsActive("/generations", "/")
  {
    var g := "/generations";
    assert "/generations/abc"[..|g|] == g;
    assert "/generationsX"[..|g|] == g;
  }

  predicate NonEmpty(w: string)
  {
    w != []
  }

  /**
   * `.map(s => s[0]).join("")`: the first character of each non-empty word, in
   * order; an empty word (`""[0]` is `undefined`, which `join` drops) gives nothing.
   */
  function FirstChars(words: seq<string>): (r: string)
    ensures |r| == |Seqs.Filter(words, NonEmpty)|
    ensures forall i :: 0 <= i < |r| ==> r[i] == Seqs.Filter(words, NonEmpty)[i][0]
    ensures forall c | c in r :: exists w | w in words :: w != [] && c == w[0]
  {
    if words == [] then []
    else
      var rest := FirstChars(words[1..]);
      var r := (if words[0] == [] then [] else [words[0][0]]) + rest;
      Seqs.FilterCons(words, NonEmpty);
      assert forall c | c in rest :: exists w | w in words[1..] :: w != [] && c == w[0];
      assert forall w | w in words[1..] :: w in words;
      r
  }

  /** `.slice(0, n)`: the first `n` characters, or all of them when there are fewer. */
  function Take(s: string, n: nat): (r: string)
    ensures |r| == if |s| <= n then |s| else n
    ensures r == s[..|r|]
  {
    if |s| <= n then s else s[..n]
  }

  /**
   * The initials of a name as the source computes them: the first characters of
   * the first two non-empty space-separated words, in order, upper-cased.
   */
  function InitialsOf(name: string): (r: string)
    ensures var words := Seqs.Filter(JsString.Split(name, ' '), NonEmpty);
      && |r| == (if |words| <= 2 then |words| else 2)
      && forall i :: 0 <= i < |r| ==> r[i] == JsString.ToUpperAscii(words[i][0])
    ensures forall i :: 0 <= i < |r| ==>
      exists w | w in JsString.Split(name, ' ') :: w != [] && r[i] == JsString.ToUpperAscii(w[0])
  {
    var firsts := FirstChars(JsString.Split(name, ' '));
    var t := Take(firsts, 2);
    var r := JsString.ToUpper(t);
    assert forall i :: 0 <= i < |r| ==> r[i] == JsString.ToUpperAscii(t[i]) && t[i] in firsts;
    r
  }

  /** Two non-empty words without spaces, joined by one space, give their two initials. */
  lemma TwoWordInitials(w1: string, w2: string)
    requires w1 != [] && w2 != [] && ' ' !in w1 && ' ' !in w2
    ensures InitialsOf(w1 + " " + w2) == JsString.ToUpper([w1[0], w2[0]])
  {
    SplitWord(w2, []);
    assert w2 + [] == w2;
    assert JsString.Split(w2, ' ') == [w2];
    var tail := " " + w2;
    assert tail[1..] == w2;
    assert JsString.Split(tail, ' ') == ["", w2];
    SplitWord(w1, tail);
    assert w1 + " " + w2 == w1 + tail;
    var pt := JsString.Split(tail, ' ');
    assert w1 + pt[0] == w1 && pt[1..] == [w2];
    var ws := [w1, w2];
    assert JsString.Split(w1 + " " + w2, ' ') == ws;
    Seqs.FilterCons(ws, NonEmpty);
    Seqs.FilterCons(ws[1..], NonEmpty);
    assert ws[1..][1..] == [];
    assert Seqs.Filter(ws, NonEmpty) == ws;
  }

  /** "Ada Lovelace" shows "AL". */
  lemma InitialsExample()
    ensures InitialsOf("Ada Lovelace") == "AL"
  {
    assert "Ada Lovelace" == "Ada" + " " + "Lovelace";
    TwoWordInitials("Ada", "Lovelace");
  }

  /** `fallback` as written: the initials of `displayName || "NB"`. */
  function InitialsAsWritten(displayName: Option<string>): (r: string)
    ensures |r| <= 2
    ensures displayName.Some? && displayName.value != [] ==> r == InitialsOf(displayName.value)
  {
    InitialsOf(if displayName.None? || displayName.value == [] then "NB" else displayName.value)
  }

  /** A user without a display name sees "N": the "NB" fallback is itself cut to its first word's initial. */
  lemma NoNameGivesN()
    ensures InitialsAsWritten(None) == "N"
    ensures InitialsAsWritten(Some("")) == "N"
  {
    SplitWord("NB", []);
    assert "NB" + [] == "NB";
    var ws := ["NB"];
    assert JsString.Split("NB", ' ') == ws;
    assert ws[1..] == [];
    assert FirstChars(ws) == "N";
  }

  /** The evidently intended fallback: the initials of the display name, or "NB" when they are empty. */
  function Initials(displayName: Option<string>): (r: string)
    ensures 1 <= |r| <= 2
    ensures displayName.None? || displayName.value == [] ==> r == "NB"
    ensures displayName.Some? && InitialsOf(displayName.value) != [] ==> r == InitialsOf(displayName.value)
  {
    var i := if displayName.None? then [] else InitialsOf(displayName.value);
    if i == [] then "NB" else i
  }

  /** A name with at least one word gets the same initials either way. */
  lemma InitialsAgreeOnNamedUsers(name: string)
    requires InitialsOf(name) != []
    ensures Initials(Some(name)) == InitialsAsWritten(Some(name))
  {
    InitialsOfEmpty();
  }

  lemma InitialsOfEmpty()
    ensures InitialsOf("") == []
  {
    assert JsString.Split("", ' ') == [""];
    var ws := [""];
    assert ws[1..] == [];
    assert FirstChars(ws) == [];
  }

  // A word without spaces in front of `rest` joins the first piece of `rest`.
  lemma {:induction false} SplitWord(w: string, rest: string)
    requires ' ' !in w
    ensures JsString.Split(w + rest, ' ') == [w + JsString.Split(rest, ' ')[0]] + JsString.Split(rest, ' ')[1..]
  {
    if w != [] {
      SplitWord(w[1..], rest);
      var p := JsString.Split(rest, ' ');
      var r := JsString.Split(w[1..] + rest, ' ');
      assert (w + rest)[0] == w[0] && w[0] != ' ';
      assert (w + rest)[1..] == w[1..] + rest;
      assert JsString.Split(w + rest, ' ') == [[w[0]] + r[0]] + r[1..];
      assert r[0] == w[1..] + p[0] && r[1..] == p[1..];
      assert [w[0]] + (w[1..] + p[0]) == w + p[0];
    } else {
      var p := JsString.Split(rest, ' ');
      assert w + rest == rest && w + p[0] == p[0];
      assert [p[0]] + p[1..] == p;
    }
  }

  /** `handleAvatarClick` routing: the sign-in page without a user, the settings page otherwise. */
  function AvatarTarget(signedIn: bool): (route: string)
    ensures route == "/signin" <==> !signedIn
    ensures route == "/settings" <==> signedIn
  {
    if signedIn then "/settings" else "/signin"
  }

  /** The mobile menu's `open` flag and the events that change it. */
  class NavMenu {
    var open: bool

    constructor ()
      ensures !open
    {
      open := false;
    }

    /** The window's `keydown` listener: Escape closes the menu; other keys change nothing. */
    method OnKey(key: string)
      modifies this
      ensures key == "Escape" ==> !open
      ensures key != "Escape" ==> open == old(open)
    {
      if key == "Escape" {
        open := false;
      }
    }

    /** The hamburger button. */
    method OnHamburger()
      modifies this
      ensures open == !old(open)
    {
      open := !open;
    }

    /** A link in the mobile menu. */
    method OnLinkClick()
      modifies this
      ensures !open
    {
      open := false;
    }

    /** The overlay behind the mobile menu. */
    method OnOverlayClick()
      modifies this
      ensures !open
    {
      open := false;
    }

    /** `handleAvatarClick`: the route it pushes; the menu always closes. */
    method OnAvatarClick(signedIn: bool) returns (route: string)
      modifies this
      ensures route == AvatarTarget(signedIn)
      ensures !open
    {
      if !signedIn {
        route := "/signin";
      } else {
        route := "/settings";
      }
      open := false;
    }
  }
}
