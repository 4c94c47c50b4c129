/**
  Rendering settings: the colour palette and its name lookup, text formatters, and the
  small value wrappers (padding, alignment, overflow, border, renderer) that the
  bindings hand to the rendering engine.
*/
module Settings {
  import opened Wrappers
  import Native

  /** An 8-bit channel of a truecolour value (Rust `u8`). */
  newtype u8 = x: int | 0 <= x < 256

  /** The error the bindings raise for a bad argument value; it carries a message. */
  datatype FormatterError = FormatterError(message: string)

  // ---------------------------------------------------------------------------
  // Colours
  // ---------------------------------------------------------------------------

  /** The 18 palette colours: 9 base colours and their bright variants. */
  datatype Color =
    | Black | Red | Green | Yellow | Blue | Magenta | Purple | Cyan | White
    | BrightBlack | BrightRed | BrightGreen | BrightYellow | BrightBlue
    | BrightMagenta | BrightPurple | BrightCyan | BrightWhite

  /** The nine bright variants. */
  predicate IsBright(c: Color) {
    c.BrightBlack? || c.BrightRed? || c.BrightGreen? || c.BrightYellow? || c.BrightBlue?
    || c.BrightMagenta? || c.BrightPurple? || c.BrightCyan? || c.BrightWhite?
  }

  /** The base colour's word, shared by a colour and its bright variant. */
  function BaseName(c: Color): string {
    match c
    case Black | BrightBlack => "black"
    case Red | BrightRed => "red"
    case Green | BrightGreen => "green"
    case Yellow | BrightYellow => "yellow"
    case Blue | BrightBlue => "blue"
    case Magenta | BrightMagenta => "magenta"
    case Purple | BrightPurple => "purple"
    case Cyan | BrightCyan => "cyan"
    case White | BrightWhite => "white"
  }

  /** The name `Color::repr` shows for a colour: "black", ..., "bright black", ... */
  function DisplayName(c: Color): (r: string)
    ensures IsBright(c) <==> |r| > 7 && r[..7] == "bright "
    ensures !IsBright(c) ==> forall i :: 0 <= i < |r| ==> r[i] != ' '
  {
    if IsBright(c) then "bright " + BaseName(c) else BaseName(c)
  }

  predicate IsAsciiUpper(ch: char) {
    'A' <= ch <= 'Z'
  }

  /** Distance from an ASCII capital to its lower-case letter ('a' - 'A'). */
  const CaseOffset: int := 'a' as int - 'A' as int

  /** `char::to_ascii_lowercase`: 'A'..'Z' become 'a'..'z'; every other character is kept. */
  function AsciiLower(ch: char): (r: char)
    ensures !IsAsciiUpper(r)
    ensures IsAsciiUpper(ch) ==> r as int == ch as int + CaseOffset && 'a' <= r <= 'z'
    ensures !IsAsciiUpper(ch) ==> r == ch
  {
    if IsAsciiUpper(ch) then (ch as int - 'A' as int + 'a' as int) as char else ch
  }

  /** `str::replace(' ', "")`: every space removed, everything else kept in order. */
  function RemoveSpaces(s: string): (r: string)
    ensures |r| <= |s|
    ensures forall i :: 0 <= i < |r| ==> r[i] != ' '
  {
    if s == [] then []
    else
      assert s == [s[0]] + s[1..];
      if s[0] == ' ' then RemoveSpaces(s[1..])
    else [s[0]] + RemoveSpaces(s[1..])
  }

  /** Removing spaces keeps every other character, as often as it occurred. */
  lemma {:induction false} RemoveSpacesKeepsOthers(s: string, ch: char)
    requires ch != ' '
    ensures multiset(RemoveSpaces(s))[ch] == multiset(s)[ch]
  {
    if s != [] {
      assert s == [s[0]] + s[1..];
      RemoveSpacesKeepsOthers(s[1..], ch);
    }
  }

  /** `str::to_ascii_lowercase`. */
  function AsciiLowercase(s: string): (r: string)
    ensures |r| == |s|
    ensures forall i :: 0 <= i < |s| ==> r[i] == AsciiLower(s[i])
  {
    seq(|s|, i requires 0 <= i < |s| => AsciiLower(s[i]))
  }

  /** The key `from_color_name` matches on: spaces removed, then ASCII-lowercased. */
  function Normalize(s: string): (r: string)
    ensures forall i :: 0 <= i < |r| ==> r[i] != ' ' && !IsAsciiUpper(r[i])
  {
    AsciiLowercase(RemoveSpaces(s))
  }

  /** The literal `from_color_name` matches for a colour. */
  function MatchKey(c: Color): string {
    match c
    case Black => "black"
    case Red => "red"
    case Green => "green"
    case Yellow => "yellow"
    case Blue => "blue"
    case Magenta => "magenta"
    case Purple => "purple"
    case Cyan => "cyan"
    case White => "white"
    case BrightBlack => "brightblack"
    case BrightRed => "brightred"
    case BrightGreen => "brightgreen"
    case BrightYellow => "brightyellow"
    case BrightBlue => "brightblue"
    case BrightMagenta => "brightmagenta"
    case BrightPurple => "brightpurple"
    case BrightCyan => "brightcyan"
    case BrightWhite => "brightwhite"
  }

  /** The match arms of `from_color_name`, applied to an already normalised key. */
  function KeyColor(key: string): (r: Option<Color>)
    ensures r.Some? ==> MatchKey(r.value) == key
    ensures r.None? <==> forall c: Color :: MatchKey(c) != key
  {
    if key == "black" then Some(Black)
    else if key == "red" then Some(Red)
    else if key == "green" then Some(Green)
    else if key == "yellow" then Some(Yellow)
    else if key == "blue" then Some(Blue)
    else if key == "magenta" then Some(Magenta)
    else if key == "purple" then Some(Purple)
    else if key == "cyan" then Some(Cyan)
    else if key == "white" then Some(White)
    else if key == "brightblack" then Some(BrightBlack)
    else if key == "brightred" then Some(BrightRed)
    else if key == "brightgreen" then Some(BrightGreen)
    else if key == "brightyellow" then Some(BrightYellow)
    else if key == "brightblue" then Some(BrightBlue)
    else if key == "brightmagenta" then Some(BrightMagenta)
    else if key == "brightpurple" then Some(BrightPurple)
    else if key == "brightcyan" then Some(BrightCyan)
    else if key == "brightwhite" then Some(BrightWhite)
    else None
  }

  /**
    `Color::from_color_name`: the colour whose display name normalises to the same key
    as the input, or an error carrying the input exactly as given.
  */
  function FromColorName(s: string): (r: Result<Color, FormatterError>)
    ensures r.Success? ==> MatchKey(r.value) == Normalize(s)
    ensures r.Failure? <==> forall c: Color :: MatchKey(c) != Normalize(s)
    ensures r.Failure? ==> r.error == FormatterError("Invalid Color Name: " + s)
  {
    match KeyColor(Normalize(s))
    case Some(c) => Success(c)
    case None => Failure(FormatterError("Invalid Color Name: " + s))
  }

  lemma {:induction false} RemoveSpacesAppend(a: string, b: string)
    ensures RemoveSpaces(a + b) == RemoveSpaces(a) + RemoveSpaces(b)
  {
    if a != [] {
      assert (a + b)[1..] == a[1..] + b;
      RemoveSpacesAppend(a[1..], b);
    } else {
      assert a + b == b;
    }
  }

  lemma {:induction false} RemoveSpacesNoSpace(s: string)
    requires forall i :: 0 <= i < |s| ==> s[i] != ' '
    ensures RemoveSpaces(s) == s
  {
    if s != [] {
      RemoveSpacesNoSpace(s[1..]);
    }
  }

  /** A word a colour name is made of: no spaces and no upper-case letters. */
  predicate PlainWord(w: string) {
    forall i :: 0 <= i < |w| ==> w[i] != ' ' && !IsAsciiUpper(w[i])
  }

  /** A plain word is its own key. */
  lemma {:induction false} NormalizePlain(w: string)
    requires PlainWord(w)
    ensures Normalize(w) == w
  {
    RemoveSpacesNoSpace(w);
  }

  /** Two plain words joined by a space normalise to the two words run together. */
  lemma {:induction false} NormalizeJoin(a: string, w: string)
    requires PlainWord(a) && PlainWord(w)
    ensures Normalize(a + " " + w) == a + w
  {
    assert a + " " + w == a + (" " + w);
    RemoveSpacesAppend(a, " " + w);
    assert RemoveSpaces(" " + w) == RemoveSpaces(w) by {
      assert (" " + w)[0] == ' ' && (" " + w)[1..] == w;
    }
    RemoveSpacesNoSpace(a);
    RemoveSpacesNoSpace(w);
    assert PlainWord(a + w) by {
      forall i | 0 <= i < |a + w|
        ensures (a + w)[i] != ' ' && !IsAsciiUpper((a + w)[i])
      {
        if i < |a| { assert (a + w)[i] == a[i]; } else { assert (a + w)[i] == w[i - |a|]; }
      }
    }
    NormalizePlain(a + w);
  }

  /** A base colour's key is its word. */
  lemma MatchKeyBase(c: Color)
    requires !IsBright(c)
    ensures MatchKey(c) == BaseName(c)
  {
  }

  /** A bright colour's key is "bright" followed by its base word. */
  lemma MatchKeyBright(c: Color)
    requires IsBright(c)
    ensures MatchKey(c) == "bright" + BaseName(c)
  {
  }

  lemma BaseNamePlain(c: Color)
    ensures PlainWord(BaseName(c))
  {
  }

  /** Normalising a display name yields exactly the key `from_color_name` matches. */
  lemma NormalizedNames()
    ensures forall c: Color :: Normalize(DisplayName(c)) == MatchKey(c)
  {
    forall c: Color ensures Normalize(DisplayName(c)) == MatchKey(c) {
      BaseNamePlain(c);
      if IsBright(c) {
        MatchKeyBright(c);
        assert "bright " == "bright" + " ";
        assert PlainWord("bright");
        NormalizeJoin("bright", BaseName(c));
      } else {
        MatchKeyBase(c);
        NormalizePlain(BaseName(c));
      }
    }
  }

  /** Distinct colours have distinct keys, so each key selects one colour. */
  lemma MatchKeyInjective(c: Color, d: Color)
    requires MatchKey(c) == MatchKey(d)
    ensures c == d
  {
  }

  /** Looking up the name `Color::repr` shows for a colour gives that colour back. */
  lemma ColorNameRoundTrip(c: Color)
    ensures FromColorName(DisplayName(c)) == Success(c)
  {
    NormalizedNames();
    var r := FromColorName(DisplayName(c));
    assert r.Success? && MatchKey(r.value) == MatchKey(c);
    MatchKeyInjective(r.value, c);
  }

  /**
    `a` and `b` are the same character, or the capital and the small form of one ASCII
    letter, in either order.
  */
  predicate SameLetterIgnoringCase(a: char, b: char) {
    a == b
    || (IsAsciiUpper(a) && b as int == a as int + CaseOffset)
    || (IsAsciiUpper(b) && a as int == b as int + CaseOffset)
  }

  /** Lower-casing identifies two characters exactly when they differ only in ASCII case. */
  lemma AsciiLowerIdentifiesCase(a: char, b: char)
    ensures AsciiLower(a) == AsciiLower(b) <==> SameLetterIgnoringCase(a, b)
  {
  }

  /** `s` and `t` differ at most in the case of ASCII letters, position by position. */
  predicate SameIgnoringAsciiCase(s: string, t: string) {
    |s| == |t| && forall i :: 0 <= i < |s| ==> SameLetterIgnoringCase(s[i], t[i])
  }

  lemma {:induction false} RemoveSpacesIgnoresCase(s: string, t: string)
    requires SameIgnoringAsciiCase(s, t)
    ensures SameIgnoringAsciiCase(RemoveSpaces(s), RemoveSpaces(t))
  {
    if s != [] {
      var s', t' := s[1..], t[1..];
      assert SameIgnoringAsciiCase(s', t') by {
        forall i | 0 <= i < |s'| ensures SameLetterIgnoringCase(s'[i], t'[i]) {
          assert s'[i] == s[i + 1] && t'[i] == t[i + 1];
        }
      }
      RemoveSpacesIgnoresCase(s', t');
      assert SameLetterIgnoringCase(s[0], t[0]);
      if s[0] != ' ' {
        assert t[0] != ' ';
        var a, b := RemoveSpaces(s'), RemoveSpaces(t');
        assert RemoveSpaces(s) == [s[0]] + a && RemoveSpaces(t) == [t[0]] + b;
        forall i | 0 <= i < |a| + 1
          ensures SameLetterIgnoringCase(([s[0]] + a)[i], ([t[0]] + b)[i])
        {
          if i > 0 {
            assert ([s[0]] + a)[i] == a[i - 1] && ([t[0]] + b)[i] == b[i - 1];
          }
        }
      } else {
        assert t[0] == ' ';
      }
    }
  }

  lemma NormalizeIgnoresCase(s: string, t: string)
    requires SameIgnoringAsciiCase(s, t)
    ensures Normalize(s) == Normalize(t)
  {
    RemoveSpacesIgnoresCase(s, t);
    var a, b := RemoveSpaces(s), RemoveSpaces(t);
    forall i | 0 <= i < |a| ensures AsciiLower(a[i]) == AsciiLower(b[i]) {
      AsciiLowerIdentifiesCase(a[i], b[i]);
    }
    assert AsciiLowercase(a) == AsciiLowercase(b);
  }

  lemma {:induction false} NormalizeIgnoresSpace(s: string, i: nat)
    requires i <= |s|
    ensures Normalize(s[..i] + " " + s[i..]) == Normalize(s)
  {
    assert s[..i] + " " + s[i..] == s[..i] + (" " + s[i..]);
    RemoveSpacesAppend(s[..i], " " + s[i..]);
    RemoveSpacesAppend(" ", s[i..]);
    RemoveSpacesAppend(s[..i], s[i..]);
    assert s[..i] + s[i..] == s;
  }

  /**
    `from_color_name` does not see ASCII case or spaces: two inputs that differ only in
    letter case, or by an inserted space, name the same colour (or both fail).
  */
  lemma {:induction false} FromColorNameIgnoresCase(s: string, t: string)
    requires SameIgnoringAsciiCase(s, t)
    ensures FromColorName(s).Success? <==> FromColorName(t).Success?
    ensures FromColorName(s).Success? ==> FromColorName(s).value == FromColorName(t).value
  {
    NormalizeIgnoresCase(s, t);
  }

  lemma {:induction false} FromColorNameIgnoresSpace(s: string, i: nat)
    requires i <= |s|
    ensures FromColorName(s).Success? <==> FromColorName(s[..i] + " " + s[i..]).Success?
    ensures FromColorName(s).Success? ==> FromColorName(s).value == FromColorName(s[..i] + " " + s[i..]).value
  {
    NormalizeIgnoresSpace(s, i);
  }

  // ---------------------------------------------------------------------------
  // Formatters
  // ---------------------------------------------------------------------------

  /** `_Color`: a palette colour or a 24-bit truecolour. */
  datatype ColorSpec = Palette(color: Color) | TrueColor(r: u8, g: u8, b: u8)

  /** `_Formatter`: foreground colour, background colour, or a named text style. */
  datatype Style =
    | Fg(fg: ColorSpec)
    | Bg(bg: ColorSpec)
    | Clear | Normal | Bold | Dimmed | Italic | Underline | Blink | Reversed | Hidden | Strikethrough

  /** `Formatter`, the public wrapper around a style; the presets are its static constants. */
  datatype Formatter = Formatter(style: Style) {
    static const Clear := Formatter(Style.Clear)
    static const Normal := Formatter(Style.Normal)
    static const Bold := Formatter(Style.Bold)
    static const Dimmed := Formatter(Style.Dimmed)
    static const Italic := Formatter(Style.Italic)
    static const Underline := Formatter(Style.Underline)
    static const Blink := Formatter(Style.Blink)
    static const Reversed := Formatter(Style.Reversed)
    static const Hidden := Formatter(Style.Hidden)
    static const Strikethrough := Formatter(Style.Strikethrough)
  }

  /** A style that carries a truecolour, whether as foreground or as background. */
  predicate IsTrueColor(st: Style) {
    (st.Fg? && st.fg.TrueColor?) || (st.Bg? && st.bg.TrueColor?)
  }

  /** `Formatter::color`: a palette colour as the text colour. */
  function ColorFormatter(c: Color): (f: Formatter)
    ensures f.style.Fg? && f.style.fg == Palette(c)
    ensures AsFunc(f) == Static(Paint(c))
  {
    Formatter(Fg(Palette(c)))
  }

  /** `Formatter::on_color`: a palette colour as the background. */
  function OnColorFormatter(c: Color): (f: Formatter)
    ensures f.style.Bg? && f.style.bg == Palette(c)
    ensures AsFunc(f) == Static(OnPaint(c))
  {
    Formatter(Bg(Palette(c)))
  }

  /** `Formatter::rbg_color`: a truecolour `(r, g, b)` as the text colour. */
  function RbgColorFormatter(r: u8, g: u8, b: u8): (f: Formatter)
    ensures f.style.Fg? && f.style.fg == TrueColor(r, g, b)
    ensures AsFunc(f) == Closure(Truecolor(r, g, b))
  {
    Formatter(Fg(TrueColor(r, g, b)))
  }

  /** `Formatter::on_rbg_color`: a truecolour `(r, g, b)` as the background. */
  function OnRbgColorFormatter(r: u8, g: u8, b: u8): (f: Formatter)
    ensures f.style.Bg? && f.style.bg == TrueColor(r, g, b)
    ensures AsFunc(f) == Closure(OnTruecolor(r, g, b))
  {
    Formatter(Bg(TrueColor(r, g, b)))
  }

  /**
    The statically bound `colored::Colorize` methods a formatter can select: one per
    text style, and one foreground and one background method per palette colour.
  */
  datatype ColorizeMethod =
    | ClearText | NormalText | BoldText | DimmedText | ItalicText | UnderlineText
    | BlinkText | ReversedText | HiddenText | StrikethroughText
    | Paint(color: Color)
    | OnPaint(background: Color)

  /** The closures built for truecolour: they capture the three channels. */
  datatype TruecolorClosure =
    | Truecolor(r: u8, g: u8, b: u8)
    | OnTruecolor(br: u8, bg: u8, bb: u8)

  /** `FormatFunc`: a static function (`Normal`) or a boxed closure (`Anonymous`). */
  datatype FormatFunc = Static(colorize: ColorizeMethod) | Closure(closure: TruecolorClosure)

  /**
    `Formatter::as_func`: presets and palette colours select a static `Colorize` method;
    truecolours, in the foreground or the background, need a closure over `(r, g, b)`.
  */
  function AsFunc(f: Formatter): (ff: FormatFunc)
    ensures ff.Closure? <==> IsTrueColor(f.style)
  {
    match f.style
    case Clear => Static(ClearText)
    case Normal => Static(NormalText)
    case Bold => Static(BoldText)
    case Dimmed => Static(DimmedText)
    case Italic => Static(ItalicText)
    case Underline => Static(UnderlineText)
    case Blink => Static(BlinkText)
    case Reversed => Static(ReversedText)
    case Hidden => Static(HiddenText)
    case Strikethrough => Static(StrikethroughText)
    case Fg(TrueColor(r, g, b)) => Closure(Truecolor(r, g, b))
    case Fg(Palette(c)) => Static(Paint(c))
    case Bg(TrueColor(r, g, b)) => Closure(OnTruecolor(r, g, b))
    case Bg(Palette(c)) => Static(OnPaint(c))
  }

  /** Distinct formatters select distinct `Colorize` methods or closures. */
  lemma AsFuncInjective(f: Formatter, g: Formatter)
    requires AsFunc(f) == AsFunc(g)
    ensures f == g
  {
  }

  // ---------------------------------------------------------------------------
  // Padding, alignment, overflow
  // ---------------------------------------------------------------------------

  /** `Padding`: blank columns inside the cell on each side (`usize` fields). */
  datatype Padding = Padding(left: nat, right: nat) {
    static const Empty := Padding(0, 0)
  }

  /** `Padding::new`. */
  function NewPadding(left: nat, right: nat): (p: Padding)
    ensures p.left == left && p.right == right
  {
    Padding(left, right)
  }

  /** The derived `Padding::default()`: both sides `usize::default()`, i.e. zero. */
  function DefaultPadding(): (p: Padding)
    ensures p == Padding.Empty
  {
    Padding(0, 0)
  }

  /** `Padding::to_native`: both sides copied unchanged. */
  function PaddingToNative(p: Padding): (n: Native.Padding)
    ensures NewPadding(n.left, n.right) == p
  {
    Native.Padding(p.left, p.right)
  }

  /** `Align`, a wrapper around the engine's alignment. */
  datatype Align = Align(align: Native.Align) {
    static const Left := Align(Native.Left)
    static const Right := Align(Native.Right)
    static const Center := Align(Native.Center)
  }

  /** The derived `Align::default()`: the engine's default alignment, wrapped. */
  function DefaultAlign(): (a: Align)
    ensures AlignToNative(a) == Native.DefaultAlign
  {
    Align(Native.DefaultAlign)
  }

  /** `Align::to_native`, the inverse of `Align::new`. */
  function AlignToNative(a: Align): (n: Native.Align)
    ensures Align(n) == a
  {
    a.align
  }

  /** `Overflow`, a wrapper around the engine's overflow policy. */
  datatype Overflow = Overflow(overflow: Native.Overflow) {
    static const Hide := Overflow(Native.Hidden)
    static const Ellipse := Overflow(Native.Ellipsis)
  }

  /** The derived `Overflow::default()`: the engine's default policy, wrapped. */
  function DefaultOverflow(): (o: Overflow)
    ensures OverflowToNative(o) == Native.DefaultOverflow
  {
    Overflow(Native.DefaultOverflow)
  }

  /** `Overflow::to_native`, the inverse of `Overflow::new`. */
  function OverflowToNative(o: Overflow): (n: Native.Overflow)
    ensures Overflow(n) == o
  {
    o.overflow
  }

  // ---------------------------------------------------------------------------
  // Border and renderer
  // ---------------------------------------------------------------------------

  /** `Border`: which of the four outer edges are drawn. */
  datatype Border = Border(left: bool, right: bool, top: bool, bottom: bool) {
    static const Default := Border(false, false, false, false)
    static const Horizontal := Border(false, false, true, true)
    static const Vertical := Border(true, true, false, false)
    static const All := Border(true, true, true, true)
  }

  /** `Border::new` (and `__new__`), positional `(left, right, top, bottom)`. */
  function NewBorder(left: bool, right: bool, top: bool, bottom: bool): (b: Border)
    ensures b.left == left && b.right == right && b.top == top && b.bottom == bottom
  {
    Border(left, right, top, bottom)
  }

  /** The derived `Border::default()`: every flag `bool::default()`, i.e. false. */
  function DerivedDefaultBorder(): (b: Border)
    ensures b == Border.Default
  {
    Border(false, false, false, false)
  }

  /** `Border::to_native`: the same four flags in the same positional order. */
  function BorderToNative(b: Border): (n: Native.Border)
    ensures NewBorder(n.left, n.right, n.top, n.bottom) == b
  {
    Native.Border(b.left, b.right, b.top, b.bottom)
  }

  /** What each border preset draws. */
  lemma BorderPresets()
    ensures !Border.Default.left && !Border.Default.right && !Border.Default.top && !Border.Default.bottom
    ensures !Border.Horizontal.left && !Border.Horizontal.right && Border.Horizontal.top && Border.Horizontal.bottom
    ensures Border.Vertical.left && Border.Vertical.right && !Border.Vertical.top && !Border.Vertical.bottom
    ensures Border.All.left && Border.All.right && Border.All.top && Border.All.bottom
  {
  }

  /** `Renderer`: the output mode requested from the engine. */
  datatype Renderer = Normal | Raw | Markdown

  /** `Renderer::to_native`: each mode maps to the engine's mode of the same name. */
  function RendererToNative(r: Renderer): (n: Native.Renderer)
    ensures n.Normal? <==> r.Normal?
    ensures n.Raw? <==> r.Raw?
    ensures n.Markdown? <==> r.Markdown?
  {
    match r
    case Normal => Native.Renderer.Normal
    case Raw => Native.Raw
    case Markdown => Native.Markdown
  }

  /** `Renderer::to_native` is one-to-one; with its contract, it is a bijection. */
  lemma RendererToNativeInjective(a: Renderer, b: Renderer)
    requires RendererToNative(a) == RendererToNative(b)
    ensures a == b
  {
  }
}
