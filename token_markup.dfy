/**
 * The markup the battlemap renderer writes for one token (`addToken`): an
 * `<image>` when the token has a picture, a grey or coloured `<circle>`
 * otherwise, and nothing when the token has no position.
 *
 * Coordinates are Java doubles of the form whole or whole-and-a-half; the
 * model keeps them as twice their value (`left2`, `r2`, ...) and prints them
 * with `HalfToString`.
 */
module TokenMarkup {
  import opened Common
  import opened Text
  import opened GridFormat
  import opened BattlemapRequest
  import opened SvgText

  /** `URLEncoder.encode(s, UTF_8)`. */
  type UrlEncoder = string -> string

  const DefaultTokenSize: int := 40
  const DefaultFill: string := "#808080"
  const DefaultStroke: string := "#000000"

  /** `StringUtils.isNotBlank` of a possibly null string. */
  predicate NotBlank(s: Option<string>) { s.Some? && !IsBlank(s.value) }

  /** A token is a piece of scenery when its environment type is set. */
  predicate IsScenery(t: Token) { NotBlank(t.envType) }

  /** The side of the token's square: the scenery size when given, else 40 pixels. */
  function TokenSize(t: Token): int
  {
    if IsScenery(t) && t.envSize.Some? then t.envSize.value else DefaultTokenSize
  }

  /** The picture URL rebuilt from a scenery token's type, colour and size. */
  function SceneryUrl(t: Token, baseUrl: string, urlEncode: UrlEncoder): string
    requires IsScenery(t)
  {
    baseUrl + "/env-object?type=" + urlEncode(t.envType.value)
    + (if NotBlank(t.envColor) then "&color=" + urlEncode(t.envColor.value) else "")
    + (if t.envSize.Some? then "&size=" + IntToString(t.envSize.value) else "")
  }

  /** The picture: the scenery URL, else the trimmed avatar URL, else none (null). */
  function TokenUrl(t: Token, baseUrl: string, urlEncode: UrlEncoder): Option<string>
  {
    if IsScenery(t) then Some(SceneryUrl(t, baseUrl, urlEncode))
    else if NotBlank(t.avatarUrl) then Some(JavaTrim(t.avatarUrl.value))
    else None
  }

  /** What `addToken` draws, with every length and coordinate doubled. */
  datatype Shape =
    | Image(left2: int, top2: int, size2: int, href: string)
    | Circle(cx2: int, cy2: int, r2: int, fill: string, stroke: string)

  function TokenShape(t: Token, baseUrl: string, urlEncode: UrlEncoder): Option<Shape>
  {
    if t.x.None? || t.y.None? then None
    else
      var x := t.x.value;
      var y := t.y.value;
      var size := TokenSize(t);
      var url := TokenUrl(t, baseUrl, urlEncode);
      if NotBlank(url) then Some(Image(2 * x - size, 2 * y - size, 2 * size, EscapeXmlAttribute(url.value)))
      else
        Some(Circle(2 * x, 2 * y, size,
                    if NotBlank(t.color) then t.color.value else DefaultFill,
                    if NotBlank(t.borderColor) then t.borderColor.value else DefaultStroke))
  }

  // ---------------------------------------------------------------- what is drawn

  /** A token without both coordinates is skipped; every other token draws exactly one shape. */
  lemma TokenDrawnIffPlaced(t: Token, baseUrl: string, urlEncode: UrlEncoder)
    ensures TokenShape(t, baseUrl, urlEncode).Some? <==> t.x.Some? && t.y.Some?
  {
  }

  lemma SceneryUrlNotBlank(t: Token, baseUrl: string, urlEncode: UrlEncoder)
    requires IsScenery(t)
    ensures !IsBlank(SceneryUrl(t, baseUrl, urlEncode))
  {
    var url := SceneryUrl(t, baseUrl, urlEncode);
    var rest := urlEncode(t.envType.value)
      + (if NotBlank(t.envColor) then "&color=" + urlEncode(t.envColor.value) else "")
      + (if t.envSize.Some? then "&size=" + IntToString(t.envSize.value) else "");
    assert url == baseUrl + ("/env-object?type=" + rest);
    assert url[|baseUrl|] == '/';
    assert !JavaWhitespace(url[|baseUrl|]);
  }

  /**
   * A placed token is a picture exactly when it is scenery or its avatar URL
   * still has a character after trimming; otherwise it is a circle.
   */
  lemma ImageIffPicture(t: Token, baseUrl: string, urlEncode: UrlEncoder)
    requires t.x.Some? && t.y.Some?
    ensures TokenShape(t, baseUrl, urlEncode).value.Image? <==>
      IsScenery(t) || (NotBlank(t.avatarUrl) && !IsBlank(JavaTrim(t.avatarUrl.value)))
  {
    if IsScenery(t) {
      SceneryUrlNotBlank(t, baseUrl, urlEncode);
    }
  }

  /**
   * The picture is a square of the token's size centred on the token, and its
   * `href` reads back, entity by entity, as the URL and holds no quote that
   * could end the attribute.
   */
  lemma ImageCentredOnToken(t: Token, baseUrl: string, urlEncode: UrlEncoder)
    requires TokenShape(t, baseUrl, urlEncode).Some? && TokenShape(t, baseUrl, urlEncode).value.Image?
    ensures var s := TokenShape(t, baseUrl, urlEncode).value;
      && s.size2 == 2 * TokenSize(t)
      && s.left2 + s.size2 / 2 == 2 * t.x.value
      && s.top2 + s.size2 / 2 == 2 * t.y.value
      && TokenUrl(t, baseUrl, urlEncode).Some?
      && UnescapeAttribute(s.href) == TokenUrl(t, baseUrl, urlEncode).value
      && '\'' !in s.href
  {
    var url := TokenUrl(t, baseUrl, urlEncode).value;
    EscapeXmlAttributeRoundTrip(url);
    EscapeXmlAttributeQuotes(url);
  }

  /**
   * A circle is never scenery: it is centred on the token with radius 20,
   * filled with the token's colour or grey and outlined with its border colour
   * or black.
   */
  lemma CircleDefaults(t: Token, baseUrl: string, urlEncode: UrlEncoder)
    requires TokenShape(t, baseUrl, urlEncode).Some? && TokenShape(t, baseUrl, urlEncode).value.Circle?
    ensures var s := TokenShape(t, baseUrl, urlEncode).value;
      && !IsScenery(t)
      && s.cx2 == 2 * t.x.value && s.cy2 == 2 * t.y.value && s.r2 == 2 * 20
      && (s.fill == if NotBlank(t.color) then t.color.value else DefaultFill)
      && (s.stroke == if NotBlank(t.borderColor) then t.borderColor.value else DefaultStroke)
  {
    if IsScenery(t) {
      SceneryUrlNotBlank(t, baseUrl, urlEncode);
    }
  }

  /**
   * Every scenery record read from the packed field is drawn as a picture of
   * its own size, or 40 pixels without a size byte.
   */
  lemma SceneryRecordIsPicture(kind: byte, x: int, y: int, color: Option<string>, size: Option<int>,
                               baseUrl: string, urlEncode: UrlEncoder)
    ensures var t := SceneryToken(kind, x, y, color, size);
      && TokenShape(t, baseUrl, urlEncode).Some?
      && TokenShape(t, baseUrl, urlEncode).value.Image?
      && TokenShape(t, baseUrl, urlEncode).value.size2 == 2 * (if size.Some? then size.value else DefaultTokenSize)
  {
    var t := SceneryToken(kind, x, y, color, size);
    var name := SceneryTypeName(kind);
    assert name in {"tree", "stone", "house"};
    assert !JavaWhitespace(name[0]);
    assert IsScenery(t);
    SceneryUrlNotBlank(t, baseUrl, urlEncode);
  }

  /** Scenery with a size byte is drawn at that size; everything else at 40 pixels. */
  lemma SizeRule(t: Token)
    ensures TokenSize(t) == DefaultTokenSize <== !IsScenery(t) || t.envSize.None?
    ensures IsScenery(t) && t.envSize.Some? ==> TokenSize(t) == t.envSize.value
  {
  }

  /** The size printed in the scenery URL reads back as the size byte. */
  lemma ScenerySizeInUrl(t: Token, baseUrl: string, urlEncode: UrlEncoder)
    requires IsScenery(t) && t.envSize.Some?
    ensures var url := SceneryUrl(t, baseUrl, urlEncode);
      var digits := IntToString(t.envSize.value);
      && EndsWith(url, "&size=" + digits)
      && ParseDecimal(digits) == Some(t.envSize.value)
  {
    var url := SceneryUrl(t, baseUrl, urlEncode);
    var tail := "&size=" + IntToString(t.envSize.value);
    var head := baseUrl + "/env-object?type=" + urlEncode(t.envType.value)
      + (if NotBlank(t.envColor) then "&color=" + urlEncode(t.envColor.value) else "");
    assert url == head + tail;
    assert url[|url| - |tail|..] == tail;
    ParseDecimalOfIntToString(t.envSize.value);
  }

  // ---------------------------------------------------------------- markup

  /** A self-closing element: `<tag name='value' ...'/>`. */
  function AttrText(a: (string, string)): string { " " + a.0 + "='" + a.1 + "'" }

  function AttrsText(attrs: seq<(string, string)>): string
  {
    if attrs == [] then "" else AttrText(attrs[0]) + AttrsText(attrs[1..])
  }

  function ElementText(tag: string, attrs: seq<(string, string)>): string
  {
    "<" + tag + AttrsText(attrs) + "/>"
  }

  function ShapeTag(s: Shape): string
  {
    if s.Image? then "image" else "circle"
  }

  function ShapeAttrs(s: Shape): seq<(string, string)>
  {
    match s
    case Image(l, t, w, href) =>
      [("x", HalfToString(l)), ("y", HalfToString(t)), ("width", HalfToString(w)), ("height", HalfToString(w)),
       ("href", href), ("preserveAspectRatio", "xMidYMid slice")]
    case Circle(cx, cy, r, fill, stroke) =>
      [("cx", HalfToString(cx)), ("cy", HalfToString(cy)), ("r", HalfToString(r)),
       ("fill", fill), ("stroke", stroke), ("stroke-width", "2")]
  }

  function ShapeMarkup(s: Shape): string
  {
    ElementText(ShapeTag(s), ShapeAttrs(s))
  }

  /** `addToken`. */
  function AddToken(t: Token, baseUrl: string, urlEncode: UrlEncoder): string
  {
    match TokenShape(t, baseUrl, urlEncode)
    case None => ""
    case Some(s) => ShapeMarkup(s)
  }

  /** The image element spelled out as the string builder appends it. */
  lemma ImageMarkupText(l: string, t: string, w: string, href: string)
    ensures ElementText("image", [("x", l), ("y", t), ("width", w), ("height", w), ("href", href),
                                  ("preserveAspectRatio", "xMidYMid slice")])
         == "<image x='" + l + "' y='" + t + "' width='" + w + "' height='" + w + "' href='" + href
            + "' preserveAspectRatio='" + "xMidYMid slice" + "'/>"
  {
    var attrs := [("x", l), ("y", t), ("width", w), ("height", w), ("href", href),
                  ("preserveAspectRatio", "xMidYMid slice")];
    AttrsSix(attrs);
    SixRegroup("<" + "image", "/>",
               " " + "x" + "='", " " + "y" + "='", " " + "width" + "='", " " + "height" + "='",
               " " + "href" + "='", " " + "preserveAspectRatio" + "='",
               l, t, w, w, href, "xMidYMid slice",
               "<image x='", "' y='", "' width='", "' height='", "' href='", "' preserveAspectRatio='", "'/>");
  }

  /** The circle element spelled out as the string builder appends it. */
  lemma CircleMarkupText(cx: string, cy: string, r: string, fill: string, stroke: string)
    ensures ElementText("circle", [("cx", cx), ("cy", cy), ("r", r), ("fill", fill), ("stroke", stroke),
                                   ("stroke-width", "2")])
         == "<circle cx='" + cx + "' cy='" + cy + "' r='" + r + "' fill='" + fill
            + "' stroke='" + stroke + "' stroke-width='" + "2" + "'/>"
  {
    var attrs := [("cx", cx), ("cy", cy), ("r", r), ("fill", fill), ("stroke", stroke), ("stroke-width", "2")];
    AttrsSix(attrs);
    SixRegroup("<" + "circle", "/>",
               " " + "cx" + "='", " " + "cy" + "='", " " + "r" + "='", " " + "fill" + "='",
               " " + "stroke" + "='", " " + "stroke-width" + "='",
               cx, cy, r, fill, stroke, "2",
               "<circle cx='", "' cy='", "' r='", "' fill='", "' stroke='", "' stroke-width='", "'/>");
  }

  lemma AttrsSix(attrs: seq<(string, string)>)
    requires |attrs| == 6
    ensures AttrsText(attrs) == AttrText(attrs[0]) + AttrText(attrs[1]) + AttrText(attrs[2])
      + AttrText(attrs[3]) + AttrText(attrs[4]) + AttrText(attrs[5])
  {
    forall k | 0 <= k < 6 ensures AttrsText(attrs[k..]) == AttrText(attrs[k]) + AttrsText(attrs[k + 1..]) {
      assert attrs[k..][0] == attrs[k] && attrs[k..][1..] == attrs[k + 1..];
    }
    assert attrs[0..] == attrs && attrs[6..] == [];
  }

  /**
   * Six attributes between an opening and a closing text, regrouped so that
   * each quote closing a value joins the text that follows it.
   */
  lemma SixRegroup(open: string, close: string,
                   p0: string, p1: string, p2: string, p3: string, p4: string, p5: string,
                   v0: string, v1: string, v2: string, v3: string, v4: string, v5: string,
                   l0: string, l1: string, l2: string, l3: string, l4: string, l5: string, lEnd: string)
    requires l0 == open + p0 && l1 == "'" + p1 && l2 == "'" + p2 && l3 == "'" + p3
    requires l4 == "'" + p4 && l5 == "'" + p5 && lEnd == "'" + close
    ensures open + ((p0 + v0 + "'") + (p1 + v1 + "'") + (p2 + v2 + "'") + (p3 + v3 + "'")
                    + (p4 + v4 + "'") + (p5 + v5 + "'")) + close
         == l0 + v0 + l1 + v1 + l2 + v2 + l3 + v3 + l4 + v4 + l5 + v5 + lEnd
  {
  }

  // ---------------------------------------------------------------- reading the markup back

  predicate IsEquals(c: char) { c == '=' }
  predicate IsQuote(c: char) { c == '\'' }
  predicate EndsTagName(c: char) { c == ' ' || c == '/' }

  /** The length of the longest prefix of `s` without a `stop` character. */
  function Span(s: string, stop: char -> bool): (n: nat)
    ensures n <= |s|
    ensures forall i :: 0 <= i < n ==> !stop(s[i])
    ensures n < |s| ==> stop(s[n])
  {
    if s == [] || stop(s[0]) then 0 else 1 + Span(s[1..], stop)
  }

  lemma SpanOfConcat(a: string, b: string, stop: char -> bool)
    requires forall i :: 0 <= i < |a| ==> !stop(a[i])
    requires b == [] || stop(b[0])
    ensures Span(a + b, stop) == |a|
  {
    var n := Span(a + b, stop);
    if b != [] {
      assert (a + b)[|a|] == b[0];
    }
  }

  /** The attributes of an element up to its closing `/>`. */
  function ParseAttrs(s: string): Option<seq<(string, string)>>
    decreases |s|
  {
    if s == "/>" then Some([])
    else if s == [] || s[0] != ' ' then None
    else
      var r := s[1..];
      var n := Span(r, IsEquals);
      if n + 2 > |r| || r[n + 1] != '\'' then None
      else
        var v := r[n + 2..];
        var m := Span(v, IsQuote);
        if m == |v| then None
        else
          match ParseAttrs(v[m + 1..])
          case None => None
          case Some(rest) => Some([(r[..n], v[..m])] + rest)
  }

  function ParseElement(s: string): Option<(string, seq<(string, string)>)>
  {
    if s == [] || s[0] != '<' then None
    else
      var body := s[1..];
      var n := Span(body, EndsTagName);
      match ParseAttrs(body[n..])
      case None => None
      case Some(attrs) => Some((body[..n], attrs))
  }

  /** Attribute names without `=` and values without `'` can be read back. */
  predicate AttrsReadable(attrs: seq<(string, string)>)
  {
    forall k :: 0 <= k < |attrs| ==> '=' !in attrs[k].0 && '\'' !in attrs[k].1
  }

  lemma {:induction false} AttrsRoundTrip(attrs: seq<(string, string)>)
    requires AttrsReadable(attrs)
    ensures ParseAttrs(AttrsText(attrs) + "/>") == Some(attrs)
    decreases |attrs|
  {
    if attrs != [] {
      ReadableTail(attrs);
      AttrsRoundTrip(attrs[1..]);
      AttrsCons(attrs);
    }
  }

  lemma ReadableTail(attrs: seq<(string, string)>)
    requires attrs != [] && AttrsReadable(attrs)
    ensures AttrsReadable(attrs[1..])
    ensures '=' !in attrs[0].0 && '\'' !in attrs[0].1
  {
    var more := attrs[1..];
    forall k | 0 <= k < |more| ensures '=' !in more[k].0 && '\'' !in more[k].1 {
      assert more[k] == attrs[k + 1];
    }
  }

  /** A first attribute in front of attributes that read back reads back with them. */
  lemma AttrsCons(attrs: seq<(string, string)>)
    requires attrs != [] && '=' !in attrs[0].0 && '\'' !in attrs[0].1
    requires ParseAttrs(AttrsText(attrs[1..]) + "/>") == Some(attrs[1..])
    ensures ParseAttrs(AttrsText(attrs) + "/>") == Some(attrs)
  {
    var tail := AttrsText(attrs[1..]) + "/>";
    assert AttrsText(attrs) + "/>" == AttrText(attrs[0]) + tail;
    ParseAttrsStep(attrs[0].0, attrs[0].1, tail);
    assert [attrs[0]] + attrs[1..] == attrs;
  }

  /** One attribute is read off the front, and the rest is parsed after it. */
  lemma ParseAttrsStep(name: string, value: string, tail: string)
    requires '=' !in name && '\'' !in value
    ensures ParseAttrs(AttrText((name, value)) + tail)
         == match ParseAttrs(tail) case None => None case Some(rest) => Some([(name, value)] + rest)
  {
    AttrPieces(name, value, tail);
  }

  lemma AttrPieces(name: string, value: string, tail: string)
    requires '=' !in name && '\'' !in value
    ensures var s := AttrText((name, value)) + tail;
      var r := s[1..];
      && |s| >= 1 && s[0] == ' '
      && Span(r, IsEquals) == |name| && |name| + 2 <= |r| && r[|name| + 1] == '\'' && r[..|name|] == name
      && var v := r[|name| + 2..];
         Span(v, IsQuote) == |value| && |value| < |v| && v[..|value|] == value && v[|value| + 1..] == tail
  {
    var s := AttrText((name, value)) + tail;
    assert s == " " + (name + ("='" + (value + ("'" + tail))));
    assert s[1..] == name + ("='" + (value + ("'" + tail)));
    NamePart(name, value + ("'" + tail));
    ValuePart(value, tail);
  }

  lemma NamePart(name: string, rest: string)
    requires '=' !in name
    ensures var r := name + ("='" + rest);
      Span(r, IsEquals) == |name| && r[|name| + 1] == '\'' && r[..|name|] == name && r[|name| + 2..] == rest
  {
    forall i | 0 <= i < |name| ensures !IsEquals(name[i]) {
      assert name[i] in name;
    }
    SpanOfConcat(name, "='" + rest, IsEquals);
    assert (name + ("='" + rest))[|name| + 2..] == rest;
  }

  lemma ValuePart(value: string, tail: string)
    requires '\'' !in value
    ensures var v := value + ("'" + tail);
      Span(v, IsQuote) == |value| && |value| < |v| && v[..|value|] == value && v[|value| + 1..] == tail
  {
    forall i | 0 <= i < |value| ensures !IsQuote(value[i]) {
      assert value[i] in value;
    }
    SpanOfConcat(value, "'" + tail, IsQuote);
    assert (value + ("'" + tail))[|value| + 1..] == tail;
  }

  lemma ElementRoundTrip(tag: string, attrs: seq<(string, string)>)
    requires ' ' !in tag && '/' !in tag && AttrsReadable(attrs)
    ensures ParseElement(ElementText(tag, attrs)) == Some((tag, attrs))
  {
    var tail := AttrsText(attrs) + "/>";
    var s := ElementText(tag, attrs);
    assert s == "<" + (tag + tail);
    assert s[1..] == tag + tail;
    forall i | 0 <= i < |tag| ensures !EndsTagName(tag[i]) {
      assert tag[i] in tag;
    }
    if attrs != [] {
      assert tail[0] == ' ';
    } else {
      assert tail[0] == '/';
    }
    SpanOfConcat(tag, tail, EndsTagName);
    assert (tag + tail)[|tag|..] == tail && (tag + tail)[..|tag|] == tag;
    AttrsRoundTrip(attrs);
  }

  /** The shape a token element describes. */
  function ShapeOfElement(tag: string, attrs: seq<(string, string)>): Option<Shape>
  {
    if |attrs| != 6 then None
    else if tag == "image" && attrs[0].0 == "x" && attrs[1].0 == "y" && attrs[2].0 == "width"
      && attrs[3] == ("height", attrs[2].1) && attrs[4].0 == "href"
      && attrs[5] == ("preserveAspectRatio", "xMidYMid slice")
    then
      match (ParseHalf(attrs[0].1), ParseHalf(attrs[1].1), ParseHalf(attrs[2].1))
      case (Some(l), Some(t), Some(w)) => Some(Image(l, t, w, attrs[4].1))
      case _ => None
    else if tag == "circle" && attrs[0].0 == "cx" && attrs[1].0 == "cy" && attrs[2].0 == "r"
      && attrs[3].0 == "fill" && attrs[4].0 == "stroke" && attrs[5] == ("stroke-width", "2")
    then
      match (ParseHalf(attrs[0].1), ParseHalf(attrs[1].1), ParseHalf(attrs[2].1))
      case (Some(cx), Some(cy), Some(r)) => Some(Circle(cx, cy, r, attrs[3].1, attrs[4].1))
      case _ => None
    else None
  }

  function ParseShape(markup: string): Option<Shape>
  {
    match ParseElement(markup)
    case None => None
    case Some(e) => ShapeOfElement(e.0, e.1)
  }

  /** The texts a shape puts between quotes hold no quote. */
  predicate QuoteFree(s: Shape)
  {
    match s
    case Image(_, _, _, href) => '\'' !in href
    case Circle(_, _, _, fill, stroke) => '\'' !in fill && '\'' !in stroke
  }

  lemma HalfHasNoQuote(twice: int)
    ensures '\'' !in HalfToString(twice)
  {
    var mag := if twice < 0 then -twice else twice;
    var sign := if twice < 0 then "-" else "";
    var digits := NatToString(mag / 2);
    var frac := if mag % 2 == 0 then ".0" else ".5";
    assert HalfToString(twice) == sign + digits + frac;
    assert forall i :: 0 <= i < |digits| ==> digits[i] != '\'';
  }

  /** Every quote-free shape is read back from its markup. */
  lemma ShapeRoundTrip(s: Shape)
    requires QuoteFree(s)
    ensures ParseShape(ShapeMarkup(s)) == Some(s)
  {
    ShapeAttrsReadable(s);
    TagReadable(s);
    ElementRoundTrip(ShapeTag(s), ShapeAttrs(s));
    ShapeOfOwnElement(s);
  }

  lemma TagReadable(s: Shape)
    ensures ' ' !in ShapeTag(s) && '/' !in ShapeTag(s)
  {
  }

  lemma ShapeAttrsReadable(s: Shape)
    requires QuoteFree(s)
    ensures AttrsReadable(ShapeAttrs(s))
  {
    match s
    case Image(l, t, w, _) =>
      HalfHasNoQuote(l);
      HalfHasNoQuote(t);
      HalfHasNoQuote(w);
      assert '\'' !in "xMidYMid slice";
      assert '=' !in "x" && '=' !in "y" && '=' !in "width" && '=' !in "height";
      assert '=' !in "href" && '=' !in "preserveAspectRatio";
    case Circle(cx, cy, r, _, _) =>
      HalfHasNoQuote(cx);
      HalfHasNoQuote(cy);
      HalfHasNoQuote(r);
      assert '\'' !in "2";
      assert '=' !in "cx" && '=' !in "cy" && '=' !in "r" && '=' !in "fill";
      assert '=' !in "stroke" && '=' !in "stroke-width";
  }

  lemma ShapeOfOwnElement(s: Shape)
    ensures ShapeOfElement(ShapeTag(s), ShapeAttrs(s)) == Some(s)
  {
    match s
    case Image(l, t, w, href) => ImageOfOwnElement(l, t, w, href);
    case Circle(cx, cy, r, fill, stroke) => CircleOfOwnElement(cx, cy, r, fill, stroke);
  }

  lemma ImageOfOwnElement(l: int, t: int, w: int, href: string)
    ensures ShapeOfElement("image", ShapeAttrs(Image(l, t, w, href))) == Some(Image(l, t, w, href))
  {
    HalfRoundTrip(l);
    HalfRoundTrip(t);
    HalfRoundTrip(w);
    ImageOfValues(HalfToString(l), HalfToString(t), HalfToString(w), href, l, t, w);
  }

  lemma ImageOfValues(x: string, y: string, width: string, href: string, l: int, t: int, w: int)
    requires ParseHalf(x) == Some(l) && ParseHalf(y) == Some(t) && ParseHalf(width) == Some(w)
    ensures ShapeOfElement("image", [("x", x), ("y", y), ("width", width), ("height", width), ("href", href),
                                     ("preserveAspectRatio", "xMidYMid slice")])
         == Some(Image(l, t, w, href))
  {
  }

  lemma CircleOfOwnElement(cx: int, cy: int, r: int, fill: string, stroke: string)
    ensures ShapeOfElement("circle", ShapeAttrs(Circle(cx, cy, r, fill, stroke))) == Some(Circle(cx, cy, r, fill, stroke))
  {
    HalfRoundTrip(cx);
    HalfRoundTrip(cy);
    HalfRoundTrip(r);
    CircleOfValues(HalfToString(cx), HalfToString(cy), HalfToString(r), fill, stroke, cx, cy, r);
  }

  lemma CircleOfValues(x: string, y: string, radius: string, fill: string, stroke: string, cx: int, cy: int, r: int)
    requires ParseHalf(x) == Some(cx) && ParseHalf(y) == Some(cy) && ParseHalf(radius) == Some(r)
    ensures ShapeOfElement("circle", [("cx", x), ("cy", y), ("r", radius), ("fill", fill), ("stroke", stroke),
                                      ("stroke-width", "2")])
         == Some(Circle(cx, cy, r, fill, stroke))
  {
    assert "circle" != "image";
  }

  /**
   * What `addToken` writes reads back as the token's shape, whenever the
   * colours a circle copies into its attributes hold no quote; a token
   * without a position writes nothing.
   */
  lemma AddTokenReadsBack(t: Token, baseUrl: string, urlEncode: UrlEncoder)
    requires NotBlank(t.color) ==> '\'' !in t.color.value
    requires NotBlank(t.borderColor) ==> '\'' !in t.borderColor.value
    ensures AddToken(t, baseUrl, urlEncode) == "" <==> t.x.None? || t.y.None?
    ensures ParseShape(AddToken(t, baseUrl, urlEncode)) == TokenShape(t, baseUrl, urlEncode)
  {
    match TokenShape(t, baseUrl, urlEncode)
    case None =>
    case Some(s) =>
      if s.Image? {
        ImageCentredOnToken(t, baseUrl, urlEncode);
      }
      ShapeRoundTrip(s);
  }
}
