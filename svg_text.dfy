/**
 * Text-level pieces of the battlemap SVG renderer: XML escaping for text and
 * for attributes, the error image, the `<defs>` extraction from a texture
 * file, the insertion of the shared `<defs>` block after the opening tag, and
 * Java's rendering of the half-pixel doubles that token markup prints.
 */
module SvgText {
  import opened Common
  import opened Text

  const Doctype: string := "<!DOCTYPE svg PUBLIC \"-//W3C//DTD SVG 1.1//EN\" \"http://www.w3.org/Graphics/SVG/1.1/DTD/svg11.dtd\">\n"
  const SvgClose: string := "</svg>"

  // ---------------------------------------------------------------- replacing, character by character

  lemma {:induction false} ReplaceCharAppend(a: string, b: string, c: char, rep: string)
    ensures ReplaceChar(a + b, c, rep) == ReplaceChar(a, c, rep) + ReplaceChar(b, c, rep)
    decreases |a|
  {
    if a == [] {
      assert a + b == b;
    } else {
      assert (a + b)[0] == a[0];
      assert (a + b)[1..] == a[1..] + b;
      ReplaceCharAppend(a[1..], b, c, rep);
    }
  }

  /** Every character of `text` replaced by its escape. */
  function EscapeEach(text: string, escape: char -> string): string
  {
    if text == [] then "" else escape(text[0]) + EscapeEach(text[1..], escape)
  }

  // ---------------------------------------------------------------- escapeXml

  /** `escapeXml`: the five replacements, `&` first. */
  function EscapeXml(text: string): string
  {
    ReplaceChar(ReplaceChar(ReplaceChar(ReplaceChar(ReplaceChar(text, '&', "&amp;"), '<', "&lt;"), '>', "&gt;"), '"', "&quot;"), '\'', "&apos;")
  }

  /** The entity of each special character; every other character stands for itself. */
  function XmlEntity(c: char): string
  {
    if c == '&' then "&amp;" else if c == '<' then "&lt;" else if c == '>' then "&gt;"
    else if c == '"' then "&quot;" else if c == '\'' then "&apos;" else [c]
  }

  lemma EscapeXmlAppend(a: string, b: string)
    ensures EscapeXml(a + b) == EscapeXml(a) + EscapeXml(b)
  {
    var a1, b1 := ReplaceChar(a, '&', "&amp;"), ReplaceChar(b, '&', "&amp;");
    ReplaceCharAppend(a, b, '&', "&amp;");
    var a2, b2 := ReplaceChar(a1, '<', "&lt;"), ReplaceChar(b1, '<', "&lt;");
    ReplaceCharAppend(a1, b1, '<', "&lt;");
    var a3, b3 := ReplaceChar(a2, '>', "&gt;"), ReplaceChar(b2, '>', "&gt;");
    ReplaceCharAppend(a2, b2, '>', "&gt;");
    var a4, b4 := ReplaceChar(a3, '"', "&quot;"), ReplaceChar(b3, '"', "&quot;");
    ReplaceCharAppend(a3, b3, '"', "&quot;");
    ReplaceCharAppend(a4, b4, '\'', "&apos;");
  }

  lemma EscapeXmlChar(c: char)
    ensures EscapeXml([c]) == XmlEntity(c)
  {
    ReplaceSingle(c, '&', "&amp;");
    if c == '&' {
      EntityKept("&amp;", 1);
    } else {
      ReplaceSingle(c, '<', "&lt;");
      ReplaceSingle(c, '>', "&gt;");
      ReplaceSingle(c, '"', "&quot;");
      if c == '<' {
        EscapeLtChar(c);
      } else if c == '>' {
        EscapeGtChar(c);
      } else if c == '"' {
        EntityKept("&quot;", 4);
      } else {
        ReplaceSingle(c, '\'', "&apos;");
      }
    }
  }

  lemma EscapeLtChar(c: char)
    requires c == '<'
    ensures EscapeXml([c]) == "&lt;"
  {
    ReplaceSingle(c, '&', "&amp;");
    ReplaceSingle(c, '<', "&lt;");
    EntityKept("&lt;", 2);
  }

  lemma EscapeGtChar(c: char)
    requires c == '>'
    ensures EscapeXml([c]) == "&gt;"
  {
    ReplaceSingle(c, '&', "&amp;");
    ReplaceSingle(c, '<', "&lt;");
    ReplaceSingle(c, '>', "&gt;");
    EntityKept("&gt;", 3);
  }

  /** An entity written by step `k` of `escapeXml` passes the later steps unchanged. */
  lemma EntityKept(e: string, k: nat)
    requires forall i :: 0 <= i < |e| ==> e[i] != '<' && e[i] != '>' && e[i] != '"' && e[i] != '\''
    ensures var s2 := if k < 2 then ReplaceChar(e, '<', "&lt;") else e;
      var s3 := if k < 3 then ReplaceChar(s2, '>', "&gt;") else s2;
      var s4 := if k < 4 then ReplaceChar(s3, '"', "&quot;") else s3;
      ReplaceChar(s4, '\'', "&apos;") == e
  {
    assert '<' !in e && '>' !in e && '"' !in e && '\'' !in e;
  }

  /**
   * Because `&` is replaced first, the chained replacements escape every
   * character on its own: no entity written by one step is rewritten by a
   * later one.
   */
  lemma {:induction false} EscapeXmlIsPerCharacter(text: string)
    ensures EscapeXml(text) == EscapeEach(text, XmlEntity)
    decreases |text|
  {
    if text != [] {
      assert text == [text[0]] + text[1..];
      EscapeXmlAppend([text[0]], text[1..]);
      EscapeXmlChar(text[0]);
      EscapeXmlIsPerCharacter(text[1..]);
    }
  }

  /** Reads the five entities back. */
  function UnescapeXml(s: string): string
    decreases |s|
  {
    if s == [] then ""
    else if StartsWith(s, "&amp;") then "&" + UnescapeXml(s[5..])
    else if StartsWith(s, "&lt;") then "<" + UnescapeXml(s[4..])
    else if StartsWith(s, "&gt;") then ">" + UnescapeXml(s[4..])
    else if StartsWith(s, "&quot;") then "\"" + UnescapeXml(s[6..])
    else if StartsWith(s, "&apos;") then "'" + UnescapeXml(s[6..])
    else [s[0]] + UnescapeXml(s[1..])
  }

  lemma UnescapeXmlEntity(c: char, rest: string)
    ensures UnescapeXml(XmlEntity(c) + rest) == [c] + UnescapeXml(rest)
  {
    if c == '&' {
      UnescapeAmp(rest);
    } else if c == '<' {
      UnescapeLt(rest);
    } else if c == '>' {
      UnescapeGt(rest);
    } else if c == '"' {
      UnescapeQuot(rest);
    } else if c == '\'' {
      UnescapeApos(rest);
    } else {
      var s := [c] + rest;
      assert s[0] == c && s[1..] == rest;
      NotStartsWith(s, "&amp;");
      NotStartsWith(s, "&lt;");
      NotStartsWith(s, "&gt;");
      NotStartsWith(s, "&quot;");
      NotStartsWith(s, "&apos;");
    }
  }

  lemma UnescapeAmp(rest: string)
    ensures UnescapeXml("&amp;" + rest) == "&" + UnescapeXml(rest)
  {
    var s := "&amp;" + rest;
    assert s[..5] == "&amp;" && s[5..] == rest;
  }

  lemma UnescapeLt(rest: string)
    ensures UnescapeXml("&lt;" + rest) == "<" + UnescapeXml(rest)
  {
    var s := "&lt;" + rest;
    assert s[..4] == "&lt;" && s[4..] == rest;
    assert !StartsWith(s, "&amp;") by { assert s[1] == 'l'; }
  }

  lemma UnescapeGt(rest: string)
    ensures UnescapeXml("&gt;" + rest) == ">" + UnescapeXml(rest)
  {
    var s := "&gt;" + rest;
    assert s[..4] == "&gt;" && s[4..] == rest;
    assert !StartsWith(s, "&amp;") && !StartsWith(s, "&lt;") by { assert s[1] == 'g'; }
  }

  lemma UnescapeQuot(rest: string)
    ensures UnescapeXml("&quot;" + rest) == "\"" + UnescapeXml(rest)
  {
    var s := "&quot;" + rest;
    assert s[..6] == "&quot;" && s[6..] == rest;
    assert !StartsWith(s, "&amp;") && !StartsWith(s, "&lt;") && !StartsWith(s, "&gt;") by { assert s[1] == 'q'; }
  }

  lemma UnescapeApos(rest: string)
    ensures UnescapeXml("&apos;" + rest) == "'" + UnescapeXml(rest)
  {
    var s := "&apos;" + rest;
    assert s[..6] == "&apos;" && s[6..] == rest;
    assert !StartsWith(s, "&amp;") && !StartsWith(s, "&lt;") && !StartsWith(s, "&gt;") && !StartsWith(s, "&quot;") by {
      assert s[1] == 'a' && s[2] == 'p';
    }
  }

  /** Escaped text reads back as the original. */
  lemma {:induction false} EscapeXmlRoundTrip(text: string)
    ensures UnescapeXml(EscapeXml(text)) == text
    decreases |text|
  {
    EscapeXmlIsPerCharacter(text);
    if text != [] {
      UnescapeXmlEntity(text[0], EscapeEach(text[1..], XmlEntity));
      EscapeXmlRoundTrip(text[1..]);
      EscapeXmlIsPerCharacter(text[1..]);
      assert text == [text[0]] + text[1..];
    }
  }

  /** No raw `<`, `>`, `"` or `'` survives escaping. */
  lemma EscapeXmlHasNoMarkup(text: string)
    ensures var r := EscapeXml(text); '<' !in r && '>' !in r && '"' !in r && '\'' !in r
  {
    EscapeXmlIsPerCharacter(text);
    EntitiesHaveNoMarkup(text);
  }

  lemma {:induction false} EntitiesHaveNoMarkup(text: string)
    ensures var r := EscapeEach(text, XmlEntity); '<' !in r && '>' !in r && '"' !in r && '\'' !in r
    decreases |text|
  {
    if text != [] {
      EntitiesHaveNoMarkup(text[1..]);
      EntityHasNoMarkup(text[0]);
    }
  }

  lemma EntityHasNoMarkup(c: char)
    ensures var e := XmlEntity(c); '<' !in e && '>' !in e && '"' !in e && '\'' !in e
  {
  }

  // ---------------------------------------------------------------- escapeXmlAttribute

  /** `escapeXmlAttribute`: `&`, then `'`, then `"`; every other character, `%` escapes of URLs included, is kept. */
  function EscapeXmlAttribute(text: string): string
  {
    ReplaceChar(ReplaceChar(ReplaceChar(text, '&', "&amp;"), '\'', "&#39;"), '"', "&quot;")
  }

  function AttributeEntity(c: char): string
  {
    if c == '&' then "&amp;" else if c == '\'' then "&#39;" else if c == '"' then "&quot;" else [c]
  }

  lemma EscapeXmlAttributeAppend(a: string, b: string)
    ensures EscapeXmlAttribute(a + b) == EscapeXmlAttribute(a) + EscapeXmlAttribute(b)
  {
    var a1, b1 := ReplaceChar(a, '&', "&amp;"), ReplaceChar(b, '&', "&amp;");
    ReplaceCharAppend(a, b, '&', "&amp;");
    var a2, b2 := ReplaceChar(a1, '\'', "&#39;"), ReplaceChar(b1, '\'', "&#39;");
    ReplaceCharAppend(a1, b1, '\'', "&#39;");
    ReplaceCharAppend(a2, b2, '"', "&quot;");
  }

  lemma EscapeXmlAttributeChar(c: char)
    ensures EscapeXmlAttribute([c]) == AttributeEntity(c)
  {
    assert [c][1..] == [];
  }

  lemma {:induction false} EscapeXmlAttributeIsPerCharacter(text: string)
    ensures EscapeXmlAttribute(text) == EscapeEach(text, AttributeEntity)
    decreases |text|
  {
    if text != [] {
      assert text == [text[0]] + text[1..];
      EscapeXmlAttributeAppend([text[0]], text[1..]);
      EscapeXmlAttributeChar(text[0]);
      EscapeXmlAttributeIsPerCharacter(text[1..]);
    }
  }

  function UnescapeAttribute(s: string): string
    decreases |s|
  {
    if s == [] then ""
    else if StartsWith(s, "&amp;") then "&" + UnescapeAttribute(s[5..])
    else if StartsWith(s, "&#39;") then "'" + UnescapeAttribute(s[5..])
    else if StartsWith(s, "&quot;") then "\"" + UnescapeAttribute(s[6..])
    else [s[0]] + UnescapeAttribute(s[1..])
  }

  lemma UnescapeAttributeEntity(c: char, rest: string)
    ensures UnescapeAttribute(AttributeEntity(c) + rest) == [c] + UnescapeAttribute(rest)
  {
    var s := AttributeEntity(c) + rest;
    if c == '&' {
      assert s[..5] == "&amp;" && s[5..] == rest;
    } else if c == '\'' {
      assert s[..5] == "&#39;" && s[5..] == rest;
      assert !StartsWith(s, "&amp;") by { assert s[1] == '#'; }
    } else if c == '"' {
      assert s[..6] == "&quot;" && s[6..] == rest;
      assert !StartsWith(s, "&amp;") && !StartsWith(s, "&#39;") by { assert s[1] == 'q'; }
    } else {
      assert s[0] == c && s[1..] == rest;
      NotStartsWith(s, "&amp;");
      NotStartsWith(s, "&#39;");
      NotStartsWith(s, "&quot;");
    }
  }

  /** An escaped attribute value reads back as the original. */
  lemma {:induction false} EscapeXmlAttributeRoundTrip(text: string)
    ensures UnescapeAttribute(EscapeXmlAttribute(text)) == text
    decreases |text|
  {
    EscapeXmlAttributeIsPerCharacter(text);
    if text != [] {
      UnescapeAttributeEntity(text[0], EscapeEach(text[1..], AttributeEntity));
      EscapeXmlAttributeRoundTrip(text[1..]);
      EscapeXmlAttributeIsPerCharacter(text[1..]);
      assert text == [text[0]] + text[1..];
    }
  }

  /** An escaped value cannot close its quoted attribute; a value without `&` and quotes is left as it is. */
  lemma EscapeXmlAttributeQuotes(text: string)
    ensures '\'' !in EscapeXmlAttribute(text) && '"' !in EscapeXmlAttribute(text)
    ensures '&' !in text && '\'' !in text && '"' !in text ==> EscapeXmlAttribute(text) == text
  {
    var s1 := ReplaceChar(text, '&', "&amp;");
    var s2 := ReplaceChar(s1, '\'', "&#39;");
    ReplaceCharKeepsOthers(s2, '"', "&quot;", '\'');
  }

  // ---------------------------------------------------------------- createErrorSVG

  const ErrorHead: string :=
    Doctype + "<svg xmlns='http://www.w3.org/2000/svg' width='400' height='100'>"
    + "<rect x='0' y='0' width='400' height='100' fill='#ffcccc'/>"
    + "<text x='200' y='50' text-anchor='middle' font-family='Arial, sans-serif' font-size='14' fill='#cc0000'>"

  const ErrorTail: string := "</text>" + SvgClose

  /** `createErrorSVG`: a 400 x 100 pink image with the escaped message centred in red. */
  function CreateErrorSvg(errorMessage: string): string
  {
    ErrorHead + EscapeXml(errorMessage) + ErrorTail
  }

  /** The message shown by an error image. */
  function ErrorSvgMessage(svg: string): Option<string>
  {
    if |svg| >= |ErrorHead| + |ErrorTail| && StartsWith(svg, ErrorHead) && EndsWith(svg, ErrorTail)
    then Some(UnescapeXml(svg[|ErrorHead|..|svg| - |ErrorTail|]))
    else None
  }

  /**
   * The error image shows exactly the message it was made for, and the text
   * between the tags holds no `<`, so it adds no markup to the document.
   */
  lemma ErrorSvgShowsMessage(errorMessage: string)
    ensures ErrorSvgMessage(CreateErrorSvg(errorMessage)) == Some(errorMessage)
    ensures var svg := CreateErrorSvg(errorMessage);
      forall i :: |ErrorHead| <= i < |svg| - |ErrorTail| ==> svg[i] != '<'
  {
    Framed(ErrorHead, EscapeXml(errorMessage), ErrorTail);
    EscapeXmlRoundTrip(errorMessage);
    EscapeXmlHasNoMarkup(errorMessage);
  }

  lemma Framed(head: string, body: string, tail: string)
    ensures var s := head + body + tail;
      && |s| >= |head| + |tail| && StartsWith(s, head) && EndsWith(s, tail)
      && s[|head|..|s| - |tail|] == body
      && forall i :: |head| <= i < |s| - |tail| ==> s[i] == body[i - |head|]
  {
    var s := head + body + tail;
    assert s[..|head|] == head;
    assert s[|s| - |tail|..] == tail;
    assert s[|head|..|s| - |tail|] == body;
  }

  // ---------------------------------------------------------------- searching helpers

  lemma IndexOfFromIs(s: string, t: string, from: nat, i: nat)
    requires from <= i && MatchesAt(s, t, i)
    requires forall j :: from <= j < i ==> !MatchesAt(s, t, j)
    ensures IndexOfFrom(s, t, from) == Some(i)
  {
  }

  lemma SliceOfConcat(a: string, b: string, c: string, i: int, n: nat)
    requires |a| <= i && i - |a| + n <= |b|
    ensures (a + b + c)[i..i + n] == b[i - |a|..i - |a| + n]
  {
    forall j | i <= j < i + n ensures (a + b + c)[j] == b[j - |a|] {
    }
  }

  lemma SliceOfPrefix(a: string, b: string, i: nat, n: nat)
    requires i + n <= |a|
    ensures (a + b)[i..i + n] == a[i..i + n]
  {
  }

  // ---------------------------------------------------------------- extractDefsFromSvg

  /**
   * `extractDefsFromSvg`: the trimmed text between the end of the first
   * `<defs` tag and the next `</defs>`, with the regex that drops nested
   * `xmlns` attributes applied; "" when any of the three is missing.
   */
  function ExtractDefsFromSvg(svgContent: string, stripXmlns: string -> string): string
  {
    ExtractSection(svgContent, "<defs", ">", "</defs>", stripXmlns)
  }

  /**
   * The search behind `extractDefsFromSvg`, over its three markers: the
   * opening tag, the character ending it and the closing tag.
   */
  function ExtractSection(svgContent: string, open: string, tagEnd: string, close: string, strip: string -> string): string
    requires |tagEnd| == 1 && |close| >= 1 && close[0] != tagEnd[0]
  {
    if svgContent == "" then ""
    else
      match IndexOf(svgContent, open)
      case None => ""
      case Some(defsStart) => SectionAfterOpen(svgContent, defsStart, tagEnd, close, strip)
  }

  /** The search from the opening tag at `defsStart` on: the end of that tag, then the closing tag. */
  function SectionAfterOpen(svgContent: string, defsStart: nat, tagEnd: string, close: string, strip: string -> string): string
    requires |tagEnd| == 1 && |close| >= 1 && close[0] != tagEnd[0]
  {
    match IndexOfFrom(svgContent, tagEnd, defsStart)
    case None => ""
    case Some(defsTagEnd) => SectionAfterTag(svgContent, defsTagEnd, tagEnd, close, strip)
  }

  /** The search from the end of the opening tag at `defsTagEnd` on: the closing tag, and the text between. */
  function SectionAfterTag(svgContent: string, defsTagEnd: nat, tagEnd: string, close: string, strip: string -> string): string
    requires |tagEnd| == 1 && |close| >= 1 && close[0] != tagEnd[0] && MatchesAt(svgContent, tagEnd, defsTagEnd)
  {
    match IndexOfFrom(svgContent, close, defsTagEnd)
    case None => ""
    case Some(defsEnd) =>
      assert svgContent[defsTagEnd..defsTagEnd + 1][0] == svgContent[defsTagEnd];
      assert svgContent[defsEnd..defsEnd + |close|][0] == svgContent[defsEnd];
      strip(JavaTrim(svgContent[defsTagEnd + 1..defsEnd]))
  }

  /**
   * For a file of the form pre `<defs` attrs `>` inner `</defs>` post, where
   * the `<defs` shown is the first one, attrs has no `>` and inner has no
   * `</defs>`, the extracted text is the stripped, trimmed inner part.
   */
  lemma ExtractDefsOfWrapped(pre: string, attrs: string, inner: string, post: string, stripXmlns: string -> string)
    requires forall k :: 0 <= k < |pre| ==> !MatchesAt(pre + "<defs", "<defs", k)
    requires '>' !in attrs
    requires forall k :: 0 <= k < |inner| ==> !MatchesAt(inner + "</defs>", "</defs>", k)
    ensures ExtractDefsFromSvg(pre + "<defs" + attrs + ">" + inner + "</defs>" + post, stripXmlns) == stripXmlns(JavaTrim(inner))
  {
    assert '>' !in "<defs";
    SectionOfWrapped(pre, "<defs", attrs, ">", inner, "</defs>", post, stripXmlns);
  }

  lemma SectionOfWrapped(pre: string, open: string, attrs: string, tagEnd: string, inner: string, close: string, post: string,
                         strip: string -> string)
    requires |open| >= 1 && |tagEnd| == 1 && |close| >= 1 && close[0] != tagEnd[0]
    requires forall k :: 0 <= k < |pre| ==> !MatchesAt(pre + open, open, k)
    requires tagEnd[0] !in open && tagEnd[0] !in attrs
    requires forall k :: 0 <= k < |inner| ==> !MatchesAt(inner + close, close, k)
    ensures ExtractSection(pre + open + attrs + tagEnd + inner + close + post, open, tagEnd, close, strip) == strip(JavaTrim(inner))
  {
    var svg := pre + open + attrs + tagEnd + inner + close + post;
    var t := |pre| + |open| + |attrs|;
    SectionFound(pre, open, attrs, tagEnd, inner, close, post);
    SectionAt(svg, open, tagEnd, close, |pre|, t, t + 1 + |inner|, inner, strip);
  }

  /** Where the three searches stop in a file of that form. */
  lemma SectionFound(pre: string, open: string, attrs: string, tagEnd: string, inner: string, close: string, post: string)
    requires |open| >= 1 && |tagEnd| == 1 && |close| >= 1 && close[0] != tagEnd[0]
    requires forall k :: 0 <= k < |pre| ==> !MatchesAt(pre + open, open, k)
    requires tagEnd[0] !in open && tagEnd[0] !in attrs
    requires forall k :: 0 <= k < |inner| ==> !MatchesAt(inner + close, close, k)
    ensures var svg := pre + open + attrs + tagEnd + inner + close + post;
      var t := |pre| + |open| + |attrs|;
      && IndexOf(svg, open) == Some(|pre|)
      && IndexOfFrom(svg, tagEnd, |pre|) == Some(t)
      && IndexOfFrom(svg, close, t) == Some(t + 1 + |inner|)
      && svg[t + 1..t + 1 + |inner|] == inner
  {
    var svg := pre + open + attrs + tagEnd + inner + close + post;
    var head := pre + open + attrs + tagEnd;
    SectionRegroup(pre, open, attrs, tagEnd, inner, close, post);
    SectionStartAt(svg, pre, open, attrs + tagEnd + inner + close + post);
    SectionTagEndAt(svg, pre, open, attrs, tagEnd, inner + close + post);
    assert head[|head| - 1] == tagEnd[0];
    SectionEndAt(svg, head, inner, close, post);
  }

  lemma SectionRegroup(pre: string, open: string, attrs: string, tagEnd: string, inner: string, close: string, post: string)
    ensures var svg := pre + open + attrs + tagEnd + inner + close + post;
      && svg == pre + open + (attrs + tagEnd + inner + close + post)
      && svg == pre + open + attrs + tagEnd + (inner + close + post)
      && svg == (pre + open + attrs + tagEnd) + inner + close + post
  {
  }

  /** The extraction, once the three matches are known. */
  lemma SectionAt(svg: string, open: string, tagEnd: string, close: string, d: nat, t: nat, e: nat, inner: string,
                  strip: string -> string)
    requires |open| >= 1 && |tagEnd| == 1 && |close| >= 1 && close[0] != tagEnd[0]
    requires IndexOf(svg, open) == Some(d)
    requires IndexOfFrom(svg, tagEnd, d) == Some(t)
    requires IndexOfFrom(svg, close, t) == Some(e)
    requires t + 1 <= e && svg[t + 1..e] == inner
    ensures ExtractSection(svg, open, tagEnd, close, strip) == strip(JavaTrim(inner))
  {
    OpenFound(svg, open, tagEnd, close, strip, d);
    TagFound(svg, d, tagEnd, close, strip, t);
    CloseFound(svg, t, tagEnd, close, strip, e);
  }

  lemma OpenFound(svg: string, open: string, tagEnd: string, close: string, strip: string -> string, d: nat)
    requires |open| >= 1 && |tagEnd| == 1 && |close| >= 1 && close[0] != tagEnd[0]
    requires IndexOf(svg, open) == Some(d)
    ensures ExtractSection(svg, open, tagEnd, close, strip) == SectionAfterOpen(svg, d, tagEnd, close, strip)
  {
    assert svg != "";
  }

  lemma TagFound(svg: string, d: nat, tagEnd: string, close: string, strip: string -> string, t: nat)
    requires |tagEnd| == 1 && |close| >= 1 && close[0] != tagEnd[0]
    requires IndexOfFrom(svg, tagEnd, d) == Some(t)
    ensures MatchesAt(svg, tagEnd, t)
    ensures SectionAfterOpen(svg, d, tagEnd, close, strip) == SectionAfterTag(svg, t, tagEnd, close, strip)
  {
  }

  lemma CloseFound(svg: string, t: nat, tagEnd: string, close: string, strip: string -> string, e: nat)
    requires |tagEnd| == 1 && |close| >= 1 && close[0] != tagEnd[0] && MatchesAt(svg, tagEnd, t)
    requires IndexOfFrom(svg, close, t) == Some(e) && t + 1 <= e
    ensures SectionAfterTag(svg, t, tagEnd, close, strip) == strip(JavaTrim(svg[t + 1..e]))
  {
  }

  lemma SectionStartAt(svg: string, pre: string, open: string, rest: string)
    requires svg == pre + open + rest
    requires forall k :: 0 <= k < |pre| ==> !MatchesAt(pre + open, open, k)
    ensures IndexOf(svg, open) == Some(|pre|)
  {
    SliceOfConcat(pre, open, rest, |pre|, |open|);
    forall k | 0 <= k < |pre| ensures !MatchesAt(svg, open, k) {
      assert !MatchesAt(pre + open, open, k);
      if k + |open| <= |pre + open| {
        SliceOfPrefix(pre + open, rest, k, |open|);
      }
    }
    IndexOfFromIs(svg, open, 0, |pre|);
  }

  lemma SectionTagEndAt(svg: string, pre: string, open: string, attrs: string, tagEnd: string, rest: string)
    requires svg == pre + open + attrs + tagEnd + rest
    requires |tagEnd| == 1 && tagEnd[0] !in open && tagEnd[0] !in attrs
    ensures IndexOfFrom(svg, tagEnd, |pre|) == Some(|pre| + |open| + |attrs|)
  {
    var d := |pre|;
    var t := |pre| + |open| + |attrs|;
    var head := pre + open;
    assert svg == head + (attrs + tagEnd) + rest;
    SliceOfConcat(head, attrs + tagEnd, rest, t, 1);
    forall j | d <= j < t ensures !MatchesAt(svg, tagEnd, j) {
      assert svg[j..j + 1][0] == svg[j];
      if j < d + |open| {
        assert svg[j] == open[j - d] && open[j - d] in open;
      } else {
        assert svg[j] == attrs[j - d - |open|] && attrs[j - d - |open|] in attrs;
      }
    }
    IndexOfFromIs(svg, tagEnd, d, t);
  }

  lemma SectionEndAt(svg: string, head: string, inner: string, close: string, post: string)
    requires svg == head + inner + close + post
    requires |head| >= 1 && |close| >= 1 && close[0] != head[|head| - 1]
    requires forall k :: 0 <= k < |inner| ==> !MatchesAt(inner + close, close, k)
    ensures IndexOfFrom(svg, close, |head| - 1) == Some(|head| + |inner|)
    ensures svg[|head|..|head| + |inner|] == inner
  {
    assert svg == head + (inner + close) + post;
    assert (inner + close)[|inner|..] == close;
    CloseFirstAt(svg, head, inner + close, post, close, |inner|);
    SliceOfConcat(head, inner, close + post, |head|, |inner|);
    assert svg == head + inner + (close + post);
  }

  /** The first `close` from the last character of `head` on starts right after `n` characters of `ic`. */
  lemma CloseFirstAt(svg: string, head: string, ic: string, post: string, close: string, n: nat)
    requires svg == head + ic + post && n + |close| == |ic| && ic[n..] == close
    requires |head| >= 1 && |close| >= 1 && close[0] != head[|head| - 1]
    requires forall k :: 0 <= k < n ==> !MatchesAt(ic, close, k)
    ensures IndexOfFrom(svg, close, |head| - 1) == Some(|head| + n)
  {
    var e := |head| + n;
    SliceOfConcat(head, ic, post, e, |close|);
    forall j | |head| - 1 <= j < e ensures !MatchesAt(svg, close, j) {
      NoCloseBefore(svg, head, ic, post, close, n, j);
    }
    IndexOfFromIs(svg, close, |head| - 1, e);
  }

  /** Between the last character of `head` and the end of `inner`, `close` does not occur. */
  lemma NoCloseBefore(svg: string, head: string, ic: string, post: string, close: string, n: nat, j: int)
    requires svg == head + ic + post && n + |close| <= |ic|
    requires |head| >= 1 && |close| >= 1 && close[0] != head[|head| - 1]
    requires forall k :: 0 <= k < n ==> !MatchesAt(ic, close, k)
    requires |head| - 1 <= j < |head| + n
    ensures !MatchesAt(svg, close, j)
  {
    if j == |head| - 1 {
      if j + |close| <= |svg| {
        assert svg[j..j + |close|][0] == svg[j];
      }
    } else {
      assert !MatchesAt(ic, close, j - |head|);
      SliceOfConcat(head, ic, post, j, |close|);
    }
  }

  /** A file without `<defs` contributes nothing. */
  lemma ExtractDefsWithoutDefs(svgContent: string, stripXmlns: string -> string)
    requires !Contains(svgContent, "<defs")
    ensures ExtractDefsFromSvg(svgContent, stripXmlns) == ""
  {
  }

  // ---------------------------------------------------------------- inserting the shared defs

  /** `builder.insert(indexOf(">") + 1, block)`, done only when the first `>` is not at index 0. */
  function InsertAfterFirstTagEnd(doc: string, block: string): string
  {
    match IndexOf(doc, ">")
    case Some(p) => if p > 0 then doc[..p + 1] + block + doc[p + 1..] else doc
    case None => doc
  }

  /** Inserted after a header whose only `>` is its last character, the block lands right after the header. */
  lemma InsertAfterHeader(header: string, rest: string, block: string)
    requires |header| > 1 && header[|header| - 1] == '>' && '>' !in header[..|header| - 1]
    ensures InsertAfterFirstTagEnd(header + rest, block) == header + block + rest
  {
    var doc := header + rest;
    var p := |header| - 1;
    assert doc[p..p + 1] == ">";
    forall j | 0 <= j < p ensures !MatchesAt(doc, ">", j) {
      assert doc[j..j + 1][0] == header[..|header| - 1][j];
    }
    IndexOfFromIs(doc, ">", 0, p);
    assert doc[..p + 1] == header && doc[p + 1..] == rest;
  }

  lemma NoAngleInNumber(i: int)
    ensures '>' !in IntToString(i)
  {
    var s := IntToString(i);
    if i < 0 {
      assert forall k :: 1 <= k < |s| ==> s[k] == NatToString(-i)[k - 1];
    }
  }

  // ---------------------------------------------------------------- doubles

  /**
   * Java's `Double.toString` of the value `twice / 2`, for the values tokens
   * produce (halves of magnitude below 10^7): the whole part, then `.0` or
   * `.5`, with a minus sign for negative values.
   */
  function HalfToString(twice: int): string
  {
    var mag := if twice < 0 then -twice else twice;
    (if twice < 0 then "-" else "") + NatToString(mag / 2) + (if mag % 2 == 0 then ".0" else ".5")
  }

  /** Reads a printed half back as twice its value. */
  function ParseHalf(s: string): Option<int>
  {
    if |s| < 3 || s[|s| - 2] != '.' || (s[|s| - 1] != '0' && s[|s| - 1] != '5') then None
    else
      match ParseWhole(s[..|s| - 2])
      case None => None
      case Some(w) =>
        var odd := if s[|s| - 1] == '5' then 1 else 0;
        Some(if w.0 then -(2 * w.1 + odd) else 2 * w.1 + odd)
  }

  /** The whole part: an optional minus sign and at least one digit. */
  function ParseWhole(whole: string): Option<(bool, nat)>
  {
    if whole == [] then None
    else
      var neg := whole[0] == '-';
      var digits := if neg then whole[1..] else whole;
      if digits == [] || !AllDigits(digits) then None
      else Some((neg, DigitsValue(digits)))
  }

  lemma HalfRoundTrip(twice: int)
    ensures ParseHalf(HalfToString(twice)) == Some(twice)
  {
    var mag := if twice < 0 then -twice else twice;
    HalfPrinted(twice);
    var odd := mag % 2 == 1;
    assert 2 * (mag / 2) + (if odd then 1 else 0) == mag;
    PrintedHalfReads(twice < 0, mag / 2, odd);
  }

  /** A printed half is its sign, its whole part, a point and one digit. */
  lemma HalfPrinted(twice: int)
    ensures var mag := if twice < 0 then -twice else twice;
      HalfToString(twice) == (if twice < 0 then "-" else "") + NatToString(mag / 2) + ['.', if mag % 2 == 1 then '5' else '0']
  {
  }

  /** The sign, the whole part `w` and `.5` or `.0` read back as twice the value. */
  lemma PrintedHalfReads(neg: bool, w: nat, odd: bool)
    ensures var twice := 2 * w + (if odd then 1 else 0);
      ParseHalf((if neg then "-" else "") + NatToString(w) + ['.', if odd then '5' else '0'])
        == Some(if neg then -twice else twice)
  {
    var n := NatToString(w);
    var d := if odd then '5' else '0';
    var whole := (if neg then "-" else "") + n;
    DigitsValueOfNatToString(w);
    ParseWholeOf(neg, n);
    assert ParseWhole(whole) == Some((neg, w));
    ParseHalfOf(whole, d, neg, w);
  }

  /** A whole part followed by `.0` or `.5` reads back as twice the whole part, plus one for `.5`. */
  lemma ParseHalfOf(whole: string, d: char, neg: bool, w: nat)
    requires ParseWhole(whole) == Some((neg, w)) && (d == '0' || d == '5')
    ensures var twice := 2 * w + (if d == '5' then 1 else 0);
      ParseHalf(whole + ['.', d]) == Some(if neg then -twice else twice)
  {
    SuffixSplit(whole, d);
  }

  lemma SuffixSplit(whole: string, d: char)
    ensures var s := whole + ['.', d];
      |s| == |whole| + 2 && s[|s| - 2] == '.' && s[|s| - 1] == d && s[..|s| - 2] == whole
  {
  }

  lemma ParseWholeOf(neg: bool, n: string)
    requires |n| >= 1 && AllDigits(n)
    ensures ParseWhole((if neg then "-" else "") + n) == Some((neg, DigitsValue(n)))
  {
    var whole := (if neg then "-" else "") + n;
    if neg {
      assert whole == ['-'] + n;
      assert whole[0] == '-' && whole[1..] == n;
    } else {
      assert whole == n;
      assert IsDigit(n[0]) && whole[0] != '-';
    }
  }

  lemma HalfExamples()
    ensures HalfToString(80) == "40.0"
    ensures HalfToString(40) == "20.0"
    ensures HalfToString(-3) == "-1.5"
  {
    assert NatToString(40) == "40";
    assert NatToString(20) == "20";
    assert NatToString(1) == "1";
  }
}
