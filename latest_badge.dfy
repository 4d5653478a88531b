/**
 * The latest-version badge rewrite of the HTTP middleware: a rendered page
 * carries two placeholder tokens in its version badge; the badge's data
 * attributes give the displayed version and the lookup context, and the
 * rewrite fills the placeholders with a CSS class saying whether that
 * version is the latest and with the latest version itself.
 *
 * The page is modelled as a sequence of tokens (literal text and the two
 * placeholders); the attribute pattern match is modelled by an optional
 * record of the badge's attribute values, absent when the pattern does not
 * match.
 */
module LatestBadge {
  import opened Internal
  import opened Paths

  /** The placeholder for the badge's CSS class. */
  const ClassPlaceholder: string := "$$GODISCOVERY_LATESTMINORCLASS$$"

  /** The placeholder for the latest version inside the badge's link. */
  const VersionPlaceholder: string := "$$GODISCOVERY_LATESTMINORVERSION$$"

  /** How the displayed version relates to the latest one. */
  datatype LatestClass = Latest | GoToLatest | Unknown

  /** The CSS class the badge gets for each classification. */
  function ClassName(c: LatestClass): string
  {
    match c
    case Latest => "DetailsHeader-badge--latest"
    case GoToLatest => "DetailsHeader-badge--goToLatest"
    case Unknown => "DetailsHeader-badge--unknown"
  }

  /** Every class is a modifier of the badge's base class. */
  lemma ClassNameModifiesBadge(c: LatestClass)
    ensures HasPrefix(ClassName(c), "DetailsHeader-badge--") && |ClassName(c)| > |"DetailsHeader-badge--"|
  {
    match c
    case Latest => assert ClassName(c) == "DetailsHeader-badge--" + "latest";
    case GoToLatest => assert ClassName(c) == "DetailsHeader-badge--" + "goToLatest";
    case Unknown => assert ClassName(c) == "DetailsHeader-badge--" + "unknown";
  }

  /** The three class names are distinct, so the class text determines the classification. */
  lemma ClassNameInjective(c: LatestClass, d: LatestClass)
    requires c != d
    ensures ClassName(c) != ClassName(d)
  {
    assert ClassName(c)[21] != ClassName(d)[21];
  }

  /**
   * Classifies the displayed version against the latest one: an empty
   * latest version is unknown, an equal one is latest, any other means
   * there is a newer version to go to.
   */
  function Classify(version: string, latest: string): (c: LatestClass)
    ensures c == Unknown <==> latest == ""
    ensures c == Latest <==> latest != "" && latest == version
    ensures c == GoToLatest <==> latest != "" && latest != version
  {
    if latest == "" then Unknown
    else if latest == version then Latest
    else GoToLatest
  }

  // ---------------------------------------------------------------------------
  // Character references in attribute values

  predicate IsDigit(c: char)
  {
    '0' <= c <= '9'
  }

  /** The value of a run of decimal digits. */
  function DecimalValue(s: string): nat
    requires forall i :: 0 <= i < |s| ==> IsDigit(s[i])
  {
    if s == [] then 0
    else
      var last := s[|s| - 1];
      assert IsDigit(last);
      DecimalValue(s[..|s| - 1]) * 10 + (last as int - '0' as int)
  }

  /** The value of two digits. */
  lemma DecimalValueTwoDigits(s: string)
    requires |s| == 2 && IsDigit(s[0]) && IsDigit(s[1])
    ensures DecimalValue(s) == (s[0] as int - '0' as int) * 10 + (s[1] as int - '0' as int)
  {
    assert s[..1][..0] == [];
    assert DecimalValue(s[..1]) == s[0] as int - '0' as int;
    assert s[..2][..1] == s[..1];
  }

  /** The end of the run of digits in `s` that starts at `from`. */
  function DigitRun(s: string, from: nat): (k: nat)
    requires from <= |s|
    ensures from <= k <= |s|
    ensures forall i :: from <= i < k ==> IsDigit(s[i])
    ensures k < |s| ==> !IsDigit(s[k])
    decreases |s| - from
  {
    if from == |s| || !IsDigit(s[from]) then from else DigitRun(s, from + 1)
  }

  /**
   * The character reference at the start of `s`, if there is one: the
   * character it stands for and its length. Covers the named references
   * &amp; &lt; &gt; &quot; and decimal references such as &#43;.
   */
  function EntityAt(s: string): (r: Option<(char, nat)>)
    requires |s| > 0 && s[0] == '&'
    ensures r.Some? ==> 1 < r.value.1 <= |s|
  {
    if HasPrefix(s, "&amp;") then Some(('&', 5))
    else if HasPrefix(s, "&lt;") then Some(('<', 4))
    else if HasPrefix(s, "&gt;") then Some(('>', 4))
    else if HasPrefix(s, "&quot;") then Some(('"', 6))
    else if |s| > 2 && s[1] == '#' then
      var k := DigitRun(s, 2);
      if 2 < k < |s| && s[k] == ';' then
        var n := DecimalValue(s[2..k]);
        if n < 0xD800 || 0xE000 <= n < 0x11_0000 then Some((n as char, k + 1)) else None
      else None
    else None
  }

  /** An attribute value with its character references decoded. */
  function UnescapeEntities(s: string): (r: string)
    ensures '&' !in s ==> r == s
    ensures |r| <= |s|
    decreases |s|
  {
    if s == [] then ""
    else if s[0] == '&' then
      match EntityAt(s)
      case Some((c, n)) => [c] + UnescapeEntities(s[n..])
      case None => [s[0]] + UnescapeEntities(s[1..])
    else [s[0]] + UnescapeEntities(s[1..])
  }

  /** How the page templates write one character into an attribute value. */
  function EscapeChar(c: char): string
  {
    match c
    case '"' => "&#34;"
    case '&' => "&amp;"
    case '\'' => "&#39;"
    case '+' => "&#43;"
    case '<' => "&lt;"
    case '>' => "&gt;"
    case _ => [c]
  }

  /** How the page templates write a value into an attribute. */
  function EscapeAttr(s: string): string
  {
    if s == [] then "" else EscapeChar(s[0]) + EscapeAttr(s[1..])
  }

  /** A two-digit decimal reference decodes to its character, whatever follows it. */
  lemma UnescapeDecimalRef(d1: char, d2: char, rest: string)
    requires IsDigit(d1) && IsDigit(d2)
    ensures UnescapeEntities(['&', '#', d1, d2, ';'] + rest)
            == [((d1 as int - '0' as int) * 10 + (d2 as int - '0' as int)) as char] + UnescapeEntities(rest)
  {
    var s := ['&', '#', d1, d2, ';'] + rest;
    assert !HasPrefix(s, "&amp;") && !HasPrefix(s, "&lt;") && !HasPrefix(s, "&gt;") && !HasPrefix(s, "&quot;") by {
      assert s[1] == '#';
    }
    assert DigitRun(s, 4) == 4 by {
      assert s[4] == ';';
    }
    assert DigitRun(s, 2) == 4;
    DecimalValueTwoDigits(s[2..4]);
    assert s[5..] == rest;
  }

  /** A named reference decodes to its character, whatever follows it. */
  lemma UnescapeNamedRef(ref: string, c: char, rest: string)
    requires (ref == "&amp;" && c == '&') || (ref == "&lt;" && c == '<') || (ref == "&gt;" && c == '>')
    ensures UnescapeEntities(ref + rest) == [c] + UnescapeEntities(rest)
  {
    var s := ref + rest;
    assert s[..|ref|] == ref;
    if c == '&' {
      assert EntityAt(s) == Some(('&', 5));
    } else if c == '<' {
      assert !HasPrefix(s, "&amp;") by { assert s[1] == 'l'; }
      assert EntityAt(s) == Some(('<', 4));
    } else {
      assert !HasPrefix(s, "&amp;") && !HasPrefix(s, "&lt;") by { assert s[1] == 'g'; }
      assert EntityAt(s) == Some(('>', 4));
    }
    assert s[|ref|..] == rest;
  }

  /** Decoding one escaped character gives that character back, whatever follows it. */
  lemma UnescapeEscapedChar(c: char, rest: string)
    ensures UnescapeEntities(EscapeChar(c) + rest) == [c] + UnescapeEntities(rest)
  {
    if c == '"' || c == '\'' || c == '+' {
      UnescapeEscapedByNumber(c, rest);
    } else if c == '&' || c == '<' || c == '>' {
      UnescapeEscapedByName(c, rest);
    } else {
      assert EscapeChar(c) == [c];
      UnescapePlainChar(c, rest);
    }
  }

  /** The characters the templates write as decimal references decode back. */
  lemma UnescapeEscapedByNumber(c: char, rest: string)
    requires c == '"' || c == '\'' || c == '+'
    ensures UnescapeEntities(EscapeChar(c) + rest) == [c] + UnescapeEntities(rest)
  {
    if c == '"' {
      assert EscapeChar(c) == ['&', '#', '3', '4', ';'];
      UnescapeDecimalRef('3', '4', rest);
    } else if c == '\'' {
      assert EscapeChar(c) == ['&', '#', '3', '9', ';'];
      UnescapeDecimalRef('3', '9', rest);
    } else {
      assert EscapeChar(c) == ['&', '#', '4', '3', ';'];
      UnescapeDecimalRef('4', '3', rest);
    }
  }

  /** The characters the templates write as named references decode back. */
  lemma UnescapeEscapedByName(c: char, rest: string)
    requires c == '&' || c == '<' || c == '>'
    ensures UnescapeEntities(EscapeChar(c) + rest) == [c] + UnescapeEntities(rest)
  {
    UnescapeNamedRef(EscapeChar(c), c, rest);
  }

  /** A character other than '&' is its own decoding. */
  lemma UnescapePlainChar(c: char, rest: string)
    requires c != '&'
    ensures UnescapeEntities([c] + rest) == [c] + UnescapeEntities(rest)
  {
    assert ([c] + rest)[1..] == rest;
  }

  /** Text without '&' decodes to itself, whatever follows it. */
  lemma {:induction false} UnescapePlainPrefix(a: string, rest: string)
    requires '&' !in a
    ensures UnescapeEntities(a + rest) == a + UnescapeEntities(rest)
  {
    if a == [] {
      assert a + rest == rest;
    } else {
      var tail := a[1..] + rest;
      calc {
        UnescapeEntities(a + rest);
        { assert a + rest == [a[0]] + tail; }
        UnescapeEntities([a[0]] + tail);
        { UnescapePlainChar(a[0], tail); }
        [a[0]] + UnescapeEntities(tail);
        { UnescapePlainPrefix(a[1..], rest); }
        [a[0]] + (a[1..] + UnescapeEntities(rest));
        { assert [a[0]] + a[1..] == a; }
        a + UnescapeEntities(rest);
      }
    }
  }

  /** Decoding undoes the templates' attribute escaping: the attribute gives back the version. */
  lemma {:induction false} UnescapeEscapeAttr(s: string)
    ensures UnescapeEntities(EscapeAttr(s)) == s
  {
    if s != [] {
      UnescapeEscapedChar(s[0], EscapeAttr(s[1..]));
      UnescapeEscapeAttr(s[1..]);
      assert [s[0]] + s[1..] == s;
    }
  }

  // ---------------------------------------------------------------------------
  // The rewrite

  /** A piece of the rendered page: literal text or one of the two placeholders. */
  datatype Token = Text(text: string) | ClassSlot | VersionSlot

  /** The page text, with `classText` and `versionText` where the placeholders stand. */
  function RenderWith(body: seq<Token>, classText: string, versionText: string): string
  {
    if body == [] then ""
    else
      var head := match body[0]
        case Text(t) => t
        case ClassSlot => classText
        case VersionSlot => versionText;
      head + RenderWith(body[1..], classText, versionText)
  }

  /** The page as rendered: the placeholders spelled out. */
  function Render(body: seq<Token>): string
  {
    RenderWith(body, ClassPlaceholder, VersionPlaceholder)
  }

  /** The attribute values of a matched badge, as written in the page. */
  datatype BadgeAttrs = BadgeAttrs(version: string, modulePath: string, packagePath: string, pageType: string)

  /** The latest-version lookup: package path, module path and page type to a version, "" when unknown. */
  type LatestFunc = (string, string, string) -> string

  /** Replaces every class placeholder by `className` and every version placeholder by `latest`. */
  function Fill(body: seq<Token>, className: string, latest: string): (r: seq<Token>)
    ensures |r| == |body|
    ensures forall i :: 0 <= i < |body| && body[i].Text? ==> r[i] == body[i]
    ensures forall i :: 0 <= i < |body| && body[i].ClassSlot? ==> r[i] == Text(className)
    ensures forall i :: 0 <= i < |body| && body[i].VersionSlot? ==> r[i] == Text(latest)
  {
    if body == [] then []
    else
      var head := match body[0]
        case Text(_) => body[0]
        case ClassSlot => Text(className)
        case VersionSlot => Text(latest);
      [head] + Fill(body[1..], className, latest)
  }

  /**
   * The middleware's body transform. Without a matched badge the page is
   * passed through; with one, the displayed version (decoded) is classified
   * against the looked-up latest version and both placeholders are filled.
   */
  function Rewrite(body: seq<Token>, attrs: Option<BadgeAttrs>, latest: LatestFunc): (r: seq<Token>)
    ensures attrs.None? ==> r == body
    ensures |r| == |body|
    ensures forall i :: 0 <= i < |body| && body[i].Text? ==> r[i] == body[i]
    ensures attrs.Some? ==>
              var lv := latest(attrs.value.packagePath, attrs.value.modulePath, attrs.value.pageType);
              && (forall i :: 0 <= i < |body| && body[i].VersionSlot? ==> r[i] == Text(lv))
              && (forall i :: 0 <= i < |body| && body[i].ClassSlot? ==>
                    r[i] == Text(ClassName(Classify(UnescapeEntities(attrs.value.version), lv))))
  {
    match attrs
    case None => body
    case Some(a) =>
      var lv := latest(a.packagePath, a.modulePath, a.pageType);
      Fill(body, ClassName(Classify(UnescapeEntities(a.version), lv)), lv)
  }

  /** Only the placeholders change: the rewritten page is the page with the two texts in their place. */
  lemma {:induction false} RenderFill(body: seq<Token>, className: string, latest: string)
    ensures Render(Fill(body, className, latest)) == RenderWith(body, className, latest)
  {
    if body != [] {
      RenderFill(body[1..], className, latest);
      var r := Fill(body, className, latest);
      assert r[1..] == Fill(body[1..], className, latest);
    }
  }

  /** A page without placeholders is left unchanged. */
  lemma {:induction false} FillWithoutSlots(body: seq<Token>, className: string, latest: string)
    requires forall i :: 0 <= i < |body| ==> body[i].Text?
    ensures Fill(body, className, latest) == body
  {
    if body != [] {
      FillWithoutSlots(body[1..], className, latest);
    }
  }

  /** Rewriting twice is rewriting once: no placeholder survives the first pass. */
  lemma RewriteIdempotent(body: seq<Token>, attrs: Option<BadgeAttrs>, latest: LatestFunc)
    ensures Rewrite(Rewrite(body, attrs, latest), attrs, latest) == Rewrite(body, attrs, latest)
  {
    var once := Rewrite(body, attrs, latest);
    if attrs.Some? {
      var a := attrs.value;
      var lv := latest(a.packagePath, a.modulePath, a.pageType);
      assert forall i :: 0 <= i < |once| ==> once[i].Text?;
      FillWithoutSlots(once, ClassName(Classify(UnescapeEntities(a.version), lv)), lv);
    }
  }

  /**
   * A version written by the templates with escaped characters is compared
   * as the version itself: the badge of an escaped "v1.2.3+build" is latest
   * when the lookup returns "v1.2.3+build".
   */
  lemma ClassifyEscapedVersion(version: string, latest: string)
    ensures Classify(UnescapeEntities(EscapeAttr(version)), latest) == Classify(version, latest)
  {
    UnescapeEscapeAttr(version);
  }
}
