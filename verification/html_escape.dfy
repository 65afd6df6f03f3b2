/** HTML escaping of user text before it is interpolated into the OPR page
    (and the equivalent helpers kept in the document generator). */
module HtmlEscape {
  import opened Wrappers
  import opened JsText

  /** `s.replace(/c/g, rep)` for a one-character pattern. */
  function ReplaceAllChar(s: string, c: char, rep: string): string
    decreases |s|
  {
    if s == [] then [] else (if s[0] == c then rep else [s[0]]) + ReplaceAllChar(s[1..], c, rep)
  }

  /** `escapeHtml` as the source writes it: five global replacements, with
      `&` replaced first so that the entities added later are not escaped
      again. */
  function EscapeHtml(value: string): string {
    var amp := ReplaceAllChar(value, '&', "&amp;");
    var lt := ReplaceAllChar(amp, '<', "&lt;");
    var gt := ReplaceAllChar(lt, '>', "&gt;");
    var quot := ReplaceAllChar(gt, '"', "&quot;");
    ReplaceAllChar(quot, '\'', "&#39;")
  }

  /** The OPR template's `escapeHtml`, which first maps a falsy value to "". */
  function EscapeHtmlNullable(value: Option<string>): (r: string)
    ensures value.None? ==> r == ""
    ensures value.Some? ==> r == EscapeHtml(value.value)
  {
    EscapeHtml(value.GetOr(""))
  }

  /** `sanitizeText`: null becomes "", then trim, then escape. */
  function SanitizeText(value: Option<string>): string {
    EscapeHtml(Trim(value.GetOr("")))
  }

  predicate IsSpecial(c: char) {
    c == '&' || c == '<' || c == '>' || c == '"' || c == '\''
  }

  /** The entity one character is written as. */
  function EntityOf(c: char): string {
    if c == '&' then "&amp;"
    else if c == '<' then "&lt;"
    else if c == '>' then "&gt;"
    else if c == '"' then "&quot;"
    else if c == '\'' then "&#39;"
    else [c]
  }

  /** Reference definition: every character replaced by its entity, in one pass. */
  function EscapeEach(s: string): string
    decreases |s|
  {
    if s == [] then [] else EntityOf(s[0]) + EscapeEach(s[1..])
  }

  lemma {:induction false} ReplaceAllCharConcat(a: string, b: string, c: char, rep: string)
    ensures ReplaceAllChar(a + b, c, rep) == ReplaceAllChar(a, c, rep) + ReplaceAllChar(b, c, rep)
    decreases |a|
  {
    if a == [] {
      assert a + b == b;
    } else {
      assert (a + b)[1..] == a[1..] + b;
      ReplaceAllCharConcat(a[1..], b, c, rep);
    }
  }

  lemma EscapeHtmlConcat(a: string, b: string)
    ensures EscapeHtml(a + b) == EscapeHtml(a) + EscapeHtml(b)
  {
    ReplaceAllCharConcat(a, b, '&', "&amp;");
    var a1, b1 := ReplaceAllChar(a, '&', "&amp;"), ReplaceAllChar(b, '&', "&amp;");
    ReplaceAllCharConcat(a1, b1, '<', "&lt;");
    var a2, b2 := ReplaceAllChar(a1, '<', "&lt;"), ReplaceAllChar(b1, '<', "&lt;");
    ReplaceAllCharConcat(a2, b2, '>', "&gt;");
    var a3, b3 := ReplaceAllChar(a2, '>', "&gt;"), ReplaceAllChar(b2, '>', "&gt;");
    ReplaceAllCharConcat(a3, b3, '"', "&quot;");
    var a4, b4 := ReplaceAllChar(a3, '"', "&quot;"), ReplaceAllChar(b3, '"', "&quot;");
    ReplaceAllCharConcat(a4, b4, '\'', "&#39;");
  }

  lemma {:induction false} ReplaceAbsent(t: string, c: char, rep: string)
    requires c !in t
    ensures ReplaceAllChar(t, c, rep) == t
    decreases |t|
  {
    if t != [] {
      ReplaceAbsent(t[1..], c, rep);
      assert [t[0]] + t[1..] == t;
    }
  }

  lemma ReplaceSingle(x: char, c: char, rep: string)
    ensures ReplaceAllChar([x], c, rep) == if x == c then rep else [x]
  {
    assert [x][1..] == [];
  }

  /** One replacement stage applied to text that is a single character or
      an entity written by an earlier stage. */
  lemma EscapeHtmlOneChar(c: char)
    ensures EscapeHtml([c]) == EntityOf(c)
  {
    if c == '&' {
      EscapeAmp();
    } else if c == '<' {
      EscapeLt();
    } else if c == '>' {
      EscapeGt();
    } else if c == '"' {
      EscapeQuot();
    } else if c == '\'' {
      EscapeApos();
    } else {
      EscapePlainChar(c);
    }
  }

  lemma EscapeAmp()
    ensures EscapeHtml("&") == "&amp;"
  {
    var e := "&amp;";
    ReplaceSingle('&', '&', e);
    assert ReplaceAllChar("&", '&', e) == e;
    assert '<' !in e && '>' !in e && '"' !in e && '\'' !in e;
    ReplaceAbsent(e, '<', "&lt;");
    ReplaceAbsent(e, '>', "&gt;");
    ReplaceAbsent(e, '"', "&quot;");
    ReplaceAbsent(e, '\'', "&#39;");
  }

  lemma EscapeLt()
    ensures EscapeHtml("<") == "&lt;"
  {
    var e := "&lt;";
    ReplaceSingle('<', '&', "&amp;");
    ReplaceSingle('<', '<', e);
    assert ReplaceAllChar(ReplaceAllChar("<", '&', "&amp;"), '<', e) == e;
    assert '>' !in e && '"' !in e && '\'' !in e;
    ReplaceAbsent(e, '>', "&gt;");
    ReplaceAbsent(e, '"', "&quot;");
    ReplaceAbsent(e, '\'', "&#39;");
  }

  lemma EscapeGt()
    ensures EscapeHtml(">") == "&gt;"
  {
    var e := "&gt;";
    ReplaceSingle('>', '&', "&amp;");
    ReplaceSingle('>', '<', "&lt;");
    ReplaceSingle('>', '>', e);
    assert ReplaceAllChar(ReplaceAllChar(ReplaceAllChar(">", '&', "&amp;"), '<', "&lt;"), '>', e) == e;
    assert '"' !in e && '\'' !in e;
    ReplaceAbsent(e, '"', "&quot;");
    ReplaceAbsent(e, '\'', "&#39;");
  }

  lemma EscapeQuot()
    ensures EscapeHtml("\"") == "&quot;"
  {
    var e := "&quot;";
    ReplaceSingle('"', '&', "&amp;");
    ReplaceSingle('"', '<', "&lt;");
    ReplaceSingle('"', '>', "&gt;");
    ReplaceSingle('"', '"', e);
    assert '\'' !in e;
    ReplaceAbsent(e, '\'', "&#39;");
  }

  lemma EscapeApos()
    ensures EscapeHtml("'") == "&#39;"
  {
    ReplaceSingle('\'', '&', "&amp;");
    ReplaceSingle('\'', '<', "&lt;");
    ReplaceSingle('\'', '>', "&gt;");
    ReplaceSingle('\'', '"', "&quot;");
    ReplaceSingle('\'', '\'', "&#39;");
  }

  lemma EscapePlainChar(c: char)
    requires !IsSpecial(c)
    ensures EscapeHtml([c]) == [c]
  {
    ReplaceSingle(c, '&', "&amp;");
    ReplaceSingle(c, '<', "&lt;");
    ReplaceSingle(c, '>', "&gt;");
    ReplaceSingle(c, '"', "&quot;");
    ReplaceSingle(c, '\'', "&#39;");
  }

  /** The chain of replacements escapes each character independently: the
      entities produced for `&` are not touched by the later replacements. */
  lemma {:induction false} EscapeIsCharwise(s: string)
    ensures EscapeHtml(s) == EscapeEach(s)
    decreases |s|
  {
    if s == [] {
    } else {
      assert s == [s[0]] + s[1..];
      EscapeHtmlConcat([s[0]], s[1..]);
      EscapeHtmlOneChar(s[0]);
      EscapeIsCharwise(s[1..]);
    }
  }

  /** Decoding the five entities escapeHtml writes. */
  function Unescape(s: string): string
    decreases |s|
  {
    if s == [] then []
    else if |s| >= 5 && s[..5] == "&amp;" then "&" + Unescape(s[5..])
    else if |s| >= 4 && s[..4] == "&lt;" then "<" + Unescape(s[4..])
    else if |s| >= 4 && s[..4] == "&gt;" then ">" + Unescape(s[4..])
    else if |s| >= 6 && s[..6] == "&quot;" then "\"" + Unescape(s[6..])
    else if |s| >= 5 && s[..5] == "&#39;" then "'" + Unescape(s[5..])
    else [s[0]] + Unescape(s[1..])
  }

  lemma UnescapeEntity(c: char, rest: string)
    ensures Unescape(EntityOf(c) + rest) == [c] + Unescape(rest)
  {
    var e := EntityOf(c);
    var s := e + rest;
    assert s[..|e|] == e;
    assert s[|e|..] == rest;
    if c == '&' {
    } else if c == '<' {
      assert !(|s| >= 5 && s[..5] == "&amp;") by { if |s| >= 5 { assert s[..5][1] == 'l'; } }
    } else if c == '>' {
      assert !(|s| >= 5 && s[..5] == "&amp;") by { if |s| >= 5 { assert s[..5][1] == 'g'; } }
      assert s[..4] != "&lt;" by { assert s[..4][1] == 'g'; }
    } else if c == '"' {
      assert !(|s| >= 5 && s[..5] == "&amp;") by { assert s[..5][1] == 'q'; }
      assert s[..4] != "&lt;" by { assert s[..4][1] == 'q'; }
      assert s[..4] != "&gt;" by { assert s[..4][1] == 'q'; }
    } else if c == '\'' {
      assert s[..5] != "&amp;" by { assert s[..5][1] == '#'; }
      assert s[..4] != "&lt;" by { assert s[..4][1] == '#'; }
      assert s[..4] != "&gt;" by { assert s[..4][1] == '#'; }
      assert !(|s| >= 6 && s[..6] == "&quot;") by { if |s| >= 6 { assert s[..6][1] == '#'; } }
    } else {
      UnescapePlain(c, rest);
    }
  }

  lemma UnescapePlain(c: char, rest: string)
    requires !IsSpecial(c)
    ensures Unescape([c] + rest) == [c] + Unescape(rest)
  {
    var s := [c] + rest;
    assert s[0] == c && s[1..] == rest;
    assert s[0] != '&';
    assert !(|s| >= 5 && s[..5] == "&amp;") by { if |s| >= 5 { assert s[..5][0] == c; } }
    assert !(|s| >= 4 && s[..4] == "&lt;") by { if |s| >= 4 { assert s[..4][0] == c; } }
    assert !(|s| >= 4 && s[..4] == "&gt;") by { if |s| >= 4 { assert s[..4][0] == c; } }
    assert !(|s| >= 6 && s[..6] == "&quot;") by { if |s| >= 6 { assert s[..6][0] == c; } }
    assert !(|s| >= 5 && s[..5] == "&#39;") by { if |s| >= 5 { assert s[..5][0] == c; } }
  }

  /** Escaping loses nothing: the entities decode back to the input. */
  lemma {:induction false} UnescapeEscape(s: string)
    ensures Unescape(EscapeHtml(s)) == s
    decreases |s|
  {
    EscapeIsCharwise(s);
    if s != [] {
      UnescapeEntity(s[0], EscapeEach(s[1..]));
      EscapeIsCharwise(s[1..]);
      UnescapeEscape(s[1..]);
    }
  }

  /** No `<`, `>`, `"` or `'` survives escaping. */
  lemma {:induction false} EscapedHasNoMarkup(s: string)
    ensures forall i :: 0 <= i < |EscapeHtml(s)| ==>
      EscapeHtml(s)[i] != '<' && EscapeHtml(s)[i] != '>' && EscapeHtml(s)[i] != '"' && EscapeHtml(s)[i] != '\''
    decreases |s|
  {
    EscapeIsCharwise(s);
    EscapeEachNoMarkup(s);
  }

  lemma {:induction false} EscapeEachNoMarkup(s: string)
    ensures forall i :: 0 <= i < |EscapeEach(s)| ==>
      EscapeEach(s)[i] != '<' && EscapeEach(s)[i] != '>' && EscapeEach(s)[i] != '"' && EscapeEach(s)[i] != '\''
    decreases |s|
  {
    if s != [] {
      EscapeEachNoMarkup(s[1..]);
      EntityNoMarkup(s[0]);
      NoMarkupConcat(EscapeEach(s), EntityOf(s[0]), EscapeEach(s[1..]));
    }
  }

  /** A character that is none of `<`, `>`, `"` and `'`. */
  predicate Unmarked(c: char) {
    c != '<' && c != '>' && c != '"' && c != '\''
  }

  lemma EntityNoMarkup(c: char)
    ensures forall i :: 0 <= i < |EntityOf(c)| ==> Unmarked(EntityOf(c)[i])
  {
  }

  lemma NoMarkupConcat(r: string, a: string, b: string)
    requires r == a + b
    requires forall i :: 0 <= i < |a| ==> Unmarked(a[i])
    requires forall i :: 0 <= i < |b| ==> Unmarked(b[i])
    ensures forall i :: 0 <= i < |r| ==> r[i] != '<' && r[i] != '>' && r[i] != '"' && r[i] != '\''
  {
    forall i | 0 <= i < |r| ensures Unmarked(r[i]) {
      if i >= |a| {
        assert r[i] == b[i - |a|];
      }
    }
  }

  /** Escaping never shortens text, and maps exactly the empty text to
      the empty text. */
  lemma {:induction false} EscapeEmpty(s: string)
    ensures EscapeHtml(s) == [] <==> s == []
    ensures |EscapeHtml(s)| >= |s|
    decreases |s|
  {
    EscapeIsCharwise(s);
    EscapeEachLength(s);
  }

  lemma {:induction false} EscapeEachLength(s: string)
    ensures |EscapeEach(s)| >= |s|
    decreases |s|
  {
    if s != [] {
      EscapeEachLength(s[1..]);
    }
  }

  /** A sanitised value is empty exactly when the raw value was absent or
      whitespace only. */
  lemma SanitizeEmpty(value: Option<string>)
    ensures SanitizeText(value) == [] <==> AllSpace(value.GetOr(""))
  {
    EscapeEmpty(Trim(value.GetOr("")));
  }
}
