/**
 * The opt-out iframe address: the fixed six-placeholder template and the
 * chain of `replace` calls that fills it (matomo-opt-out-form.component.ts,
 * `URL_PATTERN` and the body of `updateUrl`).
 */
module OptOutUrl {
  import opened Wrappers
  import opened JsString
  import opened UriComponent
  import opened QueryString

  const SERVER_TOKEN := "{SERVER}"
  const LOCALE_TOKEN := "{LOCALE}"
  const BG_COLOR_TOKEN := "{BG_COLOR}"
  const COLOR_TOKEN := "{COLOR}"
  const FONT_SIZE_TOKEN := "{FONT_SIZE}"
  const FONT_FAMILY_TOKEN := "{FONT_FAMILY}"

  // The names and fixed values of the template's query fields.
  const MODULE_NAME := "module"
  const MODULE_VALUE := "CoreAdminHome"
  const ACTION_NAME := "action"
  const ACTION_VALUE := "optOut"
  const LANGUAGE_NAME := "language"
  const BG_COLOR_NAME := "backgroundColor"
  const FONT_COLOR_NAME := "fontColor"
  const FONT_SIZE_NAME := "fontSize"
  const FONT_FAMILY_NAME := "fontFamily"

  // The literal text of the template, field by field.
  const SCRIPT_PATH := "/index.php"
  const MODULE_FIELD := MODULE_NAME + "=" + MODULE_VALUE
  const ACTION_FIELD := ACTION_NAME + "=" + ACTION_VALUE
  const LANGUAGE_KEY := LANGUAGE_NAME + "="
  const BG_COLOR_KEY := BG_COLOR_NAME + "="
  const FONT_COLOR_KEY := FONT_COLOR_NAME + "="
  const FONT_SIZE_KEY := FONT_SIZE_NAME + "="
  const FONT_FAMILY_KEY := FONT_FAMILY_NAME + "="

  // The literal text between two placeholders of the template.
  const LANGUAGE_PREFIX := SCRIPT_PATH + "?" + MODULE_FIELD + "&" + ACTION_FIELD + "&" + LANGUAGE_KEY
  const BG_COLOR_PREFIX := "&" + BG_COLOR_KEY
  const FONT_COLOR_PREFIX := "&" + FONT_COLOR_KEY
  const FONT_SIZE_PREFIX := "&" + FONT_SIZE_KEY
  const FONT_FAMILY_PREFIX := "&" + FONT_FAMILY_KEY

  /**
   * The template every opt-out address is made from: the server placeholder,
   * the script path, the query with its fixed `module` and `action` fields,
   * then `language`, `backgroundColor`, `fontColor`, `fontSize` and
   * `fontFamily`, each holding its placeholder.
   */
  const URL_PATTERN := SERVER_TOKEN + LANGUAGE_PREFIX + LOCALE_TOKEN
    + BG_COLOR_PREFIX + BG_COLOR_TOKEN + FONT_COLOR_PREFIX + COLOR_TOKEN
    + FONT_SIZE_PREFIX + FONT_SIZE_TOKEN + FONT_FAMILY_PREFIX + FONT_FAMILY_TOKEN

  /**
   * The address `updateUrl` assembles: the server URL goes in without
   * encoding, though `replace` still reads `$` patterns in it (see
   * `ServerMatchPattern`); the five appearance values go in through
   * `encodeURIComponent`.
   */
  function BuildUrl(server: string, locale: string, color: string, backgroundColor: string,
                    fontSize: string, fontFamily: string): string
  {
    var withServer := Replace(URL_PATTERN, SERVER_TOKEN, server);
    var withLocale := Replace(withServer, LOCALE_TOKEN, EncodeURIComponent(locale));
    var withColor := Replace(withLocale, COLOR_TOKEN, EncodeURIComponent(color));
    var withBackground := Replace(withColor, BG_COLOR_TOKEN, EncodeURIComponent(backgroundColor));
    var withFontSize := Replace(withBackground, FONT_SIZE_TOKEN, EncodeURIComponent(fontSize));
    Replace(withFontSize, FONT_FAMILY_TOKEN, EncodeURIComponent(fontFamily))
  }

  /**
   * The intended layout, written out independently of `replace`: each value
   * in its own query field, `color` as `fontColor` and `backgroundColor` as
   * `backgroundColor`.
   */
  function OptOutAddress(server: string, locale: string, color: string, backgroundColor: string,
                         fontSize: string, fontFamily: string): string
  {
    server + LANGUAGE_PREFIX + EncodeURIComponent(locale)
      + BG_COLOR_PREFIX + EncodeURIComponent(backgroundColor)
      + FONT_COLOR_PREFIX + EncodeURIComponent(color)
      + FONT_SIZE_PREFIX + EncodeURIComponent(fontSize)
      + FONT_FAMILY_PREFIX + EncodeURIComponent(fontFamily)
  }

  /**
   * A server URL that `replace` inserts verbatim and that later steps cannot
   * disturb: it holds no `$`-replacement pattern and none of the five
   * placeholders filled after it.
   */
  predicate InsertedVerbatim(server: string) {
    NoReplacementPattern(server) &&
    Absent(server, LOCALE_TOKEN) && Absent(server, COLOR_TOKEN) && Absent(server, BG_COLOR_TOKEN) &&
    Absent(server, FONT_SIZE_TOKEN) && Absent(server, FONT_FAMILY_TOKEN)
  }

  /** An encoded value is inserted verbatim and contains no placeholder brace. */
  lemma EncodedIsInert(v: string)
    ensures var e := EncodeURIComponent(v);
      NoReplacementPattern(e) && '{' !in e && '}' !in e && '&' !in e && '#' !in e && '?' !in e
  {
    EncodedHasNoDelimiters(v);
    NoDollarNoPattern(EncodeURIComponent(v));
  }

  lemma Placeholders()
    ensures IsPlaceholder(LOCALE_TOKEN) && IsPlaceholder(COLOR_TOKEN) && IsPlaceholder(BG_COLOR_TOKEN)
    ensures IsPlaceholder(FONT_SIZE_TOKEN) && IsPlaceholder(FONT_FAMILY_TOKEN)
    ensures '/' !in LOCALE_TOKEN && '/' !in COLOR_TOKEN && '/' !in BG_COLOR_TOKEN
    ensures '/' !in FONT_SIZE_TOKEN && '/' !in FONT_FAMILY_TOKEN
  {}

  /** The literal text of the template has no braces; the query starts right after the script path. */
  lemma LiteralPieces()
    ensures '{' !in LANGUAGE_PREFIX && '{' !in BG_COLOR_PREFIX && '{' !in FONT_COLOR_PREFIX
    ensures '{' !in FONT_SIZE_PREFIX && '{' !in FONT_FAMILY_PREFIX && '}' !in FONT_COLOR_PREFIX
    ensures |LANGUAGE_PREFIX| > 0 && LANGUAGE_PREFIX[0] == '/'
  {
    assert '{' !in SCRIPT_PATH && '{' !in MODULE_FIELD && '{' !in ACTION_FIELD && '{' !in LANGUAGE_KEY;
    assert '{' !in BG_COLOR_KEY && '{' !in FONT_COLOR_KEY && '{' !in FONT_SIZE_KEY && '{' !in FONT_FAMILY_KEY;
    assert '}' !in FONT_COLOR_KEY;
    assert LANGUAGE_PREFIX[0] == SCRIPT_PATH[0];
  }

  /** `{BG_COLOR}` does not contain `{COLOR}`: the character after the brace differs. */
  lemma ColorNotInBackground()
    ensures Absent(BG_COLOR_TOKEN, COLOR_TOKEN)
  {
    forall i | 0 <= i <= |BG_COLOR_TOKEN|
      ensures !MatchAt(BG_COLOR_TOKEN, COLOR_TOKEN, i)
    {
      if 0 < i && i + |COLOR_TOKEN| <= |BG_COLOR_TOKEN| {
        assert BG_COLOR_TOKEN[i..i + |COLOR_TOKEN|][0] == BG_COLOR_TOKEN[i] != '{';
      } else if i == 0 {
        assert BG_COLOR_TOKEN[0..|COLOR_TOKEN|][1] == 'B';
      }
    }
  }

  /**
   * One step of the chain after the server URL is in place: the placeholder
   * that follows `server + w` is the first occurrence, and it is replaced.
   */
  lemma ReplaceAfterServer(server: string, w: string, pat: string, y: string, rep: string)
    requires IsPlaceholder(pat) && Absent(server, pat) && Absent(w, pat)
    requires |w| > 0 && w[0] !in pat
    requires NoReplacementPattern(rep)
    ensures Replace(server + w + pat + y, pat, rep) == server + w + rep + y
  {
    assert w[0] !in pat[1..] by {
      forall k | 0 <= k < |pat| - 1
        ensures pat[1..][k] != w[0]
      {
        assert pat[1..][k] == pat[k + 1] && pat[k + 1] in pat;
      }
    }
    AbsentAppend(server, w, pat);
    FirstAfterPrefix(server + w, pat, y);
    ReplaceFirst(server + w, pat, y, rep);
  }

  lemma FillFirst(server: string, tS: string, rest: string)
    requires NoReplacementPattern(server)
    ensures Replace(tS + rest, tS, server) == server + rest
  {
    assert tS + rest == [] + tS + rest;
    ReplaceFirst([], tS, rest, server);
  }

  lemma FillColor(server: string, lead: string, tB: string, p3: string, tC: string, y: string, e3: string)
    requires IsPlaceholder(tC) && Absent(server, tC) && '{' !in lead && '{' !in p3 && '}' !in p3
    requires |lead| > 0 && lead[0] !in tC && Absent(tB, tC)
    requires NoReplacementPattern(e3)
    ensures Replace(server + (lead + tB + p3 + tC + y), tC, e3) == server + (lead + tB + p3 + e3 + y)
  {
    AbsentWithoutBrace(lead, tC);
    AbsentAppend(lead, tB, tC);
    AbsentWithoutBrace(p3, tC);
    AbsentAppend(lead + tB, p3, tC);
    var w := lead + tB + p3;
    assert w[0] == lead[0];
    assert server + (lead + tB + p3 + tC + y) == server + w + tC + y;
    ReplaceAfterServer(server, w, tC, y, e3);
  }

  lemma FillPlain(server: string, w: string, t: string, y: string, e: string)
    requires IsPlaceholder(t) && Absent(server, t) && '{' !in w && |w| > 0 && w[0] !in t
    requires NoReplacementPattern(e)
    ensures Replace(server + (w + t + y), t, e) == server + (w + e + y)
  {
    AbsentWithoutBrace(w, t);
    assert server + (w + t + y) == server + w + t + y;
    ReplaceAfterServer(server, w, t, y, e);
  }

  /**
   * The chain of six `replace` calls on a template of the same shape as
   * URL_PATTERN, stated for any literal pieces `p1`…`p5` and placeholders:
   * each placeholder's first occurrence is its own slot, so each value lands
   * in its own slot.
   */
  lemma {:induction false} FillChain(server: string, p1: string, p2: string, p3: string, p4: string, p5: string,
                                     tS: string, tL: string, tB: string, tC: string, tS2: string, tF: string,
                                     e1: string, e2: string, e3: string, e4: string, e5: string)
    requires IsPlaceholder(tL) && IsPlaceholder(tB) && IsPlaceholder(tC) && IsPlaceholder(tS2) && IsPlaceholder(tF)
    requires Absent(server, tL) && Absent(server, tB) && Absent(server, tC) && Absent(server, tS2) && Absent(server, tF)
    requires NoReplacementPattern(server)
    requires NoReplacementPattern(e1) && NoReplacementPattern(e2) && NoReplacementPattern(e3)
    requires NoReplacementPattern(e4) && NoReplacementPattern(e5)
    requires '{' !in p1 && '{' !in p2 && '{' !in p3 && '{' !in p4 && '{' !in p5
    requires '{' !in e1 && '{' !in e2 && '{' !in e3 && '{' !in e4
    requires |p1| > 0 && p1[0] !in tL && p1[0] !in tB && p1[0] !in tC && p1[0] !in tS2 && p1[0] !in tF
    requires Absent(tB, tC) && '}' !in p3
    ensures
      var u1 := Replace(tS + p1 + tL + p2 + tB + p3 + tC + p4 + tS2 + p5 + tF, tS, server);
      var u2 := Replace(u1, tL, e1);
      var u3 := Replace(u2, tC, e3);
      var u4 := Replace(u3, tB, e2);
      var u5 := Replace(u4, tS2, e4);
      Replace(u5, tF, e5) == server + p1 + e1 + p2 + e2 + p3 + e3 + p4 + e4 + p5 + e5
  {
    var lead := p1 + e1 + p2;
    var w5 := lead + e2 + p3 + e3 + p4;
    var w6 := w5 + e4 + p5;
    assert lead[0] == p1[0] && w5[0] == p1[0] && w6[0] == p1[0];

    var y1 := p1 + tL + p2 + tB + p3 + tC + p4 + tS2 + p5 + tF;
    Regroup1(tS, p1, tL, p2, tB, p3, tC, p4, tS2, p5, tF);
    FillFirst(server, tS, y1);

    var y2 := p2 + tB + p3 + tC + p4 + tS2 + p5 + tF;
    Regroup2(p1, tL, p2, tB, p3, tC, p4, tS2, p5, tF);
    FillPlain(server, p1, tL, y2, e1);

    var y3 := p4 + tS2 + p5 + tF;
    Regroup3(p1, e1, p2, tB, p3, tC, p4, tS2, p5, tF);
    FillColor(server, lead, tB, p3, tC, y3, e3);

    var y4 := p3 + e3 + y3;
    Regroup4(lead, tB, p3, e3, y3);
    FillPlain(server, lead, tB, y4, e2);

    var y5 := p5 + tF;
    Regroup5(lead, e2, p3, e3, p4, tS2, p5, tF);
    FillPlain(server, w5, tS2, y5, e4);

    Regroup6(w5, e4, p5, tF);
    FillPlain(server, w6, tF, [], e5);
    Regroup7(server, p1, e1, p2, e2, p3, e3, p4, e4, p5, e5);
  }

  // Regrouping the pieces between the steps of FillChain.

  lemma Regroup1(tS: string, p1: string, tL: string, p2: string, tB: string, p3: string, tC: string,
                 p4: string, tS2: string, p5: string, tF: string)
    ensures tS + p1 + tL + p2 + tB + p3 + tC + p4 + tS2 + p5 + tF ==
            tS + (p1 + tL + p2 + tB + p3 + tC + p4 + tS2 + p5 + tF)
  {}

  lemma Regroup2(p1: string, tL: string, p2: string, tB: string, p3: string, tC: string,
                 p4: string, tS2: string, p5: string, tF: string)
    ensures p1 + tL + p2 + tB + p3 + tC + p4 + tS2 + p5 + tF ==
            p1 + tL + (p2 + tB + p3 + tC + p4 + tS2 + p5 + tF)
  {}

  lemma Regroup3(p1: string, e1: string, p2: string, tB: string, p3: string, tC: string,
                 p4: string, tS2: string, p5: string, tF: string)
    ensures p1 + e1 + (p2 + tB + p3 + tC + p4 + tS2 + p5 + tF) ==
            (p1 + e1 + p2) + tB + p3 + tC + (p4 + tS2 + p5 + tF)
  {}

  lemma Regroup4(lead: string, tB: string, p3: string, e3: string, y3: string)
    ensures lead + tB + p3 + e3 + y3 == lead + tB + (p3 + e3 + y3)
  {}

  lemma Regroup5(lead: string, e2: string, p3: string, e3: string, p4: string, tS2: string, p5: string, tF: string)
    ensures lead + e2 + (p3 + e3 + (p4 + tS2 + p5 + tF)) == (lead + e2 + p3 + e3 + p4) + tS2 + (p5 + tF)
  {}

  lemma Regroup6(w5: string, e4: string, p5: string, tF: string)
    ensures w5 + e4 + (p5 + tF) == (w5 + e4 + p5) + tF + []
  {}

  lemma Regroup7(server: string, p1: string, e1: string, p2: string, e2: string, p3: string, e3: string,
                 p4: string, e4: string, p5: string, e5: string)
    ensures server + ((p1 + e1 + p2 + e2 + p3 + e3 + p4 + e4 + p5) + e5 + []) ==
            server + p1 + e1 + p2 + e2 + p3 + e3 + p4 + e4 + p5 + e5
  {}

  /**
   * The template maps each placeholder to its query field: for a server URL
   * inserted verbatim, `BuildUrl` is exactly the intended layout.
   */
  lemma BuildUrlLayout(server: string, locale: string, color: string,
                       backgroundColor: string, fontSize: string, fontFamily: string)
    requires InsertedVerbatim(server)
    ensures BuildUrl(server, locale, color, backgroundColor, fontSize, fontFamily) ==
            OptOutAddress(server, locale, color, backgroundColor, fontSize, fontFamily)
  {
    EncodedIsInert(locale);
    EncodedIsInert(backgroundColor);
    EncodedIsInert(color);
    EncodedIsInert(fontSize);
    EncodedIsInert(fontFamily);
    Placeholders();
    LiteralPieces();
    ColorNotInBackground();
    FillChain(server, LANGUAGE_PREFIX, BG_COLOR_PREFIX, FONT_COLOR_PREFIX, FONT_SIZE_PREFIX, FONT_FAMILY_PREFIX,
              SERVER_TOKEN, LOCALE_TOKEN, BG_COLOR_TOKEN, COLOR_TOKEN, FONT_SIZE_TOKEN, FONT_FAMILY_TOKEN,
              EncodeURIComponent(locale), EncodeURIComponent(backgroundColor), EncodeURIComponent(color),
              EncodeURIComponent(fontSize), EncodeURIComponent(fontFamily));
  }
  /**
   * `replace` interprets the server URL as a replacement pattern: a `$&` in
   * it stands for the matched `{SERVER}` placeholder, which therefore comes
   * back into the address.  This is why the layout needs `InsertedVerbatim`.
   */
  lemma ServerMatchPattern(a: string, b: string)
    requires NoReplacementPattern(a) && (|a| == 0 || a[|a| - 1] != '$') && NoReplacementPattern(b)
    ensures Replace(URL_PATTERN, SERVER_TOKEN, a + "$&" + b) ==
            a + SERVER_TOKEN + b + URL_PATTERN[|SERVER_TOKEN|..]
  {
    var rest := LANGUAGE_PREFIX + LOCALE_TOKEN + BG_COLOR_PREFIX + BG_COLOR_TOKEN + FONT_COLOR_PREFIX
      + COLOR_TOKEN + FONT_SIZE_PREFIX + FONT_SIZE_TOKEN + FONT_FAMILY_PREFIX + FONT_FAMILY_TOKEN;
    Regroup1(SERVER_TOKEN, LANGUAGE_PREFIX, LOCALE_TOKEN, BG_COLOR_PREFIX, BG_COLOR_TOKEN, FONT_COLOR_PREFIX,
             COLOR_TOKEN, FONT_SIZE_PREFIX, FONT_SIZE_TOKEN, FONT_FAMILY_PREFIX, FONT_FAMILY_TOKEN);
    assert URL_PATTERN == SERVER_TOKEN + rest;
    assert URL_PATTERN[|SERVER_TOKEN|..] == rest;
    ReplaceAtStart(SERVER_TOKEN, rest, a + "$&" + b);
    SubstitutionOfMatch(a, b, SERVER_TOKEN, [], rest);
  }

  /** The query fields of the opt-out address, in template order, with their raw values. */
  function AddressFields(locale: string, color: string, backgroundColor: string,
                         fontSize: string, fontFamily: string): seq<(string, string)>
  {
    [(MODULE_NAME, MODULE_VALUE), (ACTION_NAME, ACTION_VALUE),
     (LANGUAGE_NAME, EncodeURIComponent(locale)), (BG_COLOR_NAME, EncodeURIComponent(backgroundColor)),
     (FONT_COLOR_NAME, EncodeURIComponent(color)), (FONT_SIZE_NAME, EncodeURIComponent(fontSize)),
     (FONT_FAMILY_NAME, EncodeURIComponent(fontFamily))]
  }

  lemma Join7(a: string, b: string, c: string, d: string, e: string, f: string, g: string, sep: char)
    ensures Join([a, b, c, d, e, f, g], sep) ==
            a + [sep] + (b + [sep] + (c + [sep] + (d + [sep] + (e + [sep] + (f + [sep] + g)))))
  {
    var t6 := [g];
    var t5 := [f] + t6;
    var t4 := [e] + t5;
    var t3 := [d] + t4;
    var t2 := [c] + t3;
    var t1 := [b] + t2;
    var t0 := [a] + t1;
    assert t0 == [a, b, c, d, e, f, g];
    assert t0[1..] == t1 && t1[1..] == t2 && t2[1..] == t3 && t3[1..] == t4 && t4[1..] == t5 && t5[1..] == t6;
    assert Join(t6, sep) == g;
    assert Join(t5, sep) == f + [sep] + Join(t6, sep);
    assert Join(t4, sep) == e + [sep] + Join(t5, sep);
    assert Join(t3, sep) == d + [sep] + Join(t4, sep);
    assert Join(t2, sep) == c + [sep] + Join(t3, sep);
    assert Join(t1, sep) == b + [sep] + Join(t2, sep);
    assert Join(t0, sep) == a + [sep] + Join(t1, sep);
  }

  /** The address regrouped as base, `?`, and the fields with `&` between them. */
  lemma RegroupQuery(server: string, sp: string, q: string, amp: string, mf: string, af: string,
                     lk: string, bk: string, ck: string, sk: string, fk: string,
                     e1: string, e2: string, e3: string, e4: string, e5: string)
    ensures server + (sp + q + mf + amp + af + amp + lk) + e1 + (amp + bk) + e2 + (amp + ck) + e3
              + (amp + sk) + e4 + (amp + fk) + e5 ==
            (server + sp) + q + (mf + amp + (af + amp + ((lk + e1) + amp + ((bk + e2) + amp
              + ((ck + e3) + amp + ((sk + e4) + amp + (fk + e5)))))))
  {}

  /** The query fields of the address, each written `name=value`. */
  function AddressParts(e1: string, e2: string, e3: string, e4: string, e5: string): seq<string> {
    [MODULE_FIELD, ACTION_FIELD, LANGUAGE_KEY + e1, BG_COLOR_KEY + e2, FONT_COLOR_KEY + e3,
     FONT_SIZE_KEY + e4, FONT_FAMILY_KEY + e5]
  }

  /** The opt-out address is the server URL, the script path, `?` and the joined fields. */
  lemma AddressAsQuery(server: string, e1: string, e2: string, e3: string, e4: string, e5: string)
    ensures server + LANGUAGE_PREFIX + e1 + BG_COLOR_PREFIX + e2 + FONT_COLOR_PREFIX + e3
              + FONT_SIZE_PREFIX + e4 + FONT_FAMILY_PREFIX + e5 ==
            (server + SCRIPT_PATH) + "?" + Join(AddressParts(e1, e2, e3, e4, e5), '&')
  {
    Join7(MODULE_FIELD, ACTION_FIELD, LANGUAGE_KEY + e1, BG_COLOR_KEY + e2, FONT_COLOR_KEY + e3,
          FONT_SIZE_KEY + e4, FONT_FAMILY_KEY + e5, '&');
    assert "&" == ['&'];
    RegroupQuery(server, SCRIPT_PATH, "?", "&", MODULE_FIELD, ACTION_FIELD, LANGUAGE_KEY, BG_COLOR_KEY,
                 FONT_COLOR_KEY, FONT_SIZE_KEY, FONT_FAMILY_KEY, e1, e2, e3, e4, e5);
  }

  /** Values without `&` and `#` give fields without them. */
  lemma PartsAvoid(e1: string, e2: string, e3: string, e4: string, e5: string, c: char)
    requires c == '&' || c == '#'
    requires c !in e1 && c !in e2 && c !in e3 && c !in e4 && c !in e5
    ensures var parts := AddressParts(e1, e2, e3, e4, e5);
      forall i :: 0 <= i < |parts| ==> c !in parts[i]
  {
    QueryLiterals();
  }

  /** Values without `&` keep the joined fields apart: splitting and reading them gives the pairs back. */
  lemma PartsReadBack(e1: string, e2: string, e3: string, e4: string, e5: string)
    requires '&' !in e1 && '&' !in e2 && '&' !in e3 && '&' !in e4 && '&' !in e5
    ensures Fields(Join(AddressParts(e1, e2, e3, e4, e5), '&')) ==
            [(MODULE_NAME, MODULE_VALUE), (ACTION_NAME, ACTION_VALUE), (LANGUAGE_NAME, e1),
             (BG_COLOR_NAME, e2), (FONT_COLOR_NAME, e3), (FONT_SIZE_NAME, e4), (FONT_FAMILY_NAME, e5)]
  {
    var parts := AddressParts(e1, e2, e3, e4, e5);
    PartsAvoid(e1, e2, e3, e4, e5, '&');
    SplitJoin(parts, '&');
    SevenFields(Join(parts, '&'), MODULE_FIELD, ACTION_FIELD, LANGUAGE_KEY + e1, BG_COLOR_KEY + e2,
                FONT_COLOR_KEY + e3, FONT_SIZE_KEY + e4, FONT_FAMILY_KEY + e5);
    QueryLiterals();
    FieldOf(MODULE_NAME, MODULE_VALUE);
    FieldOf(ACTION_NAME, ACTION_VALUE);
    FieldOf(LANGUAGE_NAME, e1);
    FieldOf(BG_COLOR_NAME, e2);
    FieldOf(FONT_COLOR_NAME, e3);
    FieldOf(FONT_SIZE_NAME, e4);
    FieldOf(FONT_FAMILY_NAME, e5);
  }

  /** A query that splits into seven fields reads as those seven fields. */
  lemma SevenFields(q: string, p0: string, p1: string, p2: string, p3: string, p4: string, p5: string, p6: string)
    requires Split(q, '&') == [p0, p1, p2, p3, p4, p5, p6]
    ensures Fields(q) == [Field(p0), Field(p1), Field(p2), Field(p3), Field(p4), Field(p5), Field(p6)]
  {}

  /**
   * Reading the query of the opt-out address back gives exactly its seven
   * fields: no value spills into a neighbouring field, whatever the inputs.
   */
  lemma AddressQueryFields(server: string, locale: string, color: string,
                           backgroundColor: string, fontSize: string, fontFamily: string)
    requires '?' !in server && '#' !in server
    ensures var q := Query(OptOutAddress(server, locale, color, backgroundColor, fontSize, fontFamily));
      q.Some? && Fields(q.value) == AddressFields(locale, color, backgroundColor, fontSize, fontFamily)
  {
    var e1, e2, e3 := EncodeURIComponent(locale), EncodeURIComponent(backgroundColor), EncodeURIComponent(color);
    var e4, e5 := EncodeURIComponent(fontSize), EncodeURIComponent(fontFamily);
    EncodedIsInert(locale);
    EncodedIsInert(backgroundColor);
    EncodedIsInert(color);
    EncodedIsInert(fontSize);
    EncodedIsInert(fontFamily);
    AddressAsQuery(server, e1, e2, e3, e4, e5);
    PartsQuery(server, e1, e2, e3, e4, e5);
    PartsReadBack(e1, e2, e3, e4, e5);
  }

  /** The joined fields are the query of the address built on a server URL without `?` and `#`. */
  lemma PartsQuery(server: string, e1: string, e2: string, e3: string, e4: string, e5: string)
    requires '?' !in server && '#' !in server
    requires '#' !in e1 && '#' !in e2 && '#' !in e3 && '#' !in e4 && '#' !in e5
    ensures var joined := Join(AddressParts(e1, e2, e3, e4, e5), '&');
      Query((server + SCRIPT_PATH) + "?" + joined) == Some(joined)
  {
    QueryLiterals();
    var parts := AddressParts(e1, e2, e3, e4, e5);
    PartsAvoid(e1, e2, e3, e4, e5, '#');
    JoinAvoids(parts, '&', '#');
    QueryAfter(server + SCRIPT_PATH, Join(parts, '&'));
  }

  /**
   * Each appearance value reads back, decoded, from the field it was put in:
   * the language from `language`, the background colour from
   * `backgroundColor`, the font colour from `fontColor`, and so on.
   */
  lemma AddressParams(server: string, locale: string, color: string,
                      backgroundColor: string, fontSize: string, fontFamily: string)
    requires '?' !in server && '#' !in server
    ensures var url := OptOutAddress(server, locale, color, backgroundColor, fontSize, fontFamily);
      QueryParam(url, LANGUAGE_NAME) == Some(locale) &&
      QueryParam(url, BG_COLOR_NAME) == Some(backgroundColor) &&
      QueryParam(url, FONT_COLOR_NAME) == Some(color) &&
      QueryParam(url, FONT_SIZE_NAME) == Some(fontSize) &&
      QueryParam(url, FONT_FAMILY_NAME) == Some(fontFamily)
  {
    AddressQueryFields(server, locale, color, backgroundColor, fontSize, fontFamily);
    var url := OptOutAddress(server, locale, color, backgroundColor, fontSize, fontFamily);
    FieldParams(url, EncodeURIComponent(locale), EncodeURIComponent(backgroundColor), EncodeURIComponent(color),
                EncodeURIComponent(fontSize), EncodeURIComponent(fontFamily));
    DecodeEncode(locale);
    DecodeEncode(backgroundColor);
    DecodeEncode(color);
    DecodeEncode(fontSize);
    DecodeEncode(fontFamily);
  }

  /** A URL whose query reads as the template's fields yields each raw value under its name. */
  lemma FieldParams(url: string, e1: string, e2: string, e3: string, e4: string, e5: string)
    requires Query(url).Some?
    requires Fields(Query(url).value) ==
      [(MODULE_NAME, MODULE_VALUE), (ACTION_NAME, ACTION_VALUE), (LANGUAGE_NAME, e1),
       (BG_COLOR_NAME, e2), (FONT_COLOR_NAME, e3), (FONT_SIZE_NAME, e4), (FONT_FAMILY_NAME, e5)]
    ensures QueryParam(url, LANGUAGE_NAME) == DecodeURIComponent(e1)
    ensures QueryParam(url, BG_COLOR_NAME) == DecodeURIComponent(e2)
    ensures QueryParam(url, FONT_COLOR_NAME) == DecodeURIComponent(e3)
    ensures QueryParam(url, FONT_SIZE_NAME) == DecodeURIComponent(e4)
    ensures QueryParam(url, FONT_FAMILY_NAME) == DecodeURIComponent(e5)
  {
    FieldNamesDistinct();
    SevenFieldsRead(url, (MODULE_NAME, MODULE_VALUE), (ACTION_NAME, ACTION_VALUE), (LANGUAGE_NAME, e1),
                    (BG_COLOR_NAME, e2), (FONT_COLOR_NAME, e3), (FONT_SIZE_NAME, e4), (FONT_FAMILY_NAME, e5));
  }

  /** Seven fields with different names: each of the last five is found under its own name. */
  lemma SevenFieldsRead(url: string, a0: (string, string), a1: (string, string), a2: (string, string),
                        a3: (string, string), a4: (string, string), a5: (string, string), a6: (string, string))
    requires Query(url).Some? && Fields(Query(url).value) == [a0, a1, a2, a3, a4, a5, a6]
    requires a0.0 != a2.0 && a1.0 != a2.0
    requires a0.0 != a3.0 && a1.0 != a3.0 && a2.0 != a3.0
    requires a0.0 != a4.0 && a1.0 != a4.0 && a2.0 != a4.0 && a3.0 != a4.0
    requires a0.0 != a5.0 && a1.0 != a5.0 && a2.0 != a5.0 && a3.0 != a5.0 && a4.0 != a5.0
    requires a0.0 != a6.0 && a1.0 != a6.0 && a2.0 != a6.0 && a3.0 != a6.0 && a4.0 != a6.0 && a5.0 != a6.0
    ensures QueryParam(url, a2.0) == DecodeURIComponent(a2.1)
    ensures QueryParam(url, a3.0) == DecodeURIComponent(a3.1)
    ensures QueryParam(url, a4.0) == DecodeURIComponent(a4.1)
    ensures QueryParam(url, a5.0) == DecodeURIComponent(a5.1)
    ensures QueryParam(url, a6.0) == DecodeURIComponent(a6.1)
  {
    SevenLookup(a0, a1, a2, a3, a4, a5, a6);
    ParamFromLookup(url, a2.0);
    ParamFromLookup(url, a3.0);
    ParamFromLookup(url, a4.0);
    ParamFromLookup(url, a5.0);
    ParamFromLookup(url, a6.0);
  }

  lemma SevenLookup(a0: (string, string), a1: (string, string), a2: (string, string),
                    a3: (string, string), a4: (string, string), a5: (string, string), a6: (string, string))
    requires a0.0 != a2.0 && a1.0 != a2.0
    requires a0.0 != a3.0 && a1.0 != a3.0 && a2.0 != a3.0
    requires a0.0 != a4.0 && a1.0 != a4.0 && a2.0 != a4.0 && a3.0 != a4.0
    requires a0.0 != a5.0 && a1.0 != a5.0 && a2.0 != a5.0 && a3.0 != a5.0 && a4.0 != a5.0
    requires a0.0 != a6.0 && a1.0 != a6.0 && a2.0 != a6.0 && a3.0 != a6.0 && a4.0 != a6.0 && a5.0 != a6.0
    ensures var fields := [a0, a1, a2, a3, a4, a5, a6];
      Lookup(fields, a2.0) == Some(a2.1) && Lookup(fields, a3.0) == Some(a3.1) &&
      Lookup(fields, a4.0) == Some(a4.1) && Lookup(fields, a5.0) == Some(a5.1) &&
      Lookup(fields, a6.0) == Some(a6.1)
  {
    var fields := [a0, a1, a2, a3, a4, a5, a6];
    LookupFirst(fields, 2, a2.0);
    LookupFirst(fields, 3, a3.0);
    LookupFirst(fields, 4, a4.0);
    LookupFirst(fields, 5, a5.0);
    LookupFirst(fields, 6, a6.0);
  }

  /** The seven field names of the template are pairwise different. */
  lemma FieldNamesDistinct()
    ensures MODULE_NAME != LANGUAGE_NAME && ACTION_NAME != LANGUAGE_NAME
    ensures MODULE_NAME != BG_COLOR_NAME && ACTION_NAME != BG_COLOR_NAME && LANGUAGE_NAME != BG_COLOR_NAME
    ensures MODULE_NAME != FONT_COLOR_NAME && ACTION_NAME != FONT_COLOR_NAME && LANGUAGE_NAME != FONT_COLOR_NAME
    ensures BG_COLOR_NAME != FONT_COLOR_NAME
    ensures MODULE_NAME != FONT_SIZE_NAME && ACTION_NAME != FONT_SIZE_NAME && LANGUAGE_NAME != FONT_SIZE_NAME
    ensures BG_COLOR_NAME != FONT_SIZE_NAME && FONT_COLOR_NAME != FONT_SIZE_NAME
    ensures MODULE_NAME != FONT_FAMILY_NAME && ACTION_NAME != FONT_FAMILY_NAME && LANGUAGE_NAME != FONT_FAMILY_NAME
    ensures BG_COLOR_NAME != FONT_FAMILY_NAME && FONT_COLOR_NAME != FONT_FAMILY_NAME && FONT_SIZE_NAME != FONT_FAMILY_NAME
    ensures MODULE_NAME != ACTION_NAME
  {
    assert LANGUAGE_NAME[0] == 'l' && FONT_SIZE_NAME[0] == 'f';
  }

  /** The literal text of the query holds no `&`, `#` or `?`, and its field names no `=`. */
  lemma QueryLiterals()
    ensures '?' !in SCRIPT_PATH && '#' !in SCRIPT_PATH
    ensures '&' !in MODULE_FIELD && '#' !in MODULE_FIELD && '&' !in ACTION_FIELD && '#' !in ACTION_FIELD
    ensures '&' !in LANGUAGE_KEY && '#' !in LANGUAGE_KEY && '&' !in BG_COLOR_KEY && '#' !in BG_COLOR_KEY
    ensures '&' !in FONT_COLOR_KEY && '#' !in FONT_COLOR_KEY && '&' !in FONT_SIZE_KEY && '#' !in FONT_SIZE_KEY
    ensures '&' !in FONT_FAMILY_KEY && '#' !in FONT_FAMILY_KEY
    ensures '=' !in MODULE_NAME && '=' !in ACTION_NAME && '=' !in LANGUAGE_NAME && '=' !in BG_COLOR_NAME
    ensures '=' !in FONT_COLOR_NAME && '=' !in FONT_SIZE_NAME && '=' !in FONT_FAMILY_NAME
  {
    NameLiterals('&');
    NameLiterals('#');
    NameLiterals('=');
    assert '&' !in MODULE_VALUE && '#' !in MODULE_VALUE && '&' !in ACTION_VALUE && '#' !in ACTION_VALUE;
    assert '?' !in SCRIPT_PATH && '#' !in SCRIPT_PATH;
  }

  /** No field name of the template holds a query delimiter. */
  lemma NameLiterals(c: char)
    requires c == '&' || c == '#' || c == '='
    ensures c !in MODULE_NAME && c !in ACTION_NAME && c !in LANGUAGE_NAME && c !in BG_COLOR_NAME
    ensures c !in FONT_COLOR_NAME && c !in FONT_SIZE_NAME && c !in FONT_FAMILY_NAME
  {}

}
