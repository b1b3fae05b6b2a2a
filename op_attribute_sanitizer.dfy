/** The attribute sanitizer: reduces an untrusted attribute object to the
    whitelisted keys whose values pass their validators. */
module OpAttributeSanitizer {
  import opened JsValue
  import opened StringExt
  import opened OpAttributes

  // ---------------------------------------------------------------------
  // Validators. Each stands for a case-insensitive regular expression
  // anchored at both ends.

  predicate IsAsciiLetter(c: char) {
    'a' <= c <= 'z' || 'A' <= c <= 'Z'
  }

  predicate IsHexDigit(c: char) {
    '0' <= c <= '9' || 'a' <= c <= 'f' || 'A' <= c <= 'F'
  }

  /** The characters of the regular-expression class `\s`. */
  predicate IsJsWhitespace(c: char) {
    || c == ' ' || c == '\t' || c == '\n' || c == '\r' || c == '\U{000B}' || c == '\U{000C}'
    || c == '\U{00A0}' || c == '\U{1680}' || '\U{2000}' <= c <= '\U{200A}'
    || c == '\U{2028}' || c == '\U{2029}' || c == '\U{202F}' || c == '\U{205F}'
    || c == '\U{3000}' || c == '\U{FEFF}'
  }

  /** A character that cannot end a quoted HTML attribute value, open a tag
      or an entity, or end a CSS declaration. */
  predicate InertChar(c: char) {
    c != '"' && c != '\'' && c != '<' && c != '>' && c != '&' && c != ';' && c != ':'
  }

  /** A value that stays inside the `style` or `class` attribute it is
      written into. */
  predicate Inert(s: string) {
    forall i | 0 <= i < |s| :: InertChar(s[i])
  }

  /** `#` followed by exactly three or six hex digits. */
  predicate IsValidHexColor(s: string): (b: bool)
    ensures b ==> Inert(s)
  {
    && (|s| == 4 || |s| == 7)
    && s[0] == '#'
    && forall i | 1 <= i < |s| :: IsHexDigit(s[i])
  }

  /** One to thirty letters, digits, whitespace characters or hyphens. */
  predicate IsValidFontName(s: string): (b: bool)
    ensures b ==> Inert(s)
  {
    && 1 <= |s| <= 30
    && forall i | 0 <= i < |s| :: IsAsciiLetter(s[i]) || IsDigit(s[i]) || IsJsWhitespace(s[i]) || s[i] == '-'
  }

  /** One to twenty letters or hyphens. */
  predicate IsValidSize(s: string): (b: bool)
    ensures b ==> Inert(s)
  {
    && 1 <= |s| <= 20
    && forall i | 0 <= i < |s| :: IsAsciiLetter(s[i]) || s[i] == '-'
  }

  // ---------------------------------------------------------------------
  // The sanitized record, key by key.

  /** The sanitizer looks inside its argument only when it is a truthy object. */
  predicate IsAttrObject(dirty: JValue) {
    Truthy(dirty) && IsTypeofObject(dirty)
  }

  function Min(a: int, b: int): int { if a <= b then a else b }

  function KeepFlag(v: JValue): Option<bool> {
    if Truthy(v) then Some(true) else None
  }

  function KeepIf(keep: bool, v: JValue): Option<JValue> {
    if keep then Some(v) else None
  }

  /** `v === a || v === b`, keeping the string. */
  function KeepEither(v: JValue, a: string, b: string): Option<string> {
    if v == JStr(a) || v == JStr(b) then Some(v.s) else None
  }

  function KeepClamped(keep: bool, v: JValue, bound: int): Option<int> {
    if keep then Some(Min(ToNumber(v), bound)) else None
  }

  /** The record the sanitizer builds from `dirty`, key by key. Whatever
      the input, the style values it keeps stay inside the attribute they
      are written into, and the link holds only URL-safe characters. */
  function Sanitized(dirty: JValue): (r: Attrs)
    ensures !IsAttrObject(dirty) ==> r == NoAttrs
    ensures r.background.Some? ==> Inert(ToJsString(r.background.value))
    ensures r.color.Some? ==> Inert(ToJsString(r.color.value))
    ensures r.font.Some? ==> Inert(ToJsString(r.font.value))
    ensures r.size.Some? ==> Inert(ToJsString(r.size.value))
    ensures r.link.Some? ==> AllUrlSafe(r.link.value)
  {
    if !IsAttrObject(dirty) then NoAttrs
    else
      var background, color := Get(dirty, "background"), Get(dirty, "color");
      var font, size, link := Get(dirty, "font"), Get(dirty, "size"), Get(dirty, "link");
      var header, indent := Get(dirty, "header"), Get(dirty, "indent");
      var user, name := Get(dirty, "user"), Get(dirty, "name");
      Attrs(
        background := KeepIf(Truthy(background) && IsValidHexColor(ToJsString(background)), background),
        color := KeepIf(Truthy(color) && IsValidHexColor(ToJsString(color)), color),
        font := KeepIf(Truthy(font) && IsValidFontName(ToJsString(font)), font),
        size := KeepIf(Truthy(size) && IsValidSize(ToJsString(size)), size),
        link := if Truthy(link) then Some(ScrubUrl(ToJsString(link))) else None,
        bold := KeepFlag(Get(dirty, "bold")),
        italic := KeepFlag(Get(dirty, "italic")),
        underline := KeepFlag(Get(dirty, "underline")),
        strike := KeepFlag(Get(dirty, "strike")),
        code := KeepFlag(Get(dirty, "code")),
        blockquote := KeepFlag(Get(dirty, "blockquote")),
        codeBlock := KeepFlag(Get(dirty, "code-block")),
        script := KeepEither(Get(dirty, "script"), ScriptSub, ScriptSuper),
        list := KeepEither(Get(dirty, "list"), ListBullet, ListOrdered),
        header := KeepClamped(ToNumber(header) != 0, header, 6),
        align := KeepEither(Get(dirty, "align"), AlignCenter, AlignRight),
        direction := KeepEither(Get(dirty, "direction"), DirectionRtl, DirectionRtl),
        indent := KeepClamped(Truthy(indent) && ToNumber(indent) != 0, indent, 30),
        name := KeepIf(Truthy(name) && ToJsString(name) != "", name),
        id := KeepIf(Truthy(user) && ToJsString(user) != "", user))
  }

  // ---------------------------------------------------------------------
  // The sanitizer as the library runs it: key by key into an empty record.

  const FlagKeys: seq<string> := ["bold", "italic", "underline", "strike", "code", "blockquote", "code-block"]
  const ColourKeys: seq<string> := ["background", "color"]

  /** `cleanAttrs[prop] = true` for a flag name. */
  function WithFlag(a: Attrs, prop: string): Attrs {
    if prop == "bold" then a.(bold := Some(true))
    else if prop == "italic" then a.(italic := Some(true))
    else if prop == "underline" then a.(underline := Some(true))
    else if prop == "strike" then a.(strike := Some(true))
    else if prop == "code" then a.(code := Some(true))
    else if prop == "blockquote" then a.(blockquote := Some(true))
    else if prop == "code-block" then a.(codeBlock := Some(true))
    else a
  }

  /** `cleanAttrs[prop] = val` for a colour name. */
  function WithColour(a: Attrs, prop: string, val: JValue): Attrs {
    if prop == "background" then a.(background := Some(val))
    else if prop == "color" then a.(color := Some(val))
    else a
  }

  /** The record after the flag loop has handled the first `n` flag keys. */
  function FlagsDone(dirty: JValue, n: nat): Attrs
    requires n <= |FlagKeys|
  {
    if n == 0 then NoAttrs
    else
      var a := FlagsDone(dirty, n - 1);
      if Truthy(Get(dirty, FlagKeys[n - 1])) then WithFlag(a, FlagKeys[n - 1]) else a
  }

  /** The record after the colour loop has handled the first `n` colour keys. */
  function ColoursDone(dirty: JValue, n: nat): Attrs
    requires n <= |ColourKeys|
  {
    if n == 0 then FlagsDone(dirty, |FlagKeys|)
    else
      var a := ColoursDone(dirty, n - 1);
      var val := Get(dirty, ColourKeys[n - 1]);
      if Truthy(val) && IsValidHexColor(ToJsString(val)) then WithColour(a, ColourKeys[n - 1], val) else a
  }

  /** The keys the sanitizer copies one at a time after its two loops, set on
      the record `a` the loops produced. */
  function WithScalars(dirty: JValue, a: Attrs): Attrs {
    WithLayout(dirty, WithFormats(dirty, a))
  }

  /** Font, size, link, script and list copied over `a`. */
  function WithFormats(dirty: JValue, a: Attrs): Attrs {
    var font, size, link := Get(dirty, "font"), Get(dirty, "size"), Get(dirty, "link");
    var script, list := Get(dirty, "script"), Get(dirty, "list");
    a.(
      font := if Truthy(font) && IsValidFontName(ToJsString(font)) then Some(font) else a.font,
      size := if Truthy(size) && IsValidSize(ToJsString(size)) then Some(size) else a.size,
      link := if Truthy(link) then Some(ScrubUrl(ToJsString(link))) else a.link,
      script := if script == JStr(ScriptSub) || JStr(ScriptSuper) == script then Some(script.s) else a.script,
      list := if list == JStr(ListBullet) || list == JStr(ListOrdered) then Some(list.s) else a.list)
  }

  /** Header, align, direction, indent, name and the user as id copied over
      `a`. */
  function WithLayout(dirty: JValue, a: Attrs): Attrs {
    var header, align, direction := Get(dirty, "header"), Get(dirty, "align"), Get(dirty, "direction");
    var indent, user, name := Get(dirty, "indent"), Get(dirty, "user"), Get(dirty, "name");
    a.(
      header := if ToNumber(header) != 0 then Some(Min(ToNumber(header), 6)) else a.header,
      align := if align == JStr(AlignCenter) || align == JStr(AlignRight) then Some(align.s) else a.align,
      direction := if direction == JStr(DirectionRtl) then Some(direction.s) else a.direction,
      indent := if Truthy(indent) && ToNumber(indent) != 0 then Some(Min(ToNumber(indent), 30)) else a.indent,
      name := if Truthy(name) && ToJsString(name) != "" then Some(name) else a.name,
      id := if Truthy(user) && ToJsString(user) != "" then Some(user) else a.id)
  }

  /** After the flag loop every flag key holds `true` exactly when the input
      value under it is truthy, and nothing else is set. */
  lemma FlagLoopDone(dirty: JValue)
    ensures FlagsDone(dirty, |FlagKeys|) == NoAttrs.(
      bold := KeepFlag(Get(dirty, "bold")), italic := KeepFlag(Get(dirty, "italic")),
      underline := KeepFlag(Get(dirty, "underline")), strike := KeepFlag(Get(dirty, "strike")),
      code := KeepFlag(Get(dirty, "code")), blockquote := KeepFlag(Get(dirty, "blockquote")),
      codeBlock := KeepFlag(Get(dirty, "code-block")))
  {
    var d := dirty;
    assert FlagsDone(d, 1) == NoAttrs.(bold := KeepFlag(Get(d, "bold")));
    assert FlagsDone(d, 2) == FlagsDone(d, 1).(italic := KeepFlag(Get(d, "italic")));
    assert FlagsDone(d, 3) == FlagsDone(d, 2).(underline := KeepFlag(Get(d, "underline")));
    assert FlagsDone(d, 4) == FlagsDone(d, 3).(strike := KeepFlag(Get(d, "strike")));
    assert FlagsDone(d, 5) == FlagsDone(d, 4).(code := KeepFlag(Get(d, "code")));
    assert FlagsDone(d, 6) == FlagsDone(d, 5).(blockquote := KeepFlag(Get(d, "blockquote")));
  }

  /** After the colour loop both colour keys hold their input value exactly
      when it passes the hex-colour check. */
  lemma ColourLoopDone(dirty: JValue)
    ensures
      var bg, color := Get(dirty, "background"), Get(dirty, "color");
      ColoursDone(dirty, |ColourKeys|) == FlagsDone(dirty, |FlagKeys|).(
        background := KeepIf(Truthy(bg) && IsValidHexColor(ToJsString(bg)), bg),
        color := KeepIf(Truthy(color) && IsValidHexColor(ToJsString(color)), color))
  {
    var d := dirty;
    var bg := Get(d, "background");
    FlagLoopDone(d);
    assert ColoursDone(d, 1) == FlagsDone(d, 7).(background := KeepIf(Truthy(bg) && IsValidHexColor(ToJsString(bg)), bg));
  }

  /** The loops followed by the one-at-a-time keys build the declarative
      record. */
  lemma SanitizedInSteps(dirty: JValue)
    requires IsAttrObject(dirty)
    ensures WithScalars(dirty, ColoursDone(dirty, |ColourKeys|)) == Sanitized(dirty)
  {
    FlagLoopDone(dirty);
    ColourLoopDone(dirty);
  }

  /** `OpAttributeSanitizer.sanitize`. */
  method Sanitize(dirtyAttrs: JValue) returns (cleanAttrs: Attrs)
    ensures cleanAttrs == Sanitized(dirtyAttrs)
  {
    cleanAttrs := NoAttrs;
    if !Truthy(dirtyAttrs) || !IsTypeofObject(dirtyAttrs) {
      return;
    }

    for i := 0 to |FlagKeys|
      invariant cleanAttrs == FlagsDone(dirtyAttrs, i)
    {
      var prop := FlagKeys[i];
      var v := Get(dirtyAttrs, prop);
      if Truthy(v) {
        cleanAttrs := WithFlag(cleanAttrs, prop);
      }
    }

    for i := 0 to |ColourKeys|
      invariant cleanAttrs == ColoursDone(dirtyAttrs, i)
    {
      var prop := ColourKeys[i];
      var val := Get(dirtyAttrs, prop);
      if Truthy(val) && IsValidHexColor(ToJsString(val)) {
        cleanAttrs := WithColour(cleanAttrs, prop, val);
      }
    }

    cleanAttrs := CopyScalars(dirtyAttrs, cleanAttrs);
    SanitizedInSteps(dirtyAttrs);
  }

  /** The part of `sanitize` after its two loops: each remaining key is
      checked and copied in turn. */
  method CopyScalars(dirtyAttrs: JValue, a: Attrs) returns (cleanAttrs: Attrs)
    ensures cleanAttrs == WithScalars(dirtyAttrs, a)
  {
    cleanAttrs := CopyFormats(dirtyAttrs, a);
    cleanAttrs := CopyLayout(dirtyAttrs, cleanAttrs);
  }

  method CopyFormats(dirtyAttrs: JValue, a: Attrs) returns (cleanAttrs: Attrs)
    ensures cleanAttrs == WithFormats(dirtyAttrs, a)
  {
    var font, size, link := Get(dirtyAttrs, "font"), Get(dirtyAttrs, "size"), Get(dirtyAttrs, "link");
    var script, list := Get(dirtyAttrs, "script"), Get(dirtyAttrs, "list");
    ghost var spec := WithFormats(dirtyAttrs, a);
    cleanAttrs := a;
    if Truthy(font) && IsValidFontName(ToJsString(font)) {
      cleanAttrs := cleanAttrs.(font := Some(font));
    }
    assert cleanAttrs == spec.(size := a.size, link := a.link, script := a.script, list := a.list);
    if Truthy(size) && IsValidSize(ToJsString(size)) {
      cleanAttrs := cleanAttrs.(size := Some(size));
    }
    assert cleanAttrs == spec.(link := a.link, script := a.script, list := a.list);
    if Truthy(link) {
      cleanAttrs := cleanAttrs.(link := Some(ScrubUrl(ToJsString(link))));
    }
    assert cleanAttrs == spec.(script := a.script, list := a.list);
    if script == JStr(ScriptSub) || JStr(ScriptSuper) == script {
      cleanAttrs := cleanAttrs.(script := Some(script.s));
    }
    assert cleanAttrs == spec.(list := a.list);
    if list == JStr(ListBullet) || list == JStr(ListOrdered) {
      cleanAttrs := cleanAttrs.(list := Some(list.s));
    }
  }

  method CopyLayout(dirtyAttrs: JValue, a: Attrs) returns (cleanAttrs: Attrs)
    ensures cleanAttrs == WithLayout(dirtyAttrs, a)
  {
    var header, align, direction := Get(dirtyAttrs, "header"), Get(dirtyAttrs, "align"), Get(dirtyAttrs, "direction");
    var indent, user, name := Get(dirtyAttrs, "indent"), Get(dirtyAttrs, "user"), Get(dirtyAttrs, "name");
    ghost var spec := WithLayout(dirtyAttrs, a);
    cleanAttrs := a;
    if ToNumber(header) != 0 {
      cleanAttrs := cleanAttrs.(header := Some(Min(ToNumber(header), 6)));
    }
    assert cleanAttrs == spec.(align := a.align, direction := a.direction, indent := a.indent, name := a.name, id := a.id);
    if align == JStr(AlignCenter) || align == JStr(AlignRight) {
      cleanAttrs := cleanAttrs.(align := Some(align.s));
    }
    assert cleanAttrs == spec.(direction := a.direction, indent := a.indent, name := a.name, id := a.id);
    if direction == JStr(DirectionRtl) {
      cleanAttrs := cleanAttrs.(direction := Some(direction.s));
    }
    assert cleanAttrs == spec.(indent := a.indent, name := a.name, id := a.id);
    if Truthy(indent) && ToNumber(indent) != 0 {
      cleanAttrs := cleanAttrs.(indent := Some(Min(ToNumber(indent), 30)));
    }
    assert cleanAttrs == spec.(name := a.name, id := a.id);
    if Truthy(name) && ToJsString(name) != "" {
      cleanAttrs := cleanAttrs.(name := Some(name));
    }
    assert cleanAttrs == spec.(id := a.id);
    if Truthy(user) && ToJsString(user) != "" {
      cleanAttrs := cleanAttrs.(id := Some(user));
    }
  }

  // ---------------------------------------------------------------------
  // What the sanitized record holds

  /** A null, falsy or non-object input gives the empty record. */
  lemma SanitizedNonObject(dirty: JValue)
    requires !IsAttrObject(dirty)
    ensures Sanitized(dirty) == NoAttrs
    ensures ToJs(Sanitized(dirty)).props == map[]
  {
    ToJsEmpty();
  }

  /** A flag is present exactly when the input value under it is truthy. */
  lemma SanitizedFlags(dirty: JValue)
    ensures var r, obj := Sanitized(dirty), IsAttrObject(dirty);
      && (r.bold.Some? <==> obj && Truthy(Get(dirty, "bold")))
      && (r.italic.Some? <==> obj && Truthy(Get(dirty, "italic")))
      && (r.underline.Some? <==> obj && Truthy(Get(dirty, "underline")))
      && (r.strike.Some? <==> obj && Truthy(Get(dirty, "strike")))
      && (r.code.Some? <==> obj && Truthy(Get(dirty, "code")))
      && (r.blockquote.Some? <==> obj && Truthy(Get(dirty, "blockquote")))
      && (r.codeBlock.Some? <==> obj && Truthy(Get(dirty, "code-block")))
  {
  }

  /** Each colour, the font and the size survive only when their string form
      passes the validator, and then unchanged. */
  lemma SanitizedStyles(dirty: JValue)
    ensures var r := Sanitized(dirty);
      && (r.background.Some? <==> IsAttrObject(dirty) && Truthy(Get(dirty, "background"))
                                    && IsValidHexColor(ToJsString(Get(dirty, "background"))))
      && (r.color.Some? <==> IsAttrObject(dirty) && Truthy(Get(dirty, "color"))
                               && IsValidHexColor(ToJsString(Get(dirty, "color"))))
      && (r.font.Some? <==> IsAttrObject(dirty) && Truthy(Get(dirty, "font"))
                              && IsValidFontName(ToJsString(Get(dirty, "font"))))
      && (r.size.Some? <==> IsAttrObject(dirty) && Truthy(Get(dirty, "size"))
                              && IsValidSize(ToJsString(Get(dirty, "size"))))
      && (r.background.Some? ==> r.background.value == Get(dirty, "background"))
      && (r.color.Some? ==> r.color.value == Get(dirty, "color"))
      && (r.font.Some? ==> r.font.value == Get(dirty, "font"))
      && (r.size.Some? ==> r.size.value == Get(dirty, "size"))
  {
  }

  /** The enumerated keys are copied, unchanged, exactly when the input holds
      one of the allowed strings. */
  lemma SanitizedEnums(dirty: JValue)
    ensures var r := Sanitized(dirty);
      && (r.script.Some? <==> IsAttrObject(dirty) && Get(dirty, "script") in {JStr(ScriptSub), JStr(ScriptSuper)})
      && (r.list.Some? <==> IsAttrObject(dirty) && Get(dirty, "list") in {JStr(ListBullet), JStr(ListOrdered)})
      && (r.align.Some? <==> IsAttrObject(dirty) && Get(dirty, "align") in {JStr(AlignCenter), JStr(AlignRight)})
      && (r.direction.Some? <==> IsAttrObject(dirty) && Get(dirty, "direction") == JStr(DirectionRtl))
      && (r.script.Some? ==> Get(dirty, "script") == JStr(r.script.value))
      && (r.list.Some? ==> Get(dirty, "list") == JStr(r.list.value))
      && (r.align.Some? ==> Get(dirty, "align") == JStr(r.align.value))
      && (r.direction.Some? ==> r.direction.value == DirectionRtl)
  {
  }

  /** `header` is present exactly when its number is nonzero, and then equals
      the input number when that is within the bound 6 and is 6 above it;
      likewise `indent` with bound 30. Negative numbers pass through. */
  lemma SanitizedNumbers(dirty: JValue)
    ensures var r := Sanitized(dirty);
      var h, i := ToNumber(Get(dirty, "header")), ToNumber(Get(dirty, "indent"));
      && (r.header.Some? <==> IsAttrObject(dirty) && h != 0)
      && (r.header.Some? ==> r.header.value != 0 && r.header.value <= 6 && (h <= 6 ==> r.header.value == h) && (h > 6 ==> r.header.value == 6))
      && (r.indent.Some? <==> IsAttrObject(dirty) && i != 0)
      && (r.indent.Some? ==> r.indent.value != 0 && r.indent.value <= 30 && (i <= 30 ==> r.indent.value == i) && (i > 30 ==> r.indent.value == 30))
  {
  }

  /** `link` is present exactly when the input link is truthy, and holds its
      scrubbed string form; `id` is present exactly when `user` is truthy with
      a non-empty string form, and holds the `user` value. */
  lemma SanitizedLinkAndIds(dirty: JValue)
    ensures var r := Sanitized(dirty);
      && (r.link.Some? <==> IsAttrObject(dirty) && Truthy(Get(dirty, "link")))
      && (r.link.Some? ==> r.link.value == ScrubUrl(ToJsString(Get(dirty, "link"))))
      && (r.id.Some? <==> IsAttrObject(dirty) && Truthy(Get(dirty, "user")) && ToJsString(Get(dirty, "user")) != "")
      && (r.id.Some? ==> r.id.value == Get(dirty, "user"))
      && (r.name.Some? <==> IsAttrObject(dirty) && Truthy(Get(dirty, "name")) && ToJsString(Get(dirty, "name")) != "")
      && (r.name.Some? ==> r.name.value == Get(dirty, "name"))
  {
  }

  // ---------------------------------------------------------------------
  // Properties across calls

  /** What every sanitized record satisfies: each present value passes the
      check that let it in. */
  predicate IsClean(a: Attrs) {
    StylesClean(a) && FlagsClean(a) && LayoutClean(a) && NamesClean(a)
  }

  predicate StylesClean(a: Attrs) {
    && (a.background.Some? ==> Truthy(a.background.value) && IsValidHexColor(ToJsString(a.background.value)))
    && (a.color.Some? ==> Truthy(a.color.value) && IsValidHexColor(ToJsString(a.color.value)))
    && (a.font.Some? ==> Truthy(a.font.value) && IsValidFontName(ToJsString(a.font.value)))
    && (a.size.Some? ==> Truthy(a.size.value) && IsValidSize(ToJsString(a.size.value)))
    && (a.link.Some? ==> AllUrlSafe(a.link.value))
  }

  predicate FlagsClean(a: Attrs) {
    && a.bold != Some(false) && a.italic != Some(false) && a.underline != Some(false)
    && a.strike != Some(false) && a.code != Some(false) && a.blockquote != Some(false)
    && a.codeBlock != Some(false)
  }

  predicate LayoutClean(a: Attrs) {
    && (a.script.Some? ==> a.script.value == ScriptSub || a.script.value == ScriptSuper)
    && (a.list.Some? ==> a.list.value == ListBullet || a.list.value == ListOrdered)
    && (a.header.Some? ==> a.header.value != 0 && a.header.value <= 6)
    && (a.align.Some? ==> a.align.value == AlignCenter || a.align.value == AlignRight)
    && (a.direction.Some? ==> a.direction.value == DirectionRtl)
    && (a.indent.Some? ==> a.indent.value != 0 && a.indent.value <= 30)
  }

  predicate NamesClean(a: Attrs) {
    && (a.name.Some? ==> Truthy(a.name.value) && ToJsString(a.name.value) != "")
    && (a.id.Some? ==> Truthy(a.id.value) && ToJsString(a.id.value) != "")
  }

  lemma SanitizedIsClean(dirty: JValue)
    ensures IsClean(Sanitized(dirty))
  {
    SanitizedStylesClean(dirty);
    SanitizedFlagsClean(dirty);
    SanitizedLayoutClean(dirty);
  }

  lemma SanitizedStylesClean(dirty: JValue)
    ensures StylesClean(Sanitized(dirty))
  {
  }

  lemma SanitizedFlagsClean(dirty: JValue)
    ensures FlagsClean(Sanitized(dirty))
  {
  }

  lemma SanitizedLayoutClean(dirty: JValue)
    ensures LayoutClean(Sanitized(dirty))
  {
  }

  /** A present field of the result came from a property the input has: its
      own name, or `user` for `id`. */
  lemma FieldsFromInput(dirty: JValue)
    ensures FromInput(Sanitized(dirty), dirty)
  {
  }

  predicate FromInput(r: Attrs, dirty: JValue) {
      && (r.background.Some? ==> HasKey(dirty, "background")) && (r.color.Some? ==> HasKey(dirty, "color"))
      && (r.font.Some? ==> HasKey(dirty, "font")) && (r.size.Some? ==> HasKey(dirty, "size"))
      && (r.link.Some? ==> HasKey(dirty, "link"))
      && (r.bold.Some? ==> HasKey(dirty, "bold")) && (r.italic.Some? ==> HasKey(dirty, "italic"))
      && (r.underline.Some? ==> HasKey(dirty, "underline")) && (r.strike.Some? ==> HasKey(dirty, "strike"))
      && (r.code.Some? ==> HasKey(dirty, "code")) && (r.blockquote.Some? ==> HasKey(dirty, "blockquote"))
      && (r.codeBlock.Some? ==> HasKey(dirty, "code-block"))
      && (r.script.Some? ==> HasKey(dirty, "script")) && (r.list.Some? ==> HasKey(dirty, "list"))
      && (r.header.Some? ==> HasKey(dirty, "header")) && (r.align.Some? ==> HasKey(dirty, "align"))
      && (r.direction.Some? ==> HasKey(dirty, "direction")) && (r.indent.Some? ==> HasKey(dirty, "indent"))
      && (r.name.Some? ==> HasKey(dirty, "name")) && (r.id.Some? ==> HasKey(dirty, "user"))
  }

  /** No key outside the whitelist comes out, and every key that comes out
      was a key of the input, except `id`, which comes out only for `user`. */
  lemma SanitizedKeys(dirty: JValue)
    ensures ToJs(Sanitized(dirty)).props.Keys <= Whitelist
    ensures forall name | name in ToJs(Sanitized(dirty)).props ::
              if name == "id" then HasKey(dirty, "user") else HasKey(dirty, name)
  {
    var r := Sanitized(dirty);
    FieldsFromInput(dirty);
    ToJsShows(r);
    KeysOfView(ToJs(r), r, dirty);
  }

  /** The key argument of `SanitizedKeys`, on any object that shows `r` and
      stores no undefined value. */
  lemma KeysOfView(js: JValue, r: Attrs, dirty: JValue)
    requires js.JObj? && js.props.Keys <= Whitelist && Shows(js, r) && FromInput(r, dirty)
    requires forall name | name in js.props :: js.props[name] != JUndefined
    ensures forall name | name in js.props :: if name == "id" then HasKey(dirty, "user") else HasKey(dirty, name)
  {
    forall name | name in js.props
      ensures if name == "id" then HasKey(dirty, "user") else HasKey(dirty, name)
    {
      if name in StyleNames {
        StyleKeyOfView(js, r, dirty, name);
      } else {
        LayoutKeyOfView(js, r, dirty, name);
      }
    }
  }

  const StyleNames: set<string> := {
    "background", "color", "font", "size", "link", "bold", "italic", "underline", "strike", "code"}

  lemma StyleKeyOfView(js: JValue, r: Attrs, dirty: JValue, name: string)
    requires js.JObj? && Shows(js, r) && FromInput(r, dirty)
    requires name in js.props && js.props[name] != JUndefined && name in StyleNames
    ensures HasKey(dirty, name)
  {
  }

  lemma LayoutKeyOfView(js: JValue, r: Attrs, dirty: JValue, name: string)
    requires js.JObj? && Shows(js, r) && FromInput(r, dirty)
    requires name in js.props && js.props[name] != JUndefined && name in Whitelist - StyleNames
    ensures if name == "id" then HasKey(dirty, "user") else HasKey(dirty, name)
  {
  }

  /** `js` reads like the object view of `a`, and has no `user`. */
  predicate ReadsAs(js: JValue, a: Attrs) {
    js.JObj? && Shows(js, a) && Get(js, "user") == JUndefined
  }

  lemma ResanitizeStyles(js: JValue, a: Attrs)
    requires IsClean(a) && ReadsAs(js, a)
    ensures var r := Sanitized(js);
      && r.background == a.background && r.color == a.color && r.font == a.font && r.size == a.size
      && r.link == if a.link == Some("") then None else a.link
  {
    if a.link.Some? {
      ScrubSafe(a.link.value);
    }
  }

  lemma ResanitizeFlags(js: JValue, a: Attrs)
    requires IsClean(a) && ReadsAs(js, a)
    ensures var r := Sanitized(js);
      && r.bold == a.bold && r.italic == a.italic && r.underline == a.underline && r.strike == a.strike
      && r.code == a.code && r.blockquote == a.blockquote && r.codeBlock == a.codeBlock
  {
  }

  lemma ResanitizeLayout(js: JValue, a: Attrs)
    requires IsClean(a) && ReadsAs(js, a)
    ensures var r := Sanitized(js);
      && r.script == a.script && r.list == a.list && r.header == a.header
      && r.align == a.align && r.direction == a.direction && r.indent == a.indent
  {
  }

  lemma ResanitizeNames(js: JValue, a: Attrs)
    requires IsClean(a) && ReadsAs(js, a)
    ensures var r := Sanitized(js); r.name == a.name && r.id == None
  {
  }

  /** Sanitizing the object view of a clean record gives the record back,
      except that `id` is dropped (the sanitizer reads `user`, not `id`) and
      an empty link is dropped (it is not truthy). */
  lemma ResanitizeClean(a: Attrs)
    requires IsClean(a)
    ensures Sanitized(ToJs(a)) == a.(id := None, link := if a.link == Some("") then None else a.link)
  {
    var js := ToJs(a);
    ToJsShows(a);
    ToJsNoUser(a);
    ResanitizeStyles(js, a);
    ResanitizeFlags(js, a);
    ResanitizeLayout(js, a);
    ResanitizeNames(js, a);
  }

  /** Sanitizing a sanitized record gives it back, except for `id` and an
      empty link. */
  lemma SanitizeNearlyIdempotent(dirty: JValue)
    ensures
      var once := Sanitized(dirty);
      Sanitized(ToJs(once)) == once.(id := None, link := if once.link == Some("") then None else once.link)
  {
    SanitizedIsClean(dirty);
    ResanitizeClean(Sanitized(dirty));
  }
}
