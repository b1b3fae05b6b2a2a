/** The attribute record of a typed op: every key the sanitizer can emit,
    each independently optional, and the view of that record as the
    JavaScript object the renderer reads with `attrs[key]`. */
module OpAttributes {
  import opened JsValue

  /** Sanitized attributes. Flags hold booleans; colours, font, size, name
      and id keep the caller's value as given; header and indent hold numbers;
      link holds the scrubbed string. */
  datatype Attrs = Attrs(
    background: Option<JValue>,
    color: Option<JValue>,
    font: Option<JValue>,
    size: Option<JValue>,
    link: Option<string>,
    bold: Option<bool>,
    italic: Option<bool>,
    underline: Option<bool>,
    strike: Option<bool>,
    code: Option<bool>,
    blockquote: Option<bool>,
    codeBlock: Option<bool>,
    script: Option<string>,
    list: Option<string>,
    header: Option<int>,
    align: Option<string>,
    direction: Option<string>,
    indent: Option<int>,
    name: Option<JValue>,
    id: Option<JValue>)

  /** `{}` */
  const NoAttrs: Attrs :=
    Attrs(None, None, None, None, None, None, None, None, None, None,
          None, None, None, None, None, None, None, None, None, None)

  // The string values of the enumerations in value-types.
  const ScriptSub := "sub"
  const ScriptSuper := "super"
  const ListBullet := "bullet"
  const ListOrdered := "ordered"
  const AlignCenter := "center"
  const AlignRight := "right"
  const DirectionRtl := "rtl"

  /** The property names a sanitized record can hold. */
  const Whitelist: set<string> := {
    "background", "color", "font", "size", "link", "bold", "italic", "underline", "strike",
    "code", "blockquote", "code-block", "script", "list", "header", "align", "direction",
    "indent", "name", "id"}

  function OfBool(o: Option<bool>): JValue {
    if o.Some? then JBool(o.value) else JUndefined
  }

  function OfString(o: Option<string>): JValue {
    if o.Some? then JStr(o.value) else JUndefined
  }

  function OfInt(o: Option<int>): JValue {
    if o.Some? then JNum(o.value) else JUndefined
  }

  function OfValue(o: Option<JValue>): JValue {
    if o.Some? then o.value else JUndefined
  }

  /** `attrs[name]` on the record: the field under that name, undefined for
      an absent field and for any other name. */
  function Field(a: Attrs, name: string): (v: JValue)
    ensures name !in Whitelist ==> v == JUndefined
  {
    if name == "background" then OfValue(a.background)
    else if name == "color" then OfValue(a.color)
    else if name == "font" then OfValue(a.font)
    else if name == "size" then OfValue(a.size)
    else if name == "link" then OfString(a.link)
    else if name == "bold" then OfBool(a.bold)
    else if name == "italic" then OfBool(a.italic)
    else if name == "underline" then OfBool(a.underline)
    else if name == "strike" then OfBool(a.strike)
    else if name == "code" then OfBool(a.code)
    else if name == "blockquote" then OfBool(a.blockquote)
    else if name == "code-block" then OfBool(a.codeBlock)
    else if name == "script" then OfString(a.script)
    else if name == "list" then OfString(a.list)
    else if name == "header" then OfInt(a.header)
    else if name == "align" then OfString(a.align)
    else if name == "direction" then OfString(a.direction)
    else if name == "indent" then OfInt(a.indent)
    else if name == "name" then OfValue(a.name)
    else if name == "id" then OfValue(a.id)
    else JUndefined
  }

  /** The record as a JavaScript object: each present field under its name. */
  function ToJs(a: Attrs): (o: JValue)
    ensures o.JObj? && o.props.Keys <= Whitelist
    ensures forall name | name in o.props :: o.props[name] != JUndefined
  {
    JObj(map name | name in Whitelist && Field(a, name) != JUndefined :: Field(a, name))
  }

  /** `attrs[name]` on the object reads the record's field. */
  lemma ToJsGet(a: Attrs, name: string)
    ensures Get(ToJs(a), name) == Field(a, name)
  {
    if name !in Whitelist {
      assert name !in ToJs(a).props;
    }
  }

  /** The empty record is the empty object. */
  lemma ToJsEmpty()
    ensures ToJs(NoAttrs).props == map[]
  {
  }

  // The object view read back property by property, a few at a time.

  lemma ToJsColours(a: Attrs)
    ensures var o := ToJs(a);
      && Get(o, "background") == OfValue(a.background)
      && Get(o, "color") == OfValue(a.color)
      && Get(o, "link") == OfString(a.link)
  {
    assert "background" in Whitelist && "color" in Whitelist && "link" in Whitelist;
    assert Field(a, "background") == OfValue(a.background);
    assert Field(a, "color") == OfValue(a.color);
    assert Field(a, "link") == OfString(a.link);
    ToJsGet(a, "background"); ToJsGet(a, "color"); ToJsGet(a, "link");
  }

  lemma ToJsFontSize(a: Attrs)
    ensures var o := ToJs(a);
      && Get(o, "font") == OfValue(a.font)
      && Get(o, "size") == OfValue(a.size)
  {
    assert "font" in Whitelist && "size" in Whitelist;
    assert Field(a, "font") == OfValue(a.font);
    assert Field(a, "size") == OfValue(a.size);
    ToJsGet(a, "font"); ToJsGet(a, "size");
  }

  lemma ToJsInlineFlags(a: Attrs)
    ensures var o := ToJs(a);
      && Get(o, "bold") == OfBool(a.bold)
      && Get(o, "italic") == OfBool(a.italic)
      && Get(o, "underline") == OfBool(a.underline)
      && Get(o, "strike") == OfBool(a.strike)
  {
    assert "bold" in Whitelist && "italic" in Whitelist && "underline" in Whitelist && "strike" in Whitelist;
    assert Field(a, "bold") == OfBool(a.bold);
    assert Field(a, "italic") == OfBool(a.italic);
    assert Field(a, "underline") == OfBool(a.underline);
    assert Field(a, "strike") == OfBool(a.strike);
    ToJsGet(a, "bold"); ToJsGet(a, "italic"); ToJsGet(a, "underline"); ToJsGet(a, "strike");
  }

  lemma ToJsBlockFlags(a: Attrs)
    ensures var o := ToJs(a);
      && Get(o, "code") == OfBool(a.code)
      && Get(o, "blockquote") == OfBool(a.blockquote)
      && Get(o, "code-block") == OfBool(a.codeBlock)
  {
    assert "code" in Whitelist && "blockquote" in Whitelist && "code-block" in Whitelist;
    assert Field(a, "code") == OfBool(a.code);
    assert Field(a, "blockquote") == OfBool(a.blockquote);
    assert Field(a, "code-block") == OfBool(a.codeBlock);
    ToJsGet(a, "code"); ToJsGet(a, "blockquote"); ToJsGet(a, "code-block");
  }

  lemma ToJsEnums(a: Attrs)
    ensures var o := ToJs(a);
      && Get(o, "script") == OfString(a.script)
      && Get(o, "list") == OfString(a.list)
      && Get(o, "align") == OfString(a.align)
      && Get(o, "direction") == OfString(a.direction)
  {
    assert "script" in Whitelist && "list" in Whitelist && "align" in Whitelist && "direction" in Whitelist;
    assert Field(a, "script") == OfString(a.script);
    assert Field(a, "list") == OfString(a.list);
    assert Field(a, "align") == OfString(a.align);
    assert Field(a, "direction") == OfString(a.direction);
    ToJsGet(a, "script"); ToJsGet(a, "list"); ToJsGet(a, "align"); ToJsGet(a, "direction");
  }

  lemma ToJsNumbers(a: Attrs)
    ensures var o := ToJs(a);
      && Get(o, "header") == OfInt(a.header)
      && Get(o, "indent") == OfInt(a.indent)
  {
    assert "header" in Whitelist && "indent" in Whitelist;
    assert Field(a, "header") == OfInt(a.header);
    assert Field(a, "indent") == OfInt(a.indent);
    ToJsGet(a, "header"); ToJsGet(a, "indent");
  }

  lemma ToJsNames(a: Attrs)
    ensures var o := ToJs(a);
      && Get(o, "name") == OfValue(a.name)
      && Get(o, "id") == OfValue(a.id)
  {
    assert "name" in Whitelist && "id" in Whitelist;
    assert Field(a, "name") == OfValue(a.name);
    assert Field(a, "id") == OfValue(a.id);
    ToJsGet(a, "name"); ToJsGet(a, "id");
  }

  lemma ToJsNoUser(a: Attrs)
    ensures Get(ToJs(a), "user") == JUndefined
  {
    assert "user" !in Whitelist;
    ToJsGet(a, "user");
  }

  /** `js` holds the record's fields under their names. */
  predicate Shows(js: JValue, a: Attrs) {
    && Get(js, "background") == OfValue(a.background) && Get(js, "color") == OfValue(a.color)
    && Get(js, "font") == OfValue(a.font) && Get(js, "size") == OfValue(a.size)
    && Get(js, "link") == OfString(a.link)
    && Get(js, "bold") == OfBool(a.bold) && Get(js, "italic") == OfBool(a.italic)
    && Get(js, "underline") == OfBool(a.underline) && Get(js, "strike") == OfBool(a.strike)
    && Get(js, "code") == OfBool(a.code) && Get(js, "blockquote") == OfBool(a.blockquote)
    && Get(js, "code-block") == OfBool(a.codeBlock)
    && Get(js, "script") == OfString(a.script) && Get(js, "list") == OfString(a.list)
    && Get(js, "header") == OfInt(a.header) && Get(js, "align") == OfString(a.align)
    && Get(js, "direction") == OfString(a.direction) && Get(js, "indent") == OfInt(a.indent)
    && Get(js, "name") == OfValue(a.name) && Get(js, "id") == OfValue(a.id)
  }

  lemma ToJsShows(a: Attrs)
    ensures Shows(ToJs(a), a)
  {
    ToJsColours(a); ToJsFontSize(a); ToJsInlineFlags(a); ToJsBlockFlags(a);
    ToJsEnums(a); ToJsNumbers(a); ToJsNames(a);
  }
}
