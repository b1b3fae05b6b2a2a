/** The per-op HTML renderer: for one typed op, the opening tags with their
    attributes, the content and the closing tags. Tags are kept as
    structure (a name and key/value pairs), not as markup. */
module OpToHtmlConverter {
  import opened JsValue
  import opened StringExt
  import opened OpAttributes
  import opened OpAttributeSanitizer
  import opened InsertOpsConverter

  // ---------------------------------------------------------------------
  // Options

  /** The options the renderer works with. */
  datatype ConverterOptions = ConverterOptions(
    classPrefix: string, encodeHtml: bool, listItemTag: string, paragraphTag: string)

  /** The options a caller passes; any of them may be left out. */
  datatype OptionsArg = OptionsArg(
    classPrefix: Option<string>, encodeHtml: Option<bool>,
    listItemTag: Option<string>, paragraphTag: Option<string>)

  const NoOptions := OptionsArg(None, None, None, None)

  const DefaultOptions := ConverterOptions("ql", true, "li", "p")

  /** The defaults overlaid with whatever the caller passed. */
  function WithDefaults(given: OptionsArg): (o: ConverterOptions)
    ensures given == NoOptions ==> o == DefaultOptions
    ensures o.classPrefix == if given.classPrefix.Some? then given.classPrefix.value else "ql"
    ensures o.encodeHtml == (given.encodeHtml != Some(false))
    ensures o.listItemTag == if given.listItemTag.Some? then given.listItemTag.value else "li"
    ensures o.paragraphTag == if given.paragraphTag.Some? then given.paragraphTag.value else "p"
  {
    ConverterOptions(
      if given.classPrefix.Some? then given.classPrefix.value else DefaultOptions.classPrefix,
      if given.encodeHtml.Some? then given.encodeHtml.value else DefaultOptions.encodeHtml,
      if given.listItemTag.Some? then given.listItemTag.value else DefaultOptions.listItemTag,
      if given.paragraphTag.Some? then given.paragraphTag.value else DefaultOptions.paragraphTag)
  }

  // ---------------------------------------------------------------------
  // Output structure

  /** `{ key, value }` of a tag attribute. */
  datatype TagAttr = TagAttr(key: string, value: string)

  /** What `makeStartTag(tag, attrs)` is given. */
  datatype StartTag = StartTag(tag: string, attrs: seq<TagAttr>)

  /** A closing entry: `makeEndTag(tag)`, or the empty string for `img`. */
  datatype EndTag = NoEndTag | EndTag(tag: string)

  datatype HtmlParts = HtmlParts(openingTag: seq<StartTag>, content: string, closingTag: seq<EndTag>)

  /** The op predicates and the HTML encoder the renderer calls but that are
      defined elsewhere. */
  datatype Collaborators = Collaborators(
    isContainerBlock: DeltaInsertOp -> bool,
    isJustNewline: DeltaInsertOp -> bool,
    isLink: DeltaInsertOp -> bool,
    encodeHtml: string -> string)

  /** `item._preferSecond()`: the second element when there is one, else the
      first. */
  function PreferSecond(item: seq<string>): string
    requires |item| >= 1
  {
    if |item| >= 2 then item[1] else item[0]
  }

  /** `ss.join(sep)`. */
  function Join(ss: seq<string>, sep: string): string {
    if ss == [] then "" else if |ss| == 1 then ss[0] else ss[0] + sep + Join(ss[1..], sep)
  }

  function Reversed<T>(s: seq<T>): (r: seq<T>)
    ensures |r| == |s| && forall i | 0 <= i < |s| :: r[i] == s[|s| - 1 - i]
  {
    if s == [] then [] else Reversed(s[1..]) + [s[0]]
  }

  /** The CSS-class properties, in order. */
  const ClassProps: seq<string> := ["indent", "align", "direction", "font", "size"]

  /** The CSS-style properties with their CSS names. */
  const StyleTable: seq<seq<string>> := [["background", "background-color"], ["color"]]

  /** The inline formats with their tags. */
  const InlineTable: seq<seq<string>> :=
    [["link", "a"], ["script"], ["bold", "strong"], ["italic", "em"], ["strike", "s"], ["underline", "u"]]

  class OpToHtmlConverter {
    const op: DeltaInsertOp
    const options: ConverterOptions
    const env: Collaborators
    /** The op's attributes as the object `this.op.attributes`. */
    const attrs: JValue

    /** The attribute object is the view of the op's attribute record. */
    predicate Valid() {
      attrs == ToJs(op.attributes)
    }

    constructor(op: DeltaInsertOp, options: OptionsArg, env: Collaborators)
      ensures this.op == op && this.options == WithDefaults(options) && this.env == env
      ensures Valid()
    {
      this.op := op;
      this.options := WithDefaults(options);
      this.env := env;
      this.attrs := ToJs(op.attributes);
    }

    predicate IsText() { op.insert.dtype == Text }
    predicate IsImage() { op.insert.dtype == Image }
    predicate IsVideo() { op.insert.dtype == Video }
    predicate IsFormula() { op.insert.dtype == Formula }
    predicate IsMention() { op.insert.dtype == Mention }

    /** `attrs[name]` on the op's attributes. */
    function Attr(name: string): JValue {
      Get(attrs, name)
    }

    predicate IsCode() { Truthy(Attr("code")) }

    // -------------------------------------------------------------------
    // prefixClass

    /** `prefixClass`: the class with the prefix and a hyphen in front, or
        bare when the prefix is empty. */
    function PrefixClass(className: string): (r: string)
      ensures options.classPrefix == "" ==> r == className
      ensures options.classPrefix != "" ==> |r| == |options.classPrefix| + 1 + |className|
      ensures options.classPrefix != "" ==> r[..|options.classPrefix| + 1] == options.classPrefix + "-"
      ensures options.classPrefix != "" ==> r[|options.classPrefix| + 1..] == className
    {
      if options.classPrefix == "" then className else options.classPrefix + "-" + className
    }

    /** Prefixing keeps distinct classes distinct. */
    lemma PrefixClassInjective(x: string, y: string)
      ensures PrefixClass(x) == PrefixClass(y) ==> x == y
    {
      if PrefixClass(x) == PrefixClass(y) && options.classPrefix != "" {
        var n := |options.classPrefix| + 1;
        assert x == PrefixClass(x)[n..];
      }
    }

    function PrefixAll(cs: seq<string>): (r: seq<string>)
      ensures |r| == |cs| && forall i | 0 <= i < |cs| :: r[i] == PrefixClass(cs[i])
    {
      if cs == [] then [] else [PrefixClass(cs[0])] + PrefixAll(cs[1..])
    }

    // -------------------------------------------------------------------
    // getCssClasses

    /** `prop + '-' + attrs[prop]` when `attrs[prop]` is truthy. */
    function PropClass(prop: string): seq<string> {
      if Truthy(Attr(prop)) then [prop + "-" + ToJsString(Attr(prop))] else []
    }

    /** `props.filter(prop => !!attrs[prop]).map(prop => prop + '-' + attrs[prop])`. */
    function PropClasses(props: seq<string>): seq<string> {
      if props == [] then [] else PropClass(props[0]) + PropClasses(props[1..])
    }

    function EmbedClasses(): seq<string> {
      (if IsFormula() then ["formula"] else [])
      + (if IsVideo() then ["video"] else [])
      + (if IsImage() then ["image"] else [])
    }

    /** `getCssClasses`: the classes of indent, align, direction, font and
        size, in that order and each only when set, then the kind of embed,
        all prefixed. */
    function GetCssClasses(): (r: seq<string>)
      ensures r == PrefixAll(PropClass("indent") + (PropClass("align") + (PropClass("direction")
                             + (PropClass("font") + (PropClass("size") + []))))
                             + EmbedClasses())
    {
      var p := ClassProps;
      assert p[1..][1..][1..][1..][1..] == [];
      PrefixAll(PropClasses(p) + EmbedClasses())
    }

    /** A plain text op without indent, align, direction, font or size has no
        classes. */
    lemma NoClassesForPlainText()
      requires IsText()
      requires !Truthy(Attr("indent")) && !Truthy(Attr("align")) && !Truthy(Attr("direction"))
      requires !Truthy(Attr("font")) && !Truthy(Attr("size"))
      ensures GetCssClasses() == []
    {
    }

    /** An image, video or formula ends its class list with the kind of
        embed. */
    lemma EmbedClassLast()
      requires IsImage() || IsVideo() || IsFormula()
      ensures |GetCssClasses()| > 0
      ensures GetCssClasses()[|GetCssClasses()| - 1] ==
                PrefixClass(if IsImage() then "image" else if IsVideo() then "video" else "formula")
    {
      var props := PropClass("indent") + (PropClass("align") + (PropClass("direction")
                   + (PropClass("font") + (PropClass("size") + []))));
      var all := props + EmbedClasses();
      assert |EmbedClasses()| == 1;
      assert all[|all| - 1] == EmbedClasses()[0];
    }

    // -------------------------------------------------------------------
    // getCssStyles

    /** `item._preferSecond() + ':' + attrs[item[0]]` for each item whose
        property is set. */
    function Styles(items: seq<seq<string>>): seq<string>
      requires forall i | 0 <= i < |items| :: |items[i]| >= 1
    {
      if items == [] then []
      else
        var item := items[0];
        (if Truthy(Attr(item[0])) then [PreferSecond(item) + ":" + ToJsString(Attr(item[0]))] else [])
        + Styles(items[1..])
    }

    /** `getCssStyles`: `background-color:` for a set background, then
        `color:` for a set colour. */
    function GetCssStyles(): (r: seq<string>)
      ensures r == (if Truthy(Attr("background")) then ["background-color" + ":" + ToJsString(Attr("background"))] else [])
                   + ((if Truthy(Attr("color")) then ["color" + ":" + ToJsString(Attr("color"))] else []) + [])
    {
      var t := StyleTable;
      assert t[1..][1..] == [];
      Styles(t)
    }

    // -------------------------------------------------------------------
    // getTagAttributes

    /** The class attribute, when there are classes. */
    function ClassAttr(): (r: seq<TagAttr>)
      ensures |r| <= 1 && forall i | 0 <= i < |r| :: r[i].key == "class"
    {
      var classes := GetCssClasses();
      if |classes| > 0 then [TagAttr("class", Join(classes, " "))] else []
    }

    /** `this.op.insert.value + ''` with unsafe characters dropped. */
    function Src(): (r: TagAttr)
      ensures r.key == "src" && AllUrlSafe(r.value)
    {
      TagAttr("src", ScrubUrl(ToJsString(op.insert.value)))
    }

    /** A mention carries its user and name as data, and never a source or
        a link. */
    function MentionAttributes(): (r: seq<TagAttr>)
      ensures |r| == 3 && r[2] == TagAttr("class", "mention")
      ensures forall i | 0 <= i < |r| :: r[i].key != "src" && r[i].key != "href"
    {
      [TagAttr("data-user", ToJsString(Get(op.insert.value, "user"))),
       TagAttr("data-name", ToJsString(Get(op.insert.value, "name"))),
       TagAttr("class", "mention")]
    }

    /** The attributes after the class, by kind of op: the source of an
        image, nothing for a formula or container block, the frame attributes
        and source of a video, the user data of a mention, or the style and
        link of text. */
    function KindAttributes(): (r: seq<TagAttr>)
      ensures forall i | 0 <= i < |r| && r[i].key == "src" :: r[i] == Src()
      ensures forall i | 0 <= i < |r| && r[i].key == "href" ::
                KindIsPlainLink() && r[i].value == ToJsString(Attr("link"))
      ensures KindIsPlainLink() ==> |r| > 0 && r[|r| - 1].key == "href"
    {
      if IsImage() then [Src()]
      else if IsFormula() || env.isContainerBlock(op) then []
      else if IsVideo() then [TagAttr("frameborder", "0"), TagAttr("allowfullscreen", "true"), Src()]
      else if IsMention() then MentionAttributes()
      else
        var styles := GetCssStyles();
        (if |styles| > 0 then [TagAttr("style", Join(styles, ";"))] else [])
        + (if env.isLink(op) then [TagAttr("href", ToJsString(Attr("link")))] else [])
    }

    /** `getTagAttributes`: nothing for code, otherwise the class attribute
        first and then the attributes of the kind of op. */
    function GetTagAttributes(): (r: seq<TagAttr>)
      ensures IsCode() ==> r == []
      ensures !IsCode() ==> r == ClassAttr() + KindAttributes()
    {
      if IsCode() then [] else ClassAttr() + KindAttributes()
    }

    /** Every `src` attribute holds the insert value with its unsafe
        characters scrubbed. */
    lemma TagAttributesSrcSafe()
      ensures forall i | 0 <= i < |GetTagAttributes()| && GetTagAttributes()[i].key == "src" ::
                && GetTagAttributes()[i].value == ScrubUrl(ToJsString(op.insert.value))
                && AllUrlSafe(GetTagAttributes()[i].value)
    {
      var r := GetTagAttributes();
      if !IsCode() {
        var c := ClassAttr();
        var k := KindAttributes();
        forall i | 0 <= i < |r| && r[i].key == "src"
          ensures r[i].value == ScrubUrl(ToJsString(op.insert.value)) && AllUrlSafe(r[i].value)
        {
          if i >= |c| {
            assert r[i] == k[i - |c|];
          }
        }
      }
    }

    /** A text op (no embed, no container block) that `isLink` accepts. */
    predicate KindIsPlainLink() {
      !IsImage() && !IsFormula() && !env.isContainerBlock(op) && !IsVideo() && !IsMention() && env.isLink(op)
    }

    /** A plain link that is not code. */
    predicate PlainLink() {
      !IsCode() && KindIsPlainLink()
    }

    /** A link attribute appears exactly when the op is a plain link. */
    lemma TagAttributesHref()
      ensures (exists i | 0 <= i < |GetTagAttributes()| :: GetTagAttributes()[i].key == "href") <==> PlainLink()
    {
      var r := GetTagAttributes();
      if exists i | 0 <= i < |r| :: r[i].key == "href" {
        var i :| 0 <= i < |r| && r[i].key == "href";
        HrefOnlyForLinks(i);
      }
      if PlainLink() {
        LinkHasHref();
      }
    }

    lemma HrefOnlyForLinks(i: nat)
      requires i < |GetTagAttributes()| && GetTagAttributes()[i].key == "href"
      ensures PlainLink()
    {
      var c := ClassAttr();
      KeyInConcat(c, KindAttributes(), i, "class", "href");
    }

    lemma LinkHasHref()
      requires PlainLink()
      ensures |GetTagAttributes()| > 0 && GetTagAttributes()[|GetTagAttributes()| - 1].key == "href"
    {
      var c := ClassAttr();
      var k := KindAttributes();
      assert GetTagAttributes() == c + k;
    }

    /** The tag attributes of each kind of op that is not code, written
        out: the class attribute (the classes joined by spaces) first, then
        the source of an image, nothing more for a formula or container
        block, the frame attributes and source of a video, the user data of
        a mention, or the styles joined by semicolons and the link of
        any other op (text, or a file or custom embed). */
    lemma TagAttributesByKind()
      requires !IsCode()
      ensures ClassAttr() == (if GetCssClasses() == [] then [] else [TagAttr("class", Join(GetCssClasses(), " "))])
      ensures IsImage() ==>
                GetTagAttributes() == ClassAttr() + [TagAttr("src", ScrubUrl(ToJsString(op.insert.value)))]
      ensures !IsImage() && (IsFormula() || env.isContainerBlock(op)) ==> GetTagAttributes() == ClassAttr()
      ensures IsVideo() && !env.isContainerBlock(op) ==>
                GetTagAttributes() == ClassAttr()
                  + [TagAttr("frameborder", "0"), TagAttr("allowfullscreen", "true"),
                     TagAttr("src", ScrubUrl(ToJsString(op.insert.value)))]
      ensures IsMention() && !env.isContainerBlock(op) ==>
                GetTagAttributes() == ClassAttr()
                  + [TagAttr("data-user", ToJsString(Get(op.insert.value, "user"))),
                     TagAttr("data-name", ToJsString(Get(op.insert.value, "name"))),
                     TagAttr("class", "mention")]
      ensures !IsImage() && !IsFormula() && !IsVideo() && !IsMention() && !env.isContainerBlock(op) ==>
                GetTagAttributes() == ClassAttr()
                  + ((if GetCssStyles() == [] then [] else [TagAttr("style", Join(GetCssStyles(), ";"))])
                  + (if env.isLink(op) then [TagAttr("href", ToJsString(Attr("link")))] else []))
    {
    }

    /** Every read of the attribute object is the field of the op's record
        under that name. */
    lemma AttrIsField(name: string)
      requires Valid()
      ensures Attr(name) == Field(op.attributes, name)
    {
      ToJsGet(op.attributes, name);
    }

    /** The link as written into `href`: the scrubbed link of a clean
        record, or `undefined` when there is none. */
    lemma LinkSafe()
      requires Valid() && IsClean(op.attributes)
      ensures AllUrlSafe(ToJsString(Attr("link")))
    {
      var link := op.attributes.link;
      ToJsColours(op.attributes);
      assert Attr("link") == OfString(link);
      if link.Some? {
        assert StylesClean(op.attributes);
        assert ToJsString(JStr(link.value)) == link.value;
      } else {
        UndefinedUrlSafe();
      }
    }

    /** For an op whose attributes the sanitizer produced, as every op that
        `convert` returns, each `href` holds only URL-safe characters. */
    lemma HrefSafe()
      requires Valid() && IsClean(op.attributes)
      ensures forall i | 0 <= i < |GetTagAttributes()| && GetTagAttributes()[i].key == "href" ::
                AllUrlSafe(GetTagAttributes()[i].value)
    {
      var r := GetTagAttributes();
      LinkSafe();
      if !IsCode() {
        var c := ClassAttr();
        var k := KindAttributes();
        forall i | 0 <= i < |r| && r[i].key == "href" ensures AllUrlSafe(r[i].value) {
          KeyInConcat(c, k, i, "class", "href");
          assert r[i] == k[i - |c|];
        }
      }
    }

    /** A video that is not a container block is framed without a border and
        may go full screen. */
    lemma VideoAttributes()
      requires !IsCode() && IsVideo() && !env.isContainerBlock(op)
      ensures TagAttr("frameborder", "0") in GetTagAttributes()
      ensures TagAttr("allowfullscreen", "true") in GetTagAttributes()
    {
      var c := ClassAttr();
      assert GetTagAttributes()[|c|] == TagAttr("frameborder", "0");
      assert GetTagAttributes()[|c| + 1] == TagAttr("allowfullscreen", "true");
    }

    // -------------------------------------------------------------------
    // getTags

    /** `this.options.paragraphTag || 'p'`. */
    function PositionTag(): string {
      if options.paragraphTag != "" then options.paragraphTag else "p"
    }

    /** The block formats with their tags, in priority order. */
    function Blocks(): (b: seq<seq<string>>)
      ensures |b| == 7 && forall i | 0 <= i < |b| :: |b[i]| >= 1
    {
      [["blockquote"], ["code-block", "pre"], ["list", options.listItemTag], ["header"],
       ["align", PositionTag()], ["direction", PositionTag()], ["indent", PositionTag()]]
    }

    /** The index of the first block item from `k` on whose property is set. */
    function FirstBlockFrom(k: nat): (r: Option<nat>)
      requires k <= |Blocks()|
      ensures r.Some? ==> k <= r.value < |Blocks()| && Truthy(Attr(Blocks()[r.value][0]))
      ensures r.Some? ==> forall j | k <= j < r.value :: !Truthy(Attr(Blocks()[j][0]))
      ensures r.None? ==> forall j | k <= j < |Blocks()| :: !Truthy(Attr(Blocks()[j][0]))
      decreases |Blocks()| - k
    {
      if k == |Blocks()| then None
      else if Truthy(Attr(Blocks()[k][0])) then Some(k)
      else FirstBlockFrom(k + 1)
    }

    /** The tag of a block item: `h` and the level for a header, otherwise
        the item's preferred tag. */
    function BlockTag(item: seq<string>): (r: string)
      requires |item| >= 1
      ensures item[0] == "header" ==> |r| >= 1 && r[..1] == "h" && r[1..] == ToJsString(Attr("header"))
      ensures item[0] != "header" ==> r in item && (|item| >= 2 ==> r == item[1])
    {
      if item[0] == "header" then "h" + ToJsString(Attr(item[0])) else PreferSecond(item)
    }

    /** The tag of one inline item when its property is set: `sub` or `sup`
        for a script, otherwise the item's preferred tag. */
    function InlineTags(items: seq<seq<string>>): (r: seq<string>)
      requires forall i | 0 <= i < |items| :: |items[i]| >= 1
      ensures (forall i | 0 <= i < |items| :: !Truthy(Attr(items[i][0]))) ==> r == []
    {
      if items == [] then []
      else
        var item := items[0];
        (if !Truthy(Attr(item[0])) then []
         else if item[0] == "script" then [if Attr(item[0]) == JStr(ScriptSub) then "sub" else "sup"]
         else [PreferSecond(item)])
        + InlineTags(items[1..])
    }

    /** The tags `getTags` returns. */
    function Tags(): (r: seq<string>)
      ensures IsCode() ==> r == ["code"]
      ensures !IsCode() && !IsText() ==> r == [if IsVideo() then "iframe" else if IsImage() then "img" else "span"]
      ensures |r| <= |InlineTable|
    {
      if IsCode() then ["code"]
      else if !IsText() then [if IsVideo() then "iframe" else if IsImage() then "img" else "span"]
      else
        var first := FirstBlockFrom(0);
        if first.Some? then [BlockTag(Blocks()[first.value])]
        else
          InlineTagsShorter(InlineTable);
          InlineTags(InlineTable)
    }

    lemma {:induction false} InlineTagsShorter(items: seq<seq<string>>)
      requires forall i | 0 <= i < |items| :: |items[i]| >= 1
      ensures |InlineTags(items)| <= |items|
    {
      if items != [] {
        InlineTagsShorter(items[1..]);
      }
    }

    /** `getTags`: code, then embeds, then the first set block format, then
        the set inline formats. */
    method GetTags() returns (tags: seq<string>)
      ensures tags == Tags()
    {
      if IsCode() {
        return ["code"];
      }
      if !IsText() {
        return [if IsVideo() then "iframe" else if IsImage() then "img" else "span"];
      }
      var blocks := Blocks();
      for k := 0 to |blocks|
        invariant FirstBlockFrom(0) == FirstBlockFrom(k)
      {
        var item := blocks[k];
        if Truthy(Attr(item[0])) {
          return [BlockTag(item)];
        }
      }
      InlineTagsShorter(InlineTable);
      return InlineTags(InlineTable);
    }

    /** For a text op that is not code, the first set block format decides
        a single tag, whatever else is set. */
    lemma BlockDecides(i: nat)
      requires IsText() && !IsCode() && i < |Blocks()|
      requires Truthy(Attr(Blocks()[i][0]))
      requires forall j | 0 <= j < i :: !Truthy(Attr(Blocks()[j][0]))
      ensures Tags() == [BlockTag(Blocks()[i])]
    {
      var first := FirstBlockFrom(0);
      assert first.Some? && first.value == i;
    }

    /** The block formats in priority order, for a text op that is not
        code: `blockquote`, then `pre` for a code block, then the list item
        tag, then `h` and the level, then the paragraph tag for alignment,
        direction or indentation. */
    lemma BlockOrder()
      requires IsText() && !IsCode()
      ensures Truthy(Attr("blockquote")) ==> Tags() == ["blockquote"]
      ensures !Truthy(Attr("blockquote")) && Truthy(Attr("code-block")) ==> Tags() == ["pre"]
      ensures !Truthy(Attr("blockquote")) && !Truthy(Attr("code-block")) && Truthy(Attr("list")) ==>
                Tags() == [options.listItemTag]
      ensures !Truthy(Attr("blockquote")) && !Truthy(Attr("code-block")) && !Truthy(Attr("list"))
                && Truthy(Attr("header")) ==>
                Tags() == ["h" + ToJsString(Attr("header"))]
      ensures !Truthy(Attr("blockquote")) && !Truthy(Attr("code-block")) && !Truthy(Attr("list"))
                && !Truthy(Attr("header"))
                && (Truthy(Attr("align")) || Truthy(Attr("direction")) || Truthy(Attr("indent"))) ==>
                Tags() == [PositionTag()]
    {
      var b := Blocks();
      if Truthy(Attr("blockquote")) {
        BlockDecides(0);
      } else if Truthy(Attr("code-block")) {
        BlockDecides(1);
      } else if Truthy(Attr("list")) {
        BlockDecides(2);
      } else if Truthy(Attr("header")) {
        BlockDecides(3);
      } else if Truthy(Attr("align")) {
        BlockDecides(4);
      } else if Truthy(Attr("direction")) {
        BlockDecides(5);
      } else if Truthy(Attr("indent")) {
        BlockDecides(6);
      }
    }

    /** With no block format set, a text op that is not code gets the inline
        tags: `a`, `sub` or `sup`, `strong`, `em`, `s`, `u`, in that order,
        each only when its format is set. */
    lemma InlineOrder()
      requires IsText() && !IsCode()
      requires forall j | 0 <= j < |Blocks()| :: !Truthy(Attr(Blocks()[j][0]))
      ensures Tags() ==
        (if Truthy(Attr("link")) then ["a"] else [])
        + ((if Truthy(Attr("script")) then [if Attr("script") == JStr(ScriptSub) then "sub" else "sup"] else [])
        + ((if Truthy(Attr("bold")) then ["strong"] else [])
        + ((if Truthy(Attr("italic")) then ["em"] else [])
        + ((if Truthy(Attr("strike")) then ["s"] else [])
        + ((if Truthy(Attr("underline")) then ["u"] else []) + [])))))
    {
      assert FirstBlockFrom(0).None?;
      InlineTableTags();
    }

    lemma InlineTableTags()
      ensures InlineTags(InlineTable) ==
        (if Truthy(Attr("link")) then ["a"] else [])
        + ((if Truthy(Attr("script")) then [if Attr("script") == JStr(ScriptSub) then "sub" else "sup"] else [])
        + ((if Truthy(Attr("bold")) then ["strong"] else [])
        + ((if Truthy(Attr("italic")) then ["em"] else [])
        + ((if Truthy(Attr("strike")) then ["s"] else [])
        + ((if Truthy(Attr("underline")) then ["u"] else []) + [])))))
    {
      InlineFromScript();
      NamedStep(InlineTable, "link", "a");
    }

    // The inline table read from the back, one item per lemma.

    lemma InlineFromUnderline()
      ensures InlineTags(InlineTable[5..]) == (if Truthy(Attr("underline")) then ["u"] else []) + []
    {
      NamedStep(InlineTable[5..], "underline", "u");
      assert InlineTable[5..][1..] == [];
    }

    lemma InlineFromStrike()
      ensures InlineTags(InlineTable[4..]) == (if Truthy(Attr("strike")) then ["s"] else []) + ((if Truthy(Attr("underline")) then ["u"] else []) + [])
    {
      InlineFromUnderline();
      NamedStep(InlineTable[4..], "strike", "s");
      assert InlineTable[4..][1..] == InlineTable[5..];
    }

    lemma InlineFromItalic()
      ensures InlineTags(InlineTable[3..]) == (if Truthy(Attr("italic")) then ["em"] else []) + ((if Truthy(Attr("strike")) then ["s"] else []) + ((if Truthy(Attr("underline")) then ["u"] else []) + []))
    {
      InlineFromStrike();
      NamedStep(InlineTable[3..], "italic", "em");
      assert InlineTable[3..][1..] == InlineTable[4..];
    }

    lemma InlineFromBold()
      ensures InlineTags(InlineTable[2..]) == (if Truthy(Attr("bold")) then ["strong"] else []) + ((if Truthy(Attr("italic")) then ["em"] else []) + ((if Truthy(Attr("strike")) then ["s"] else []) + ((if Truthy(Attr("underline")) then ["u"] else []) + [])))
    {
      InlineFromItalic();
      NamedStep(InlineTable[2..], "bold", "strong");
      assert InlineTable[2..][1..] == InlineTable[3..];
    }

    lemma InlineFromScript()
      ensures InlineTags(InlineTable[1..]) == (if Truthy(Attr("script")) then [if Attr("script") == JStr(ScriptSub) then "sub" else "sup"] else []) + ((if Truthy(Attr("bold")) then ["strong"] else []) + ((if Truthy(Attr("italic")) then ["em"] else []) + ((if Truthy(Attr("strike")) then ["s"] else []) + ((if Truthy(Attr("underline")) then ["u"] else []) + []))))
    {
      InlineFromBold();
      assert InlineTable[1..][0] == ["script"] && InlineTable[1..][1..] == InlineTable[2..];
    }

    /** One inline item other than the script: its tag when its property is
        set, then the rest. */
    lemma NamedStep(items: seq<seq<string>>, name: string, tag: string)
      requires |items| >= 1 && forall i | 0 <= i < |items| :: |items[i]| >= 1
      requires items[0] == [name, tag] && |name| >= 2 && (name[0] != 's' || name[1] != 'c')
      ensures InlineTags(items) == (if Truthy(Attr(name)) then [tag] else []) + InlineTags(items[1..])
    {
      assert name != "script" by { assert "script"[0] == 's' && "script"[1] == 'c'; }
    }

    // -------------------------------------------------------------------
    // getContent

    /** `getContent`: nothing for a container block, the name for a
        mention, the (encoded) value for text and formula, nothing for other
        embeds. The encoded form is used only when encoding is on and gives a
        non-empty string. */
    function GetContent(): (r: string)
      ensures env.isContainerBlock(op) ==> r == ""
      ensures !env.isContainerBlock(op) && IsMention() ==> r == ToJsString(Get(op.insert.value, "name"))
      ensures !env.isContainerBlock(op) && !IsMention() && !IsText() && !IsFormula() ==>
                r == "" || r == env.encodeHtml("")
      ensures !options.encodeHtml && !env.isContainerBlock(op) && !IsMention() && !IsText() && !IsFormula() ==>
                r == ""
      ensures !env.isContainerBlock(op) && (IsText() || IsFormula()) ==>
                r == ToJsString(op.insert.value) || r == env.encodeHtml(ToJsString(op.insert.value))
      ensures !options.encodeHtml && !env.isContainerBlock(op) && (IsText() || IsFormula()) ==>
                r == ToJsString(op.insert.value)
      ensures options.encodeHtml && !env.isContainerBlock(op) && !IsMention() && (IsText() || IsFormula())
                && env.encodeHtml(ToJsString(op.insert.value)) != "" ==>
                r == env.encodeHtml(ToJsString(op.insert.value))
      ensures !env.isContainerBlock(op) && !IsMention() && (IsText() || IsFormula())
                && env.encodeHtml(ToJsString(op.insert.value)) == "" ==>
                r == ToJsString(op.insert.value)
      ensures options.encodeHtml && !env.isContainerBlock(op) && !IsMention() && !IsText() && !IsFormula()
                && env.encodeHtml("") != "" ==>
                r == env.encodeHtml("")
      ensures !env.isContainerBlock(op) && !IsMention() && !IsText() && !IsFormula()
                && env.encodeHtml("") == "" ==>
                r == ""
    {
      if env.isContainerBlock(op) then ""
      else if IsMention() then ToJsString(Get(op.insert.value, "name"))
      else
        var content := if IsFormula() || IsText() then ToJsString(op.insert.value) else "";
        if options.encodeHtml && env.encodeHtml(content) != "" then env.encodeHtml(content) else content
    }

    // -------------------------------------------------------------------
    // getHtmlParts

    /** The tags, or a `span` when there are none but there are
        attributes to carry. */
    function PartTags(): (r: seq<string>)
      ensures Tags() != [] ==> r == Tags()
      ensures Tags() == [] ==> r == if GetTagAttributes() != [] then ["span"] else []
    {
      if Tags() == [] && GetTagAttributes() != [] then ["span"] else Tags()
    }

    /** `getHtmlParts`. A bare newline outside a container block is the
        newline alone. Otherwise the tags open in order with the attributes
        on the first, and close in reverse order. */
    method GetHtmlParts() returns (parts: HtmlParts)
      ensures env.isJustNewline(op) && !env.isContainerBlock(op) ==> parts == HtmlParts([], NewLine, [])
      ensures !(env.isJustNewline(op) && !env.isContainerBlock(op)) ==>
                parts == HtmlParts(OpeningTags(PartTags(), GetTagAttributes()), GetContent(), ClosingTags(PartTags()))
    {
      if env.isJustNewline(op) && !env.isContainerBlock(op) {
        return HtmlParts([], NewLine, []);
      }
      var tags := GetTags();
      var attrs := GetTagAttributes();
      if |tags| == 0 && |attrs| > 0 {
        tags := tags + ["span"];
      }
      var beginTags, endTags := OpenAndClose(tags, attrs);
      parts := HtmlParts(beginTags, GetContent(), endTags);
    }
  }

  /** A text insert that the converter keeps renders, with encoding off
      and outside a container block, as exactly its string. */
  lemma ConvertedTextContent(raw: JValue, c: OpToHtmlConverter)
    requires Get(raw, "insert").JStr? && Get(raw, "insert").s != ""
    requires ConvertOp(raw) == Some(c.op)
    requires !c.options.encodeHtml && !c.env.isContainerBlock(c.op)
    ensures c.GetContent() == Get(raw, "insert").s
  {
    TextOpKept(raw);
  }

  /** `String(undefined)` is made of letters only. */
  lemma UndefinedUrlSafe()
    ensures AllUrlSafe(ToJsString(JUndefined))
  {
    var u := ToJsString(JUndefined);
    assert u == "undefined";
    assert forall i | 0 <= i < |u| :: 'a' <= u[i] <= 'z';
  }

  /** A key none of the first attributes has is found among the rest. */
  lemma KeyInConcat(c: seq<TagAttr>, k: seq<TagAttr>, i: nat, other: string, key: string)
    requires |other| > 0 && |key| > 0 && other[0] != key[0]
    requires forall j | 0 <= j < |c| :: c[j].key == other
    requires i < |c + k| && (c + k)[i].key == key
    ensures |c| <= i && k[i - |c|].key == key
  {
  }

  // -----------------------------------------------------------------------
  // Opening and closing a list of tags

  function EndTagFor(tag: string): EndTag {
    if tag == "img" then NoEndTag else EndTag(tag)
  }

  /** Each tag opened in order, the attributes on the first only. */
  function OpeningTags(tags: seq<string>, attrs: seq<TagAttr>): (r: seq<StartTag>)
    ensures |r| == |tags|
    ensures forall i | 0 <= i < |tags| :: r[i].tag == tags[i]
    ensures |tags| > 0 ==> r[0].attrs == attrs
    ensures forall i | 1 <= i < |tags| :: r[i].attrs == []
  {
    if tags == [] then [] else [StartTag(tags[0], attrs)] + OpeningTags(tags[1..], [])
  }

  /** Each tag closed, innermost first; `img` closes with nothing. */
  function ClosingTags(tags: seq<string>): (r: seq<EndTag>)
    ensures |r| == |tags|
    ensures forall i | 0 <= i < |tags| :: r[i] == EndTagFor(tags[|tags| - 1 - i])
    ensures forall i | 0 <= i < |tags| :: r[i] == NoEndTag <==> tags[|tags| - 1 - i] == "img"
  {
    if tags == [] then [] else ClosingTags(tags[1..]) + [EndTagFor(tags[0])]
  }

  /** The loop of `getHtmlParts`: a start tag and an end tag per tag, the
      attributes consumed by the first, the end tags reversed at the end. */
  method OpenAndClose(tags: seq<string>, attrs: seq<TagAttr>) returns (beginTags: seq<StartTag>, endTags: seq<EndTag>)
    ensures beginTags == OpeningTags(tags, attrs)
    ensures endTags == ClosingTags(tags)
  {
    var tagAttrs := attrs;
    beginTags := [];
    endTags := [];
    for k := 0 to |tags|
      invariant |beginTags| == k && |endTags| == k
      invariant forall i | 0 <= i < k :: beginTags[i] == OpeningTags(tags, attrs)[i]
      invariant forall i | 0 <= i < k :: endTags[i] == EndTagFor(tags[i])
      invariant tagAttrs == if k == 0 then attrs else []
    {
      var tag := tags[k];
      beginTags := beginTags + [StartTag(tag, tagAttrs)];
      endTags := endTags + [if tag == "img" then NoEndTag else EndTag(tag)];
      tagAttrs := [];
    }
    endTags := Reversed(endTags);
  }
}
