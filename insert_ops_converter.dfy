/** The insert-op converter: turns the raw ops of a delta into typed ops,
    each a classified insert value with sanitized attributes. */
module InsertOpsConverter {
  import opened JsValue
  import opened OpAttributes
  import opened OpAttributeSanitizer

  // ---------------------------------------------------------------------
  // Typed ops

  /** The kinds of insert value. */
  datatype DataType = Text | Image | Video | Mention | File | Formula

  /** The key under which an embed of each kind sits in a raw insert, and the
      name of the kind. */
  function TypeName(t: DataType): string {
    match t
    case Text => "text"
    case Image => "image"
    case Video => "video"
    case Mention => "mention"
    case File => "file"
    case Formula => "formula"
  }

  /** `InsertData`: a kind and the payload under it, stored as given. */
  datatype InsertData = InsertData(dtype: DataType, value: JValue)

  /** `DeltaInsertOp`: a classified insert with its sanitized attributes. */
  datatype DeltaInsertOp = DeltaInsertOp(insert: InsertData, attributes: Attrs)

  /** The embed keys in the order the classifier tries them. */
  const EmbedOrder: seq<DataType> := [Image, Video, Mention, File, Formula]

  // ---------------------------------------------------------------------
  // convertInsertVal

  /** `convertInsertVal`: a string is text; any other value that is not a
      truthy object is rejected; an object is classified by the first embed
      key it has, and carries the value under that key. */
  function ConvertInsertVal(insertPropVal: JValue): (r: Option<InsertData>)
    ensures insertPropVal.JStr? ==> r == Some(InsertData(Text, insertPropVal))
    ensures !insertPropVal.JStr? && !IsAttrObject(insertPropVal) ==> r == None
    ensures r.Some? && !insertPropVal.JStr? ==>
              && r.value.dtype in EmbedOrder
              && HasKey(insertPropVal, TypeName(r.value.dtype))
              && r.value.value == Get(insertPropVal, TypeName(r.value.dtype))
  {
    if insertPropVal.JStr? then Some(InsertData(Text, insertPropVal))
    else if !Truthy(insertPropVal) || !IsTypeofObject(insertPropVal) then None
    else if HasKey(insertPropVal, "image") then Some(InsertData(Image, Get(insertPropVal, "image")))
    else if HasKey(insertPropVal, "video") then Some(InsertData(Video, Get(insertPropVal, "video")))
    else if HasKey(insertPropVal, "mention") then Some(InsertData(Mention, Get(insertPropVal, "mention")))
    else if HasKey(insertPropVal, "file") then Some(InsertData(File, Get(insertPropVal, "file")))
    else if HasKey(insertPropVal, "formula") then Some(InsertData(Formula, Get(insertPropVal, "formula")))
    else None
  }

  /** An object is classified by the first embed key it has, in the order
      image, video, mention, file, formula; keys later in the order do not
      matter. */
  lemma ClassifiedByFirstKey(v: JValue, i: nat)
    requires IsAttrObject(v) && i < |EmbedOrder|
    requires HasKey(v, TypeName(EmbedOrder[i]))
    requires forall j | 0 <= j < i :: !HasKey(v, TypeName(EmbedOrder[j]))
    ensures ConvertInsertVal(v) == Some(InsertData(EmbedOrder[i], Get(v, TypeName(EmbedOrder[i]))))
  {
    assert EmbedOrder[0] == Image && EmbedOrder[1] == Video && EmbedOrder[2] == Mention;
    assert EmbedOrder[3] == File && EmbedOrder[4] == Formula;
    if i > 0 { assert !HasKey(v, "image"); }
    if i > 1 { assert !HasKey(v, "video"); }
    if i > 2 { assert !HasKey(v, "mention"); }
    if i > 3 { assert !HasKey(v, "file"); }
  }

  /** An object with none of the embed keys is rejected. */
  lemma UnclassifiedObject(v: JValue)
    requires forall j | 0 <= j < |EmbedOrder| :: !HasKey(v, TypeName(EmbedOrder[j]))
    ensures ConvertInsertVal(v) == None <==> !v.JStr?
  {
    assert EmbedOrder[0] == Image && EmbedOrder[1] == Video && EmbedOrder[2] == Mention;
    assert EmbedOrder[3] == File && EmbedOrder[4] == Formula;
    assert !HasKey(v, "image") && !HasKey(v, "video") && !HasKey(v, "mention");
    assert !HasKey(v, "file") && !HasKey(v, "formula");
  }

  /** The raw insert a classified value comes from: the string itself for
      text, a one-key object for an embed. */
  function Payload(d: InsertData): JValue {
    if d.dtype == Text then d.value else JObj(map[TypeName(d.dtype) := d.value])
  }

  /** Classifying the raw form of a value gives the value back; for text the
      value must be a string, as it always is after classification. */
  lemma PayloadRoundTrip(d: InsertData)
    requires d.dtype == Text ==> d.value.JStr?
    ensures ConvertInsertVal(Payload(d)) == Some(d)
  {
    if d.dtype != Text {
      var v := Payload(d);
      var key := TypeName(d.dtype);
      assert v.props.Keys == {key};
      match d.dtype
      case Image =>
      case Video => assert !HasKey(v, "image");
      case Mention => assert !HasKey(v, "image") && !HasKey(v, "video");
      case File => assert !HasKey(v, "image") && !HasKey(v, "video") && !HasKey(v, "mention");
      case Formula =>
        assert !HasKey(v, "image") && !HasKey(v, "video") && !HasKey(v, "mention") && !HasKey(v, "file");
    }
  }

  /** Every classified value satisfies the precondition of the round trip. */
  lemma ClassifiedTextIsString(v: JValue)
    requires ConvertInsertVal(v).Some?
    ensures ConvertInsertVal(v).value.dtype == Text ==> ConvertInsertVal(v).value.value.JStr?
  {
  }

  // ---------------------------------------------------------------------
  // convert

  /** The attributes to sanitize: the op's own when truthy; otherwise those
      embedded in a truthy mention payload; otherwise, while still falsy,
      those embedded in a truthy file payload. */
  function PromotedAttributes(op: JValue): (r: JValue)
    ensures var own, ins := Get(op, "attributes"), Get(op, "insert");
      var mention, file := Get(ins, "mention"), Get(ins, "file");
      && (Truthy(own) ==> r == own)
      && (!Truthy(own) && Truthy(mention) && Truthy(Get(mention, "attributes")) ==> r == Get(mention, "attributes"))
      && (Truthy(r) ==> r in {own, Get(mention, "attributes"), Get(file, "attributes")})
      && (!Truthy(own) && !(Truthy(mention) && Truthy(Get(mention, "attributes"))) && Truthy(file) ==> r == Get(file, "attributes"))
      && (!Truthy(own) && !Truthy(mention) && !Truthy(file) ==> r == own)
  {
    var ins := Get(op, "insert");
    var attributes := Get(op, "attributes");
    var attributes' := if !Truthy(attributes) && Truthy(Get(ins, "mention")) then Get(Get(ins, "mention"), "attributes") else attributes;
    if !Truthy(attributes') && Truthy(Get(ins, "file")) then Get(Get(ins, "file"), "attributes") else attributes'
  }

  /** What one denormalized op contributes: nothing when its insert is falsy
      or cannot be classified, otherwise the typed op, whose attributes are
      a clean record. */
  function ConvertOp(op: JValue): (r: Option<DeltaInsertOp>)
    ensures var ins := Get(op, "insert");
      && (r.None? <==> !Truthy(ins) || ConvertInsertVal(ins).None?)
      && (r.Some? ==> r.value.insert == ConvertInsertVal(ins).value)
      && (r.Some? ==> r.value.attributes == Sanitized(PromotedAttributes(op)) && IsClean(r.value.attributes))
  {
    var ins := Get(op, "insert");
    if !Truthy(ins) then None
    else
      var insertVal := ConvertInsertVal(ins);
      if insertVal.None? then None
      else
        SanitizedIsClean(PromotedAttributes(op));
        Some(DeltaInsertOp(insertVal.value, Sanitized(PromotedAttributes(op))))
  }

  function Emitted(o: Option<DeltaInsertOp>): seq<DeltaInsertOp> {
    if o.Some? then [o.value] else []
  }

  /** The typed ops of a list of denormalized ops, in order. */
  function ConvertAll(ops: seq<JValue>): seq<DeltaInsertOp> {
    if ops == [] then [] else ConvertAll(ops[..|ops| - 1]) + Emitted(ConvertOp(ops[|ops| - 1]))
  }

  /** `[].concat(x)`: an array contributes its elements, anything else
      itself. */
  function Spread(v: JValue): seq<JValue> {
    if v.JArr? then v.elems else [v]
  }

  /** `[].concat.apply([], ops.map(denormalize))`. When the denormalizer
      returns no array, the flattening is a plain map. */
  function Denormalized(ops: seq<JValue>, denormalize: JValue -> JValue): (r: seq<JValue>)
    ensures (forall i | 0 <= i < |ops| :: !denormalize(ops[i]).JArr?) ==>
              |r| == |ops| && forall i | 0 <= i < |r| :: r[i] == denormalize(ops[i])
  {
    if ops == [] then [] else Spread(denormalize(ops[0])) + Denormalized(ops[1..], denormalize)
  }

  /** Flattening works op by op: the flattened concatenation is the
      concatenation of the flattened parts. */
  lemma {:induction false} DenormalizedConcat(a: seq<JValue>, b: seq<JValue>, denormalize: JValue -> JValue)
    ensures Denormalized(a + b, denormalize) == Denormalized(a, denormalize) + Denormalized(b, denormalize)
  {
    if a != [] {
      assert (a + b)[0] == a[0] && (a + b)[1..] == a[1..] + b;
      DenormalizedConcat(a[1..], b, denormalize);
      var head := Spread(denormalize(a[0]));
      assert head + (Denormalized(a[1..], denormalize) + Denormalized(b, denormalize))
          == (head + Denormalized(a[1..], denormalize)) + Denormalized(b, denormalize);
    } else {
      assert a + b == b;
    }
  }

  /** A single op flattens to the elements of the array its denormalization
      returns, or to that result itself when it is not an array. */
  lemma DenormalizedOne(x: JValue, denormalize: JValue -> JValue)
    ensures Denormalized([x], denormalize) ==
              (if denormalize(x).JArr? then denormalize(x).elems else [denormalize(x)])
  {
    assert [x][1..] == [];
  }

  /** The result of `convert`: nothing for a non-array, otherwise at most one
      typed op per denormalized op, each with clean attributes. */
  function Converted(deltaOps: JValue, denormalize: JValue -> JValue): (r: seq<DeltaInsertOp>)
    ensures !deltaOps.JArr? ==> r == []
    ensures deltaOps.JArr? ==> |r| <= |Denormalized(deltaOps.elems, denormalize)|
    ensures forall i | 0 <= i < |r| :: IsClean(r[i].attributes)
    ensures deltaOps.JArr? ==> forall i | 0 <= i < |r| ::
              exists op | op in Denormalized(deltaOps.elems, denormalize) :: ConvertOp(op) == Some(r[i])
  {
    if !deltaOps.JArr? then []
    else
      var ops := Denormalized(deltaOps.elems, denormalize);
      ConvertAllShorter(ops);
      ConvertAllOrigin(ops);
      ConvertAll(ops)
  }

  /** `InsertOpsConverter.convert`. The denormalizer is a parameter. */
  method Convert(deltaOps: JValue, denormalize: JValue -> JValue) returns (results: seq<DeltaInsertOp>)
    ensures results == Converted(deltaOps, denormalize)
    ensures !deltaOps.JArr? ==> results == []
  {
    if !deltaOps.JArr? {
      return [];
    }
    var denormalizedOps := Denormalized(deltaOps.elems, denormalize);
    results := [];
    for k := 0 to |denormalizedOps|
      invariant results == ConvertAll(denormalizedOps[..k])
    {
      var op := denormalizedOps[k];
      assert denormalizedOps[..k + 1][..k] == denormalizedOps[..k];
      var ins := Get(op, "insert");
      if !Truthy(ins) {
        continue;
      }
      var insertVal := ConvertInsertVal(ins);
      if insertVal.None? {
        continue;
      }
      var attributes := Get(op, "attributes");
      if !Truthy(attributes) && Truthy(Get(ins, "mention")) {
        attributes := Get(Get(ins, "mention"), "attributes");
      }
      if !Truthy(attributes) && Truthy(Get(ins, "file")) {
        attributes := Get(Get(ins, "file"), "attributes");
      }
      assert attributes == PromotedAttributes(op);
      var clean := Sanitize(attributes);
      assert ConvertOp(op) == Some(DeltaInsertOp(insertVal.value, clean));
      results := results + [DeltaInsertOp(insertVal.value, clean)];
    }
    assert denormalizedOps[..|denormalizedOps|] == denormalizedOps;
  }

  // ---------------------------------------------------------------------
  // Properties of convert

  /** Converting works op by op: the result for a concatenation is the
      concatenation of the results, so the order of the ops is kept. */
  lemma {:induction false} ConvertAllConcat(a: seq<JValue>, b: seq<JValue>)
    ensures ConvertAll(a + b) == ConvertAll(a) + ConvertAll(b)
    decreases |b|
  {
    if b == [] {
      assert a + b == a;
    } else {
      var b' := b[..|b| - 1];
      ConvertAllConcat(a, b');
      assert (a + b)[..|a + b| - 1] == a + b';
      assert (a + b)[|a + b| - 1] == b[|b| - 1];
    }
  }

  /** Each op contributes at most one typed op. */
  lemma {:induction false} ConvertAllShorter(ops: seq<JValue>)
    ensures |ConvertAll(ops)| <= |ops|
  {
    if ops != [] {
      ConvertAllShorter(ops[..|ops| - 1]);
    }
  }

  /** Every typed op comes from some op of the input, and its attributes are
      a sanitized record. */
  lemma {:induction false} ConvertAllOrigin(ops: seq<JValue>)
    ensures forall t | t in ConvertAll(ops) :: exists op | op in ops :: ConvertOp(op) == Some(t)
    ensures forall t | t in ConvertAll(ops) :: IsClean(t.attributes)
  {
    if ops != [] {
      var init, last := ops[..|ops| - 1], ops[|ops| - 1];
      ConvertAllOrigin(init);
      forall t | t in ConvertAll(ops)
        ensures exists op | op in ops :: ConvertOp(op) == Some(t)
        ensures IsClean(t.attributes)
      {
        if t in ConvertAll(init) {
          var op :| op in init && ConvertOp(op) == Some(t);
          assert op in ops;
        } else {
          assert ConvertOp(last) == Some(t);
          SanitizedIsClean(PromotedAttributes(last));
        }
      }
    }
  }

  /** A truthy string insert always gives one text op. */
  lemma TextOpKept(op: JValue)
    requires Get(op, "insert").JStr? && Get(op, "insert").s != ""
    ensures ConvertOp(op).Some? && ConvertOp(op).value.insert == InsertData(Text, Get(op, "insert"))
  {
  }
}
