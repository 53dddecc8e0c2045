/** src/cache/serializers/json.py: the cache serializer. A stored payload
    is the top-level JSON value of the cached text: an array whose elements
    are the per-item JSON texts, or one model's own JSON text. Turning text
    into a model and back is pydantic's business and is taken as an item
    codec the serializer is parameterised by. */
module JsonSerializer {
  import opened Outcomes

  type Text = string

  /** The top-level JSON value of a stored payload. */
  datatype Payload =
    | JArray(elems: seq<Text>)   // `json.dumps([item.json() for item in data])`
    | JDoc(text: Text)           // one model's `.json()`, or any non-array text

  /** What a cached operation returns: one model or an ordered list of them. */
  datatype Cached<T> = One(item: T) | Many(items: seq<T>)

  /** `model.json()` and `model.parse_raw(text)`; `parse_raw` fails with
      `None`. */
  datatype ItemCodec<!T> = ItemCodec(encode: T -> Text, decode: Text -> Option<T>)

  /** What the serializer relies on of the model: parsing a model's own JSON
      gives the model back, and that JSON is an object, so it is neither
      empty text nor array text. */
  ghost predicate Lawful<T(!new)>(c: ItemCodec<T>) {
    forall x :: c.decode(c.encode(x)) == Some(x) && |c.encode(x)| > 0 && c.encode(x)[0] == '{'
  }

  /** The per-item texts of a list, in order. */
  function EncodeAll<T>(c: ItemCodec<T>, xs: seq<T>): (ts: seq<Text>)
    ensures |ts| == |xs|
    ensures forall i :: 0 <= i < |xs| ==> ts[i] == c.encode(xs[i])
  {
    if |xs| == 0 then [] else [c.encode(xs[0])] + EncodeAll(c, xs[1..])
  }

  /** `[model.parse_raw(item) for item in items]`: fails as soon as one
      element does not parse; otherwise one model per element, in order. */
  function DecodeAll<T>(c: ItemCodec<T>, ts: seq<Text>): (r: Option<seq<T>>)
    ensures r.Some? <==> forall i :: 0 <= i < |ts| ==> c.decode(ts[i]).Some?
    ensures r.Some? ==> |r.value| == |ts| && forall i :: 0 <= i < |ts| ==> Some(r.value[i]) == c.decode(ts[i])
  {
    if |ts| == 0 then Some([])
    else
      var rest := DecodeAll(c, ts[1..]);
      assert forall i :: 1 <= i < |ts| ==> ts[i] == ts[1..][i - 1];
      match c.decode(ts[0])
      case None => None
      case Some(x) =>
        match rest
        case None => None
        case Some(xs) => Some([x] + xs)
  }

  /** `serialize`: a list becomes an array of the items' texts in order, a
      single model its own text. */
  function Serialize<T>(c: ItemCodec<T>, v: Cached<T>): (p: Payload)
    ensures v.Many? ==> p.JArray? && |p.elems| == |v.items|
                        && forall i :: 0 <= i < |v.items| ==> p.elems[i] == c.encode(v.items[i])
    ensures v.One? ==> p == JDoc(c.encode(v.item))
  {
    match v
    case One(x) => JDoc(c.encode(x))
    case Many(xs) => JArray(EncodeAll(c, xs))
  }

  /** `deserialize`: the shape comes from the payload alone. An array gives
      a list with each element parsed, anything else one parsed model; a
      parse failure anywhere gives `None`. */
  function Deserialize<T>(c: ItemCodec<T>, p: Payload): (r: Option<Cached<T>>)
    ensures r.Some? ==> (r.value.Many? <==> p.JArray?)
    ensures p.JDoc? ==> r == (match c.decode(p.text) case Some(x) => Some(One(x)) case None => None)
    ensures p.JArray? ==> (r.Some? <==> forall i :: 0 <= i < |p.elems| ==> c.decode(p.elems[i]).Some?)
    ensures p.JArray? && r.Some? ==>
      |r.value.items| == |p.elems| && forall i :: 0 <= i < |p.elems| ==> Some(r.value.items[i]) == c.decode(p.elems[i])
  {
    match p
    case JDoc(text) =>
      (match c.decode(text)
       case Some(x) => Some(One(x))
       case None => None)
    case JArray(ts) =>
      (match DecodeAll(c, ts)
       case Some(xs) => Some(Many(xs))
       case None => None)
  }

  /** Item-level round trip lifts to lists, the empty list included. */
  lemma {:induction false} DecodeEncodeAll<T(!new)>(c: ItemCodec<T>, xs: seq<T>)
    requires Lawful(c)
    ensures DecodeAll(c, EncodeAll(c, xs)) == Some(xs)
  {
    if |xs| > 0 {
      var ts := EncodeAll(c, xs);
      var tail := xs[1..];
      DecodeEncodeAll(c, tail);
      assert ts[1..] == EncodeAll(c, tail);
      assert c.decode(ts[0]) == Some(xs[0]);
      assert DecodeAll(c, ts) == Some([xs[0]] + tail);
      assert [xs[0]] + tail == xs;
    }
  }

  /** `deserialize(serialize(v)) == v` for a single model and for every
      list, including the empty one, which comes back as `[]` and not as a
      single-model failure. */
  lemma RoundTrip<T(!new)>(c: ItemCodec<T>, v: Cached<T>)
    requires Lawful(c)
    ensures Deserialize(c, Serialize(c, v)) == Some(v)
  {
    match v
    case One(x) =>
      assert c.decode(c.encode(x)) == Some(x);
    case Many(xs) =>
      DecodeEncodeAll(c, xs);
  }

  /** A serialized value is never falsy: an array is at least `[]`, and a
      model's own text is a non-empty object, which `json.loads` does not
      read as an array. */
  lemma SerializedNonEmpty<T(!new)>(c: ItemCodec<T>, v: Cached<T>)
    requires Lawful(c)
    ensures Serialize(c, v).JDoc? ==> Serialize(c, v).text != "" && Serialize(c, v).text[0] == '{'
  {
  }
}
