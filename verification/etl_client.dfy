/** etl/client.py: the bulk-load actions generated for a list of dumped
    items, and index creation that skips an index that already exists. The
    engine's index catalogue is a map from index name to schema. */
module EtlClient {
  /** A JSON value as `json.load` produces it; a number, such as the float
      `imdb_rating` of a dumped movie, is kept as its literal text, since
      documents only pass through. */
  datatype Json =
    | JNull
    | JBool(b: bool)
    | JNum(literal: string)
    | JStr(s: string)
    | JList(elems: seq<Json>)
    | JObject(fields: map<string, Json>)

  /** One dumped document. */
  type EtlItem = map<string, Json>

  /** One bulk action: `_op_type`, `_index`, `_id`, `_source`. */
  datatype Action = Action(opType: string, index: string, id: Json, source: EtlItem)

  /** The actions yielded, and whether the generator stopped on an item
      without an `id` key (`item['id']` raising `KeyError`). */
  datatype Generated = Generated(actions: seq<Action>, keyError: bool)

  const IndexOp: string := "index"

  /** `generate_actions`: one `index` action per item, in input order, with
      the item's `id` as `_id` and the item itself as `_source`; the first
      item without an `id` ends the generation with `KeyError`, after the
      actions of the items before it. */
  method GenerateActions(indexName: string, items: seq<EtlItem>) returns (g: Generated)
    ensures |g.actions| <= |items|
    ensures g.keyError <==> exists i :: 0 <= i < |items| && "id" !in items[i]
    ensures g.keyError ==> |g.actions| < |items| && "id" !in items[|g.actions|]
    ensures !g.keyError ==> |g.actions| == |items|
    ensures forall i :: 0 <= i < |g.actions| ==>
      && "id" in items[i]
      && g.actions[i] == Action(IndexOp, indexName, items[i]["id"], items[i])
  {
    var actions: seq<Action> := [];
    var i := 0;
    while i < |items|
      invariant 0 <= i <= |items|
      invariant |actions| == i
      invariant forall j :: 0 <= j < i ==> "id" in items[j] && actions[j] == Action(IndexOp, indexName, items[j]["id"], items[j])
    {
      var item := items[i];
      if "id" !in item {
        return Generated(actions, true);
      }
      actions := actions + [Action(IndexOp, indexName, item["id"], item)];
      i := i + 1;
    }
    return Generated(actions, false);
  }

  /** The catalogue of indices and the schema each was created with. */
  type Indices = map<string, Json>

  /** `create_index`: an existing index is left as it is; a missing one is
      created with the given schema. `created` says which happened. */
  function CreateIndex(indices: Indices, name: string, schema: Json): (r: (Indices, bool))
    ensures r.1 <==> name !in indices
    ensures r.0.Keys == indices.Keys + {name}
    ensures r.0[name] == if name in indices then indices[name] else schema
    ensures forall n :: n in indices && n != name ==> r.0[n] == indices[n]
  {
    if name in indices then (indices, false)
    else (indices[name := schema], true)
  }

  /** A second `create_index` of the same name creates nothing and changes
      nothing, whatever schema it is given. */
  lemma CreateIndexIdempotent(indices: Indices, name: string, schema: Json, schema2: Json)
    ensures var (once, _) := CreateIndex(indices, name, schema);
      CreateIndex(once, name, schema2) == (once, false)
  {
  }
}
