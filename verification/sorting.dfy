/** Sort parameters (src/models/base.py): the `SortOrder` enum, an enum
    of sortable fields given by its members in declaration order, and
    `parse_sort_param`, which turns `field` / `-field` into a field and a
    direction or rejects the request with a 400 error. */
module Sorting {
  import opened Outcomes

  datatype SortOrder = Asc | Desc

  /** `SortOrder.ASC = 'asc'`, `SortOrder.DESC = 'desc'`. */
  function OrderValue(o: SortOrder): string {
    match o
    case Asc => "asc"
    case Desc => "desc"
  }

  /** A `BaseSortField` subclass: its members in declaration order and the
      string value of each. */
  datatype EnumClass<!F> = EnumClass(members: seq<F>, value: F -> string)

  datatype SortParams<F> = SortParams(field: F, order: SortOrder)

  /** The `HTTPException` the parser raises. */
  datatype HttpError = HttpError(status: int, detail: string)

  const BadRequest: int := 400

  /** `get_values`: the members' values, in declaration order. */
  function GetValues<F>(e: EnumClass<F>): (vs: seq<string>)
    ensures |vs| == |e.members|
    ensures forall i :: 0 <= i < |vs| ==> vs[i] == e.value(e.members[i])
  {
    seq(|e.members|, i requires 0 <= i < |e.members| => e.value(e.members[i]))
  }

  /** `fields_class(value)`: the first member (in declaration order) whose
      value is the given string. */
  function Lookup<F>(members: seq<F>, value: F -> string, v: string): (r: Option<F>)
    ensures r.Some? <==> exists i :: 0 <= i < |members| && value(members[i]) == v
    ensures r.Some? ==> r.value in members && value(r.value) == v
    ensures r.Some? && |members| > 0 && value(members[0]) == v ==> r.value == members[0]
  {
    if |members| == 0 then None
    else if value(members[0]) == v then Some(members[0])
    else
      var r := Lookup(members[1..], value, v);
      assert forall i :: 1 <= i < |members| ==> members[i] == members[1..][i - 1];
      r
  }

  predicate HasDescPrefix(sort: string) {
    |sort| > 0 && sort[0] == '-'
  }

  /** The field name the parser checks: one leading `-` removed, if any. */
  function StrippedName(sort: string): (name: string)
    ensures HasDescPrefix(sort) ==> sort == "-" + name
    ensures !HasDescPrefix(sort) ==> name == sort
  {
    if HasDescPrefix(sort) then sort[1..] else sort
  }

  /** `parse_sort_param`: the direction comes from the prefix, and the rest
      must be one of the enum's values or the request is rejected. */
  function ParseSortParam<F>(e: EnumClass<F>, sort: string): (r: Result<SortParams<F>, HttpError>)
    ensures r.Ok? <==> StrippedName(sort) in GetValues(e)
    ensures r.Ok? ==> r.value.field in e.members && e.value(r.value.field) == StrippedName(sort)
    ensures r.Ok? ==> (r.value.order == Desc <==> HasDescPrefix(sort))
    ensures r.Err? ==> r.error == HttpError(BadRequest, "Invalid sort field: " + StrippedName(sort))
  {
    var order := if HasDescPrefix(sort) then Desc else Asc;
    var name := StrippedName(sort);
    if name !in GetValues(e) then Err(HttpError(BadRequest, "Invalid sort field: " + name))
    else
      var field := Lookup(e.members, e.value, name);
      assert exists i :: 0 <= i < |e.members| && e.value(e.members[i]) == name by {
        var vs := GetValues(e);
        var i :| 0 <= i < |vs| && vs[i] == name;
        assert e.value(e.members[i]) == name;
      }
      Ok(SortParams(field.value, order))
  }

  /** The query-string form of sort parameters: `-` before the field's
      value for a descending sort. */
  function SortString<F>(e: EnumClass<F>, p: SortParams<F>): string {
    (if p.order == Desc then "-" else "") + e.value(p.field)
  }

  /** Distinct members carry distinct values. */
  ghost predicate DistinctValues<F>(e: EnumClass<F>) {
    forall i, j :: 0 <= i < j < |e.members| ==> e.value(e.members[i]) != e.value(e.members[j])
  }

  lemma LookupFindsMember<F>(members: seq<F>, value: F -> string, f: F)
    requires f in members
    requires forall i, j :: 0 <= i < j < |members| ==> value(members[i]) != value(members[j])
    ensures Lookup(members, value, value(f)) == Some(f)
  {
  }

  /** Parsing the query-string form gives back the same parameters, for an
      enum whose values are distinct and do not themselves start with `-`. */
  lemma ParseSortStringRoundTrip<F>(e: EnumClass<F>, p: SortParams<F>)
    requires p.field in e.members
    requires DistinctValues(e)
    requires !HasDescPrefix(e.value(p.field))
    ensures ParseSortParam(e, SortString(e, p)) == Ok(p)
  {
    var s := SortString(e, p);
    if p.order == Desc {
      assert s[1..] == e.value(p.field);
    }
    assert StrippedName(s) == e.value(p.field);
    LookupFindsMember(e.members, e.value, p.field);
    var k :| 0 <= k < |e.members| && e.members[k] == p.field;
    assert GetValues(e)[k] == e.value(p.field);
  }
}
