/**
  Output formats: the two row transforms, the FORMATS table of
  (key, transform) pairs, the dictionary FORMATS_MAP built from it and
  the lookup that predict performs before anything else.
 */
module Formats {
  import opened Wrappers
  import opened Errors

  /** The two transforms of the table: map_to_b64 and map_to_list. */
  datatype Format = Base64 | Array

  /**
    One output element for one embedding row: the base64 text of the row's
    raw buffer, or the row as a plain list of numbers. The codec itself is
    not modelled; the constructor records which transform produced the cell.
   */
  datatype Cell<R> = Base64Of(row: R) | ArrayOf(row: R)

  /** map_to_b64: base64-encode every row of the batch. */
  function MapToB64<R>(rows: seq<R>): (cells: seq<Cell<R>>)
    ensures |cells| == |rows|
    ensures forall i :: 0 <= i < |rows| ==> cells[i] == Base64Of(rows[i])
  {
    seq(|rows|, i requires 0 <= i < |rows| => Base64Of(rows[i]))
  }

  /** map_to_list: ndarray.tolist() turns every row into a list. */
  function MapToList<R>(rows: seq<R>): (cells: seq<Cell<R>>)
    ensures |cells| == |rows|
    ensures forall i :: 0 <= i < |rows| ==> cells[i] == ArrayOf(rows[i])
  {
    seq(|rows|, i requires 0 <= i < |rows| => ArrayOf(rows[i]))
  }

  /**
    Applying the transform bound to a format: one cell per row, in row
    order, each of the kind the format names.
   */
  function Transform<R>(f: Format, rows: seq<R>): (cells: seq<Cell<R>>)
    ensures |cells| == |rows|
    ensures forall i :: 0 <= i < |rows| ==> cells[i].row == rows[i]
    ensures forall i :: 0 <= i < |rows| ==> (cells[i].Base64Of? <==> f == Base64)
  {
    match f
    case Base64 => MapToB64(rows)
    case Array => MapToList(rows)
  }

  /** FORMATS: the table of (key, transform) pairs, in declaration order. */
  const Table: seq<(string, Format)> := [("base64", Base64), ("array", Array)]

  /** No pair after position i has the key of pair i. */
  predicate LastOfKey<K(==), V>(pairs: seq<(K, V)>, i: nat)
    requires i < |pairs|
  {
    forall j :: i < j < |pairs| ==> pairs[j].0 != pairs[i].0
  }

  /**
    Python's dict(pairs): every key of the pairs is a key of the map, and a
    key maps to the value of its last pair.
   */
  function DictOf<K, V>(pairs: seq<(K, V)>): (m: map<K, V>)
    ensures m.Keys == set p | p in pairs :: p.0
    ensures forall i :: 0 <= i < |pairs| && LastOfKey(pairs, i) ==> m[pairs[i].0] == pairs[i].1
  {
    if pairs == [] then map[]
    else
      var init := pairs[..|pairs| - 1];
      var last := pairs[|pairs| - 1];
      assert pairs == init + [last];
      assert forall i :: 0 <= i < |init| ==> init[i] == pairs[i];
      DictOf(init)[last.0 := last.1]
  }

  /** FORMATS_MAP = dict(FORMATS): exactly the keys "base64" and "array", bound to their transforms. */
  function FormatsMap(): (m: map<string, Format>)
    ensures m == map["base64" := Base64, "array" := Array]
  {
    DictOf(Table)
  }

  /** FORMATS_MAP[output_format]: an unknown key raises KeyError. */
  function Lookup(key: string): (r: Result<Format, Error>)
    ensures key == "base64" ==> r == Success(Base64)
    ensures key == "array" ==> r == Success(Array)
    ensures key != "base64" && key != "array" ==> r == Failure(KeyError(key))
  {
    if key in FormatsMap() then Success(FormatsMap()[key]) else Failure(KeyError(key))
  }

  /** The choices of the output_format parameter: the keys of FORMATS, in order. */
  function Choices(): (keys: seq<string>)
    ensures keys == ["base64", "array"]
  {
    seq(|Table|, i requires 0 <= i < |Table| => Table[i].0)
  }

  /** The default of the output_format parameter: the key of the first entry of FORMATS. */
  function DefaultFormat(): (key: string)
    ensures key == "base64"
    ensures key in Choices()
    ensures Lookup(key) == Success(Base64)
  {
    Table[0].0
  }

  /** The offered choices are exactly the keys the lookup accepts. */
  lemma ChoicesAreLookupKeys(key: string)
    ensures key in Choices() <==> Lookup(key).Success?
  {
  }
}
