/** The records the three components pass to one another: blueprints and
    their fields, contracts, statuses and the values stored per field. */
module Entities {

  /** The four kinds of field a blueprint can hold. */
  datatype FieldType = Text | Date | Signature | Checkbox

  /** The name the source uses for each field type (also the default label). */
  function TypeName(t: FieldType): string
  {
    match t
    case Text => "Text"
    case Date => "Date"
    case Signature => "Signature"
    case Checkbox => "Checkbox"
  }

  /** Field ids are numbers taken from the clock when a field is added. */
  type FieldId = int

  datatype Field = Field(id: FieldId, kind: FieldType, labelText: string, position: int)

  datatype Blueprint = Blueprint(id: int, name: string, fields: seq<Field>)

  /** Contract status. Any status string outside the six known ones is `Unknown`. */
  datatype Status = Created | Approved | Sent | Signed | Locked | Revoked | Unknown

  /** What a contract stores for one field: text (Text and Date inputs), a
      boolean (Checkbox), an uploaded file known by its name (Signature), or
      `undefined` (a file input whose selection was cleared). */
  datatype Value = Str(text: string) | Bool(flag: bool) | File(fileName: string) | Undefined

  /** JavaScript truthiness of a stored value: the empty string, `false` and
      `undefined` are falsy; every file object is truthy. */
  predicate Truthy(v: Value)
  {
    match v
    case Str(s) => s != ""
    case Bool(b) => b
    case File(_) => true
    case Undefined => false
  }

  /** `fieldValues[id]`: a missing key reads as `undefined`. */
  function Lookup(values: map<FieldId, Value>, id: FieldId): Value
  {
    if id in values then values[id] else Undefined
  }

  datatype Contract = Contract(
    id: int,
    name: string,
    blueprintId: int,
    blueprintName: string,
    status: Status,
    createdDate: string,
    fieldValues: map<FieldId, Value>)

  /** The ids of a field list, in order. */
  function Ids(fields: seq<Field>): (ids: seq<FieldId>)
    ensures |ids| == |fields|
    ensures forall i :: 0 <= i < |fields| ==> ids[i] == fields[i].id
  {
    if fields == [] then [] else [fields[0].id] + Ids(fields[1..])
  }

  predicate UniqueIds(fields: seq<Field>)
  {
    forall i, j :: 0 <= i < j < |fields| ==> fields[i].id != fields[j].id
  }

  /** The shape of value each input stores: a string for Text and Date, a
      boolean for Checkbox, a file or `undefined` for Signature. */
  predicate Fits(kind: FieldType, v: Value)
  {
    match kind
    case Text => v.Str?
    case Date => v.Str?
    case Checkbox => v.Bool?
    case Signature => v.File? || v.Undefined?
  }

  /** The field values a contract may carry for a blueprint: every key is the
      id of one of its fields, and, when the ids are unique, each field's
      value has the shape of that field's type. (With duplicate ids two
      fields of different types share one key, and nothing keeps the shapes
      apart.) */
  predicate ValuesFit(fields: seq<Field>, values: map<FieldId, Value>)
  {
    && (forall id :: id in values ==> id in Ids(fields))
    && (UniqueIds(fields) ==>
          forall i :: 0 <= i < |fields| && fields[i].id in values ==> Fits(fields[i].kind, values[fields[i].id]))
  }
}
