/** The blueprint editor: a name and an ordered list of fields that the
    handlers overwrite, and the save check that emits a blueprint. */
module BlueprintEditor {
  import opened Wrappers
  import opened Entities
  import opened StringTrim

  /** FIELD_TYPES: the order of the "add field" buttons. */
  const FieldTypes: seq<FieldType> := [Text, Date, Signature, Checkbox]

  /** FIELD_TYPES offers every field type exactly once, so each type has one
      "add field" button. */
  lemma FieldTypesListEachTypeOnce(t: FieldType)
    ensures t in FieldTypes
    ensures forall i, j :: 0 <= i < j < |FieldTypes| ==> FieldTypes[i] != FieldTypes[j]
  {
  }

  /** The number of fields carrying `id`. */
  function CountId(fields: seq<Field>, id: FieldId): nat
  {
    if fields == [] then 0
    else (if fields[0].id == id then 1 else 0) + CountId(fields[1..], id)
  }

  /** Whether each field's `position` is its index in the list. */
  predicate PositionsAreIndices(fields: seq<Field>)
  {
    forall i :: 0 <= i < |fields| ==> fields[i].position == i
  }

  /** `s` is `t` with some elements left out and the rest kept in order. */
  predicate IsSubsequence<T(==)>(s: seq<T>, t: seq<T>)
    decreases |t|
  {
    s == [] || (t != [] && ((s[0] == t[0] && IsSubsequence(s[1..], t[1..])) || IsSubsequence(s, t[1..])))
  }

  /** addField(type): the new list has one more field, at the end; the
      earlier fields are untouched; the new field is labelled with the type
      name and placed at the old length. `id` is the clock reading. */
  function WithNewField(fields: seq<Field>, kind: FieldType, id: FieldId): (r: seq<Field>)
    ensures |r| == |fields| + 1 && r[..|fields|] == fields
    ensures r[|fields|].id == id && r[|fields|].kind == kind
    ensures r[|fields|].labelText == TypeName(kind) && r[|fields|].position == |fields|
  {
    fields + [Field(id, kind, TypeName(kind), |fields|)]
  }

  /** The `[key]: value` pair of updateField. */
  datatype FieldEdit =
    | SetId(newId: FieldId)
    | SetKind(newKind: FieldType)
    | SetLabel(newLabel: string)
    | SetPosition(newPosition: int)

  /** `{ ...f, [key]: value }`: the edited attribute takes the new value and
      every other attribute keeps its old one. */
  function Assign(f: Field, edit: FieldEdit): (g: Field)
    ensures g.id == if edit.SetId? then edit.newId else f.id
    ensures g.kind == if edit.SetKind? then edit.newKind else f.kind
    ensures g.labelText == if edit.SetLabel? then edit.newLabel else f.labelText
    ensures g.position == if edit.SetPosition? then edit.newPosition else f.position
  {
    match edit
    case SetId(i) => f.(id := i)
    case SetKind(k) => f.(kind := k)
    case SetLabel(l) => f.(labelText := l)
    case SetPosition(p) => f.(position := p)
  }

  /** updateField(id, key, value): same length and order; exactly the fields
      whose id is `id` are edited, every other field is unchanged. */
  function WithFieldUpdated(fields: seq<Field>, id: FieldId, edit: FieldEdit): (r: seq<Field>)
    ensures |r| == |fields|
    ensures forall i :: 0 <= i < |fields| && fields[i].id == id ==> r[i] == Assign(fields[i], edit)
    ensures forall i :: 0 <= i < |fields| && fields[i].id != id ==> r[i] == fields[i]
  {
    if fields == [] then []
    else
      var head := if fields[0].id == id then Assign(fields[0], edit) else fields[0];
      [head] + WithFieldUpdated(fields[1..], id, edit)
  }

  /** deleteField(id): no field with that id remains, the others survive as
      they were (positions included) and in the same order, and the list
      shrinks by the number of fields that carried the id. */
  function WithoutField(fields: seq<Field>, id: FieldId): (r: seq<Field>)
    ensures |r| == |fields| - CountId(fields, id)
    ensures forall f :: f in r <==> f in fields && f.id != id
    ensures IsSubsequence(r, fields)
  {
    if fields == [] then []
    else if fields[0].id != id then [fields[0]] + WithoutField(fields[1..], id)
    else WithoutField(fields[1..], id)
  }

  /** An id that matches no field leaves updateField without effect. */
  lemma UpdateWithoutMatch(fields: seq<Field>, id: FieldId, edit: FieldEdit)
    requires id !in Ids(fields)
    ensures WithFieldUpdated(fields, id, edit) == fields
  {
  }

  /** Relabelling, the only edit the editor's inputs make, keeps every id. */
  lemma RelabelKeepsIds(fields: seq<Field>, id: FieldId, newLabel: string)
    ensures Ids(WithFieldUpdated(fields, id, SetLabel(newLabel))) == Ids(fields)
  {
  }

  /** Deleting distributes over concatenation, so the survivors of each part
      keep their relative order. */
  lemma {:induction false} WithoutFieldAppend(a: seq<Field>, b: seq<Field>, id: FieldId)
    ensures WithoutField(a + b, id) == WithoutField(a, id) + WithoutField(b, id)
  {
    if a == [] {
      assert a + b == b;
    } else {
      assert (a + b)[1..] == a[1..] + b;
      WithoutFieldAppend(a[1..], b, id);
    }
  }

  /** With unique ids, an id that is present is carried by exactly one field. */
  lemma {:induction false} CountUniqueId(fields: seq<Field>, id: FieldId)
    requires UniqueIds(fields)
    ensures CountId(fields, id) == if id in Ids(fields) then 1 else 0
  {
    if fields != [] {
      var rest := fields[1..];
      assert UniqueIds(rest);
      CountUniqueId(rest, id);
      if fields[0].id == id {
        forall k | 0 <= k < |rest| ensures Ids(rest)[k] != id {
          assert rest[k] == fields[k + 1];
        }
      }
      assert id in Ids(fields) <==> fields[0].id == id || id in Ids(rest) by {
        assert Ids(fields) == [fields[0].id] + Ids(rest);
      }
    }
  }

  /** With unique ids, deleting a present id removes exactly one field, and
      that id never reappears. */
  lemma DeleteUniqueRemovesOne(fields: seq<Field>, id: FieldId)
    requires UniqueIds(fields) && id in Ids(fields)
    ensures |WithoutField(fields, id)| == |fields| - 1
    ensures id !in Ids(WithoutField(fields, id))
  {
    CountUniqueId(fields, id);
  }

  /** Adding a field whose id is fresh keeps the ids unique. */
  lemma AddFreshKeepsIdsUnique(fields: seq<Field>, kind: FieldType, id: FieldId)
    requires UniqueIds(fields) && id !in Ids(fields)
    ensures UniqueIds(WithNewField(fields, kind, id))
  {
  }

  /** Adding keeps "position is index"; deleting does not restore it. */
  lemma AddKeepsPositionsAtIndices(fields: seq<Field>, kind: FieldType, id: FieldId)
    requires PositionsAreIndices(fields)
    ensures PositionsAreIndices(WithNewField(fields, kind, id))
  {
  }

  /** Deleting the middle of three fields leaves positions 0 and 2: the gap
      that the editor never renumbers. */
  lemma DeleteLeavesPositionGap()
    ensures var fields := [Field(1, Text, "Text", 0), Field(2, Date, "Date", 1), Field(3, Checkbox, "Checkbox", 2)];
      && WithoutField(fields, 2) == [Field(1, Text, "Text", 0), Field(3, Checkbox, "Checkbox", 2)]
      && PositionsAreIndices(fields)
      && !PositionsAreIndices(WithoutField(fields, 2))
  {
  }

  /** The two alerts of handleSave. */
  datatype EditorError = NameRequired | FieldsRequired

  /** handleSave. A blank name is rejected whatever the fields are (the name
      is checked first), a good name with no fields is rejected, and
      otherwise the blueprint is emitted with the untrimmed name and the
      fields as they are. The id is the edited blueprint's when it has a
      truthy (non-zero) one, else the clock reading `now`. */
  function SaveBlueprint(edited: Option<Blueprint>, name: string, fields: seq<Field>, now: int)
    : (r: Result<Blueprint, EditorError>)
    ensures r == Failure(NameRequired) <==> forall i :: 0 <= i < |name| ==> IsWhitespace(name[i])
    ensures r == Failure(FieldsRequired) <==> !IsBlank(name) && fields == []
    ensures r.Success? <==> !IsBlank(name) && fields != []
    ensures r.Success? ==> r.value.name == name && r.value.fields == fields
    ensures r.Success? ==> r.value.id == if edited.Some? && edited.value.id != 0 then edited.value.id else now
  {
    if IsBlank(name) then Failure(NameRequired)
    else if |fields| == 0 then Failure(FieldsRequired)
    else Success(Blueprint(if edited.Some? && edited.value.id != 0 then edited.value.id else now, name, fields))
  }

  /** Adding a Text and a Date field, relabelling them "Party" and
      "Effective Date" and saving as "NDA" emits both fields in insertion
      order; saving with no fields is refused. */
  lemma NdaBlueprintSaved()
    ensures var fields := WithFieldUpdated(WithFieldUpdated(
              WithNewField(WithNewField([], Text, 1), Date, 2), 1, SetLabel("Party")), 2, SetLabel("Effective Date"));
      && SaveBlueprint(None, "NDA", fields, 3)
         == Success(Blueprint(3, "NDA", [Field(1, Text, "Party", 0), Field(2, Date, "Effective Date", 1)]))
      && SaveBlueprint(None, "NDA", [], 3) == Failure(FieldsRequired)
  {
    var f1 := WithNewField([], Text, 1);
    var f2 := WithNewField(f1, Date, 2);
    var f3 := WithFieldUpdated(f2, 1, SetLabel("Party"));
    var f4 := WithFieldUpdated(f3, 2, SetLabel("Effective Date"));
    assert f4 == [Field(1, Text, "Party", 0), Field(2, Date, "Effective Date", 1)];
    assert !IsWhitespace("NDA"[0]);
  }

  /** The editor's state: the name and fields held by `useState`. */
  class EditorState {
    const editBlueprint: Option<Blueprint>
    var name: string
    var fields: seq<Field>

    /** The initial state comes from the edited blueprint, if any. */
    constructor (editBlueprint: Option<Blueprint>)
      ensures this.editBlueprint == editBlueprint
      ensures name == if editBlueprint.Some? then editBlueprint.value.name else ""
      ensures fields == if editBlueprint.Some? then editBlueprint.value.fields else []
    {
      this.editBlueprint := editBlueprint;
      name := if editBlueprint.Some? then editBlueprint.value.name else "";
      fields := if editBlueprint.Some? then editBlueprint.value.fields else [];
    }

    /** The name input's onChange. */
    method SetName(newName: string)
      modifies this`name
      ensures name == newName
    {
      name := newName;
    }

    /** The handler of the "add field" buttons, one per entry of FIELD_TYPES. */
    method AddField(kind: FieldType, now: FieldId)
      requires kind in FieldTypes
      modifies this`fields
      ensures fields == WithNewField(old(fields), kind, now)
    {
      fields := WithNewField(fields, kind, now);
    }

    method UpdateField(id: FieldId, edit: FieldEdit)
      modifies this`fields
      ensures fields == WithFieldUpdated(old(fields), id, edit)
    {
      fields := WithFieldUpdated(fields, id, edit);
    }

    method DeleteField(id: FieldId)
      modifies this`fields
      ensures fields == WithoutField(old(fields), id)
    {
      fields := WithoutField(fields, id);
    }

    /** handleSave: changes nothing and returns what `onSave` receives, or
        the alert. */
    method Save(now: int) returns (r: Result<Blueprint, EditorError>)
      ensures r == SaveBlueprint(editBlueprint, name, fields, now)
    {
      r := SaveBlueprint(editBlueprint, name, fields, now);
    }
  }
}
