/** The contract form: a contract name and a map of field values that the
    input handlers overwrite, and the save check that builds a new contract
    from the blueprint. */
module ContractForm {
  import opened Wrappers
  import opened Entities
  import opened StringTrim

  /** `{ ...fieldValues, [id]: v }`: `id` now holds `v`, every other key keeps
      its presence and its value, and no key is dropped. */
  function SetValue(values: map<FieldId, Value>, id: FieldId, v: Value): (r: map<FieldId, Value>)
    ensures r.Keys == values.Keys + {id}
    ensures Lookup(r, id) == v
    ensures forall k :: k != id ==> Lookup(r, k) == Lookup(values, k)
  {
    values[id := v]
  }

  /** The `value` shown by a Text or Date input: `fieldValues[id] || ''`. */
  function TextInputValue(values: map<FieldId, Value>, id: FieldId): (v: Value)
    ensures Truthy(Lookup(values, id)) ==> v == Lookup(values, id)
    ensures !Truthy(Lookup(values, id)) ==> v == Str("")
    ensures id !in values ==> v == Str("")
  {
    var stored := Lookup(values, id);
    if Truthy(stored) then stored else Str("")
  }

  /** Whether a Checkbox input is shown ticked: `fieldValues[id] || false`,
      read as the truthiness React gives `checked`. */
  predicate CheckboxChecked(values: map<FieldId, Value>, id: FieldId)
    ensures id !in values ==> !CheckboxChecked(values, id)
    ensures id in values && values[id].Bool? ==> (CheckboxChecked(values, id) <==> values[id].flag)
  {
    Truthy(Lookup(values, id))
  }

  /** Typing `s` into a Text or Date input shows `s` back. */
  lemma TextRoundTrip(values: map<FieldId, Value>, id: FieldId, s: string)
    ensures TextInputValue(SetValue(values, id, Str(s)), id) == Str(s)
  {
  }

  /** Ticking or unticking a checkbox shows that state back; an absent value
      shows unticked. */
  lemma CheckboxRoundTrip(values: map<FieldId, Value>, id: FieldId, b: bool)
    ensures CheckboxChecked(SetValue(values, id, Bool(b)), id) == b
    ensures id !in values ==> !CheckboxChecked(values, id)
  {
  }

  /** The alert of handleSave. */
  datatype FormError = ContractNameRequired

  /** handleSave. A blank contract name is rejected whatever the field values
      are; any other name yields a contract in status Created that carries
      the untrimmed name, the blueprint's id and name, the clock readings
      `id` and `createdDate`, and the field values exactly as collected
      (absent keys stay absent; nothing checks completeness). */
  function SaveContract(blueprint: Blueprint, name: string, values: map<FieldId, Value>, id: int, createdDate: string)
    : (r: Result<Contract, FormError>)
    ensures r.Failure? <==> forall i :: 0 <= i < |name| ==> IsWhitespace(name[i])
    ensures r.Failure? ==> r.error == ContractNameRequired
    ensures r.Success? ==> r.value.status == Created && r.value.name == name
    ensures r.Success? ==> r.value.blueprintId == blueprint.id && r.value.blueprintName == blueprint.name
    ensures r.Success? ==> r.value.fieldValues == values
    ensures r.Success? ==> r.value.id == id && r.value.createdDate == createdDate
  {
    if IsBlank(name) then Failure(ContractNameRequired)
    else Success(Contract(id, name, blueprint.id, blueprint.name, Created, createdDate, values))
  }

  /** Whether saving succeeds depends on the name alone, never on the values. */
  lemma SaveIgnoresValues(blueprint: Blueprint, name: string, v1: map<FieldId, Value>, v2: map<FieldId, Value>, id: int, date: string)
    ensures SaveContract(blueprint, name, v1, id, date).Success? == SaveContract(blueprint, name, v2, id, date).Success?
  {
  }

  /** Naming the contract "Acme NDA", filling Party with "Acme" and leaving
      Effective Date unset saves a Created contract whose values hold Party
      only; a name of spaces saves nothing. */
  lemma NdaContractSaved(blueprint: Blueprint, id: int, date: string)
    ensures var values := SetValue(map[], 1, Str("Acme"));
      && SaveContract(blueprint, "Acme NDA", values, id, date)
         == Success(Contract(id, "Acme NDA", blueprint.id, blueprint.name, Created, date, map[1 := Str("Acme")]))
      && SaveContract(blueprint, "   ", values, id, date) == Failure(ContractNameRequired)
  {
    assert !IsWhitespace("Acme NDA"[0]);
  }

  /** Storing a value of the right shape under the id of one of the
      blueprint's fields keeps the values fitting the blueprint. */
  lemma SetValueKeepsFit(fields: seq<Field>, values: map<FieldId, Value>, field: Field, v: Value)
    requires ValuesFit(fields, values)
    requires field in fields && Fits(field.kind, v)
    ensures ValuesFit(fields, SetValue(values, field.id, v))
  {
  }

  /** The form's state: the contract name and field values held by `useState`.
      Every input handler closes over one field of the blueprint. */
  class FormState {
    const blueprint: Blueprint
    var contractName: string
    var fieldValues: map<FieldId, Value>

    /** The values only ever hold blueprint field ids, with the shape of
        each field's type. */
    predicate Valid()
      reads this
    {
      ValuesFit(blueprint.fields, fieldValues)
    }

    constructor (blueprint: Blueprint)
      ensures this.blueprint == blueprint
      ensures contractName == "" && fieldValues == map[]
      ensures Valid()
    {
      this.blueprint := blueprint;
      contractName := "";
      fieldValues := map[];
    }

    /** The contract name input's onChange. */
    method SetContractName(newName: string)
      modifies this`contractName
      ensures contractName == newName
    {
      contractName := newName;
    }

    /** onChange of the input of a Text or Date field: stores the typed string. */
    method SetText(field: Field, s: string)
      requires Valid()
      requires field in blueprint.fields && (field.kind == Text || field.kind == Date)
      modifies this`fieldValues
      ensures Valid()
      ensures fieldValues == SetValue(old(fieldValues), field.id, Str(s))
    {
      SetValueKeepsFit(blueprint.fields, fieldValues, field, Str(s));
      fieldValues := SetValue(fieldValues, field.id, Str(s));
    }

    /** onChange of the input of a Signature field: stores the first chosen
        file, or `undefined` when the selection is empty. */
    method SetSignature(field: Field, chosen: Option<string>)
      requires Valid()
      requires field in blueprint.fields && field.kind == Signature
      modifies this`fieldValues
      ensures Valid()
      ensures fieldValues == SetValue(old(fieldValues), field.id, if chosen.Some? then File(chosen.value) else Undefined)
    {
      var v := if chosen.Some? then File(chosen.value) else Undefined;
      SetValueKeepsFit(blueprint.fields, fieldValues, field, v);
      fieldValues := SetValue(fieldValues, field.id, v);
    }

    /** onChange of the input of a Checkbox field: stores the new checked state. */
    method SetChecked(field: Field, checked: bool)
      requires Valid()
      requires field in blueprint.fields && field.kind == Checkbox
      modifies this`fieldValues
      ensures Valid()
      ensures fieldValues == SetValue(old(fieldValues), field.id, Bool(checked))
    {
      SetValueKeepsFit(blueprint.fields, fieldValues, field, Bool(checked));
      fieldValues := SetValue(fieldValues, field.id, Bool(checked));
    }

    /** handleSave: changes nothing and returns what `onSave` receives, or
        the alert; a saved contract's values fit its blueprint. */
    method Save(id: int, createdDate: string) returns (r: Result<Contract, FormError>)
      requires Valid()
      ensures r == SaveContract(blueprint, contractName, fieldValues, id, createdDate)
      ensures r.Success? ==> ValuesFit(blueprint.fields, r.value.fieldValues)
    {
      r := SaveContract(blueprint, contractName, fieldValues, id, createdDate);
    }
  }
}
