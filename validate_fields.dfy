/** Checking submitted fields against a model's columns
    (src/schema/model/validateModelFields.ts): each field that is a column must not be `null`
    unless the column allows it, and a non-null value must pass the column's validator. */
module ValidateFields {
  import opened Wrappers
  import opened Js
  import opened Records
  import opened Errors
  import opened Definitions
  import opened Models

  /** The check of one field, given the column of that name if there is one. */
  function CheckField(model: string, column: Option<ColumnDefinition>, key: string, value: Value, fields: Record<Value>): Outcome<Error> {
    if column.None? then Pass
    else if value.Null? && !column.value.allowNull then Fail(InvalidNull(model, key))
    else if value.Null? then Pass
    else if column.value.validate.Some? && !column.value.validate.value(value, fields) then Fail(InvalidValue(model, key, value))
    else Pass
  }

  /** A field fails exactly when it is a column and either it is `null` for a column that
      does not allow null, or it is not `null` and the column's validator, called with the
      value and all the fields, refuses it. A `null` for a nullable column never reaches the
      validator. */
  lemma CheckFieldMeaning(model: string, column: Option<ColumnDefinition>, key: string, value: Value, fields: Record<Value>)
    ensures var r := CheckField(model, column, key, value, fields);
      (r.Fail? <==>
        column.Some? &&
        ((value.Null? && !column.value.allowNull) ||
         (!value.Null? && column.value.validate.Some? && !column.value.validate.value(value, fields)))) &&
      (r.Fail? && value.Null? ==> r.error == InvalidNull(model, key)) &&
      (r.Fail? && !value.Null? ==> r.error == InvalidValue(model, key, value))
  {
  }

  /** The fields from position `i` on, in order, stopping at the first failure. */
  function ValidateFrom(model: string, columns: Record<ColumnDefinition>, fields: Record<Value>, i: nat): Outcome<Error>
    requires i <= |fields|
    decreases |fields| - i
  {
    if i == |fields| then Pass
    else
      var check := CheckField(model, Get(columns, fields[i].0), fields[i].0, fields[i].1, fields);
      if check.Fail? then check else ValidateFrom(model, columns, fields, i + 1)
  }

  /** `validateModelFields(model, fields)`. */
  function Validate(model: string, columns: Record<ColumnDefinition>, fields: Record<Value>): Outcome<Error> {
    ValidateFrom(model, columns, fields, 0)
  }

  /** The check of field `i`. */
  function CheckAt(model: string, columns: Record<ColumnDefinition>, fields: Record<Value>, i: nat): Outcome<Error>
    requires i < |fields|
  {
    CheckField(model, Get(columns, fields[i].0), fields[i].0, fields[i].1, fields)
  }

  /** From position `i` on, the fields pass exactly when every one of them passes, and a
      failure is that of the first field that fails. */
  lemma {:induction false} ValidateFromMeaning(model: string, columns: Record<ColumnDefinition>, fields: Record<Value>, i: nat)
    requires i <= |fields|
    ensures ValidateFrom(model, columns, fields, i).Pass? <==> forall j | i <= j < |fields| :: CheckAt(model, columns, fields, j).Pass?
    ensures ValidateFrom(model, columns, fields, i).Fail? ==>
      exists j | i <= j < |fields| ::
        ValidateFrom(model, columns, fields, i) == CheckAt(model, columns, fields, j) &&
        forall k | i <= k < j :: CheckAt(model, columns, fields, k).Pass?
    decreases |fields| - i
  {
    if i < |fields| {
      ValidateFromMeaning(model, columns, fields, i + 1);
      if CheckAt(model, columns, fields, i).Pass? && ValidateFrom(model, columns, fields, i + 1).Fail? {
        var j :| i + 1 <= j < |fields| &&
          ValidateFrom(model, columns, fields, i + 1) == CheckAt(model, columns, fields, j) &&
          forall k | i + 1 <= k < j :: CheckAt(model, columns, fields, k).Pass?;
        assert forall k | i <= k < j :: CheckAt(model, columns, fields, k).Pass?;
      }
    }
  }

  /** The fields pass exactly when every one passes; otherwise the error is the first failing
      field's, in the fields' order. Fields that are not columns never fail. */
  lemma ValidateMeaning(model: string, columns: Record<ColumnDefinition>, fields: Record<Value>)
    ensures Validate(model, columns, fields).Pass? <==> forall j | 0 <= j < |fields| :: CheckAt(model, columns, fields, j).Pass?
    ensures Validate(model, columns, fields).Fail? ==>
      exists j | 0 <= j < |fields| ::
        Has(columns, fields[j].0) &&
        Validate(model, columns, fields) == CheckAt(model, columns, fields, j) &&
        forall k | 0 <= k < j :: CheckAt(model, columns, fields, k).Pass?
  {
    ValidateFromMeaning(model, columns, fields, 0);
  }

  /** The loop of `validateModelFields` over the fields in order. */
  method ValidateModelFields(model: Model, fields: Record<Value>) returns (r: Outcome<Error>)
    ensures r == Validate(model.Name(), model.definition.columns, fields)
  {
    var name := model.Name();
    var columns := model.definition.columns;
    var i := 0;
    while i < |fields|
      invariant 0 <= i <= |fields|
      invariant ValidateFrom(name, columns, fields, i) == Validate(name, columns, fields)
    {
      var fieldKey := fields[i].0;
      var columnDefinition := Get(columns, fieldKey);
      if columnDefinition.None? {
        i := i + 1;
        continue;
      }
      var fieldValue := fields[i].1;
      if fieldValue.Null? && !columnDefinition.value.allowNull {
        return Fail(InvalidNull(name, fieldKey));
      }
      if fieldValue.Null? && columnDefinition.value.allowNull {
        i := i + 1;
        continue;
      }
      var validate := columnDefinition.value.validate;
      if validate.Some? && !validate.value(fieldValue, fields) {
        return Fail(InvalidValue(name, fieldKey, fieldValue));
      }
      i := i + 1;
    }
    return Pass;
  }

  //////////////////////////////////////////////////////////////////////////
  // The column lookup as written

  /** What `columns[fieldKey]` finds: an own column, an inherited member (a truthy function
      or object with no `allowNull` and no `validate`), or nothing. */
  datatype ColumnLookup = OwnColumn(column: ColumnDefinition) | InheritedMember | NoMember

  function LookupAsWritten(columns: Record<ColumnDefinition>, key: string): ColumnLookup {
    if Has(columns, key) then OwnColumn(Get(columns, key).value)
    else if key in InheritedNames then InheritedMember
    else NoMember
  }

  /** The check of one field with the lookup as written: an inherited member passes the
      `!columnDefinition` test, and its missing `allowNull` reads as false. */
  function CheckFieldAsWritten(model: string, found: ColumnLookup, key: string, value: Value, fields: Record<Value>): Outcome<Error> {
    match found
    case NoMember => Pass
    case OwnColumn(c) => CheckField(model, Some(c), key, value, fields)
    case InheritedMember => if value.Null? then Fail(InvalidNull(model, key)) else Pass
  }

  function ValidateAsWrittenFrom(model: string, columns: Record<ColumnDefinition>, fields: Record<Value>, i: nat): Outcome<Error>
    requires i <= |fields|
    decreases |fields| - i
  {
    if i == |fields| then Pass
    else
      var check := CheckFieldAsWritten(model, LookupAsWritten(columns, fields[i].0), fields[i].0, fields[i].1, fields);
      if check.Fail? then check else ValidateAsWrittenFrom(model, columns, fields, i + 1)
  }

  /** A `null` field named after an inherited member, on a model with no such column, is
      refused as a null column value by the lookup as written, although it is not a column;
      the own-key lookup ignores it. */
  lemma InheritedNameRefused(model: string, columns: Record<ColumnDefinition>)
    requires !Has(columns, "toString")
    ensures ValidateAsWrittenFrom(model, columns, [("toString", Null)], 0) == Fail(InvalidNull(model, "toString"))
    ensures Validate(model, columns, [("toString", Null)]) == Pass
  {
  }

  /** Apart from inherited names, the lookup as written and the own-key lookup agree. */
  lemma {:induction false} AsWrittenAgrees(model: string, columns: Record<ColumnDefinition>, fields: Record<Value>, i: nat)
    requires i <= |fields|
    requires forall j | i <= j < |fields| :: fields[j].0 !in InheritedNames || Has(columns, fields[j].0)
    ensures ValidateAsWrittenFrom(model, columns, fields, i) == ValidateFrom(model, columns, fields, i)
    decreases |fields| - i
  {
    if i < |fields| {
      AsWrittenAgrees(model, columns, fields, i + 1);
    }
  }
}
