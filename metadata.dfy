/** Table metadata the parser resolves names against, and the lookups over it. */
module Metadata {
  import opened Wrappers
  import Mbql

  datatype Field = Field(id: int, displayName: string)

  datatype Metric = Metric(id: int, name: string)

  /** An aggregation the table offers: its short code and, per argument, the candidate fields;
      the number of argument slots is the aggregation's arity. */
  datatype AggregationOption = AggregationOption(short: string, fields: seq<seq<Field>>)

  datatype Table = Table(fields: seq<Field>, metrics: seq<Metric>, aggregationOptions: seq<AggregationOption>)

  /** A user-defined expression: its name and its (MBQL) body. */
  datatype CustomField = CustomField(name: string, body: Mbql.MbqlExpr)

  /** Helpers the core calls but does not define: string-literal decoding (`JSON.parse`) and
      the functions that render a field, metric, expression or aggregation back into source text. */
  datatype Formatters = Formatters(
    unescape: string -> string,
    fieldName: Field -> string,
    metricName: Metric -> string,
    expressionName: string -> string,
    aggregationName: AggregationOption -> string)

  /** `getFieldForName`: the first field of the table whose display name is `name`. */
  function FieldForName(table: Option<Table>, name: string): (r: Option<Field>)
    ensures r.None? <==> table.None? || forall i :: 0 <= i < |table.value.fields| ==> table.value.fields[i].displayName != name
    ensures r.Some? ==> r.value in table.value.fields && r.value.displayName == name
  {
    if table.None? then None
    else FindFirst(table.value.fields, (f: Field) => f.displayName == name)
  }

  /** `getMetricForName`: the first metric whose formatted name is `name`. */
  function MetricForName(table: Option<Table>, fmt: Formatters, name: string): (r: Option<Metric>)
    ensures r.None? <==> table.None? || forall i :: 0 <= i < |table.value.metrics| ==> fmt.metricName(table.value.metrics[i]) != name
    ensures r.Some? ==> r.value in table.value.metrics && fmt.metricName(r.value) == name
  {
    if table.None? then None
    else FindFirst(table.value.metrics, (m: Metric) => fmt.metricName(m) == name)
  }

  /** `getExpressionForName`: the custom expression registered under `name`. */
  function ExpressionForName(customFields: seq<CustomField>, name: string): (r: Option<CustomField>)
    ensures r.None? <==> forall i :: 0 <= i < |customFields| ==> customFields[i].name != name
    ensures r.Some? ==> r.value in customFields && r.value.name == name
  {
    FindFirst(customFields, (c: CustomField) => c.name == name)
  }

  /** What a field-position name denotes. */
  datatype Resolution = ToField(field: Field) | ToExpression(expression: CustomField) | Unresolved

  /** The resolution order of `fieldExpression`: a field by display name first, then a custom
      expression by name, otherwise unknown. */
  function ResolveFieldName(table: Option<Table>, customFields: seq<CustomField>, name: string): (r: Resolution)
    ensures r.ToField? <==> FieldForName(table, name).Some?
    ensures r.ToField? ==> r.field.displayName == name && r.field in table.value.fields
    ensures r.ToExpression? <==> FieldForName(table, name).None? && ExpressionForName(customFields, name).Some?
    ensures r.ToExpression? ==> r.expression.name == name && r.expression in customFields
    ensures r.Unresolved? <==> FieldForName(table, name).None? && ExpressionForName(customFields, name).None?
  {
    match FieldForName(table, name)
    case Some(f) => ToField(f)
    case None =>
      match ExpressionForName(customFields, name)
      case Some(e) => ToExpression(e)
      case None => Unresolved
  }

  /** The display-name -> short-code map built by inverting the (short, display name) pairs of
      VALID_AGGREGATIONS; as with a JavaScript `Map`, a later pair overrides an earlier one. */
  function ShortCode(validAggregations: seq<(string, string)>, displayName: string): (r: Option<string>)
    ensures r.None? <==> forall i :: 0 <= i < |validAggregations| ==> validAggregations[i].1 != displayName
    ensures r.Some? ==> exists i :: 0 <= i < |validAggregations| && validAggregations[i] == (r.value, displayName)
                                  && forall j :: i < j < |validAggregations| ==> validAggregations[j].1 != displayName
  {
    var i := LastWithName(validAggregations, displayName, |validAggregations|);
    if i < 0 then None
    else
      assert validAggregations[i] == (validAggregations[i].0, displayName);
      Some(validAggregations[i].0)
  }

  /** The position of the last pair before `end` whose display name is `displayName`, or -1. */
  function LastWithName(pairs: seq<(string, string)>, displayName: string, end: nat): (r: int)
    requires end <= |pairs|
    ensures -1 <= r < end
    ensures r >= 0 ==> pairs[r].1 == displayName
    ensures forall j :: r < j < end ==> pairs[j].1 != displayName
    decreases end
  {
    if end == 0 then -1
    else if pairs[end - 1].1 == displayName then end - 1
    else LastWithName(pairs, displayName, end - 1)
  }
}
