/** The field-value mutation (`generate_project_field_modification_mutation`). */
module Mutations {
  import opened Wrappers
  import opened PyStr

  /** `CHANGE_PROJECT_FIELD_VALUE_TEMPLATE`, split at its two `%s`: the
      parameter list goes after the operation name, the value after `value:`. */
  const MutationHead: string := "\n" + MutationHeadText
  const MutationHeadText: string := "mutation ChangeProjectItemFieldValue("
  const MutationMiddle: string :=
    ") {\n"
    + "    updateProjectV2ItemFieldValue (\n"
    + "        input: {\n"
    + "            projectId: $project_id\n"
    + "            itemId: $item_id\n"
    + "            fieldId: $field_id\n"
    + "            value: "
  const MutationTailText: string :=
    "\n"
    + "        }\n"
    + "    ){\n"
    + "        projectV2Item {\n"
    + "            id\n"
    + "        }\n"
    + "    }\n"
    + "}"
  const MutationTail: string := MutationTailText + "\n"

  const ChangeFieldValueTemplate: seq<Piece> :=
    [Literal(MutationHead), Conversion, Literal(MutationMiddle), Conversion, Literal(MutationTail)]

  /** The parameters every kind declares first, in order, with the
      separator before the kind's own parameter. */
  const SharedPrefix: string := "$project_id: ID!, $item_id: ID!, $field_id: ID!, "

  /** The value kinds the generator accepts, in the source's order. */
  const AllowedValueTypes: seq<string> := ["text", "number", "date", "single_select", "iteration"]

  /** `generate_project_field_modification_mutation(value_type='text')`:
      an unknown kind raises ValueError; otherwise the template is filled
      with the kind's parameter list and value, then stripped. */
  function GenerateFieldModificationMutation(valueType: string := "text"): (r: Result<string>)
    ensures r.Success? <==> valueType in AllowedValueTypes
    ensures r.Failure? ==> r.error == ValueError("Incorrect value type: " + valueType)
  {
    if valueType !in AllowedValueTypes then
      Failure(ValueError("Incorrect value type: " + valueType))
    else
      var params := SharedPrefix + KindParameter(valueType);
      var value := KindValue(valueType);
      FormatTwo(MutationHead, params, MutationMiddle, value, MutationTail);
      match Format(ChangeFieldValueTemplate, [params, value])
      case Success(filled) => Success(Strip(filled))
      case Failure(e) => Failure(e)
  }

  /** The one parameter, and the value shape, of each kind; any kind other
      than the first four gets the iteration ones. Both name the same
      variable: the parameter declares it, the value passes it on. */
  function KindParameter(valueType: string): (r: string)
    ensures var x := KindVariable(valueType); |x| < |r| && r[..|x| + 1] == x + ":"
  {
    KindVariable(valueType) + ": " + KindType(valueType)
  }

  function KindValue(valueType: string): (r: string)
    ensures var x := KindVariable(valueType); |x| + 1 < |r| && r[|r| - |x| - 1..] == x + "}"
  {
    "{" + KindField(valueType) + ": " + KindVariable(valueType) + "}"
  }

  /** The variable of each kind, its GraphQL type, and the input field of
      the value it fills. */
  function KindVariable(valueType: string): string {
    match valueType
    case "text" => "$text"
    case "number" => "$number"
    case "date" => "$date"
    case "single_select" => "$option_id"
    case _ => "$iteration_id"
  }

  function KindType(valueType: string): string {
    match valueType
    case "number" => "Float!"
    case "date" => "Date!"
    case _ => "String!"
  }

  function KindField(valueType: string): string {
    match valueType
    case "text" => "text"
    case "number" => "number"
    case "date" => "date"
    case "single_select" => "singleSelectOptionId"
    case _ => "iterationId"
  }

  /** Stripping a filled two-conversion template whose text is framed by
      newlines leaves the text between the newlines whenever that text
      starts and ends with a non-space. */
  lemma {:induction false} FramedStripped(h: string, p: string, m: string, v: string, t: string)
    requires h != [] && h[0] == 'm' && t != [] && t[|t| - 1] == '}'
    ensures Strip(("\n" + h) + p + m + v + (t + "\n")) == h + p + m + v + t
  {
    Regroup(h, p, m, v, t);
    TextEnds(h, p, m, v, t);
    StripPadded("\n", h + p + m + v + t, "\n");
  }

  lemma {:induction false} Regroup(h: string, p: string, m: string, v: string, t: string)
    ensures ("\n" + h) + p + m + v + (t + "\n") == "\n" + (h + p + m + v + t) + "\n"
  {
  }

  lemma {:induction false} TextEnds(h: string, p: string, m: string, v: string, t: string)
    requires h != [] && h[0] == 'm' && t != [] && t[|t| - 1] == '}'
    ensures var text := h + p + m + v + t; text != [] && text[0] == 'm' && text[|text| - 1] == '}'
  {
    FirstOfConcat(h, p + m + v + t);
    assert h + p + m + v + t == h + (p + m + v + t);
    LastOfConcat(h + p + m + v, t);
  }

  lemma TailEndsInBrace()
    ensures MutationTailText[|MutationTailText| - 1] == '}'
  {
  }

  /** The generator's template, filled and stripped. */
  lemma FilledAndStripped(params: string, value: string)
    ensures Format(ChangeFieldValueTemplate, [params, value]) ==
            Success(MutationHead + params + MutationMiddle + value + MutationTail)
    ensures Strip(MutationHead + params + MutationMiddle + value + MutationTail) ==
            MutationHeadText + params + MutationMiddle + value + MutationTailText
  {
    TailEndsInBrace();
    FormatTwo(MutationHead, params, MutationMiddle, value, MutationTail);
    FramedStripped(MutationHeadText, params, MutationMiddle, value, MutationTailText);
  }

  /** Every allowed kind yields the stripped template holding the shared
      parameters followed by exactly the kind's own parameter, and the
      kind's value shape. */
  lemma MutationShape(valueType: string)
    requires valueType in AllowedValueTypes
    ensures GenerateFieldModificationMutation(valueType) == Success(
      MutationHeadText + (SharedPrefix + KindParameter(valueType))
      + MutationMiddle + KindValue(valueType) + MutationTailText)
  {
    var params := SharedPrefix + KindParameter(valueType);
    var value := KindValue(valueType);
    FilledAndStripped(params, value);
    assert GenerateFieldModificationMutation(valueType)
        == Success(Strip(MutationHead + params + MutationMiddle + value + MutationTail));
  }

  /** The kind-specific part is a single parameter (it holds no comma). */
  lemma OneKindParameter(valueType: string)
    requires valueType in AllowedValueTypes
    ensures ',' !in KindParameter(valueType)
  {
    var p := KindParameter(valueType);
    assert forall i :: 0 <= i < |p| ==> p[i] != ',';
  }

  /** The default kind is text. */
  lemma DefaultIsText()
    ensures GenerateFieldModificationMutation() == GenerateFieldModificationMutation("text")
    ensures GenerateFieldModificationMutation().Success?
  {
  }
}
