/**
 * The link settings of the whitepaper rich-text editor: the link drawer's
 * fields, with the default `url` field replaced by one whose visibility and
 * validation depend on the link type.
 */
module WhitepaperLexical {
  import opened Optional
  import opened Js

  /** A field of the link drawer; layout fields carry no name. */
  datatype Field = Field(name: Option<string>, fieldType: string)

  const UrlField := Field(Some("url"), "text")

  predicate IsUrlField(f: Field) {
    f.name == Some("url")
  }

  /** `defaultFields.filter(...)`: every field not named `url`, in order. */
  function WithoutUrl(fields: seq<Field>): (r: seq<Field>)
    ensures forall f :: f in r <==> f in fields && !IsUrlField(f)
    ensures |r| <= |fields|
  {
    if fields == [] then []
    else if IsUrlField(fields[0]) then WithoutUrl(fields[1..])
    else [fields[0]] + WithoutUrl(fields[1..])
  }

  /** The `fields` function given to the link feature. */
  function LinkFields(defaultFields: seq<Field>): seq<Field> {
    WithoutUrl(defaultFields) + [UrlField]
  }

  function UrlCount(fields: seq<Field>): nat {
    if fields == [] then 0 else (if IsUrlField(fields[0]) then 1 else 0) + UrlCount(fields[1..])
  }

  lemma {:induction false} UrlCountConcat(a: seq<Field>, b: seq<Field>)
    ensures UrlCount(a + b) == UrlCount(a) + UrlCount(b)
    decreases |a|
  {
    if a == [] {
      assert a + b == b;
    } else {
      assert (a + b)[1..] == a[1..] + b;
      UrlCountConcat(a[1..], b);
    }
  }

  lemma {:induction false} WithoutUrlConcat(a: seq<Field>, b: seq<Field>)
    ensures WithoutUrl(a + b) == WithoutUrl(a) + WithoutUrl(b)
    decreases |a|
  {
    if a == [] {
      assert a + b == b;
    } else {
      assert (a + b)[1..] == a[1..] + b;
      WithoutUrlConcat(a[1..], b);
    }
  }

  lemma {:induction false} WithoutUrlHasNoUrl(fields: seq<Field>)
    ensures UrlCount(WithoutUrl(fields)) == 0
    decreases |fields|
  {
    if fields != [] {
      WithoutUrlHasNoUrl(fields[1..]);
      if !IsUrlField(fields[0]) {
        UrlCountConcat([fields[0]], WithoutUrl(fields[1..]));
      }
    }
  }

  /** Filtering a list with no `url` field leaves it as it is. */
  lemma {:induction false} WithoutUrlKeepsOthers(fields: seq<Field>)
    requires forall k :: 0 <= k < |fields| ==> !IsUrlField(fields[k])
    ensures WithoutUrl(fields) == fields
    decreases |fields|
  {
    if fields != [] {
      WithoutUrlKeepsOthers(fields[1..]);
    }
  }

  /**
   * The link drawer ends with exactly one `url` field, the new one; every
   * other default field is kept, and only `url` fields are dropped.
   */
  lemma LinkFieldsShape(defaultFields: seq<Field>)
    ensures UrlCount(LinkFields(defaultFields)) == 1
    ensures LinkFields(defaultFields)[|LinkFields(defaultFields)| - 1] == UrlField
    ensures forall f :: f in LinkFields(defaultFields) && !IsUrlField(f) <==> f in defaultFields && !IsUrlField(f)
  {
    WithoutUrlHasNoUrl(defaultFields);
    UrlCountConcat(WithoutUrl(defaultFields), [UrlField]);
  }

  /** Applying the customisation twice gives the same drawer as applying it once. */
  lemma LinkFieldsIdempotent(defaultFields: seq<Field>)
    ensures LinkFields(LinkFields(defaultFields)) == LinkFields(defaultFields)
  {
    var once := LinkFields(defaultFields);
    WithoutUrlConcat(WithoutUrl(defaultFields), [UrlField]);
    WithoutUrlKeepsOthers(WithoutUrl(defaultFields));
  }

  /** `siblingData?.linkType === 'internal'`. */
  predicate IsInternal(siblingData: Option<Record>) {
    GetIn(siblingData, "linkType") == Str("internal")
  }

  /** The `url` field's admin `condition`: shown unless the link is internal. */
  function Condition(siblingData: Option<Record>): bool {
    !IsInternal(siblingData)
  }

  datatype Validation = Valid | Invalid(message: string)

  /** The `url` field's `validate`. */
  function Validate(value: Value, siblingData: Option<Record>): Validation {
    if IsInternal(siblingData) then Valid
    else if Truthy(value) then Valid
    else Invalid("URL is required")
  }

  /** A hidden `url` field never blocks saving; a shown one requires a non-empty value. */
  lemma ValidateFollowsCondition(value: Value, siblingData: Option<Record>)
    ensures !Condition(siblingData) ==> Validate(value, siblingData) == Valid
    ensures Condition(siblingData) ==> (Validate(value, siblingData) == Valid <==> Truthy(value))
    ensures Validate(value, siblingData) == Valid || Validate(value, siblingData) == Invalid("URL is required")
  {
  }
}
