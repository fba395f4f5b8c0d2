/** The free-text part of the feedback criteria: the loop over the five
    labelled form fields in `analyze`. */
module Criteria {
  import opened Text

  /** `form_fields`, in the order the loop visits them. */
  const FormFields: seq<string> := ["achievement-standard", "math-object", "routine", "narrative", "other"]

  /** What one field adds: `"\n<field>: <value>"` when the form carries the
      field with a non-empty value (a whitespace-only value is non-empty), and
      nothing otherwise. */
  function FieldLine(form: map<string, string>, field: string): (line: string)
    ensures line == "" <==> field !in form || form[field] == ""
  {
    if field in form && form[field] != "" then "\n" + field + ": " + form[field] else ""
  }

  /** A non-empty line is a newline, the field name, `": "` and the value,
      verbatim. */
  lemma FieldLineShape(form: map<string, string>, field: string)
    requires FieldLine(form, field) != ""
    ensures var line := FieldLine(form, field);
      |line| == |field| + |form[field]| + 3 && line[0] == '\n' && line[1..|field| + 1] == field && line[|field| + 1..|field| + 3] == ": " && line[|line| - |form[field]|..] == form[field]
  {
  }

  function FieldLines(form: map<string, string>, fields: seq<string>): seq<string>
  {
    seq(|fields|, i requires 0 <= i < |fields| => FieldLine(form, fields[i]))
  }

  /** Everything the fields add, in field order. */
  function FieldText(form: map<string, string>, fields: seq<string>): string
  {
    Concat(FieldLines(form, fields))
  }

  /** The `for field in form_fields` loop (called with `FormFields`): appends
      each field's line to the criteria text built so far. */
  method AppendFieldLines(criteria: string, form: map<string, string>, fields: seq<string>) returns (r: string)
    ensures r == criteria + FieldText(form, fields)
  {
    r := criteria;
    var i := 0;
    while i < |fields|
      invariant 0 <= i <= |fields|
      invariant r == criteria + FieldText(form, fields[..i])
    {
      var field := fields[i];
      ghost var before := r;
      if field in form && form[field] != "" {
        r := r + ("\n" + field + ": " + form[field]);
      }
      assert r == before + FieldLine(form, field);
      FieldTextStep(criteria, form, fields, i);
      i := i + 1;
    }
    assert fields[..i] == fields;
  }

  /** One more field adds its own line after the text built from the fields
      before it. */
  lemma {:induction false} FieldTextStep(criteria: string, form: map<string, string>, fields: seq<string>, i: nat)
    requires i < |fields|
    ensures criteria + FieldText(form, fields[..i + 1]) == criteria + FieldText(form, fields[..i]) + FieldLine(form, fields[i])
  {
    assert FieldLines(form, fields[..i + 1]) == FieldLines(form, fields[..i]) + [FieldLine(form, fields[i])];
    ConcatAppend(FieldLines(form, fields[..i]), FieldLine(form, fields[i]));
  }

  /** Unfolds the concatenation of five parts. */
  lemma ConcatFive(a: string, b: string, c: string, d: string, e: string)
    ensures Concat([a, b, c, d, e]) == a + b + c + d + e
  {
    assert [a, b, c, d, e] == [a] + [b] + [c] + [d] + [e];
    ConcatAppend([a] + [b] + [c] + [d], e);
    ConcatAppend([a] + [b] + [c], d);
    ConcatAppend([a] + [b], c);
    ConcatAppend([a], b);
    ConcatAppend([], a);
  }

  /** The fields add nothing exactly when every one of them is absent or empty. */
  lemma FieldTextEmptyIff(form: map<string, string>, fields: seq<string>)
    ensures FieldText(form, fields) == "" <==>
      forall i :: 0 <= i < |fields| ==> fields[i] !in form || form[fields[i]] == ""
  {
    ConcatEmptyIff(FieldLines(form, fields));
    assert forall i :: 0 <= i < |fields| ==> FieldLines(form, fields)[i] == FieldLine(form, fields[i]);
  }

  /** Where field `k`'s line starts in the aggregated field text. */
  function LineStart(form: map<string, string>, k: nat): nat
    requires k <= |FormFields|
  {
    |FieldText(form, FormFields[..k])|
  }

  /** Each field's line appears verbatim at its start, and a line of an earlier
      field ends before the line of any later field begins. */
  lemma FieldOrder(form: map<string, string>, k: nat, j: nat)
    requires k < j <= |FormFields|
    ensures var line := FieldLine(form, FormFields[k]);
      LineStart(form, k) + |line| <= LineStart(form, j)
      && LineStart(form, k) + |line| <= |FieldText(form, FormFields)|
      && FieldText(form, FormFields)[LineStart(form, k)..LineStart(form, k) + |line|] == line
  {
    var lines := FieldLines(form, FormFields);
    forall n | 0 <= n <= |FormFields|
      ensures FieldLines(form, FormFields[..n]) == lines[..n]
    {
    }
    ConcatSlice(lines, k);
    ConcatOrder(lines, k, j);
  }

  /** Only the five labelled fields are read; other form keys make no difference. */
  lemma OtherKeysIgnored(form: map<string, string>, other: map<string, string>)
    requires forall f :: f in FormFields ==> (f in form <==> f in other)
    requires forall f :: f in FormFields && f in form ==> form[f] == other[f]
    ensures FieldText(form, FormFields) == FieldText(other, FormFields)
  {
    assert FieldLines(form, FormFields) == FieldLines(other, FormFields);
  }

  /** A field sent with an empty value adds the same as a field not sent at all. */
  lemma EmptyFieldLikeAbsent(form: map<string, string>, field: string)
    requires field in form && form[field] == ""
    ensures FieldText(form, FormFields) == FieldText(form - {field}, FormFields)
  {
    assert FieldLines(form, FormFields) == FieldLines(form - {field}, FormFields);
  }

  /** The form of the aggregation example below. */
  predicate ExampleForm(form: map<string, string>)
  {
    && "achievement-standard" in form && form["achievement-standard"] == "A"
    && "math-object" in form && form["math-object"] == ""
    && "routine" in form && form["routine"] == "R"
    && "narrative" !in form
    && "other" in form && form["other"] == " "
  }

  /** The line each field of the example form gives. */
  lemma ExampleLines(form: map<string, string>)
    requires ExampleForm(form)
    ensures FieldLines(form, FormFields)
         == ["\n" + "achievement-standard" + ": " + "A", "", "\n" + "routine" + ": " + "R", "", "\n" + "other" + ": " + " "]
  {
    var lines := FieldLines(form, FormFields);
    assert lines[0] == "\n" + "achievement-standard" + ": " + "A";
    assert lines[1] == "";
    assert lines[2] == "\n" + "routine" + ": " + "R";
    assert lines[3] == "";
    assert lines[4] == "\n" + "other" + ": " + " ";
  }

  /** Given `achievement-standard: A`, an empty `math-object`, `routine: R`, no
      `narrative` and a whitespace-only `other`, the non-empty fields give one
      line each, in field order, and the empty and the absent field give nothing. */
  lemma AggregationExample(form: map<string, string>)
    requires ExampleForm(form)
    ensures FieldText(form, FormFields)
         == ("\n" + "achievement-standard" + ": " + "A") + ("\n" + "routine" + ": " + "R") + ("\n" + "other" + ": " + " ")
  {
    ExampleLines(form);
    ConcatFive("\n" + "achievement-standard" + ": " + "A", "", "\n" + "routine" + ": " + "R", "", "\n" + "other" + ": " + " ");
  }
}
