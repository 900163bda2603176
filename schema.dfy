/**
 * The part of zod that the credential schemas use: `z.object` over string
 * fields, each with one `.email(...)` or `.min(n, ...)` check, parsed with
 * `safeParse`, and the `FormData.get` lookup that feeds it.
 */
module Schema {
  import opened Wrappers

  /** An entry of a submitted form: a string or an uploaded file. */
  datatype Entry = TextEntry(text: string) | FileEntry

  /** A form submission, entries in submission order; a key may repeat. */
  type FormData = seq<(string, Entry)>

  /** What `formData.get(key)` hands to zod: `null` when the key is absent. */
  datatype Value = Null | Text(s: string) | File

  function ValueOf(e: Entry): Value
  {
    match e
    case TextEntry(t) => Text(t)
    case FileEntry => File
  }

  /** `formData.get(key)`: the first entry under `key`, or `null`. */
  function Get(form: FormData, key: string): (v: Value)
    ensures v == Null <==> forall i :: 0 <= i < |form| ==> form[i].0 != key
    ensures v != Null ==>
      exists i :: 0 <= i < |form| && form[i].0 == key && v == ValueOf(form[i].1) &&
        forall j :: 0 <= j < i ==> form[j].0 != key
  {
    if form == [] then Null
    else if form[0].0 == key then ValueOf(form[0].1)
    else
      var v := Get(form[1..], key);
      assert forall i :: 1 <= i < |form| ==> form[i] == form[1..][i - 1];
      v
  }

  /** The string inside a value, or "" for a non-string. */
  function TextOf(v: Value): string
  {
    if v.Text? then v.s else ""
  }

  /**
   * JavaScript's `s.length`, which `.min(n)` compares against: UTF-16 code
   * units, two for a character outside the Basic Multilingual Plane.
   */
  function Utf16Length(s: string): (n: nat)
    ensures |s| <= n <= 2 * |s|
    ensures (forall i :: 0 <= i < |s| ==> s[i] as int < 0x1_0000) ==> n == |s|
  {
    if s == [] then 0
    else (if s[0] as int < 0x1_0000 then 1 else 2) + Utf16Length(s[1..])
  }

  /** The one check a field carries, with the message it reports. */
  datatype Check = MinLength(min: nat, message: string) | Email(message: string)

  /** One key of a `z.object` schema: `key: z.string().<check>`. */
  datatype Field = Field(key: string, check: Check)

  /** The keys of a `z.object`, in declaration order. */
  type ObjectSchema = seq<Field>

  /** zod's own messages for a field that is not a string. */
  const ExpectedStringGotNull := "Expected string, received null"
  const ExpectedStringGotObject := "Expected string, received object"

  /** The issue one check raises on one value, if any. */
  function IssueOf(check: Check, v: Value, isEmail: string -> bool): Option<string>
  {
    match v
    case Null => Some(ExpectedStringGotNull)
    case File => Some(ExpectedStringGotObject)
    case Text(s) =>
      match check
      case MinLength(n, m) => if Utf16Length(s) < n then Some(m) else None
      case Email(m) => if isEmail(s) then None else Some(m)
  }

  predicate Passes(field: Field, form: FormData, isEmail: string -> bool)
  {
    IssueOf(field.check, Get(form, field.key), isEmail).None?
  }

  /** The `issues` list of a failed parse: one issue per failing key, in declaration order. */
  function Issues(schema: ObjectSchema, form: FormData, isEmail: string -> bool): (issues: seq<string>)
    ensures |issues| <= |schema|
    ensures issues == [] <==> forall i :: 0 <= i < |schema| ==> Passes(schema[i], form, isEmail)
  {
    if schema == [] then []
    else
      var rest := Issues(schema[1..], form, isEmail);
      assert forall i :: 1 <= i < |schema| ==> schema[i] == schema[1..][i - 1];
      match IssueOf(schema[0].check, Get(form, schema[0].key), isEmail)
      case None => rest
      case Some(m) => [m] + rest
  }

  /** Key `i` is the first key, in declaration order, whose check fails. */
  predicate FailsFirstAt(schema: ObjectSchema, form: FormData, isEmail: string -> bool, i: int)
  {
    0 <= i < |schema| && !Passes(schema[i], form, isEmail) &&
    forall j :: 0 <= j < i ==> Passes(schema[j], form, isEmail)
  }

  /** The first issue is raised by the first key, in declaration order, whose check fails. */
  lemma {:induction false} FirstIssueIsFirstFailure(schema: ObjectSchema, form: FormData, isEmail: string -> bool, i: nat)
    requires FailsFirstAt(schema, form, isEmail, i)
    ensures Issues(schema, form, isEmail) != []
    ensures Some(Issues(schema, form, isEmail)[0]) == IssueOf(schema[i].check, Get(form, schema[i].key), isEmail)
  {
    if i > 0 {
      assert Passes(schema[0], form, isEmail);
      assert forall j :: 0 <= j < i - 1 ==> schema[1..][j] == schema[j + 1];
      FirstIssueIsFirstFailure(schema[1..], form, isEmail, i - 1);
    }
  }

  /** The parsed data: the string under each key, in declaration order. */
  function Data(schema: ObjectSchema, form: FormData): seq<string>
  {
    seq(|schema|, i requires 0 <= i < |schema| => TextOf(Get(form, schema[i].key)))
  }

  /**
   * `schema.safeParse(...)` followed by `error.issues[0].message` on failure:
   * success exactly when every key passes its check, with every key's string
   * as data; otherwise the message of the first key that fails.
   */
  function SafeParse(schema: ObjectSchema, form: FormData, isEmail: string -> bool): (r: Result<seq<string>, string>)
    ensures r.Success? <==> forall i :: 0 <= i < |schema| ==> Passes(schema[i], form, isEmail)
    ensures r.Success? ==>
      |r.value| == |schema| && forall i :: 0 <= i < |schema| ==> Get(form, schema[i].key) == Text(r.value[i])
    ensures forall i :: FailsFirstAt(schema, form, isEmail, i) ==>
      r.Failure? && Some(r.error) == IssueOf(schema[i].check, Get(form, schema[i].key), isEmail)
  {
    var issues := Issues(schema, form, isEmail);
    if issues == [] then Success(Data(schema, form))
    else
      assert forall i :: FailsFirstAt(schema, form, isEmail, i) ==>
        Some(issues[0]) == IssueOf(schema[i].check, Get(form, schema[i].key), isEmail)
      by {
        forall i | FailsFirstAt(schema, form, isEmail, i)
          ensures Some(issues[0]) == IssueOf(schema[i].check, Get(form, schema[i].key), isEmail)
        {
          FirstIssueIsFirstFailure(schema, form, isEmail, i);
        }
      }
      Failure(issues[0])
  }
}
