/** The two instructions sent upstream: a fixed system prompt and a user prompt
    produced by Python's `str.format` from a fixed template and the three query
    parameters. */
module Prompt {
  import opened Results
  import opened Json
  import opened Text

  /** The model the endpoint asks, and the sampling temperature it asks with. */
  const Model: string := "gpt-4o-mini"
  const Temperature: real := 0.2

  const SystemPrompt: string :=
    "Du bist ein Schweizer Job-Sourcing-Agent. "
    + "Du suchst NUR in der Schweiz nach aktuellen Stellenangeboten "
    + "(jobs.ch, jobup.ch, indeed.ch, etc.). "
    + "Deine Antwort MUSS ein valides JSON-Array sein. "
    + "KEIN Text davor, kein Text danach."

  /** A `str.format` template after parsing: literal text and replacement fields,
      each field looked up by name among the keyword arguments. */
  datatype Template =
    | End
    | Lit(text: string, rest: Template)
    | Field(name: string, rest: Template)

  /** The names of the replacement fields of `t`. */
  function FieldNames(t: Template): set<string> {
    match t
    case End => {}
    case Lit(_, rest) => FieldNames(rest)
    case Field(name, rest) => {name} + FieldNames(rest)
  }

  /** `t.format(**args)` on already displayed arguments. It raises (`None` here)
      exactly when a field names no argument; otherwise every field is replaced by
      its argument and every literal is kept. */
  function Format(t: Template, args: map<string, string>): (r: Option<string>)
    ensures r.Some? <==> FieldNames(t) <= args.Keys
    ensures t.End? ==> r == Some("")
    ensures t.Lit? && r.Some? ==> Format(t.rest, args).Some? && r.value == t.text + Format(t.rest, args).value
    ensures t.Field? && r.Some? ==> Format(t.rest, args).Some? && r.value == args[t.name] + Format(t.rest, args).value
  {
    match t
    case End => Some("")
    case Lit(text, rest) =>
      var tail := Format(rest, args);
      if tail.Some? then Some(text + tail.value) else None
    case Field(name, rest) =>
      var tail := Format(rest, args);
      if name in args && tail.Some? then Some(args[name] + tail.value) else None
  }

  /** The name of a replacement field: its text up to the first `:` (which starts
      the format specification) or `!` (which starts the conversion). */
  function FieldNameOf(field: string): (name: string)
    ensures name <= field
    ensures forall i :: 0 <= i < |name| ==> name[i] != ':' && name[i] != '!'
    ensures |name| < |field| ==> field[|name|] == ':' || field[|name|] == '!'
  {
    if |field| == 0 || field[0] == ':' || field[0] == '!' then ""
    else [field[0]] + FieldNameOf(field[1..])
  }

  /** The name is determined by the text: any prefix free of `:` and `!` that is
      followed by one of them, or by the end, is the name. */
  lemma {:induction false} FieldNameOfUnique(field: string, name: string)
    requires name <= field
    requires forall i :: 0 <= i < |name| ==> name[i] != ':' && name[i] != '!'
    requires |name| < |field| ==> field[|name|] == ':' || field[|name|] == '!'
    ensures FieldNameOf(field) == name
  {
    if |name| > 0 {
      assert field[0] == name[0];
      assert name[1..] <= field[1..];
      FieldNameOfUnique(field[1..], name[1..]);
    }
  }

  /** The fixed text before `{role}`, between `{role}` and `{city}`, and between
      `{city}` and `{radius}`. */
  const RoleLabel: string := "Parameter:\nRolle: "
  const CityLabel: string := "\nStadt: "
  const RadiusLabel: string := "\nRadius: "

  /** What follows `{radius}` up to the `{` that opens the example posting. */
  const RulesHead: string :=
    " km\n\n"
    + "Bitte gib mir eine Liste von passenden Schweizer Stelleninseraten "
    + "im folgenden Format (ohne Erkl\U{E4}rtext, nur JSON):\n"
    + "[\n"
    + "  "

  /** The example posting between its outer braces; the nested braces of its
      location and its language list balance. */
  const ExampleBody: string :=
    "\n"
    + "    \"id\": \"web_1\",\n"
    + "    \"title\": \"Elektriker EFZ\",\n"
    + "    \"company\": \"Elektro Basel AG\",\n"
    + "    \"location\": {\n"
    + "      \"city\": \"Basel\",\n"
    + "      \"country\": \"CH\"\n"
    + "    },\n"
    + "    \"required_skills\": [\"EFZ\", \"Schaltschr\U{E4}nke\", \"KNX\"],\n"
    + "    \"nice_skills\": [\"PV\"],\n"
    + "    \"min_experience_years\": 2,\n"
    + "    \"languages\": [{\"code\": \"de\", \"level\": \"B2\"}],\n"
    + "    \"driver_license_required\": true,\n"
    + "    \"description\": \"Kurzbeschreibung der Aufgabe / Verantwortung (max 300 Zeichen)\",\n"
    + "    \"canton\": \"BS\",\n"
    + "    \"url\": \"https://example.com/job-12345\"\n"
    + "  "

  /** What follows the `}` that closes the example posting: the rules. */
  const RulesEnd: string :=
    "\n"
    + "]\n\n"
    + "REGELN:\n"
    + "- country MUSS immer \"CH\" sein.\n"
    + "- url MUSS die Originalausschreibung sein.\n"
    + "- description max. 300 Zeichen.\n"
    + "- KEINE extra Kommentare, KEIN Markdown, NUR JSON."

  /** The text after `{radius}` as the template means it to read, with the example
      posting in literal braces. */
  const RulesTail: string := RulesHead + "{" + ExampleBody + "}" + RulesEnd

  /** The opening of `USER_TEMPLATE`: the three labelled parameters, then `after`. */
  function Parameters(after: Template): (t: Template)
    ensures FieldNames(t) == {"role", "city", "radius"} + FieldNames(after)
  {
    var t5 := Field("radius", after);
    var t3 := Field("city", Lit(RadiusLabel, t5));
    var t1 := Field("role", Lit(CityLabel, t3));
    assert FieldNames(t5) == {"radius"} + FieldNames(after);
    assert FieldNames(t3) == {"city"} + FieldNames(t5);
    assert FieldNames(t1) == {"role"} + FieldNames(t3);
    Lit(RoleLabel, t1)
  }

  /** `USER_TEMPLATE` as written: the single `{` before the example posting opens a
      fourth replacement field, which the matching `}` after it closes. */
  const UserTemplateAsWritten: Template :=
    Parameters(Lit(RulesHead, Field(FieldNameOf(ExampleBody), Lit(RulesEnd, End))))

  /** `USER_TEMPLATE` with the braces of the example posting doubled, so that they
      are literal text: the three parameters are its only fields. */
  const UserTemplate: Template := Parameters(Lit(RulesTail, End))

  /** The name of the fourth field of the template as written is the quoted key
      `"id"` with the newline and indentation before it. */
  lemma ExampleFieldName()
    ensures FieldNameOf(ExampleBody) == "\n    \"id\""
  {
    var name := "\n    \"id\"";
    var first := "\n" + "    \"id\": \"web_1\",\n";
    assert ExampleBody[..|first|] == first;
    assert first[..|name|] == name && first[|name|] == ':';
    FieldNameOfUnique(ExampleBody, name);
  }

  /** The template as written cannot be formatted with the keyword arguments `role`,
      `city` and `radius`: its fourth field names none of them. */
  lemma FormatAsWrittenRaises(args: map<string, string>)
    requires args.Keys == {"role", "city", "radius"}
    ensures Format(UserTemplateAsWritten, args).None?
  {
    ExampleFieldName();
    var t := Field(FieldNameOf(ExampleBody), Lit(RulesEnd, End));
    assert FieldNameOf(ExampleBody) in FieldNames(Lit(RulesHead, t));
  }

  /** Python's `str(v)` as `format` applies it to a placeholder value. Strings are
      inserted verbatim and numbers, booleans and `None` as Python prints them; the
      rendering of a list or dict is Python's `repr`, supplied as `repr`. */
  function Display(v: Value, repr: Value -> string): string {
    match v
    case Str(s) => s
    case Num(n) => IntToDecimal(n)
    case Bool(b) => if b then "True" else "False"
    case Null => "None"
    case Arr(_) => repr(v)
    case Obj(_) => repr(v)
  }

  /** The user prompt the template means to produce for three displayed values
      followed by the fixed text `tail`: each value appears verbatim at its own place
      between the fixed labels, and `tail` closes every prompt. */
  function Render(x: string, y: string, z: string, tail: string): (p: string)
    ensures |p| == |RoleLabel| + |x| + |CityLabel| + |y| + |RadiusLabel| + |z| + |tail|
    ensures p[..|RoleLabel|] == RoleLabel
    ensures p[|RoleLabel|..|RoleLabel| + |x|] == x
    ensures var at := |RoleLabel| + |x| + |CityLabel|;
      p[at - |CityLabel|..at] == CityLabel && p[at..at + |y|] == y
    ensures var at := |RoleLabel| + |x| + |CityLabel| + |y| + |RadiusLabel|;
      p[at - |RadiusLabel|..at] == RadiusLabel && p[at..at + |z|] == z
    ensures p[|p| - |tail|..] == tail
  {
    var p := RoleLabel + x + CityLabel + y + RadiusLabel + z + tail;
    assert p == RoleLabel + (x + (CityLabel + (y + (RadiusLabel + (z + tail)))));
    p
  }

  /** Formatting the labelled parameters followed by a fixed text renders that text
      after the three values. */
  lemma FormatParameters(x: string, y: string, z: string, tail: string)
    ensures Format(Parameters(Lit(tail, End)), map["role" := x, "city" := y, "radius" := z])
         == Some(Render(x, y, z, tail))
  {
    var args := map["role" := x, "city" := y, "radius" := z];
    var t6 := Lit(tail, End);
    var t5 := Field("radius", t6);
    var t4 := Lit(RadiusLabel, t5);
    var t3 := Field("city", t4);
    var t2 := Lit(CityLabel, t3);
    var t1 := Field("role", t2);
    assert Format(t6, args) == Some(tail + "");
    assert tail + "" == tail;
    assert Format(t5, args) == Some(z + tail);
    assert Format(t4, args) == Some(RadiusLabel + (z + tail));
    assert Format(t3, args) == Some(y + (RadiusLabel + (z + tail)));
    assert Format(t2, args) == Some(CityLabel + (y + (RadiusLabel + (z + tail))));
    assert Format(t1, args) == Some(x + (CityLabel + (y + (RadiusLabel + (z + tail)))));
    assert Format(Lit(RoleLabel, t1), args) == Some(RoleLabel + (x + (CityLabel + (y + (RadiusLabel + (z + tail))))));
    assert RoleLabel + x + CityLabel + y + RadiusLabel + z + tail
        == RoleLabel + (x + (CityLabel + (y + (RadiusLabel + (z + tail)))));
  }

  /** The corrected template formats with `role`, `city` and `radius` to the
      rendered prompt ending in the rules. */
  lemma FormatCorrected(x: string, y: string, z: string)
    ensures Format(UserTemplate, map["role" := x, "city" := y, "radius" := z]) == Some(Render(x, y, z, RulesTail))
  {
    FormatParameters(x, y, z, RulesTail);
  }
}
