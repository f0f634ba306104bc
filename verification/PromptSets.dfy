/** Prompt set definitions: one canonical form for each, and a shareable file form that leads back
    to it. */
module PromptSets {
  import opened Wrappers
  import opened Text
  import opened JsonTree

  const FORMAT := "fileengine.prompt_set.v1"
  const TYPE_ONE := "extraction_prompt_set"
  const TYPE_MANY := "extraction_prompt_sets"
  const FIELD_TYPES := ["string", "text", "number", "integer", "boolean", "date", "enum", "list"]

  const MAX_NAME: nat := 120
  const MAX_DESCRIPTION: nat := 2000
  const MAX_LABEL: nat := 120
  const MAX_UNIT: nat := 32
  const MAX_ENUM: nat := 100
  const MAX_FILE_BYTES: nat := 262144
  const MAX_SETS_PER_FILE: nat := 50

  datatype Number = Number(value: real, text: string)

  datatype Field = Field(name: string, ftype: string, title: string, description: string, required: bool, unit: string,
                         values: seq<string>, minimum: Option<Number>, maximum: Option<Number>)

  datatype Body = Body(name: string, description: string, slug: string, instructions: string, model: string,
                       classifierSet: string, labels: seq<string>, colours: map<string, string>, fields: seq<Field>)

  /** A deployment's limits, and the length of the JSON Schema that fields compile to. */
  datatype Limits = Limits(maxFields: nat, maxChars: nat, schemaSize: seq<Field> -> nat)

  predicate Numeric(ftype: string) {
    ftype == "number" || ftype == "integer"
  }

  predicate Letter(c: char) {
    'A' <= c <= 'Z' || 'a' <= c <= 'z'
  }

  predicate Digit(c: char) {
    '0' <= c <= '9'
  }

  predicate FieldName(s: string) {
    && 1 <= |s| <= 64 && (Letter(s[0]) || s[0] == '_')
    && forall i :: 1 <= i < |s| ==> Letter(s[i]) || Digit(s[i]) || s[i] in "_.-"
  }

  predicate Slug(s: string) {
    && 3 <= |s| <= 64 && ('a' <= s[0] <= 'z' || Digit(s[0]))
    && forall i :: 1 <= i < |s| ==> 'a' <= s[i] <= 'z' || Digit(s[i]) || s[i] in "._-"
  }

  predicate Colour(s: string) {
    |s| == 7 && s[0] == '#' && forall i :: 1 <= i < 7 ==> Digit(s[i]) || 'A' <= s[i] <= 'F' || 'a' <= s[i] <= 'f'
  }

  function LowerHex(c: char): char {
    match c
    case 'A' => 'a' case 'B' => 'b' case 'C' => 'c' case 'D' => 'd' case 'E' => 'e' case 'F' => 'f'
    case _ => c
  }

  function Lower(s: string): string {
    seq(|s|, i requires 0 <= i < |s| => LowerHex(s[i]))
  }

  // ---------------------------------------------------------------- normalising

  /** `_text`: a string or a number, trimmed, within a limit. */
  function TextOf(v: Json, limit: nat): Result<string, string> {
    if v.Null? then Ok("")
    else if !v.Str? && !v.Num? then Err("must be text")
    else
      var s := Strip(if v.Str? then v.s else v.text);
      if |s| > limit then Err("too long") else Ok(s)
  }

  /** `_number`. */
  function NumberOf(v: Json): Result<Option<Number>, string> {
    if v.Null? || v == Str("") then Ok(None)
    else if v.Num? then Ok(Some(Number(v.value, v.text)))
    else Err("must be a number")
  }

  /** The values of an enum: trimmed, none empty, each once, in order of first mention. */
  function Clean(values: seq<Json>): Result<seq<string>, string> {
    if values == [] then Ok([])
    else
      var clean :- Clean(values[..|values| - 1]);
      var s :- TextOf(values[|values| - 1], MAX_LABEL);
      if s == "" then Err("an enum value is empty")
      else if s in clean then Ok(clean)
      else Ok(clean + [s])
  }

  method CleanValues(values: seq<Json>) returns (r: Result<seq<string>, string>)
    ensures r == Clean(values)
  {
    var seen: set<string>, clean: seq<string> := {}, [];
    var i := 0;
    while i < |values|
      invariant i <= |values| && Clean(values[..i]) == Ok(clean) && forall s :: s in seen <==> s in clean
    {
      CleanStep(values, i);
      var s := TextOf(values[i], MAX_LABEL);
      if s.Err? {
        CleanFails(values, i + 1);
        return Err(s.error);
      }
      if s.value == "" {
        CleanFails(values, i + 1);
        return Err("an enum value is empty");
      }
      if s.value !in seen {
        seen := seen + {s.value};
        clean := clean + [s.value];
      }
      i := i + 1;
    }
    assert values[..i] == values;
    return Ok(clean);
  }

  lemma CleanStep(values: seq<Json>, i: nat)
    requires i < |values| && Clean(values[..i]).Ok?
    ensures var clean, s := Clean(values[..i]).value, TextOf(values[i], MAX_LABEL);
            Clean(values[..i + 1]) ==
            if s.Err? then Err(s.error) else if s.value == "" then Err("an enum value is empty")
            else if s.value in clean then Ok(clean) else Ok(clean + [s.value])
  {
    hide TextOf;
    assert values[..i + 1][..i] == values[..i];
  }

  lemma {:induction false} CleanFails(values: seq<Json>, i: nat)
    requires i <= |values| && Clean(values[..i]).Err?
    ensures Clean(values) == Clean(values[..i])
    decreases |values| - i
  {
    hide TextOf;
    if i == |values| {
      assert values[..i] == values;
    } else {
      assert values[..i + 1][..i] == values[..i];
      CleanFails(values, i + 1);
    }
  }

  /** `normalise_field`. */
  function NormaliseField(raw: Json): Result<Field, string> {
    if !raw.Obj? then Err("a field must be an object")
    else
      var m := raw.members;
      var name := Get(m, "name");
      if !name.Str? || !FieldName(name.s) then Err("field name is not allowed")
      else
        var t := Get(m, "type");
        var ftype := if Truthy(t) then t else Str("string");
        if !ftype.Str? || ftype.s !in FIELD_TYPES then Err("type is not one of the types")
        else
          var title :- TextOf(Get(m, "label"), MAX_LABEL);
          var description :- TextOf(Get(m, "description"), MAX_DESCRIPTION);
          var unit :- TextOf(Get(m, "unit"), MAX_UNIT);
          if unit != "" && !Numeric(ftype.s) then Err("a unit is only meaningful on a number")
          else
            var values :- EnumOf(ftype.s, Get(m, "enum"));
            var minimum :- NumberOf(Get(m, "minimum"));
            if minimum.Some? && !Numeric(ftype.s) then Err("minimum is only meaningful on a number")
            else
              var maximum :- NumberOf(Get(m, "maximum"));
              if maximum.Some? && !Numeric(ftype.s) then Err("maximum is only meaningful on a number")
              else if minimum.Some? && maximum.Some? && minimum.value.value > maximum.value.value then Err("minimum is greater than maximum")
              else Ok(Field(name.s, ftype.s, title, description, Truthy(Get(m, "required")), unit, values, minimum, maximum))
  }

  function EnumOf(ftype: string, v: Json): Result<seq<string>, string> {
    if ftype != "enum" then (if Truthy(v) then Err("enum values need type: enum") else Ok([]))
    else if !v.List? || v.items == [] then Err("an enum field needs a list of values")
    else if |v.items| > MAX_ENUM then Err("too many enum values")
    else Clean(v.items)
  }

  function FieldNames(fs: seq<Field>): set<string> {
    set i | 0 <= i < |fs| :: fs[i].name
  }

  function NormaliseFields(raws: seq<Json>): Result<seq<Field>, string> {
    if raws == [] then Ok([])
    else
      var fs :- NormaliseFields(raws[..|raws| - 1]);
      var f :- NormaliseField(raws[|raws| - 1]);
      if f.name in FieldNames(fs) then Err("field appears twice") else Ok(fs + [f])
  }

  method NormaliseAll(raws: seq<Json>) returns (r: Result<seq<Field>, string>)
    ensures r == NormaliseFields(raws)
  {
    hide NormaliseField;
    var fields: seq<Field>, seen: set<string> := [], {};
    var i := 0;
    assert FieldNames([]) == {};
    while i < |raws|
      invariant i <= |raws| && NormaliseFields(raws[..i]) == Ok(fields) && seen == FieldNames(fields)
    {
      assert raws[..i + 1][..i] == raws[..i];
      var f := NormaliseField(raws[i]);
      if f.Err? {
        FieldsFail(raws, i + 1);
        return Err(f.error);
      }
      if f.value.name in seen {
        FieldsFail(raws, i + 1);
        return Err("field appears twice");
      }
      NamesGrow(fields, f.value);
      seen := seen + {f.value.name};
      fields := fields + [f.value];
      i := i + 1;
    }
    assert raws[..i] == raws;
    return Ok(fields);
  }

  lemma NamesGrow(fs: seq<Field>, f: Field)
    ensures FieldNames(fs + [f]) == FieldNames(fs) + {f.name}
  {
    forall n | n in FieldNames(fs) + {f.name} ensures n in FieldNames(fs + [f]) {
      if n in FieldNames(fs) {
        var i :| 0 <= i < |fs| && fs[i].name == n;
        assert (fs + [f])[i].name == n;
      } else {
        assert (fs + [f])[|fs|].name == n;
      }
    }
  }

  lemma {:induction false} FieldsFail(raws: seq<Json>, i: nat)
    requires i <= |raws| && NormaliseFields(raws[..i]).Err?
    ensures NormaliseFields(raws) == NormaliseFields(raws[..i])
    decreases |raws| - i
  {
    hide NormaliseField;
    if i == |raws| {
      assert raws[..i] == raws;
    } else {
      assert raws[..i + 1][..i] == raws[..i];
      FieldsFail(raws, i + 1);
    }
  }

  /** The texts of a list of labels, less the empty ones. */
  function LabelSet(labels: seq<Json>): Result<set<string>, string> {
    if labels == [] then Ok({})
    else
      var some :- LabelSet(labels[..|labels| - 1]);
      var s :- TextOf(labels[|labels| - 1], MAX_NAME);
      Ok(if s == "" then some else some + {s})
  }

  predicate Increasing(ss: seq<string>) {
    forall i, j :: 0 <= i < j < |ss| ==> Less(ss[i], ss[j])
  }

  ghost predicate IsLeast(s: set<string>, m: string) {
    m in s && forall x :: x in s && x != m ==> Less(m, x)
  }

  lemma Least(s: set<string>) returns (m: string)
    requires s != {}
    ensures IsLeast(s, m)
  {
    hide Less;
    var k :| k in s;
    var rest := s - {k};
    assert forall x :: x in s && x != k ==> x in rest;
    if rest == {} {
      return k;
    }
    var n := Least(rest);
    LessTotal(k, n);
    m := if Less(n, k) then n else k;
    forall x | x in s && x != m ensures Less(m, x) {
      if x != k && x != n && m == k {
        LessTrans(k, n, x);
      }
    }
  }

  lemma LeastOnce(s: set<string>)
    ensures forall m, n :: IsLeast(s, m) && IsLeast(s, n) ==> m == n
    ensures s != {} ==> exists m :: IsLeast(s, m)
  {
    hide Less;
    forall m, n | IsLeast(s, m) && IsLeast(s, n) ensures m == n {
      LessTotal(m, n);
    }
    if s != {} {
      var m := Least(s);
      assert IsLeast(s, m);
    }
  }

  function TheLeast(s: set<string>): (m: string)
    requires s != {}
    ensures IsLeast(s, m)
  {
    hide Less;
    LeastOnce(s);
    assert forall m :: m in s && (forall x :: x in s && x != m ==> Less(m, x)) ==> IsLeast(s, m);
    assert forall m :: IsLeast(s, m) ==> m in s && forall x :: x in s && x != m ==> Less(m, x);
    var m :| m in s && forall x :: x in s && x != m ==> Less(m, x);
    m
  }

  /** `sorted`: by code points. */
  function Sorted(s: set<string>): (r: seq<string>)
    ensures Increasing(r) && forall x :: x in r <==> x in s
  {
    hide Less;
    if s == {} then [] else var m := TheLeast(s); [m] + Sorted(s - {m})
  }

  /** Which of two faults is reported first does not matter here. */
  function Colours(m: map<string, Json>, names: set<string>): Result<map<string, string>, string> {
    if exists k :: k in m && k !in names then Err("markup colour for an unknown field")
    else if exists k :: k in m && (!m[k].Str? || !Colour(m[k].s)) then Err("markup colour is not #rrggbb")
    else Ok(map k | k in m :: Lower(m[k].s))
  }

  /** `x or {}`, where a dict is expected. */
  function ObjectOr(v: Json): Result<map<string, Json>, string> {
    if !Truthy(v) then Ok(map[]) else if v.Obj? then Ok(v.members) else Err("must be an object")
  }

  /** `normalise`. */
  function Normalise(l: Limits, raw: Json): Result<Body, string> {
    if !raw.Obj? then Err("a prompt set must be an object")
    else
      var m := raw.members;
      var name :- TextOf(Get(m, "name"), MAX_NAME);
      if name == "" then Err("a prompt set needs a name")
      else
        var slug :- SlugOf(Get(m, "slug"));
        var model :- ModelOf(Get(m, "model"));
        var fields :- FieldsOf(l, Get(m, "fields"));
        var applies :- ObjectOr(Get(m, "applies_to"));
        var listed :- ListOr(Get(applies, "labels"));
        var classifier :- TextOf(Get(applies, "classifier_set"), MAX_NAME);
        var labels :- LabelSet(listed);
        var colours :- ColoursOf(Get(m, "markup"), FieldNames(fields));
        var description :- TextOf(Get(m, "description"), MAX_DESCRIPTION);
        var instructions :- TextOf(Get(m, "instructions"), l.maxChars);
        if |instructions| + l.schemaSize(fields) > l.maxChars then Err("fields and instructions are too long")
        else Ok(Body(name, description, slug, instructions, model, classifier, Sorted(labels), colours, fields))
  }

  function SlugOf(v: Json): Result<string, string> {
    if v.Null? || v == Str("") then Ok("")
    else if v.Str? && Slug(v.s) then Ok(v.s)
    else Err("slug is not allowed")
  }

  function ModelOf(v: Json): Result<string, string> {
    if v.Null? || v == Str("") then Ok("") else if v.Str? then Ok(v.s) else Err("model must be a model id")
  }

  function FieldsOf(l: Limits, v: Json): Result<seq<Field>, string> {
    if !v.List? || v.items == [] then Err("a prompt set needs at least one field")
    else if |v.items| > l.maxFields then Err("too many fields")
    else NormaliseFields(v.items)
  }

  /** `x or []`, where a list is expected. */
  function ListOr(v: Json): Result<seq<Json>, string> {
    if !Truthy(v) then Ok([]) else if v.List? then Ok(v.items) else Err("must be a list")
  }

  function ColoursOf(markup: Json, names: set<string>): Result<map<string, string>, string> {
    var colours :- ObjectOr(if markup.Obj? then Get(markup.members, "colours") else Null);
    Colours(colours, names)
  }

  // ---------------------------------------------------------------- the canonical form

  predicate Trimmed(s: string, limit: nat) {
    |s| <= limit && (s != "" ==> !IsSpace(s[0]) && !IsSpace(s[|s| - 1]))
  }

  predicate CanonicalField(f: Field) {
    && FieldName(f.name) && f.ftype in FIELD_TYPES
    && Trimmed(f.title, MAX_LABEL) && Trimmed(f.description, MAX_DESCRIPTION) && Trimmed(f.unit, MAX_UNIT)
    && (f.unit != "" || f.minimum.Some? || f.maximum.Some? ==> Numeric(f.ftype))
    && (if f.ftype == "enum" then CleanList(f.values) && f.values != [] else f.values == [])
    && (f.minimum.Some? && f.maximum.Some? ==> f.minimum.value.value <= f.maximum.value.value)
  }

  predicate CleanList(ss: seq<string>) {
    && |ss| <= MAX_ENUM
    && (forall i :: 0 <= i < |ss| ==> ss[i] != "" && Trimmed(ss[i], MAX_LABEL))
    && (forall i, j :: 0 <= i < j < |ss| ==> ss[i] != ss[j])
  }

  predicate OnceEach(fs: seq<Field>) {
    forall i, j :: 0 <= i < j < |fs| ==> fs[i].name != fs[j].name
  }

  /** What normalising yields, and leaves alone. */
  ghost predicate Canonical(l: Limits, b: Body) {
    && b.name != "" && Trimmed(b.name, MAX_NAME) && Trimmed(b.description, MAX_DESCRIPTION) && Trimmed(b.instructions, l.maxChars)
    && (b.slug != "" ==> Slug(b.slug)) && Trimmed(b.classifierSet, MAX_NAME)
    && Increasing(b.labels) && (forall s :: s in b.labels ==> s != "" && Trimmed(s, MAX_NAME))
    && b.fields != [] && |b.fields| <= l.maxFields && OnceEach(b.fields) && (forall f :: f in b.fields ==> CanonicalField(f))
    && b.colours.Keys <= FieldNames(b.fields)
    && (forall k :: k in b.colours ==> Colour(b.colours[k]) && Lower(b.colours[k]) == b.colours[k])
    && |b.instructions| + l.schemaSize(b.fields) <= l.maxChars
  }

  lemma TextIsTrimmed(v: Json, limit: nat)
    requires TextOf(v, limit).Ok?
    ensures Trimmed(TextOf(v, limit).value, limit)
  {
    hide Strip, IsSpace;
    StripIs(if v.Str? then v.s else if v.Num? then v.text else "");
  }

  lemma CleanIsClean(values: seq<Json>)
    requires Clean(values).Ok? && |values| <= MAX_ENUM
    ensures CleanList(Clean(values).value) && (values != [] ==> Clean(values).value != []) && |Clean(values).value| <= |values|
  {
    hide TextOf, Trimmed;
    if values != [] {
      CleanIsClean(values[..|values| - 1]);
      TextIsTrimmed(values[|values| - 1], MAX_LABEL);
    }
  }

  lemma FieldIsCanonical(raw: Json)
    requires NormaliseField(raw).Ok?
    ensures CanonicalField(NormaliseField(raw).value)
  {
    hide TextOf, Trimmed, FieldName, Clean;
    var m := raw.members;
    TextIsTrimmed(Get(m, "label"), MAX_LABEL);
    TextIsTrimmed(Get(m, "description"), MAX_DESCRIPTION);
    TextIsTrimmed(Get(m, "unit"), MAX_UNIT);
    var v := Get(m, "enum");
    if NormaliseField(raw).value.ftype == "enum" {
      CleanIsClean(v.items);
    }
  }

  lemma {:induction false} FieldsAreCanonical(raws: seq<Json>)
    requires NormaliseFields(raws).Ok?
    ensures var fs := NormaliseFields(raws).value;
            |fs| == |raws| && OnceEach(fs) && forall f :: f in fs ==> CanonicalField(f)
    decreases |raws|
  {
    hide NormaliseField, CanonicalField;
    if raws != [] {
      var n := |raws| - 1;
      FieldsAreCanonical(raws[..n]);
      FieldIsCanonical(raws[n]);
      var fs, f := NormaliseFields(raws[..n]).value, NormaliseField(raws[n]).value;
      forall i | 0 <= i < |fs| ensures fs[i].name != f.name {
        assert fs[i].name in FieldNames(fs);
      }
    }
  }

  lemma LabelsAreTrimmed(labels: seq<Json>)
    requires LabelSet(labels).Ok?
    ensures forall s :: s in LabelSet(labels).value ==> s != "" && Trimmed(s, MAX_NAME)
  {
    hide TextOf, Trimmed;
    if labels != [] {
      LabelsAreTrimmed(labels[..|labels| - 1]);
      TextIsTrimmed(labels[|labels| - 1], MAX_NAME);
    }
  }

  lemma LowerIsColour(s: string)
    requires Colour(s)
    ensures Colour(Lower(s)) && Lower(Lower(s)) == Lower(s)
  {
  }

  lemma ColoursAreLower(m: map<string, Json>, names: set<string>)
    requires Colours(m, names).Ok?
    ensures var c := Colours(m, names).value;
            c.Keys <= names && forall k :: k in c ==> Colour(c[k]) && Lower(c[k]) == c[k]
  {
    hide Colour, Lower;
    forall k | k in m ensures Colour(Lower(m[k].s)) && Lower(Lower(m[k].s)) == Lower(m[k].s) {
      LowerIsColour(m[k].s);
    }
  }

  /** Whatever is accepted is canonical. */
  lemma NormaliseIsCanonical(l: Limits, raw: Json)
    requires Normalise(l, raw).Ok?
    ensures Canonical(l, Normalise(l, raw).value)
  {
    hide TextOf, Trimmed, Slug, Colour, Lower, Colours, NormaliseFields, CanonicalField, LabelSet, FieldNames;
    var m := raw.members;
    TextIsTrimmed(Get(m, "name"), MAX_NAME);
    TextIsTrimmed(Get(m, "description"), MAX_DESCRIPTION);
    TextIsTrimmed(Get(m, "instructions"), l.maxChars);
    var applies := ObjectOr(Get(m, "applies_to")).value;
    TextIsTrimmed(Get(applies, "classifier_set"), MAX_NAME);
    LabelsAreTrimmed(ListOr(Get(applies, "labels")).value);
    FieldsAreCanonical(Get(m, "fields").items);
    var fields := Normalise(l, raw).value.fields;
    var markup := Get(m, "markup");
    ColoursAreLower(ObjectOr(if markup.Obj? then Get(markup.members, "colours") else Null).value, FieldNames(fields));
  }

  // ---------------------------------------------------------------- what reads as a body

  predicate ReadsText(v: Json, s: string) {
    v == Str(s) || (s == "" && v == Null)
  }

  predicate ReadsNumber(v: Json, n: Option<Number>) {
    if n.None? then v == Null else v == Num(n.value.value, n.value.text)
  }

  function Strs(ss: seq<string>): seq<Json> {
    seq(|ss|, i requires 0 <= i < |ss| => Str(ss[i]))
  }

  /** A tree that says of a field what the field says, whether it spells out what is empty or not. */
  predicate ReadsField(raw: Json, f: Field) {
    && raw.Obj?
    && Get(raw.members, "name") == Str(f.name) && Get(raw.members, "type") == Str(f.ftype)
    && ReadsText(Get(raw.members, "label"), f.title) && ReadsText(Get(raw.members, "description"), f.description)
    && ReadsText(Get(raw.members, "unit"), f.unit) && Truthy(Get(raw.members, "required")) == f.required
    && (if f.ftype == "enum" then Get(raw.members, "enum") == List(Strs(f.values)) else !Truthy(Get(raw.members, "enum")))
    && ReadsNumber(Get(raw.members, "minimum"), f.minimum) && ReadsNumber(Get(raw.members, "maximum"), f.maximum)
  }

  predicate ReadsApplies(v: Json, b: Body) {
    if !Truthy(v) then b.classifierSet == "" && b.labels == []
    else && v.Obj? && ReadsText(Get(v.members, "classifier_set"), b.classifierSet)
         && (Get(v.members, "labels") == List(Strs(b.labels)) || (b.labels == [] && Get(v.members, "labels") == Null))
  }

  predicate ReadsMarkup(v: Json, b: Body) {
    if v == Null then b.colours == map[]
    else v.Obj? && Get(v.members, "colours") == Obj(map k | k in b.colours :: Str(b.colours[k]))
  }

  predicate ReadsBody(raw: Json, b: Body) {
    && raw.Obj?
    && ReadsText(Get(raw.members, "name"), b.name) && ReadsText(Get(raw.members, "description"), b.description)
    && ReadsText(Get(raw.members, "slug"), b.slug) && ReadsText(Get(raw.members, "instructions"), b.instructions)
    && ReadsText(Get(raw.members, "model"), b.model)
    && ReadsApplies(Get(raw.members, "applies_to"), b) && ReadsMarkup(Get(raw.members, "markup"), b)
    && ReadsFields(Get(raw.members, "fields"), b.fields)
  }

  predicate ReadsFields(v: Json, fs: seq<Field>) {
    v.List? && |v.items| == |fs| && forall i :: 0 <= i < |fs| ==> ReadsField(v.items[i], fs[i])
  }

  lemma TextBack(v: Json, s: string, limit: nat)
    requires ReadsText(v, s) && Trimmed(s, limit)
    ensures TextOf(v, limit) == Ok(s)
  {
    hide IsSpace, Strip;
    StripFixed(s);
  }

  lemma CleanBack(ss: seq<string>)
    requires CleanList(ss)
    ensures Clean(Strs(ss)) == Ok(ss)
  {
    hide TextOf, Trimmed;
    if ss != [] {
      var n := |ss| - 1;
      assert Strs(ss)[..n] == Strs(ss[..n]) && ss == ss[..n] + [ss[n]];
      CleanBack(ss[..n]);
      TextBack(Str(ss[n]), ss[n], MAX_LABEL);
    }
  }

  lemma FieldBack(raw: Json, f: Field)
    requires ReadsField(raw, f) && CanonicalField(f)
    ensures NormaliseField(raw) == Ok(f)
  {
    hide TextOf, Trimmed, FieldName, Clean, CleanList, ReadsText, Strs;
    TextBack(Get(raw.members, "label"), f.title, MAX_LABEL);
    TextBack(Get(raw.members, "description"), f.description, MAX_DESCRIPTION);
    TextBack(Get(raw.members, "unit"), f.unit, MAX_UNIT);
    EnumBack(f.ftype, Get(raw.members, "enum"), f.values);
    assert Truthy(Str(f.ftype));
  }

  lemma EnumBack(ftype: string, v: Json, values: seq<string>)
    requires if ftype == "enum" then CleanList(values) && values != [] && v == List(Strs(values)) else values == [] && !Truthy(v)
    ensures EnumOf(ftype, v) == Ok(values)
  {
    hide Clean, Trimmed;
    if ftype == "enum" {
      CleanBack(values);
      assert |Strs(values)| == |values|;
    }
  }

  lemma {:induction false} FieldsBack(raws: seq<Json>, fs: seq<Field>)
    requires |raws| == |fs| && (forall i :: 0 <= i < |fs| ==> ReadsField(raws[i], fs[i]) && CanonicalField(fs[i])) && OnceEach(fs)
    ensures NormaliseFields(raws) == Ok(fs)
    decreases |fs|
  {
    hide ReadsField, CanonicalField, NormaliseField;
    if fs != [] {
      var n := |fs| - 1;
      FieldsBack(raws[..n], fs[..n]);
      FieldBack(raws[n], fs[n]);
      assert fs == fs[..n] + [fs[n]];
      assert fs[n].name !in FieldNames(fs[..n]);
    }
  }

  lemma LabelsBack(ss: seq<string>)
    requires forall s :: s in ss ==> s != "" && Trimmed(s, MAX_NAME)
    ensures LabelSet(Strs(ss)).Ok? && forall s :: s in LabelSet(Strs(ss)).value <==> s in ss
  {
    hide TextOf, Trimmed;
    if ss != [] {
      var n := |ss| - 1;
      assert Strs(ss)[..n] == Strs(ss[..n]) && ss == ss[..n] + [ss[n]];
      assert forall s :: s in ss[..n] ==> s in ss;
      LabelsBack(ss[..n]);
      TextBack(Str(ss[n]), ss[n], MAX_NAME);
    }
  }

  /** There is one increasing order. */
  lemma {:induction false} SortedOnce(a: seq<string>, b: seq<string>)
    requires Increasing(a) && Increasing(b) && forall x :: x in a <==> x in b
    ensures a == b
    decreases |a|
  {
    hide Less;
    if a == [] {
      assert forall i :: 0 <= i < |b| ==> b[i] in b;
    } else {
      assert a[0] in b && b != [] && b[0] in a;
      LessTotal(a[0], b[0]);
      var i :| 0 <= i < |a| && a[i] == b[0];
      var j :| 0 <= j < |b| && b[j] == a[0];
      assert a[0] == b[0];
      TailHas(a);
      TailHas(b);
      SortedOnce(a[1..], b[1..]);
    }
  }

  lemma TailHas(a: seq<string>)
    requires a != [] && Increasing(a)
    ensures Increasing(a[1..]) && forall x :: x in a[1..] <==> x in a && x != a[0]
  {
    forall x | x in a[1..] ensures x != a[0] {
      var i :| 0 <= i < |a| - 1 && a[1..][i] == x;
      LessTotal(a[0], x);
    }
  }

  lemma SortedBack(labels: seq<string>, s: set<string>)
    requires Increasing(labels) && forall x :: x in s <==> x in labels
    ensures Sorted(s) == labels
  {
    hide Sorted;
    SortedOnce(labels, Sorted(s));
  }

  lemma ColoursBack(colours: map<string, string>, names: set<string>)
    requires colours.Keys <= names && forall k :: k in colours ==> Colour(colours[k]) && Lower(colours[k]) == colours[k]
    ensures Colours(map k | k in colours :: Str(colours[k]), names) == Ok(colours)
  {
    hide Colour, Lower;
    var m := map k | k in colours :: Str(colours[k]);
    assert forall k :: k in m ==> k in names && m[k].Str? && Colour(m[k].s);
    assert (map k | k in m :: Lower(m[k].s)) == colours;
  }

  lemma AppliesBack(v: Json, b: Body)
    requires ReadsApplies(v, b) && Trimmed(b.classifierSet, MAX_NAME) && Increasing(b.labels)
    requires forall s :: s in b.labels ==> s != "" && Trimmed(s, MAX_NAME)
    ensures ObjectOr(v).Ok?
    ensures var m := ObjectOr(v).value;
            && TextOf(Get(m, "classifier_set"), MAX_NAME) == Ok(b.classifierSet)
            && ListOr(Get(m, "labels")).Ok?
            && var s := LabelSet(ListOr(Get(m, "labels")).value); s.Ok? && Sorted(s.value) == b.labels
  {
    hide TextOf, Trimmed, LabelSet, Sorted, Strs;
    var m := ObjectOr(v).value;
    TextBack(Get(m, "classifier_set"), b.classifierSet, MAX_NAME);
    assert Strs([]) == [] by { NoStrs(); }
    LabelsBack(b.labels);
    SortedBack(b.labels, LabelSet(Strs(b.labels)).value);
    assert ListOr(Get(m, "labels")).value == Strs(b.labels);
  }

  lemma NoStrs()
    ensures Strs([]) == []
  {
  }

  lemma MarkupBack(v: Json, b: Body, names: set<string>)
    requires ReadsMarkup(v, b) && b.colours.Keys <= names
    requires forall k :: k in b.colours ==> Colour(b.colours[k]) && Lower(b.colours[k]) == b.colours[k]
    ensures ColoursOf(v, names) == Ok(b.colours)
  {
    hide Colour, Lower, Colours;
    ColoursBack(b.colours, names);
    NoColours(b.colours);
  }

  lemma NoColours(colours: map<string, string>)
    ensures (map k | k in colours :: Str(colours[k])) == map[] <==> colours == map[]
  {
    var m := map k | k in colours :: Str(colours[k]);
    assert m.Keys == colours.Keys;
  }

  /** A tree that reads as a canonical body normalises to that body. */
  lemma BodyBack(l: Limits, raw: Json, b: Body)
    requires ReadsBody(raw, b) && Canonical(l, b)
    ensures Normalise(l, raw) == Ok(b)
  {
    hide TextOf, Trimmed, Slug, Colour, Lower, ColoursOf, NormaliseFields, CanonicalField, LabelSet, FieldNames,
      ReadsApplies, ReadsMarkup,
      Increasing, Sorted, ReadsField;
    var m := raw.members;
    TextBack(Get(m, "name"), b.name, MAX_NAME);
    TextBack(Get(m, "description"), b.description, MAX_DESCRIPTION);
    TextBack(Get(m, "instructions"), b.instructions, l.maxChars);
    AppliesBack(Get(m, "applies_to"), b);
    FieldsBack(Get(m, "fields").items, b.fields);
    MarkupBack(Get(m, "markup"), b, FieldNames(b.fields));
  }

  // ---------------------------------------------------------------- the body as a dict

  function Opt(c: bool, k: string, v: Json): map<string, Json> {
    if c then map[k := v] else map[]
  }

  function NumberTree(n: Option<Number>): Json {
    if n.None? then Null else Num(n.value.value, n.value.text)
  }

  function BaseTree(f: Field): map<string, Json> {
    map["name" := Str(f.name), "type" := Str(f.ftype), "label" := Str(f.title), "description" := Str(f.description),
        "required" := Bool(f.required)]
  }

  function FieldTree(f: Field): Json {
    Obj(Extras(BaseTree(f), f))
  }

  function ColourTree(b: Body): Json {
    Obj(map k | k in b.colours :: Str(b.colours[k]))
  }

  /** The canonical body, as `normalise` returns it. */
  function Tree(b: Body): Json {
    Obj(map["name" := Str(b.name), "description" := Str(b.description), "slug" := Str(b.slug),
            "instructions" := Str(b.instructions), "model" := Str(b.model),
            "applies_to" := Obj(map["classifier_set" := Str(b.classifierSet), "labels" := List(Strs(b.labels))]),
            "markup" := Obj(map["colours" := ColourTree(b)]),
            "fields" := List(seq(|b.fields|, i requires 0 <= i < |b.fields| => FieldTree(b.fields[i])))])
  }

  /** Keys of the same length are still different keys. */
  lemma FieldKeys()
    ensures "name" != "type" && "name" != "unit" && "name" != "enum" && "type" != "unit" && "type" != "enum" && "unit" != "enum"
    ensures "minimum" != "maximum"
  {
    assert "name"[0] == 'n' && "type"[0] == 't' && "unit"[0] == 'u' && "enum"[0] == 'e';
    assert "minimum"[1] == 'i' && "maximum"[1] == 'a';
  }

  lemma OptGet(m: map<string, Json>, c: bool, k: string, v: Json, q: string)
    ensures Get(m + Opt(c, k, v), q) == if c && q == k then v else Get(m, q)
  {
  }

  /** What a field's dict holds only when there is something to hold. */
  function Extras(m: map<string, Json>, f: Field): map<string, Json> {
    m + Opt(f.unit != "", "unit", Str(f.unit)) + Opt(f.ftype == "enum", "enum", List(Strs(f.values)))
      + Opt(f.minimum.Some?, "minimum", NumberTree(f.minimum)) + Opt(f.maximum.Some?, "maximum", NumberTree(f.maximum))
  }

  lemma ExtrasGet(m: map<string, Json>, f: Field, q: string)
    ensures Get(Extras(m, f), q) ==
            if q == "maximum" && f.maximum.Some? then NumberTree(f.maximum)
            else if q == "minimum" && f.minimum.Some? then NumberTree(f.minimum)
            else if q == "enum" && f.ftype == "enum" then List(Strs(f.values))
            else if q == "unit" && f.unit != "" then Str(f.unit)
            else Get(m, q)
  {
    hide Opt, Get, Strs, NumberTree;
    var m1 := m + Opt(f.unit != "", "unit", Str(f.unit));
    var m2 := m1 + Opt(f.ftype == "enum", "enum", List(Strs(f.values)));
    var m3 := m2 + Opt(f.minimum.Some?, "minimum", NumberTree(f.minimum));
    OptGet(m, f.unit != "", "unit", Str(f.unit), q);
    OptGet(m1, f.ftype == "enum", "enum", List(Strs(f.values)), q);
    OptGet(m2, f.minimum.Some?, "minimum", NumberTree(f.minimum), q);
    OptGet(m3, f.maximum.Some?, "maximum", NumberTree(f.maximum), q);
  }

  /** A dict that says the rest, with the extras, says it all. */
  lemma ExtrasRead(m: map<string, Json>, f: Field)
    requires Get(m, "name") == Str(f.name) && Get(m, "type") == Str(f.ftype)
    requires ReadsText(Get(m, "label"), f.title) && ReadsText(Get(m, "description"), f.description)
    requires Truthy(Get(m, "required")) == f.required
    requires "unit" !in m && "enum" !in m && "minimum" !in m && "maximum" !in m
    ensures ReadsField(Obj(Extras(m, f)), f)
  {
    hide Extras, Strs;
    FieldKeys();
    ExtrasGet(m, f, "name");
    ExtrasGet(m, f, "type");
    ExtrasGet(m, f, "label");
    ExtrasGet(m, f, "description");
    ExtrasGet(m, f, "required");
    ExtrasGet(m, f, "unit");
    ExtrasGet(m, f, "enum");
    ExtrasGet(m, f, "minimum");
    ExtrasGet(m, f, "maximum");
  }

  lemma FieldTreeReads(f: Field)
    ensures ReadsField(FieldTree(f), f)
  {
    hide Strs, Extras, ReadsField;
    FieldKeys();
    ExtrasRead(BaseTree(f), f);
  }

  lemma TreeSays(b: Body)
    ensures Tree(b).Obj?
    ensures var m := Tree(b).members;
            && Get(m, "name") == Str(b.name) && Get(m, "description") == Str(b.description) && Get(m, "slug") == Str(b.slug)
            && Get(m, "instructions") == Str(b.instructions) && Get(m, "model") == Str(b.model)
            && Get(m, "applies_to") == Obj(map["classifier_set" := Str(b.classifierSet), "labels" := List(Strs(b.labels))])
            && Get(m, "markup") == Obj(map["colours" := ColourTree(b)])
            && Get(m, "fields") == List(seq(|b.fields|, i requires 0 <= i < |b.fields| => FieldTree(b.fields[i])))
  {
    hide FieldTree, Strs, ColourTree;
    assert "name"[0] == 'n' && "slug"[0] == 's';
    assert "model"[1] == 'o' && "fields"[0] == 'f' && "markup"[0] == 'm';
  }

  lemma TreeReads(b: Body)
    ensures ReadsBody(Tree(b), b)
  {
    hide FieldTree, ReadsField, Strs, Tree, ReadsMarkup, ReadsApplies;
    TreeSays(b);
    forall i | 0 <= i < |b.fields| ensures ReadsField(FieldTree(b.fields[i]), b.fields[i]) {
      FieldTreeReads(b.fields[i]);
    }
    AppliesReads(b);
    MarkupReads(b);
    assert ReadsFields(Get(Tree(b).members, "fields"), b.fields);
  }

  lemma AppliesReads(b: Body)
    ensures ReadsApplies(Obj(map["classifier_set" := Str(b.classifierSet), "labels" := List(Strs(b.labels))]), b)
  {
    hide Strs;
    var m := map["classifier_set" := Str(b.classifierSet), "labels" := List(Strs(b.labels))];
    assert "labels" in m;
  }

  lemma MarkupReads(b: Body)
    ensures ReadsMarkup(Obj(map["colours" := ColourTree(b)]), b)
  {
  }

  /** The canonical bodies are exactly the fixed points of normalising; so normalising is idempotent. */
  lemma CanonicalIffFixed(l: Limits, b: Body)
    ensures Canonical(l, b) <==> Normalise(l, Tree(b)) == Ok(b)
  {
    hide Canonical, Normalise, Tree;
    if Canonical(l, b) {
      TreeReads(b);
      BodyBack(l, Tree(b), b);
    }
    if Normalise(l, Tree(b)) == Ok(b) {
      NormaliseIsCanonical(l, Tree(b));
    }
  }

  lemma NormaliseTwice(l: Limits, raw: Json)
    requires Normalise(l, raw).Ok?
    ensures Normalise(l, Tree(Normalise(l, raw).value)) == Normalise(l, raw)
  {
    hide Canonical, Normalise, Tree;
    NormaliseIsCanonical(l, raw);
    CanonicalIffFixed(l, Normalise(l, raw).value);
  }

  // ---------------------------------------------------------------- the file form

  /** `to_export`, of one field. */
  function ExportField(f: Field): Json {
    Obj(Extras(map["name" := Str(f.name)] + Opt(f.title != "", "label", Str(f.title)) + map["type" := Str(f.ftype)]
               + Opt(f.required, "required", Bool(true)) + Opt(f.description != "", "description", Str(f.description)), f))
  }

  function AppliesTree(b: Body): Json {
    Obj(Opt(b.classifierSet != "", "classifier_set", Str(b.classifierSet)) + Opt(b.labels != [], "labels", List(Strs(b.labels))))
  }

  /** What an export says besides the definition itself. */
  datatype Note = Note(revision: Option<Number>, status: string, at: string)

  function ExportHead(b: Body): map<string, Json> {
    map["format" := Str(FORMAT), "type" := Str(TYPE_ONE), "name" := Str(b.name)]
    + Opt(b.slug != "", "slug", Str(b.slug)) + Opt(b.description != "", "description", Str(b.description))
    + Opt(b.instructions != "", "instructions", Str(b.instructions)) + Opt(b.model != "", "model", Str(b.model))
  }

  /** `to_export`. */
  function Export(b: Body, note: Note): Json {
    Obj(ExportHead(b)
        + Opt(b.classifierSet != "" || b.labels != [], "applies_to", AppliesTree(b))
        + Opt(b.colours != map[], "markup", Obj(map["colours" := ColourTree(b)]))
        + map["fields" := ExportedFields(b)]
        + Opt(note.status != "published", "status", Str(note.status))
        + map["exported" := Obj(map["from_revision" := NumberTree(note.revision), "at" := Str(note.at)])])
  }

  function ExportedFields(b: Body): Json {
    List(seq(|b.fields|, i requires 0 <= i < |b.fields| => ExportField(b.fields[i])))
  }

  /** The tree `dump_yaml` writes. */
  function Dump(docs: seq<Json>): Json
    requires forall d :: d in docs ==> d.Obj?
  {
    if |docs| == 1 then docs[0]
    else Obj(map["format" := Str(FORMAT), "type" := Str(TYPE_MANY),
                 "sets" := List(seq(|docs|, i requires 0 <= i < |docs| => Obj(docs[i].members - {"format"})))])
  }

  /** One definition of a file, and whether it comes from the older form. */
  datatype Import = Import(raw: Json, legacy: bool)

  function LegacyFields(items: seq<Json>): seq<Json> {
    if items == [] then []
    else if items[0].Obj? then
      var m := items[0].members;
      var d := Get(m, "description");
      [Obj(map["name" := Get(m, "name"), "type" := Str("string"), "description" := if Truthy(d) then d else Str("")])]
      + LegacyFields(items[1..])
    else LegacyFields(items[1..])
  }

  /** `_legacy`. */
  function Legacy(m: map<string, Json>): Json {
    var fs, prompt := Get(m, "fields"), Get(m, "prompt");
    Obj(map["name" := Get(m, "name"), "instructions" := if Truthy(prompt) then prompt else Str(""),
            "fields" := List(LegacyFields(if fs.List? then fs.items else []))])
  }

  function ParseItem(item: Json): Result<Import, string> {
    if !item.Obj? then Err("each set must be an object")
    else
      var m := item.members;
      if Get(m, "type") == Str("extractor") || ("prompt" in m && "instructions" !in m) then Ok(Import(Legacy(m), true))
      else Ok(Import(Obj(m - {"format", "type", "exported", "status"}), false))
  }

  function ParseItems(items: seq<Json>): Result<seq<Import>, string> {
    if items == [] then Ok([])
    else
      var out :- ParseItems(items[..|items| - 1]);
      var one :- ParseItem(items[|items| - 1]);
      Ok(out + [one])
  }

  method ParseAll(items: seq<Json>) returns (r: Result<seq<Import>, string>)
    ensures r == ParseItems(items)
  {
    hide ParseItem;
    var out: seq<Import> := [];
    var i := 0;
    while i < |items|
      invariant i <= |items| && ParseItems(items[..i]) == Ok(out)
    {
      assert items[..i + 1][..i] == items[..i];
      var one := ParseItem(items[i]);
      if one.Err? {
        ItemsFail(items, i + 1);
        return Err(one.error);
      }
      out := out + [one.value];
      i := i + 1;
    }
    assert items[..i] == items;
    return Ok(out);
  }

  lemma {:induction false} ItemsFail(items: seq<Json>, i: nat)
    requires i <= |items| && ParseItems(items[..i]).Err?
    ensures ParseItems(items) == ParseItems(items[..i])
    decreases |items| - i
  {
    hide ParseItem;
    if i == |items| {
      assert items[..i] == items;
    } else {
      assert items[..i + 1][..i] == items[..i];
      ItemsFail(items, i + 1);
    }
  }

  /** The sets of a parsed file; a plain list is a list of sets. */
  function Sets(data: Json): Result<seq<Json>, string> {
    if data.List? then (if data.items == [] then Err("'sets' must be a non-empty list") else Ok(data.items))
    else if !data.Obj? then Err("the file does not hold a prompt set")
    else
      var m := data.members;
      var fmt, kind := Get(m, "format"), Get(m, "type");
      if fmt != Null && fmt != Str(FORMAT) then Err("unknown format")
      else if kind == Str(TYPE_MANY) then
        var sets := Get(m, "sets");
        if !sets.List? || sets.items == [] then Err("'sets' must be a non-empty list") else Ok(sets.items)
      else if kind == Str(TYPE_ONE) || kind == Str("extractor") || kind == Null then Ok([data])
      else Err("not a prompt set")
  }

  /** `parse_import`, of a file of so many bytes whose tree is `data`, if it is YAML. */
  function ParseImport(bytes: nat, data: Option<Json>): Result<seq<Import>, string> {
    if bytes > MAX_FILE_BYTES then Err("the file is too large")
    else if data.None? then Err("not valid YAML")
    else
      var items :- Sets(data.value);
      if |items| > MAX_SETS_PER_FILE then Err("too many sets in one file") else ParseItems(items)
  }

  // ---------------------------------------------------------------- there and back

  lemma ExportFieldReads(f: Field)
    ensures ReadsField(ExportField(f), f)
  {
    hide Extras, Strs, ReadsField, Opt;
    FieldKeys();
    var m0 := map["name" := Str(f.name)];
    var m1 := m0 + Opt(f.title != "", "label", Str(f.title));
    var m2 := m1 + map["type" := Str(f.ftype)];
    var m3 := m2 + Opt(f.required, "required", Bool(true));
    var m := m3 + Opt(f.description != "", "description", Str(f.description));
    forall q ensures Get(m, q) ==
                     if q == "description" && f.description != "" then Str(f.description)
                     else if q == "required" && f.required then Bool(true)
                     else if q == "type" then Str(f.ftype)
                     else if q == "label" && f.title != "" then Str(f.title)
                     else if q == "name" then Str(f.name) else Null
    {
      OptGet(m0, f.title != "", "label", Str(f.title), q);
      OptGet(m2, f.required, "required", Bool(true), q);
      OptGet(m3, f.description != "", "description", Str(f.description), q);
    }
    OptKeys(f);
    ExtrasRead(m, f);
  }

  lemma OptKeys(f: Field)
    ensures var m := map["name" := Str(f.name)] + Opt(f.title != "", "label", Str(f.title)) + map["type" := Str(f.ftype)]
                     + Opt(f.required, "required", Bool(true)) + Opt(f.description != "", "description", Str(f.description));
            "unit" !in m && "enum" !in m && "minimum" !in m && "maximum" !in m
  {
    FieldKeys();
  }

  lemma BodyKeys()
    ensures "name" != "slug" && "name" != "type" && "slug" != "type"
    ensures "fields" != "markup" && "fields" != "status" && "fields" != "format" && "fields" != "prompt"
    ensures "markup" != "status" && "markup" != "format" && "markup" != "prompt"
    ensures "status" != "format" && "status" != "prompt" && "format" != "prompt"
  {
    assert "name"[0] == 'n' && "slug"[0] == 's' && "type"[0] == 't';
    assert "fields"[1] == 'i' && "markup"[1] == 'a' && "status"[1] == 't' && "format"[1] == 'o' && "prompt"[1] == 'r';
  }

  lemma HeadGet(b: Body, q: string)
    ensures Get(ExportHead(b), q) ==
            if q == "model" && b.model != "" then Str(b.model)
            else if q == "instructions" && b.instructions != "" then Str(b.instructions)
            else if q == "description" && b.description != "" then Str(b.description)
            else if q == "slug" && b.slug != "" then Str(b.slug)
            else if q == "format" then Str(FORMAT) else if q == "type" then Str(TYPE_ONE) else if q == "name" then Str(b.name) else Null
  {
    hide Opt;
    var m0 := map["format" := Str(FORMAT), "type" := Str(TYPE_ONE), "name" := Str(b.name)];
    var m1 := m0 + Opt(b.slug != "", "slug", Str(b.slug));
    var m2 := m1 + Opt(b.description != "", "description", Str(b.description));
    var m3 := m2 + Opt(b.instructions != "", "instructions", Str(b.instructions));
    BodyKeys();
    OptGet(m0, b.slug != "", "slug", Str(b.slug), q);
    OptGet(m1, b.description != "", "description", Str(b.description), q);
    OptGet(m2, b.instructions != "", "instructions", Str(b.instructions), q);
    OptGet(m3, b.model != "", "model", Str(b.model), q);
  }

  /** What an export says under each key. */
  lemma ExportGet(b: Body, note: Note, q: string)
    ensures Get(Export(b, note).members, q) ==
            if q == "exported" then Obj(map["from_revision" := NumberTree(note.revision), "at" := Str(note.at)])
            else if q == "status" && note.status != "published" then Str(note.status)
            else if q == "fields" then ExportedFields(b)
            else if q == "markup" && b.colours != map[] then Obj(map["colours" := ColourTree(b)])
            else if q == "applies_to" && (b.classifierSet != "" || b.labels != []) then AppliesTree(b)
            else Get(ExportHead(b), q)
  {
    hide Opt, AppliesTree, ColourTree, ExportedFields, ExportHead;
    var m4 := ExportHead(b);
    var m5 := m4 + Opt(b.classifierSet != "" || b.labels != [], "applies_to", AppliesTree(b));
    var m6 := m5 + Opt(b.colours != map[], "markup", Obj(map["colours" := ColourTree(b)]));
    var m7 := m6 + map["fields" := ExportedFields(b)];
    OptGet(m4, b.classifierSet != "" || b.labels != [], "applies_to", AppliesTree(b), q);
    OptGet(m5, b.colours != map[], "markup", Obj(map["colours" := ColourTree(b)]), q);
    OptGet(m7, note.status != "published", "status", Str(note.status), q);
  }

  lemma OptKeysAre(c: bool, k: string, v: Json)
    ensures Opt(c, k, v).Keys <= {k}
  {
  }

  lemma NoPrompt(b: Body, note: Note)
    ensures "prompt" !in Export(b, note).members
  {
    hide Opt, AppliesTree, ColourTree, ExportedFields, NumberTree;
    BodyKeys();
    OptKeysAre(b.slug != "", "slug", Str(b.slug));
    OptKeysAre(b.description != "", "description", Str(b.description));
    OptKeysAre(b.instructions != "", "instructions", Str(b.instructions));
    OptKeysAre(b.model != "", "model", Str(b.model));
    OptKeysAre(b.classifierSet != "" || b.labels != [], "applies_to", AppliesTree(b));
    OptKeysAre(b.colours != map[], "markup", Obj(map["colours" := ColourTree(b)]));
    OptKeysAre(note.status != "published", "status", Str(note.status));
    assert "prompt" !in ExportHead(b);
  }

  const DROPPED := {"format", "type", "exported", "status"}

  /** The definition an importer reads back from an export. */
  function Raw(b: Body, note: Note): Json {
    Obj(Export(b, note).members - DROPPED)
  }

  lemma RawGet(b: Body, note: Note, q: string)
    requires q !in DROPPED
    ensures Get(Raw(b, note).members, q) == Get(Export(b, note).members, q)
  {
    hide Export;
  }

  lemma AppliesTreeReads(b: Body)
    requires b.classifierSet != "" || b.labels != []
    ensures ReadsApplies(AppliesTree(b), b)
  {
    hide Strs;
    var m := AppliesTree(b).members;
    assert b.classifierSet != "" ==> "classifier_set" in m;
    assert b.labels != [] ==> "labels" in m;
  }

  lemma RawReads(b: Body, note: Note)
    ensures ReadsBody(Raw(b, note), b)
  {
    hide Raw, Export, ExportField, AppliesTree, ReadsApplies, ReadsField, Strs;
    BodyKeys();
    RawSays(b, note, "name");
    RawSays(b, note, "description");
    RawSays(b, note, "slug");
    RawSays(b, note, "instructions");
    RawSays(b, note, "model");
    RawSays(b, note, "applies_to");
    RawSays(b, note, "markup");
    RawSays(b, note, "fields");
    if b.classifierSet != "" || b.labels != [] {
      AppliesTreeReads(b);
    } else {
      NothingApplies(b);
    }
    forall i | 0 <= i < |b.fields| ensures ReadsField(ExportField(b.fields[i]), b.fields[i]) {
      ExportFieldReads(b.fields[i]);
    }
  }

  lemma NothingApplies(b: Body)
    requires b.classifierSet == "" && b.labels == []
    ensures ReadsApplies(Null, b)
  {
  }

  lemma RawSays(b: Body, note: Note, q: string)
    requires q !in DROPPED
    ensures Raw(b, note).Obj?
    ensures Get(Raw(b, note).members, q) ==
            if q == "fields" then ExportedFields(b)
            else if q == "markup" && b.colours != map[] then Obj(map["colours" := ColourTree(b)])
            else if q == "applies_to" && (b.classifierSet != "" || b.labels != []) then AppliesTree(b)
            else if q == "model" && b.model != "" then Str(b.model)
            else if q == "instructions" && b.instructions != "" then Str(b.instructions)
            else if q == "description" && b.description != "" then Str(b.description)
            else if q == "slug" && b.slug != "" then Str(b.slug)
            else if q == "name" then Str(b.name) else Null
  {
    hide Export, AppliesTree, ColourTree, ExportedFields, ExportHead;
    RawGet(b, note, q);
    ExportGet(b, note, q);
    HeadGet(b, q);
  }

  lemma ExportIsObject(b: Body, note: Note)
    ensures Export(b, note).Obj?
  {
  }

  /** An item of an exported file is read as a definition, not as the older form. */
  lemma ItemBack(b: Body, note: Note, item: Json)
    requires IsItem(item, b, note)
    ensures ParseItem(item) == Ok(Import(Raw(b, note), false))
  {
    hide Export;
    BodyKeys();
    ExportGet(b, note, "type");
    HeadGet(b, "type");
    ExportIsObject(b, note);
    var m := Export(b, note).members;
    assert (m - {"format"}) - DROPPED == m - DROPPED;
    assert "prompt" !in m by { NoPrompt(b, note); }
    assert Get(m - {"format"}, "type") == Get(m, "type");
  }

  function RawImports(bs: seq<Body>, notes: seq<Note>): seq<Import>
    requires |bs| == |notes|
  {
    seq(|bs|, i requires 0 <= i < |bs| => Import(Raw(bs[i], notes[i]), false))
  }

  lemma {:induction false} ItemsBack(bs: seq<Body>, notes: seq<Note>, items: seq<Json>)
    requires |bs| == |notes| == |items|
    requires forall i :: 0 <= i < |bs| ==> ParseItem(items[i]) == Ok(Import(Raw(bs[i], notes[i]), false))
    ensures ParseItems(items) == Ok(RawImports(bs, notes))
    decreases |items|
  {
    hide ParseItem, Raw;
    if items != [] {
      var n := |items| - 1;
      ItemsBack(bs[..n], notes[..n], items[..n]);
      assert RawImports(bs, notes) == RawImports(bs[..n], notes[..n]) + [Import(Raw(bs[n], notes[n]), false)];
    } else {
      assert RawImports(bs, notes) == [];
    }
  }

  function Exports(bs: seq<Body>, notes: seq<Note>): (docs: seq<Json>)
    requires |bs| == |notes|
    ensures forall d :: d in docs ==> d.Obj?
  {
    seq(|bs|, i requires 0 <= i < |bs| => Export(bs[i], notes[i]))
  }

  predicate IsItem(item: Json, b: Body, note: Note) {
    item == Export(b, note) || item == Obj(Export(b, note).members - {"format"})
  }

  lemma DumpedOne(bs: seq<Body>, notes: seq<Note>)
    requires |bs| == |notes| == 1
    ensures Sets(Dump(Exports(bs, notes))) == Ok([Export(bs[0], notes[0])])
  {
    hide Export, ExportHead;
    var doc := Export(bs[0], notes[0]);
    ExportIsObject(bs[0], notes[0]);
    ExportGet(bs[0], notes[0], "type");
    ExportGet(bs[0], notes[0], "format");
    HeadGet(bs[0], "type");
    HeadGet(bs[0], "format");
    BodyKeys();
    assert Exports(bs, notes)[0] == doc;
  }

  lemma DumpedMany(bs: seq<Body>, notes: seq<Note>)
    requires |bs| == |notes| != 1
    ensures var r := Sets(Dump(Exports(bs, notes)));
            if bs == [] then r.Err?
            else r.Ok? && |r.value| == |bs| && forall i :: 0 <= i < |bs| ==> IsItem(r.value[i], bs[i], notes[i])
  {
    hide Export;
    var docs := Exports(bs, notes);
    var m := Dump(docs).members;
    assert "type"[0] == 't' && "sets"[0] == 's';
    assert Get(m, "type") == Str(TYPE_MANY) && Get(m, "format") == Str(FORMAT);
  }

  /** A file of exports holds its sets, if it holds any. */
  lemma DumpedSets(bs: seq<Body>, notes: seq<Note>)
    requires |bs| == |notes|
    ensures var r := Sets(Dump(Exports(bs, notes)));
            if bs == [] then r.Err?
            else r.Ok? && |r.value| == |bs| && forall i :: 0 <= i < |bs| ==> IsItem(r.value[i], bs[i], notes[i])
  {
    hide Export, Sets, Dump, Exports;
    if |bs| == 1 {
      DumpedOne(bs, notes);
    } else {
      DumpedMany(bs, notes);
    }
  }

  /** Exporting canonical definitions and importing the file again gives, for each, a definition that
      normalises to the very same body, whatever the revision, status and time written beside it, and with no
      warning; exactly when there are 1 to 50 of them and the file is not over its limit of bytes. */
  lemma ExportImport(l: Limits, bs: seq<Body>, notes: seq<Note>, bytes: nat)
    requires |bs| == |notes| && forall i :: 0 <= i < |bs| ==> Canonical(l, bs[i])
    ensures var r := ParseImport(bytes, Some(Dump(Exports(bs, notes))));
            && (r.Ok? <==> 1 <= |bs| <= 50 && bytes <= 262144)
            && (r.Ok? ==> |r.value| == |bs|)
            && (r.Ok? ==> forall i :: 0 <= i < |bs| ==> !r.value[i].legacy && Normalise(l, r.value[i].raw) == Ok(bs[i]))
  {
    hide Canonical, Normalise, Dump, Exports, Sets, Export, Raw, ParseItem, ParseItems, ReadsBody, IsItem;
    DumpedSets(bs, notes);
    if 1 <= |bs| <= MAX_SETS_PER_FILE && bytes <= MAX_FILE_BYTES {
      var items := Sets(Dump(Exports(bs, notes))).value;
      forall i | 0 <= i < |bs| ensures ParseItem(items[i]) == Ok(Import(Raw(bs[i], notes[i]), false)) {
        ItemBack(bs[i], notes[i], items[i]);
      }
      ItemsBack(bs, notes, items);
      forall i | 0 <= i < |bs| ensures Normalise(l, Raw(bs[i], notes[i])) == Ok(bs[i]) {
        RawReads(bs[i], notes[i]);
        BodyBack(l, Raw(bs[i], notes[i]), bs[i]);
      }
    }
  }
}
