/** What a tree says of a definition, and that normalising accepts exactly the trees that say a canonical one. */
module PromptSetReading {
  import opened Wrappers
  import opened Text
  import opened JsonTree
  import opened PromptSets

  /** Text is a string or a number, without the blanks around it; nothing at all is the empty text. */
  predicate SaysText(v: Json, s: string) {
    match v
    case Null => s == ""
    case Str(t) => s == Strip(t)
    case Num(_, t) => s == Strip(t)
    case _ => false
  }

  predicate SaysNumber(v: Json, n: Option<Number>) {
    match v
    case Null => n == None
    case Str(t) => t == "" && n == None
    case Num(value, t) => n == Some(Number(value, t))
    case _ => false
  }

  /** A name, taken as it stands; nothing, or the empty string, is none. */
  predicate SaysName(v: Json, s: string) {
    match v
    case Null => s == ""
    case Str(t) => s == t
    case _ => false
  }

  /** Each text is one of the values, the values are among the texts, and they come in the order of their first mention. */
  ghost predicate FirstMentions(texts: seq<string>, values: seq<string>) {
    && (forall t :: t in texts <==> t in values)
    && (forall i, j :: 0 <= i < j < |values| ==> exists p :: 0 <= p < |texts| && texts[p] == values[i] && values[j] !in texts[..p + 1])
  }

  ghost predicate SaysTexts(items: seq<Json>, texts: seq<string>) {
    |items| == |texts| && forall i :: 0 <= i < |items| ==> SaysText(items[i], texts[i])
  }

  ghost predicate SaysValues(v: Json, ftype: string, values: seq<string>) {
    if ftype != "enum" then values == [] && !Truthy(v)
    else v.List? && 1 <= |v.items| <= 100 && exists texts :: SaysTexts(v.items, texts) && FirstMentions(texts, values)
  }

  ghost predicate SaysField(raw: Json, f: Field) {
    raw.Obj? &&
    var m := raw.members;
    && "name" in m && m["name"] == Str(f.name)
    && (if "type" in m && Truthy(m["type"]) then m["type"] == Str(f.ftype) else f.ftype == "string")
    && SaysText(Get(m, "label"), f.title) && SaysText(Get(m, "description"), f.description) && SaysText(Get(m, "unit"), f.unit)
    && f.required == ("required" in m && Truthy(m["required"]))
    && SaysValues(Get(m, "enum"), f.ftype, f.values)
    && SaysNumber(Get(m, "minimum"), f.minimum) && SaysNumber(Get(m, "maximum"), f.maximum)
  }

  ghost predicate SaysFields(v: Json, fs: seq<Field>) {
    v.List? && |v.items| == |fs| && forall i :: 0 <= i < |fs| ==> SaysField(v.items[i], fs[i])
  }

  /** The labels are the texts of the list that are not empty. */
  ghost predicate SaysLabels(v: Json, labels: seq<string>) {
    if !Truthy(v) then labels == []
    else v.List? && exists texts :: SaysTexts(v.items, texts) && forall s :: s in labels <==> s in texts && s != ""
  }

  ghost predicate SaysApplies(v: Json, b: Body) {
    if !Truthy(v) then b.classifierSet == "" && b.labels == []
    else v.Obj? && SaysText(Get(v.members, "classifier_set"), b.classifierSet) && SaysLabels(Get(v.members, "labels"), b.labels)
  }

  /** The same six hexadecimal digits, A to F in either case. */
  predicate SameColour(a: string, b: string) {
    |a| == |b| && forall i :: 0 <= i < |a| ==>
      b[i] == a[i] || ('A' <= a[i] <= 'F' && b[i] as int - 'a' as int == a[i] as int - 'A' as int)
  }

  predicate SaysColours(v: Json, colours: map<string, string>) {
    if !v.Obj? || !Truthy(Get(v.members, "colours")) then colours == map[]
    else
      var given := Get(v.members, "colours");
      given.Obj? && given.members.Keys == colours.Keys &&
      forall k :: k in colours ==> given.members[k].Str? && SameColour(given.members[k].s, colours[k])
  }

  /** The tree says the definition. */
  ghost predicate SaysBody(raw: Json, b: Body) {
    raw.Obj? &&
    var m := raw.members;
    && SaysText(Get(m, "name"), b.name) && SaysText(Get(m, "description"), b.description)
    && SaysText(Get(m, "instructions"), b.instructions) && SaysName(Get(m, "slug"), b.slug) && SaysName(Get(m, "model"), b.model)
    && SaysFields(Get(m, "fields"), b.fields) && SaysApplies(Get(m, "applies_to"), b) && SaysColours(Get(m, "markup"), b.colours)
  }

  // ---------------------------------------------------------------- what normalising yields is said

  lemma TextSaid(v: Json, limit: nat)
    requires TextOf(v, limit).Ok?
    ensures SaysText(v, TextOf(v, limit).value)
  {
  }

  lemma TextTaken(v: Json, s: string, limit: nat)
    requires SaysText(v, s) && |s| <= limit
    ensures TextOf(v, limit) == Ok(s)
  {
  }

  lemma NumberIff(v: Json, n: Option<Number>)
    ensures NumberOf(v) == Ok(n) <==> SaysNumber(v, n)
  {
  }

  lemma SlugIff(v: Json, s: string)
    ensures SlugOf(v) == Ok(s) <==> SaysName(v, s) && (s != "" ==> Slug(s))
  {
    hide Slug;
    NoSlug();
  }

  lemma NoSlug()
    ensures !Slug("")
  {
  }

  lemma ModelIff(v: Json, s: string)
    ensures ModelOf(v) == Ok(s) <==> SaysName(v, s)
  {
  }

  // ---------------------------------------------------------------- values

  lemma {:induction false} CleanSaid(items: seq<Json>) returns (texts: seq<string>)
    requires Clean(items).Ok?
    ensures SaysTexts(items, texts) && FirstMentions(texts, Clean(items).value)
  {
    hide TextOf, SaysText, FirstMentions, SaysTexts;
    if items == [] {
      texts := [];
      NoneMentioned();
    } else {
      var k := |items| - 1;
      assert items[..k + 1] == items;
      LastClean(items);
      var some := CleanSaid(items[..k]);
      CleanStep(items, k);
      TextSaid(items[k], MAX_LABEL);
      var s := TextOf(items[k], MAX_LABEL).value;
      texts := some + [s];
      TextsMore(items, some, s);
      MentionedMore(some, Clean(items[..k]).value, s);
    }
  }

  lemma LastClean(items: seq<Json>)
    requires items != [] && Clean(items).Ok?
    ensures Clean(items[..|items| - 1]).Ok? && TextOf(items[|items| - 1], MAX_LABEL).Ok?
  {
    hide TextOf;
  }

  lemma NoneMentioned()
    ensures SaysTexts([], []) && FirstMentions([], [])
  {
  }

  lemma TextsMore(items: seq<Json>, texts: seq<string>, s: string)
    requires items != [] && SaysTexts(items[..|items| - 1], texts) && SaysText(items[|items| - 1], s)
    ensures SaysTexts(items, texts + [s])
  {
    hide SaysText;
    assert forall i :: 0 <= i < |items| - 1 ==> items[..|items| - 1][i] == items[i];
  }

  lemma MentionedMore(texts: seq<string>, values: seq<string>, s: string)
    requires FirstMentions(texts, values)
    ensures FirstMentions(texts + [s], if s in values then values else values + [s])
  {
    var more, after := texts + [s], if s in values then values else values + [s];
    assert forall t :: t in more <==> t in texts || t == s;
    assert forall t :: t in after <==> t in values || t == s;
    forall i, j | 0 <= i < j < |after| ensures exists p :: 0 <= p < |more| && more[p] == after[i] && after[j] !in more[..p + 1] {
      var p := MentionedBefore(texts, values, s, i, j);
      assert more[p] == texts[p] && more[..p + 1] == texts[..p + 1];
    }
  }

  lemma MentionedBefore(texts: seq<string>, values: seq<string>, s: string, i: nat, j: nat) returns (p: nat)
    requires FirstMentions(texts, values)
    requires var after := if s in values then values else values + [s]; i < j < |after|
    ensures var after := if s in values then values else values + [s];
            p < |texts| && texts[p] == after[i] && after[j] !in texts[..p + 1]
  {
    if j < |values| {
      p :| 0 <= p < |texts| && texts[p] == values[i] && values[j] !in texts[..p + 1];
    } else {
      assert values[i] in values && s !in texts;
      p :| 0 <= p < |texts| && texts[p] == values[i];
      assert forall t :: t in texts[..p + 1] ==> t in texts;
    }
  }

  /** The values mentioned so far are a first part of them all. */
  lemma {:induction false} CleanTaken(items: seq<Json>, texts: seq<string>, values: seq<string>, k: nat) returns (m: nat)
    requires SaysTexts(items, texts) && FirstMentions(texts, values) && CleanList(values) && k <= |items|
    ensures m <= |values| && Clean(items[..k]) == Ok(values[..m])
    ensures forall i :: 0 <= i < |values| ==> (i < m <==> values[i] in texts[..k])
  {
    hide TextOf, SaysText, Trimmed, FirstMentions;
    if k == 0 {
      m := 0;
    } else {
      m := CleanTaken(items, texts, values, k - 1);
      var s := texts[k - 1];
      assert items[..k][..k - 1] == items[..k - 1] && texts[..k] == texts[..k - 1] + [s];
      var i := Mentioned(texts, values, s);
      assert Trimmed(values[i], MAX_LABEL) && values[i] != "";
      FitsLimit(values[i], MAX_LABEL);
      TextTaken(items[k - 1], s, MAX_LABEL);
      if i < m {
        assert s in values[..m] by { assert values[..m][i] == s; }
      } else {
        if m < i {
          EarlierFirst(texts, values, k, m, i);
        }
        assert s !in values[..m];
        assert values[..m + 1] == values[..m] + [s];
        m := m + 1;
      }
    }
  }

  lemma FitsLimit(s: string, limit: nat)
    requires Trimmed(s, limit)
    ensures |s| <= limit
  {
  }

  lemma Mentioned(texts: seq<string>, values: seq<string>, s: string) returns (i: nat)
    requires FirstMentions(texts, values) && s in texts
    ensures i < |values| && values[i] == s
  {
    i :| 0 <= i < |values| && values[i] == s;
  }

  /** What a later value's mention comes after. */
  lemma EarlierFirst(texts: seq<string>, values: seq<string>, k: nat, m: nat, i: nat)
    requires FirstMentions(texts, values) && 0 < k <= |texts| && m < i < |values| && values[i] == texts[k - 1]
    ensures values[m] in texts[..k - 1]
  {
    var p :| 0 <= p < |texts| && texts[p] == values[m] && values[i] !in texts[..p + 1];
    assert forall q :: 0 <= q <= p ==> texts[..p + 1][q] == texts[q];
    assert texts[..k - 1][p] == values[m];
  }

  lemma EnumIff(ftype: string, v: Json, values: seq<string>)
    requires if ftype == "enum" then CleanList(values) && values != [] else values == []
    ensures EnumOf(ftype, v) == Ok(values) <==> SaysValues(v, ftype, values)
  {
    hide Clean, CleanList, FirstMentions, SaysTexts, Truthy;
    if ftype == "enum" {
      if EnumOf(ftype, v) == Ok(values) {
        var texts := CleanSaid(v.items);
      }
      if SaysValues(v, ftype, values) {
        var texts :| SaysTexts(v.items, texts) && FirstMentions(texts, values);
        EnumTaken(v.items, texts, values);
      }
    }
  }

  lemma EnumTaken(items: seq<Json>, texts: seq<string>, values: seq<string>)
    requires SaysTexts(items, texts) && FirstMentions(texts, values) && CleanList(values)
    ensures Clean(items) == Ok(values)
  {
    hide Clean, CleanList;
    var m := CleanTaken(items, texts, values, |items|);
    assert items[..|items|] == items && texts[..|texts|] == texts;
    if values != [] {
      assert values[|values| - 1] in values;
    }
    assert values[..|values|] == values;
  }

  // ---------------------------------------------------------------- fields

  lemma FieldIff(raw: Json, f: Field)
    ensures NormaliseField(raw) == Ok(f) <==> CanonicalField(f) && SaysField(raw, f)
  {
    if NormaliseField(raw) == Ok(f) {
      FieldIsCanonical(raw);
      FieldSaid(raw);
    }
    if CanonicalField(f) && SaysField(raw, f) {
      FieldTaken(raw, f);
    }
  }

  lemma FieldSaid(raw: Json)
    requires NormaliseField(raw).Ok? && CanonicalField(NormaliseField(raw).value)
    ensures SaysField(raw, NormaliseField(raw).value)
  {
    hide TextOf, EnumOf, SaysValues, SaysText, NumberOf, SaysNumber, FieldName, Trimmed, CleanList, Truthy;
    var m, f := raw.members, NormaliseField(raw).value;
    TextSaid(Get(m, "label"), MAX_LABEL);
    TextSaid(Get(m, "description"), MAX_DESCRIPTION);
    TextSaid(Get(m, "unit"), MAX_UNIT);
    NumberIff(Get(m, "minimum"), f.minimum);
    NumberIff(Get(m, "maximum"), f.maximum);
    EnumIff(f.ftype, Get(m, "enum"), f.values);
    NullIsFalse();
  }

  lemma NullIsFalse()
    ensures !Truthy(Null)
  {
  }

  lemma FieldTaken(raw: Json, f: Field)
    requires CanonicalField(f) && SaysField(raw, f)
    ensures NormaliseField(raw) == Ok(f)
  {
    hide TextOf, EnumOf, SaysValues, SaysText, NumberOf, SaysNumber, FieldName, CleanList, Truthy;
    var m := raw.members;
    FitsLimit(f.title, MAX_LABEL);
    FitsLimit(f.description, MAX_DESCRIPTION);
    FitsLimit(f.unit, MAX_UNIT);
    TextTaken(Get(m, "label"), f.title, MAX_LABEL);
    TextTaken(Get(m, "description"), f.description, MAX_DESCRIPTION);
    TextTaken(Get(m, "unit"), f.unit, MAX_UNIT);
    NumberIff(Get(m, "minimum"), f.minimum);
    NumberIff(Get(m, "maximum"), f.maximum);
    EnumIff(f.ftype, Get(m, "enum"), f.values);
    NullIsFalse();
  }

  lemma {:induction false} FieldsIff(raws: seq<Json>, fs: seq<Field>)
    ensures NormaliseFields(raws) == Ok(fs) <==>
              |raws| == |fs| && OnceEach(fs) && forall i :: 0 <= i < |fs| ==> CanonicalField(fs[i]) && SaysField(raws[i], fs[i])
    decreases |raws|
  {
    hide NormaliseField, CanonicalField, SaysField;
    if raws != [] {
      var k := |raws| - 1;
      if NormaliseFields(raws).Ok? {
        FieldsIff(raws[..k], NormaliseFields(raws[..k]).value);
        FieldIff(raws[k], NormaliseField(raws[k]).value);
        FieldsSaid(raws);
      }
      if |raws| == |fs| && OnceEach(fs) && forall i :: 0 <= i < |fs| ==> CanonicalField(fs[i]) && SaysField(raws[i], fs[i]) {
        FieldsIff(raws[..k], fs[..k]);
        FieldIff(raws[k], fs[k]);
        assert fs == fs[..k] + [fs[k]];
        assert fs[k].name !in FieldNames(fs[..k]);
      }
    }
  }

  lemma FieldsSaid(raws: seq<Json>)
    requires raws != [] && NormaliseFields(raws).Ok?
    requires var k := |raws| - 1;
             var some := NormaliseFields(raws[..k]).value;
             && k == |some| && OnceEach(some) && (forall i :: 0 <= i < k ==> CanonicalField(some[i]) && SaysField(raws[..k][i], some[i]))
             && CanonicalField(NormaliseField(raws[k]).value) && SaysField(raws[k], NormaliseField(raws[k]).value)
    ensures var fs := NormaliseFields(raws).value;
            |raws| == |fs| && OnceEach(fs) && forall i :: 0 <= i < |fs| ==> CanonicalField(fs[i]) && SaysField(raws[i], fs[i])
  {
    hide NormaliseField, CanonicalField, SaysField;
    var k, fs := |raws| - 1, NormaliseFields(raws).value;
    var some := NormaliseFields(raws[..k]).value;
    assert fs == some + [NormaliseField(raws[k]).value];
    forall i, j | 0 <= i < j < |fs| ensures fs[i].name != fs[j].name {
      if j == k {
        assert some[i].name in FieldNames(some);
      }
    }
    forall i | 0 <= i < |fs| ensures CanonicalField(fs[i]) && SaysField(raws[i], fs[i]) {
      assert i < k ==> raws[..k][i] == raws[i];
    }
  }

  // ---------------------------------------------------------------- labels and colours

  lemma {:induction false} LabelsSaid(items: seq<Json>) returns (texts: seq<string>)
    requires LabelSet(items).Ok?
    ensures SaysTexts(items, texts) && forall s :: s in LabelSet(items).value <==> s in texts && s != ""
  {
    hide TextOf, SaysText;
    if items == [] {
      texts := [];
    } else {
      var k := |items| - 1;
      var some := LabelsSaid(items[..k]);
      TextSaid(items[k], MAX_NAME);
      texts := some + [TextOf(items[k], MAX_NAME).value];
      assert forall i :: 0 <= i < k ==> items[..k][i] == items[i];
    }
  }

  lemma {:induction false} LabelsTaken(items: seq<Json>, texts: seq<string>)
    requires SaysTexts(items, texts) && forall s :: s in texts ==> |s| <= MAX_NAME
    ensures LabelSet(items).Ok? && forall s :: s in LabelSet(items).value <==> s in texts && s != ""
    decreases |items|
  {
    hide TextOf, SaysText;
    if items != [] {
      var k := |items| - 1;
      assert texts == texts[..k] + [texts[k]];
      assert forall i :: 0 <= i < k ==> items[..k][i] == items[i] && texts[..k][i] == texts[i];
      LabelsTaken(items[..k], texts[..k]);
      TextTaken(items[k], texts[k], MAX_NAME);
    }
  }

  lemma LowerIs(a: string, b: string)
    requires Colour(a)
    ensures b == Lower(a) <==> SameColour(a, b) && Lower(b) == b
  {
    if SameColour(a, b) && Lower(b) == b {
      forall i | 0 <= i < |a| ensures b[i] == LowerHex(a[i]) {
        assert LowerHex(b[i]) == b[i];
        assert 'A' <= a[i] <= 'F' ==> b[i] != a[i];
        HexLower(a[i], b[i]);
      }
    }
    forall i | 0 <= i < |a| ensures LowerHex(a[i]) == a[i] || ('A' <= a[i] <= 'F' && LowerHex(a[i]) as int - 'a' as int == a[i] as int - 'A' as int) {}
    assert forall i :: 0 <= i < |a| ==> LowerHex(LowerHex(a[i])) == LowerHex(a[i]);
  }

  lemma HexLower(a: char, b: char)
    requires 'A' <= a <= 'F' ==> b as int - 'a' as int == a as int - 'A' as int
    requires !('A' <= a <= 'F') ==> b == a
    ensures b == LowerHex(a)
  {
  }

  lemma SameColourIsColour(a: string, b: string)
    requires SameColour(a, b) && Colour(b)
    ensures Colour(a)
  {
  }

  lemma LowerIsColour(a: string)
    requires Colour(a)
    ensures Colour(Lower(a))
  {
  }

  lemma ColoursIff(v: Json, names: set<string>, colours: map<string, string>)
    ensures ColoursOf(v, names) == Ok(colours) <==>
              SaysColours(v, colours) && colours.Keys <= names && forall k :: k in colours ==> Colour(colours[k]) && Lower(colours[k]) == colours[k]
  {
    hide Colour, Lower, SameColour;
    var given := if v.Obj? then Get(v.members, "colours") else Null;
    NullIsFalse();
    if given.Obj? && given != Obj(map[]) {
      GivenColours(given.members, names, colours);
    }
  }

  lemma GivenColours(m: map<string, Json>, names: set<string>, colours: map<string, string>)
    ensures Colours(m, names) == Ok(colours) <==>
              && m.Keys == colours.Keys && (forall k :: k in colours ==> m[k].Str? && SameColour(m[k].s, colours[k]))
              && colours.Keys <= names && forall k :: k in colours ==> Colour(colours[k]) && Lower(colours[k]) == colours[k]
  {
    hide Colour, Lower, SameColour;
    if Colours(m, names) == Ok(colours) {
      forall k | k in colours ensures m[k].Str? && SameColour(m[k].s, colours[k]) && Colour(colours[k]) && Lower(colours[k]) == colours[k] {
        LowerIs(m[k].s, colours[k]);
        LowerIsColour(m[k].s);
      }
    } else if && m.Keys == colours.Keys && (forall k :: k in colours ==> m[k].Str? && SameColour(m[k].s, colours[k]))
              && colours.Keys <= names && forall k :: k in colours ==> Colour(colours[k]) && Lower(colours[k]) == colours[k] {
      forall k | k in m ensures Colour(m[k].s) && Lower(m[k].s) == colours[k] {
        SameColourIsColour(m[k].s, colours[k]);
        LowerIs(m[k].s, colours[k]);
      }
      assert (map k | k in m :: Lower(m[k].s)) == colours;
    }
  }

  lemma AppliesSaid(v: Json, b: Body)
    requires ObjectOr(v).Ok?
    requires var m := ObjectOr(v).value;
             && TextOf(Get(m, "classifier_set"), MAX_NAME) == Ok(b.classifierSet) && ListOr(Get(m, "labels")).Ok?
             && var s := LabelSet(ListOr(Get(m, "labels")).value); s.Ok? && b.labels == Sorted(s.value)
    ensures SaysApplies(v, b)
  {
    hide TextOf, SaysText, LabelSet, Sorted;
    var m := ObjectOr(v).value;
    TextSaid(Get(m, "classifier_set"), MAX_NAME);
    var items := ListOr(Get(m, "labels")).value;
    var texts := LabelsSaid(items);
    NothingSaid();
    if !Truthy(Get(m, "labels")) {
      assert texts == [];
      SomeLabel(b.labels);
    }
  }

  lemma NothingSaid()
    ensures forall s :: SaysText(Null, s) ==> s == ""
    ensures TextOf(Null, MAX_NAME) == Ok("")
  {
  }

  lemma SomeLabel(labels: seq<string>)
    ensures labels == [] || exists s :: s in labels
  {
    assert labels == [] || labels[0] in labels;
  }

  lemma AppliesTaken(v: Json, b: Body)
    requires SaysApplies(v, b) && Trimmed(b.classifierSet, MAX_NAME) && Increasing(b.labels)
    requires forall s :: s in b.labels ==> s != "" && Trimmed(s, MAX_NAME)
    ensures ObjectOr(v).Ok?
    ensures var m := ObjectOr(v).value;
            && TextOf(Get(m, "classifier_set"), MAX_NAME) == Ok(b.classifierSet) && ListOr(Get(m, "labels")).Ok?
            && var s := LabelSet(ListOr(Get(m, "labels")).value); s.Ok? && Sorted(s.value) == b.labels
  {
    hide TextOf, SaysText, LabelSet, Sorted, Increasing;
    var m := ObjectOr(v).value;
    NothingSaid();
    FitsLimit(b.classifierSet, MAX_NAME);
    TextTaken(Get(m, "classifier_set"), b.classifierSet, MAX_NAME);
    var items := ListOr(Get(m, "labels")).value;
    var texts: seq<string> := [];
    if Truthy(v) && Truthy(Get(m, "labels")) {
      texts :| SaysTexts(items, texts) && forall s :: s in b.labels <==> s in texts && s != "";
    } else {
      assert Get(map[], "labels") == Null;
      NullIsFalse();
    }
    forall s | s in texts ensures |s| <= MAX_NAME {
      if s != "" {
        FitsLimit(s, MAX_NAME);
      }
    }
    LabelsTaken(items, texts);
    SortedBack(b.labels, LabelSet(items).value);
  }

  // ---------------------------------------------------------------- the whole definition

  lemma BodySaid(l: Limits, raw: Json)
    requires Normalise(l, raw).Ok?
    ensures SaysBody(raw, Normalise(l, raw).value)
  {
    hide TextOf, SaysText, Slug, SlugOf, ModelOf, SaysName, NormaliseFields, LabelSet, Sorted, ColoursOf, SaysColours, SaysField, FieldNames,
      SaysApplies, CanonicalField, OnceEach, ObjectOr, ListOr;
    var m, b := raw.members, Normalise(l, raw).value;
    TextSaid(Get(m, "name"), MAX_NAME);
    TextSaid(Get(m, "description"), MAX_DESCRIPTION);
    TextSaid(Get(m, "instructions"), l.maxChars);
    SlugIff(Get(m, "slug"), b.slug);
    ModelIff(Get(m, "model"), b.model);
    FieldsIff(Get(m, "fields").items, b.fields);
    AppliesSaid(Get(m, "applies_to"), b);
    ColoursIff(Get(m, "markup"), FieldNames(b.fields), b.colours);
  }

  lemma BodyTaken(l: Limits, raw: Json, b: Body)
    requires Canonical(l, b) && SaysBody(raw, b)
    ensures Normalise(l, raw) == Ok(b)
  {
    hide TextOf, SaysText, Slug, SlugOf, ModelOf, SaysName, NormaliseFields, LabelSet, Sorted, ColoursOf, SaysColours, SaysField, FieldNames,
      SaysApplies, CanonicalField, Trimmed, Increasing, OnceEach, ObjectOr, ListOr, Colour, Lower;
    var m := raw.members;
    FitsLimit(b.name, MAX_NAME);
    FitsLimit(b.description, MAX_DESCRIPTION);
    FitsLimit(b.instructions, l.maxChars);
    TextTaken(Get(m, "name"), b.name, MAX_NAME);
    TextTaken(Get(m, "description"), b.description, MAX_DESCRIPTION);
    TextTaken(Get(m, "instructions"), b.instructions, l.maxChars);
    SlugIff(Get(m, "slug"), b.slug);
    ModelIff(Get(m, "model"), b.model);
    FieldsIff(Get(m, "fields").items, b.fields);
    AppliesTaken(Get(m, "applies_to"), b);
    ColoursIff(Get(m, "markup"), FieldNames(b.fields), b.colours);
  }

  /** Normalising accepts a tree exactly when it says a canonical definition, and yields that one. */
  lemma NormaliseIff(l: Limits, raw: Json, b: Body)
    ensures Normalise(l, raw) == Ok(b) <==> Canonical(l, b) && SaysBody(raw, b)
  {
    hide Normalise, Canonical, SaysBody;
    if Normalise(l, raw) == Ok(b) {
      NormaliseIsCanonical(l, raw);
      BodySaid(l, raw);
    }
    if Canonical(l, b) && SaysBody(raw, b) {
      BodyTaken(l, raw, b);
    }
  }

  /** The limits of a canonical definition, in figures. */
  lemma LimitsAre(l: Limits, b: Body)
    requires Canonical(l, b)
    ensures 1 <= |b.name| <= 120 && |b.description| <= 2000 && |b.classifierSet| <= 120
    ensures |b.instructions| + l.schemaSize(b.fields) <= l.maxChars && 1 <= |b.fields| <= l.maxFields
    ensures forall f :: f in b.fields ==>
              && 1 <= |f.name| <= 64 && |f.title| <= 120 && |f.description| <= 2000 && |f.unit| <= 32 && |f.values| <= 100
              && (f.ftype == "string" || f.ftype == "text" || f.ftype == "number" || f.ftype == "integer" || f.ftype == "boolean" ||
                  f.ftype == "date" || f.ftype == "enum" || f.ftype == "list")
              && (f.ftype != "number" && f.ftype != "integer" ==> f.unit == "" && f.minimum == None && f.maximum == None)
  {
    hide IsSpace, FieldNames, Colour, Lower, Increasing, Slug;
    forall f | f in b.fields ensures CanonicalField(f) {}
  }
}
