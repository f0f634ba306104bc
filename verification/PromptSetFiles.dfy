/** What a file of definitions is read as, case by case, with its older form; and the names it may hold. */
module PromptSetFiles {
  import opened Wrappers
  import opened Text
  import opened JsonTree
  import opened PromptSets
  import opened PromptSetReading

  // ---------------------------------------------------------------- names and colours

  predicate Upper(c: char) {
    65 <= c as int <= 90
  }

  predicate Lowercase(c: char) {
    97 <= c as int <= 122
  }

  predicate Figure(c: char) {
    48 <= c as int <= 57
  }

  predicate Mark(c: char) {
    c == '.' || c == '_' || c == '-'
  }

  /** A slug: 3 to 64 small letters, figures and marks, a mark not first. */
  lemma SlugIs(s: string)
    ensures Slug(s) <==>
              3 <= |s| <= 64 && !Mark(s[0]) && forall c :: c in s ==> Lowercase(c) || Figure(c) || Mark(c)
  {
    Marks();
    if 3 <= |s| <= 64 {
      assert s[0] in s;
      assert forall i :: 0 <= i < |s| ==> s[i] in s;
    }
  }

  lemma Marks()
    ensures forall c :: c in "._-" <==> Mark(c)
    ensures forall c :: c in "_.-" <==> Mark(c)
  {
    assert "._-"[0] == '.' && "._-"[1] == '_' && "._-"[2] == '-';
    assert "_.-"[0] == '_' && "_.-"[1] == '.' && "_.-"[2] == '-';
  }

  /** A field's name: 1 to 64 letters, figures and marks, the first a letter or an underscore. */
  lemma FieldNameIs(s: string)
    ensures FieldName(s) <==>
              && 1 <= |s| <= 64 && (Upper(s[0]) || Lowercase(s[0]) || s[0] == '_')
              && forall c :: c in s ==> Upper(c) || Lowercase(c) || Figure(c) || Mark(c)
  {
    Marks();
    if 1 <= |s| <= 64 {
      assert s[0] in s;
      assert forall i :: 0 <= i < |s| ==> s[i] in s;
    }
  }

  /** A colour: six hexadecimal figures after a hash. */
  lemma ColourIs(s: string)
    ensures Colour(s) <==>
              && |s| == 7 && s[0] as int == 35
              && forall c :: c in s[1..] ==> Figure(c) || 65 <= c as int <= 70 || 97 <= c as int <= 102
  {
    if |s| == 7 {
      var rest := s[1..];
      assert forall i :: 1 <= i < 7 ==> s[i] == rest[i - 1] && s[i] in rest;
      assert forall c :: c in rest ==> exists i :: 1 <= i < 7 && s[i] == c;
    }
  }

  // ---------------------------------------------------------------- the older form

  /** What the older form says of a field: its name and description, and that it is text. */
  ghost predicate OlderField(item: Json, f: Json) {
    && item.Obj? && f.Obj? && f.members.Keys == {"name", "type", "description"}
    && f.members["name"] == Get(item.members, "name") && f.members["type"] == Str("string")
    && f.members["description"] == (if Truthy(Get(item.members, "description")) then item.members["description"] else Str(""))
  }

  /** Each field comes from an object of the list, the objects in order and none left out. */
  ghost predicate OlderFields(items: seq<Json>, fs: seq<Json>) {
    if items == [] then fs == []
    else if items[0].Obj? then fs != [] && OlderField(items[0], fs[0]) && OlderFields(items[1..], fs[1..])
    else OlderFields(items[1..], fs)
  }

  ghost predicate OlderItem(m: map<string, Json>, raw: Json) {
    && raw.Obj? && raw.members.Keys == {"name", "instructions", "fields"}
    && raw.members["name"] == Get(m, "name")
    && raw.members["instructions"] == (if Truthy(Get(m, "prompt")) then m["prompt"] else Str(""))
    && raw.members["fields"].List?
    && OlderFields(if Get(m, "fields").List? then m["fields"].items else [], raw.members["fields"].items)
  }

  lemma {:induction false} LegacyFieldsAre(items: seq<Json>)
    ensures OlderFields(items, LegacyFields(items))
  {
    if items != [] {
      LegacyFieldsAre(items[1..]);
      if items[0].Obj? {
        var d := Get(items[0].members, "description");
        var f := Obj(map["name" := Get(items[0].members, "name"), "type" := Str("string"), "description" := if Truthy(d) then d else Str("")]);
        OlderFieldIs(items[0], f);
        assert LegacyFields(items) == [f] + LegacyFields(items[1..]);
      }
    }
  }

  lemma OlderFieldIs(item: Json, f: Json)
    requires item.Obj?
    requires var d := Get(item.members, "description");
             f == Obj(map["name" := Get(item.members, "name"), "type" := Str("string"), "description" := if Truthy(d) then d else Str("")])
    ensures OlderField(item, f)
  {
    assert "name" != "type";
  }

  lemma LegacyIs(m: map<string, Json>)
    ensures OlderItem(m, Legacy(m))
  {
    hide LegacyFields;
    LegacyFieldsAre(if Get(m, "fields").List? then Get(m, "fields").items else []);
    assert "name"[0] == 'n' && "instructions"[0] == 'i' && "fields"[0] == 'f';
  }

  /** Reading one definition: the older form is taken over as text fields, any other keeps every key but the four that a
      file adds. */
  lemma ItemIs(item: Json)
    ensures ParseItem(item).Err? <==> !item.Obj?
    ensures item.Obj? ==>
              var m, r := item.members, ParseItem(item).value;
              var older := ("type" in m && m["type"] == Str("extractor")) || ("prompt" in m && "instructions" !in m);
              && r.legacy == older
              && (older ==> OlderItem(m, r.raw))
              && (!older ==> r.raw.Obj?)
              && (!older ==> forall k :: k in r.raw.members <==>
                    k in m && k != "format" && k != "type" && k != "exported" && k != "status")
              && (!older ==> forall k :: k in r.raw.members ==> r.raw.members[k] == m[k])
  {
    hide Legacy, OlderItem;
    if item.Obj? {
      LegacyIs(item.members);
    }
  }

  // ---------------------------------------------------------------- the file

  ghost predicate NoOtherFormat(m: map<string, Json>) {
    "format" !in m || m["format"] == Null || m["format"] == Str("fileengine.prompt_set.v1")
  }

  predicate Untyped(m: map<string, Json>) {
    "type" !in m || m["type"] == Null
  }

  /** The definitions a file holds, if it holds any. */
  ghost predicate HoldsItems(data: Json, items: seq<Json>) {
    match data
    case List(all) => all != [] && items == all
    case Obj(m) =>
      && NoOtherFormat(m)
      && if Untyped(m) || m["type"] == Str("extraction_prompt_set") || m["type"] == Str("extractor") then items == [data]
         else m["type"] == Str("extraction_prompt_sets") && "sets" in m && m["sets"].List? && m["sets"].items != [] && items == m["sets"].items
    case _ => false
  }

  lemma SetsIff(data: Json, items: seq<Json>)
    ensures Sets(data) == Ok(items) <==> HoldsItems(data, items)
  {
    Kinds();
  }

  lemma Kinds()
    ensures TYPE_ONE == "extraction_prompt_set" && TYPE_MANY == "extraction_prompt_sets" && FORMAT == "fileengine.prompt_set.v1"
    ensures "extraction_prompt_sets" != "extraction_prompt_set" && "extractor" != "extraction_prompt_sets"
  {
    assert |"extraction_prompt_sets"| == 22 && |"extraction_prompt_set"| == 21 && |"extractor"| == 9;
  }

  /** A file is read exactly when it is at most 262144 bytes of YAML that hold 1 to 50 objects; each is then read on its
      own, and they come in the order of the file. */
  lemma FileIsRead(bytes: nat, data: Option<Json>, imports: seq<Import>)
    ensures ParseImport(bytes, data) == Ok(imports) <==>
              && bytes <= 262144 && data.Some?
              && exists items :: HoldsItems(data.value, items) && |items| <= 50 && |imports| == |items| &&
                   forall i :: 0 <= i < |items| ==> ParseItem(items[i]) == Ok(imports[i])
  {
    hide Sets, ParseItem, ParseItems, HoldsItems;
    if data.Some? {
      var r := Sets(data.value);
      if r.Ok? {
        SetsIff(data.value, r.value);
        ItemsIff(r.value, imports);
      }
      if exists items :: HoldsItems(data.value, items) {
        var items :| HoldsItems(data.value, items);
        SetsIff(data.value, items);
      }
      forall items | HoldsItems(data.value, items) ensures r == Ok(items) {
        SetsIff(data.value, items);
      }
    }
  }

  lemma {:induction false} ItemsIff(items: seq<Json>, imports: seq<Import>)
    ensures ParseItems(items) == Ok(imports) <==>
              |imports| == |items| && forall i :: 0 <= i < |items| ==> ParseItem(items[i]) == Ok(imports[i])
    decreases |items|
  {
    hide ParseItem;
    if items != [] {
      var n := |items| - 1;
      assert forall i :: 0 <= i < n ==> items[..n][i] == items[i];
      if imports != [] {
        var some := imports[..|imports| - 1];
        ItemsIff(items[..n], some);
        assert imports == some + [imports[|imports| - 1]];
      }
    }
  }
}
