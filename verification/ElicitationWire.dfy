/** What each shape of an elicitation schema looks like on the wire, member by member, and what readers make of others. */
module ElicitationWire {
  import opened Wrappers
  import opened Json
  import opened Elicitation

  function Strings(ss: seq<string>): Json { Arr(seq(|ss|, i requires 0 <= i < |ss| => Str(ss[i]))) }

  function Options(os: seq<EnumOption>): Json {
    Arr(seq(|os|, i requires 0 <= i < |os| => Obj(map["const" := Str(os[i].value), "title" := Str(os[i].title)])))
  }

  lemma OptionsPrinted(os: seq<EnumOption>, ss: seq<string>)
    ensures PrintOptions(os) == Options(os) && PrintStrings(ss) == Strings(ss)
  {
    assert PrintOptions(os).items == Options(os).items;
    assert PrintStrings(ss).items == Strings(ss).items;
  }

  /** Each shape with all its members. */
  lemma PrintedInFull(title: string, about: string, first: string, many: seq<string>, names: seq<string>,
                      options: seq<EnumOption>, low: U64, high: U64, n: Number, m: Number, k: Number, b: bool)
    ensures Print(TitledSingleSelect(Some(title), Some(about), options, Some(first))) ==
              map["type" := Str("string"), "title" := Str(title), "description" := Str(about), "oneOf" := Options(options),
                  "default" := Str(first)]
    ensures Print(LegacyTitledEnum(Some(title), Some(about), many, names, Some(first))) ==
              map["type" := Str("string"), "title" := Str(title), "description" := Str(about), "enum" := Strings(many),
                  "enumNames" := Strings(names), "default" := Str(first)]
    ensures Print(UntitledSingleSelect(Some(title), Some(about), many, Some(first))) ==
              map["type" := Str("string"), "title" := Str(title), "description" := Str(about), "enum" := Strings(many),
                  "default" := Str(first)]
    ensures Print(TitledMultiSelect(Some(title), Some(about), Some(low), Some(high), options, Some(names))) ==
              map["type" := Str("array"), "title" := Str(title), "description" := Str(about), "minItems" := Num(PosInt(low)),
                  "maxItems" := Num(PosInt(high)), "items" := Obj(map["anyOf" := Options(options)]),
                  "default" := Strings(names)]
    ensures Print(UntitledMultiSelect(Some(title), Some(about), Some(low), Some(high), many, Some(names))) ==
              map["type" := Str("array"), "title" := Str(title), "description" := Str(about), "minItems" := Num(PosInt(low)),
                  "maxItems" := Num(PosInt(high)),
                  "items" := Obj(map["type" := Str("string"), "enum" := Strings(many)]), "default" := Strings(names)]
    ensures Print(StringField(Some(title), Some(about), Some(low), Some(high), Some(Email), Some(first))) ==
              map["type" := Str("string"), "title" := Str(title), "description" := Str(about),
                  "minLength" := Num(PosInt(low)), "maxLength" := Num(PosInt(high)), "format" := Str("email"),
                  "default" := Str(first)]
    ensures Print(NumberField(AnyNumber, Some(title), Some(about), Some(n), Some(m), Some(k))) ==
              map["type" := Str("number"), "title" := Str(title), "description" := Str(about), "minimum" := Num(n),
                  "maximum" := Num(m), "default" := Num(k)]
    ensures Print(BooleanField(Some(title), Some(about), Some(b))) ==
              map["type" := Str("boolean"), "title" := Str(title), "description" := Str(about), "default" := Bool(b)]
  {
    OptionsPrinted(options, many);
    OptionsPrinted(options, names);
    hide PrintOptions, PrintStrings, Options, Strings;
  }

  /** And with none that may be left off. */
  lemma PrintedBare(many: seq<string>, names: seq<string>, options: seq<EnumOption>)
    ensures Print(TitledSingleSelect(None, None, options, None)) == map["type" := Str("string"), "oneOf" := Options(options)]
    ensures Print(LegacyTitledEnum(None, None, many, names, None)) ==
              map["type" := Str("string"), "enum" := Strings(many), "enumNames" := Strings(names)]
    ensures Print(UntitledSingleSelect(None, None, many, None)) == map["type" := Str("string"), "enum" := Strings(many)]
    ensures Print(TitledMultiSelect(None, None, None, None, options, None)) ==
              map["type" := Str("array"), "items" := Obj(map["anyOf" := Options(options)])]
    ensures Print(UntitledMultiSelect(None, None, None, None, many, None)) ==
              map["type" := Str("array"), "items" := Obj(map["type" := Str("string"), "enum" := Strings(many)])]
    ensures Print(StringField(None, None, None, None, None, None)) == map["type" := Str("string")]
    ensures Print(NumberField(Integer, None, None, None, None, None)) == map["type" := Str("integer")]
    ensures Print(BooleanField(None, None, None)) == map["type" := Str("boolean")]
  {
    OptionsPrinted(options, many);
    OptionsPrinted(options, names);
    hide PrintOptions, PrintStrings, Options, Strings;
  }

  /** The four formats, the schema around the fields, and the request around the schema. */
  lemma PrintedAround(s: ElicitationSchema, message: string)
    ensures FormatName(Email) == "email" && FormatName(Uri) == "uri" && FormatName(Date) == "date"
    ensures FormatName(DateTime) == "date-time"
    ensures var properties := Obj(map name | name in s.properties :: Obj(Print(s.properties[name])));
            PrintSchema(s) ==
              if s.required == [] then Obj(map["type" := Str("object"), "properties" := properties])
              else Obj(map["type" := Str("object"), "properties" := properties, "required" := Strings(s.required)])
    ensures PrintRequest(ElicitRequest(message, s)) ==
              Obj(map["message" := Str(message), "requestedSchema" := PrintSchema(s)])
  {
    OptionsPrinted([], s.required);
    hide Print, PrintStrings, Strings;
  }

  /** A member that may be left off may also be null. */
  lemma NullIsLeftOff(f: Fields, name: string)
    requires name !in {"type", "oneOf", "enum", "enumNames", "items"}
    ensures ReadPrimitive(Obj(f[name := Null])) == ReadPrimitive(Obj(f - {name}))
  {
    SameRead(f[name := Null], f - {name});
  }

  /** A member no shape has is not looked at. */
  lemma StrangersAreIgnored(f: Fields, name: string, j: Json)
    requires name !in {"type", "title", "description", "oneOf", "enum", "enumNames", "items", "default", "minItems", "maxItems",
                       "minLength", "maxLength", "format", "minimum", "maximum"}
    ensures ReadPrimitive(Obj(f[name := j])) == ReadPrimitive(Obj(f))
  {
    SameRead(f[name := j], f);
  }

  // The members that may be left off are read the same.
  predicate SameOptional(f: Fields, g: Fields) {
    && Member(f, "title") == Member(g, "title") && Member(f, "description") == Member(g, "description")
    && Member(f, "default") == Member(g, "default") && Member(f, "format") == Member(g, "format")
    && Member(f, "minItems") == Member(g, "minItems") && Member(f, "maxItems") == Member(g, "maxItems")
    && Member(f, "minLength") == Member(g, "minLength") && Member(f, "maxLength") == Member(g, "maxLength")
    && Member(f, "minimum") == Member(g, "minimum") && Member(f, "maximum") == Member(g, "maximum")
  }

  predicate SameAt(f: Fields, g: Fields, name: string) {
    (name in f <==> name in g) && (name in f ==> f[name] == g[name])
  }

  // And so are those that must be there.
  predicate SameRequired(f: Fields, g: Fields) {
    SameAt(f, g, "type") && SameAt(f, g, "oneOf") && SameAt(f, g, "enum") && SameAt(f, g, "enumNames") && SameAt(f, g, "items")
  }

  lemma SameRead(f: Fields, g: Fields)
    requires SameOptional(f, g) && SameRequired(f, g)
    ensures ReadPrimitive(Obj(f)) == ReadPrimitive(Obj(g))
  {
    SameTexts(f, g);
    SameLists(f, g);
    SameOthers(f, g);
    hide ReadTitledSingleSelect, ReadLegacyTitledEnum, ReadUntitledSingleSelect, ReadStringField, ReadTitledMultiSelect,
         ReadUntitledMultiSelect, ReadNumberField, ReadBooleanField;
  }

  lemma SameTexts(f: Fields, g: Fields)
    requires SameOptional(f, g) && SameRequired(f, g)
    ensures ReadTitledSingleSelect(f) == ReadTitledSingleSelect(g) && ReadLegacyTitledEnum(f) == ReadLegacyTitledEnum(g)
    ensures ReadUntitledSingleSelect(f) == ReadUntitledSingleSelect(g) && ReadStringField(f) == ReadStringField(g)
  {
    hide Member, ReadStrings, ReadOptions, ReadString, ReadU64, ReadFormat;
  }

  lemma SameLists(f: Fields, g: Fields)
    requires SameOptional(f, g) && SameRequired(f, g)
    ensures ReadTitledMultiSelect(f) == ReadTitledMultiSelect(g) && ReadUntitledMultiSelect(f) == ReadUntitledMultiSelect(g)
  {
    hide Member, ReadStrings, ReadOptions, ReadString, ReadU64, ReadPicked, IsKind;
    assert IsKind(f, "array") == IsKind(g, "array") by { SameKind(f, g, "array"); }
  }

  lemma SameKind(f: Fields, g: Fields, kind: string)
    requires SameAt(f, g, "type")
    ensures IsKind(f, kind) == IsKind(g, kind)
  {
  }

  lemma SameOthers(f: Fields, g: Fields)
    requires SameOptional(f, g) && SameRequired(f, g)
    ensures ReadNumberField(f) == ReadNumberField(g) && ReadBooleanField(f) == ReadBooleanField(g)
  {
    hide Member, ReadString, ReadNumber, ReadBool;
  }

  // The member is there, is not null, and is no text, no whole number that fits 64 bits, no number, no truth value.
  predicate IsNoText(f: Fields, name: string) { name in f && f[name] != Null && !f[name].Str? }

  predicate IsNoCount(f: Fields, name: string) {
    name in f && f[name] != Null
    && !(f[name].Num? && f[name].n.PosInt? && f[name].n.value < 0x1_0000_0000_0000_0000)
  }

  predicate IsNoNumber(f: Fields, name: string) { name in f && f[name] != Null && !f[name].Num? }

  predicate IsNoTruth(f: Fields, name: string) { name in f && f[name] != Null && !f[name].Bool? }

  /** What is no object, has none of the five types, or has a member of another kind than its type's, fits no shape. */
  lemma MalformedIsRefused(f: Fields, j: Json)
    ensures !j.Obj? ==> ReadPrimitive(j) == None
    ensures ("type" !in f || f["type"] !in {Str("string"), Str("array"), Str("number"), Str("integer"), Str("boolean")}) ==>
              ReadPrimitive(Obj(f)) == None
    ensures IsNoText(f, "title") || IsNoText(f, "description") ==> ReadPrimitive(Obj(f)) == None
    ensures "type" in f && f["type"] == Str("string") && IsNoText(f, "default") ==> ReadPrimitive(Obj(f)) == None
    ensures "type" in f && f["type"] == Str("array") && (IsNoCount(f, "minItems") || IsNoCount(f, "maxItems")) ==>
              ReadPrimitive(Obj(f)) == None
    ensures "type" in f && (f["type"] == Str("number") || f["type"] == Str("integer"))
            && (IsNoNumber(f, "minimum") || IsNoNumber(f, "maximum") || IsNoNumber(f, "default")) ==>
              ReadPrimitive(Obj(f)) == None
    ensures "type" in f && f["type"] == Str("boolean") && IsNoTruth(f, "default") ==> ReadPrimitive(Obj(f)) == None
    ensures "type" in f && f["type"] == Str("array") && ("items" !in f || !f["items"].Obj?) ==> ReadPrimitive(Obj(f)) == None
  {
    TypesDiffer();
    hide ReadStrings, ReadOptions, ReadFormat, OptionsAt, StringsAt, TitledItems, UntitledItems, ReadPicked;
    NoItems(f);
  }

  lemma NoItems(f: Fields)
    ensures "items" !in f || !f["items"].Obj? ==> TitledItems(f) == None && UntitledItems(f) == None
  {
  }

  lemma TypesDiffer()
    ensures Str("string") != Str("array") && Str("string") != Str("number") && Str("string") != Str("integer")
    ensures Str("string") != Str("boolean") && Str("array") != Str("number") && Str("array") != Str("integer")
    ensures Str("array") != Str("boolean") && Str("number") != Str("boolean") && Str("integer") != Str("boolean")
  {
    assert "string"[0] != "array"[0] && "string"[0] != "number"[0] && "string"[0] != "integer"[0];
    assert "string"[0] != "boolean"[0] && "array"[0] != "number"[0] && "array"[0] != "integer"[0];
    assert "array"[0] != "boolean"[0] && "number"[0] != "boolean"[0] && "integer"[0] != "boolean"[0];
  }

  /** Where the bare text field would fit, it gives way to a choice, and a choice by its values to one with their names. */
  lemma ChoicesComeFirst(f: Fields)
    requires "type" in f && f["type"] == Str("string") && ReadHead(f).Some? && ReadString(Member(f, "default")).Some?
    ensures "oneOf" in f && ReadOptions(f["oneOf"]).Some? ==>
              ReadPrimitive(Obj(f)).Some? && ReadPrimitive(Obj(f)).value.TitledSingleSelect?
              && ReadPrimitive(Obj(f)).value.options == ReadOptions(f["oneOf"]).value
    ensures ("oneOf" !in f || ReadOptions(f["oneOf"]) == None) && "enum" in f && ReadStrings(f["enum"]).Some? ==>
              var named := "enumNames" in f && ReadStrings(f["enumNames"]).Some?;
              && ReadPrimitive(Obj(f)).Some?
              && (if named then ReadPrimitive(Obj(f)).value.LegacyTitledEnum? else ReadPrimitive(Obj(f)).value.UntitledSingleSelect?)
              && ReadPrimitive(Obj(f)).value.values == ReadStrings(f["enum"]).value
  {
    hide ReadStrings, ReadOptions, ReadString, ReadHead, Member, ReadTitledMultiSelect, ReadUntitledMultiSelect, ReadStringField,
         ReadNumberField, ReadBooleanField;
  }
}
