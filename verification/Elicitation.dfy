/** Form elicitation: the restricted schema a server asks by, as it is printed and read back. */
module Elicitation {
  import opened Wrappers
  import opened Json

  type U64 = n: nat | n <= U64_MAX

  datatype EnumOption = EnumOption(value: string, title: string)

  datatype StringFormat = Email | Uri | Date | DateTime

  datatype NumberType = AnyNumber | Integer

  // One field of a form, in the order its shapes are tried.
  datatype PrimitiveSchema =
    | TitledSingleSelect(title: Option<string>, description: Option<string>, options: seq<EnumOption>, initial: Option<string>)
    | LegacyTitledEnum(title: Option<string>, description: Option<string>, values: seq<string>, names: seq<string>,
                       initial: Option<string>)
    | UntitledSingleSelect(title: Option<string>, description: Option<string>, values: seq<string>, initial: Option<string>)
    | TitledMultiSelect(title: Option<string>, description: Option<string>, minItems: Option<U64>, maxItems: Option<U64>,
                        options: seq<EnumOption>, picked: Option<seq<string>>)
    | UntitledMultiSelect(title: Option<string>, description: Option<string>, minItems: Option<U64>, maxItems: Option<U64>,
                          values: seq<string>, picked: Option<seq<string>>)
    | StringField(title: Option<string>, description: Option<string>, minLength: Option<U64>, maxLength: Option<U64>,
                  format: Option<StringFormat>, initial: Option<string>)
    | NumberField(kind: NumberType, title: Option<string>, description: Option<string>, minimum: Option<Number>,
                  maximum: Option<Number>, start: Option<Number>)
    | BooleanField(title: Option<string>, description: Option<string>, ticked: Option<bool>)

  datatype ElicitationSchema = ElicitationSchema(properties: map<string, PrimitiveSchema>, required: seq<string>)

  type Fields = map<string, Json>

  // ---- Printing --------------------------------------------------------------------------------

  // A field that is none is left off.
  function With(fields: Fields, name: string, value: Option<Json>): Fields {
    match value case None => fields case Some(j) => fields[name := j]
  }

  function PrintString(s: Option<string>): Option<Json> { match s case None => None case Some(x) => Some(Str(x)) }

  function PrintU64(n: Option<U64>): Option<Json> { match n case None => None case Some(x) => Some(Num(PosInt(x))) }

  function PrintNumber(n: Option<Number>): Option<Json> { match n case None => None case Some(x) => Some(Num(x)) }

  function PrintBool(b: Option<bool>): Option<Json> { match b case None => None case Some(x) => Some(Bool(x)) }

  function PrintStrings(ss: seq<string>): Json { Arr(seq(|ss|, i requires 0 <= i < |ss| => Str(ss[i]))) }

  function PrintPicked(ss: Option<seq<string>>): Option<Json> { match ss case None => None case Some(x) => Some(PrintStrings(x)) }

  function PrintOption(o: EnumOption): Json { Obj(map["const" := Str(o.value), "title" := Str(o.title)]) }

  function PrintOptions(os: seq<EnumOption>): Json { Arr(seq(|os|, i requires 0 <= i < |os| => PrintOption(os[i]))) }

  function FormatName(f: StringFormat): string {
    match f case Email => "email" case Uri => "uri" case Date => "date" case DateTime => "date-time"
  }

  function PrintFormat(f: Option<StringFormat>): Option<Json> { match f case None => None case Some(x) => Some(Str(FormatName(x))) }

  // The members every shape has: its type, its label, and what it is for.
  function Head(kind: string, title: Option<string>, description: Option<string>): Fields {
    With(With(map["type" := Str(kind)], "title", PrintString(title)), "description", PrintString(description))
  }

  function Print(p: PrimitiveSchema): Fields {
    match p
    case TitledSingleSelect(title, description, options, initial) =>
      With(Head("string", title, description)["oneOf" := PrintOptions(options)], "default", PrintString(initial))
    case LegacyTitledEnum(title, description, values, names, initial) =>
      With(Head("string", title, description)["enum" := PrintStrings(values)]["enumNames" := PrintStrings(names)],
           "default", PrintString(initial))
    case UntitledSingleSelect(title, description, values, initial) =>
      With(Head("string", title, description)["enum" := PrintStrings(values)], "default", PrintString(initial))
    case TitledMultiSelect(title, description, minItems, maxItems, options, picked) =>
      With(With(With(Head("array", title, description), "minItems", PrintU64(minItems)), "maxItems", PrintU64(maxItems))
             ["items" := Obj(map["anyOf" := PrintOptions(options)])], "default", PrintPicked(picked))
    case UntitledMultiSelect(title, description, minItems, maxItems, values, picked) =>
      With(With(With(Head("array", title, description), "minItems", PrintU64(minItems)), "maxItems", PrintU64(maxItems))
             ["items" := Obj(map["type" := Str("string"), "enum" := PrintStrings(values)])], "default", PrintPicked(picked))
    case StringField(title, description, minLength, maxLength, format, initial) =>
      With(With(With(With(Head("string", title, description), "minLength", PrintU64(minLength)),
                     "maxLength", PrintU64(maxLength)), "format", PrintFormat(format)), "default", PrintString(initial))
    case NumberField(kind, title, description, minimum, maximum, start) =>
      With(With(With(Head(if kind.Integer? then "integer" else "number", title, description), "minimum", PrintNumber(minimum)),
                "maximum", PrintNumber(maximum)), "default", PrintNumber(start))
    case BooleanField(title, description, ticked) =>
      With(Head("boolean", title, description), "default", PrintBool(ticked))
  }

  // ---- Reading ---------------------------------------------------------------------------------

  // What a reader makes of its input: nothing, if it does not fit.
  type Read<T> = Option<T>

  // A member that may be missing: missing and null are none.
  function Member(fields: Fields, name: string): Option<Json> {
    if name in fields && fields[name] != Null then Some(fields[name]) else None
  }

  function ReadString(j: Option<Json>): Read<Option<string>> {
    match j case None => Some(None) case Some(Str(s)) => Some(Some(s)) case _ => None
  }

  function ReadU64(j: Option<Json>): Read<Option<U64>> {
    match j
    case None => Some(None)
    case Some(Num(PosInt(n))) => if n <= U64_MAX then Some(Some(n)) else None
    case _ => None
  }

  function ReadNumber(j: Option<Json>): Read<Option<Number>> {
    match j case None => Some(None) case Some(Num(n)) => Some(Some(n)) case _ => None
  }

  function ReadBool(j: Option<Json>): Read<Option<bool>> {
    match j case None => Some(None) case Some(Bool(b)) => Some(Some(b)) case _ => None
  }

  function ReadFormat(j: Option<Json>): Read<Option<StringFormat>> {
    match j
    case None => Some(None)
    case Some(Str(s)) =>
      if s == "email" then Some(Some(Email))
      else if s == "uri" then Some(Some(Uri))
      else if s == "date" then Some(Some(Date))
      else if s == "date-time" then Some(Some(DateTime))
      else None
    case _ => None
  }

  function ReadStrings(j: Json): Read<seq<string>> {
    if j.Arr? && forall i :: 0 <= i < |j.items| ==> j.items[i].Str?
    then Some(seq(|j.items|, i requires 0 <= i < |j.items| && j.items[i].Str? => j.items[i].s))
    else None
  }

  function ReadPicked(j: Option<Json>): Read<Option<seq<string>>> {
    match j
    case None => Some(None)
    case Some(x) => (match ReadStrings(x) case None => None case Some(ss) => Some(Some(ss)))
  }

  function ReadOption(j: Json): Read<EnumOption> {
    if j.Obj? && "const" in j.fields && j.fields["const"].Str? && "title" in j.fields && j.fields["title"].Str?
    then Some(EnumOption(j.fields["const"].s, j.fields["title"].s))
    else None
  }

  function ReadOptions(j: Json): Read<seq<EnumOption>> {
    if j.Arr? && forall i :: 0 <= i < |j.items| ==> ReadOption(j.items[i]).Some?
    then Some(seq(|j.items|, i requires 0 <= i < |j.items| && ReadOption(j.items[i]).Some? => ReadOption(j.items[i]).value))
    else None
  }

  predicate IsKind(fields: Fields, kind: string) { "type" in fields && fields["type"] == Str(kind) }

  // A member that must be there.
  function StringsAt(fields: Fields, name: string): Read<seq<string>> {
    if name in fields then ReadStrings(fields[name]) else None
  }

  function OptionsAt(fields: Fields, name: string): Read<seq<EnumOption>> {
    if name in fields then ReadOptions(fields[name]) else None
  }

  // The label and what the field is for.
  function ReadHead(fields: Fields): Read<(Option<string>, Option<string>)> {
    match (ReadString(Member(fields, "title")), ReadString(Member(fields, "description")))
    case (Some(title), Some(description)) => Some((title, description))
    case _ => None
  }

  function ReadTitledSingleSelect(f: Fields): Read<PrimitiveSchema> {
    if !IsKind(f, "string") then None
    else
      match (ReadHead(f), OptionsAt(f, "oneOf"), ReadString(Member(f, "default")))
      case (Some(head), Some(options), Some(initial)) => Some(TitledSingleSelect(head.0, head.1, options, initial))
      case _ => None
  }

  function ReadLegacyTitledEnum(f: Fields): Read<PrimitiveSchema> {
    if !IsKind(f, "string") then None
    else
      match (ReadHead(f), StringsAt(f, "enum"), StringsAt(f, "enumNames"), ReadString(Member(f, "default")))
      case (Some(head), Some(values), Some(names), Some(initial)) => Some(LegacyTitledEnum(head.0, head.1, values, names, initial))
      case _ => None
  }

  function ReadUntitledSingleSelect(f: Fields): Read<PrimitiveSchema> {
    if !IsKind(f, "string") then None
    else
      match (ReadHead(f), StringsAt(f, "enum"), ReadString(Member(f, "default")))
      case (Some(head), Some(values), Some(initial)) => Some(UntitledSingleSelect(head.0, head.1, values, initial))
      case _ => None
  }

  // The items of a multi-select, an object of their own.
  function Items(f: Fields): Read<Fields> {
    if "items" in f && f["items"].Obj? then Some(f["items"].fields) else None
  }

  function TitledItems(f: Fields): Read<seq<EnumOption>> {
    match Items(f) case None => None case Some(items) => OptionsAt(items, "anyOf")
  }

  function UntitledItems(f: Fields): Read<seq<string>> {
    match Items(f) case None => None case Some(items) => if IsKind(items, "string") then StringsAt(items, "enum") else None
  }

  // The bounds of a multi-select and what is picked at first.
  function ReadBounds(f: Fields): Read<(Option<U64>, Option<U64>, Option<seq<string>>)> {
    match (ReadU64(Member(f, "minItems")), ReadU64(Member(f, "maxItems")), ReadPicked(Member(f, "default")))
    case (Some(min), Some(max), Some(picked)) => Some((min, max, picked))
    case _ => None
  }

  function ReadTitledMultiSelect(f: Fields): Read<PrimitiveSchema> {
    if !IsKind(f, "array") then None
    else
      match (ReadHead(f), ReadBounds(f), TitledItems(f))
      case (Some(head), Some(b), Some(options)) => Some(TitledMultiSelect(head.0, head.1, b.0, b.1, options, b.2))
      case _ => None
  }

  function ReadUntitledMultiSelect(f: Fields): Read<PrimitiveSchema> {
    if !IsKind(f, "array") then None
    else
      match (ReadHead(f), ReadBounds(f), UntitledItems(f))
      case (Some(head), Some(b), Some(values)) => Some(UntitledMultiSelect(head.0, head.1, b.0, b.1, values, b.2))
      case _ => None
  }

  function ReadStringField(f: Fields): Read<PrimitiveSchema> {
    if !IsKind(f, "string") then None
    else
      match (ReadHead(f), ReadU64(Member(f, "minLength")), ReadU64(Member(f, "maxLength")), ReadFormat(Member(f, "format")),
             ReadString(Member(f, "default")))
      case (Some(head), Some(min), Some(max), Some(format), Some(initial)) =>
        Some(StringField(head.0, head.1, min, max, format, initial))
      case _ => None
  }

  function ReadNumberField(f: Fields): Read<PrimitiveSchema> {
    if !IsKind(f, "number") && !IsKind(f, "integer") then None
    else
      match (ReadHead(f), ReadNumber(Member(f, "minimum")), ReadNumber(Member(f, "maximum")), ReadNumber(Member(f, "default")))
      case (Some(head), Some(min), Some(max), Some(start)) =>
        Some(NumberField(if IsKind(f, "integer") then Integer else AnyNumber, head.0, head.1, min, max, start))
      case _ => None
  }

  function ReadBooleanField(f: Fields): Read<PrimitiveSchema> {
    if !IsKind(f, "boolean") then None
    else
      match (ReadHead(f), ReadBool(Member(f, "default")))
      case (Some(head), Some(ticked)) => Some(BooleanField(head.0, head.1, ticked))
      case _ => None
  }

  function Or<T>(first: Read<T>, second: Read<T>): Read<T> { if first.Some? then first else second }

  // Untagged: the first shape that fits.
  function ReadPrimitive(j: Json): Read<PrimitiveSchema> {
    if !j.Obj? then None
    else
      var f := j.fields;
      Or(ReadTitledSingleSelect(f), Or(ReadLegacyTitledEnum(f), Or(ReadUntitledSingleSelect(f), Or(ReadTitledMultiSelect(f),
      Or(ReadUntitledMultiSelect(f), Or(ReadStringField(f), Or(ReadNumberField(f), ReadBooleanField(f))))))))
  }

  // ---- The whole schema ------------------------------------------------------------------------

  function PrintSchema(s: ElicitationSchema): Json {
    Obj(With(map["type" := Str("object"), "properties" := Obj(map name | name in s.properties :: Obj(Print(s.properties[name])))],
             "required", if s.required == [] then None else Some(PrintStrings(s.required))))
  }

  function ReadProperties(fields: Fields): Read<map<string, PrimitiveSchema>> {
    if forall name :: name in fields ==> ReadPrimitive(fields[name]).Some?
    then Some(map name | name in fields :: ReadPrimitive(fields[name]).value)
    else None
  }

  function ReadSchema(j: Json): Read<ElicitationSchema> {
    if !j.Obj? || !IsKind(j.fields, "object") || "properties" !in j.fields || !j.fields["properties"].Obj? then None
    else
      match (ReadProperties(j.fields["properties"].fields),
             if "required" in j.fields then ReadStrings(j.fields["required"]) else Some([]))
      case (Some(properties), Some(required)) => Some(ElicitationSchema(properties, required))
      case _ => None
  }

  datatype ElicitRequest = ElicitRequest(message: string, requestedSchema: ElicitationSchema)

  function PrintRequest(r: ElicitRequest): Json {
    Obj(map["message" := Str(r.message), "requestedSchema" := PrintSchema(r.requestedSchema)])
  }

  function ReadRequest(j: Json): Read<ElicitRequest> {
    if j.Obj? && "message" in j.fields && j.fields["message"].Str? && "requestedSchema" in j.fields
    then (match ReadSchema(j.fields["requestedSchema"]) case None => None case Some(s) => Some(ElicitRequest(j.fields["message"].s, s)))
    else None
  }

  // ---- Round trips -----------------------------------------------------------------------------

  lemma StringsBack(ss: seq<string>)
    ensures ReadStrings(PrintStrings(ss)) == Some(ss)
  {
    assert ReadStrings(PrintStrings(ss)).value == ss;
  }

  lemma OptionBack(o: EnumOption)
    ensures ReadOption(PrintOption(o)) == Some(o)
  {
    assert "const"[0] != "title"[0];
  }

  lemma OptionsBack(os: seq<EnumOption>)
    ensures ReadOptions(PrintOptions(os)) == Some(os)
  {
    forall i | 0 <= i < |os|
      ensures ReadOption(PrintOptions(os).items[i]) == Some(os[i])
    {
      OptionBack(os[i]);
    }
    hide ReadOption, PrintOption;
    assert ReadOptions(PrintOptions(os)).value == os;
  }

  lemma FormatBack(f: Option<StringFormat>)
    ensures ReadFormat(PrintFormat(f)) == Some(f)
  {
    assert "date" != "date-time" && "uri" != "email";
  }

  lemma HeadMembers(kind: string, title: Option<string>, description: Option<string>)
    ensures var f := Head(kind, title, description);
            && IsKind(f, kind) && ReadHead(f) == Some((title, description))
            && f.Keys <= {"type", "title", "description"}
  {
    assert "type" != "title" && "type" != "description" && "title" != "description";
  }

  // The printed names, told apart.
  lemma NamesDiffer()
    ensures "type" != "enum" && "title" != "oneOf" && "title" != "items" && "oneOf" != "items"
    ensures "minItems" != "maxItems" && "minLength" != "maxLength" && "minLength" != "enumNames" && "maxLength" != "enumNames"
    ensures "default" != "minimum" && "default" != "maximum" && "minimum" != "maximum"
    ensures "string" != "number" && "string" != "object" && "number" != "object" && "integer" != "boolean"
    ensures "format" != "string"
  {
    assert "type"[0] != "enum"[0] && "title"[0] != "oneOf"[0] && "title"[0] != "items"[0] && "oneOf"[0] != "items"[0];
    assert "minItems"[1] != "maxItems"[1] && "minLength"[1] != "maxLength"[1];
    assert "minLength"[0] != "enumNames"[0] && "maxLength"[0] != "enumNames"[0];
    assert "default"[0] != "minimum"[0] && "default"[0] != "maximum"[0] && "minimum"[1] != "maximum"[1];
    assert "string"[0] != "number"[0] && "string"[0] != "object"[0] && "number"[0] != "object"[0];
    assert "integer"[0] != "boolean"[0];
    assert "format"[0] != "string"[0];
  }

  lemma TitledSingleSelectBack(p: PrimitiveSchema)
    requires p.TitledSingleSelect?
    ensures ReadTitledSingleSelect(Print(p)) == Some(p)
  {
    NamesDiffer();
    OptionsBack(p.options);
    HeadMembers("string", p.title, p.description);
    hide PrintOptions, ReadOptions, Head;
  }

  lemma LegacyTitledEnumBack(p: PrimitiveSchema)
    requires p.LegacyTitledEnum?
    ensures ReadLegacyTitledEnum(Print(p)) == Some(p) && "oneOf" !in Print(p)
  {
    hide ReadStrings, Head, With, Member, ReadHead, IsKind;
    EnumNames();
    StringsBack(p.values);
    StringsBack(p.names);
    Chain("string", p.title, p.description, "enum", Some(PrintStrings(p.values)), "enumNames", Some(PrintStrings(p.names)),
          "format", None, "default", PrintString(p.initial));
    LegacyParts(p);
  }

  lemma EnumNames()
    ensures {"enum", "enumNames", "format", "default"} !! {"type", "title", "description"}
    ensures "enum" != "enumNames" && "enum" != "format" && "enum" != "default"
    ensures "enumNames" != "format" && "enumNames" != "default" && "format" != "default"
    ensures "oneOf" !in {"type", "title", "description", "enum", "enumNames", "format", "default"}
  {
    NamesDiffer();
  }

  // The printed shape, as a chain of members; a member is where it is read, also where it must be there.
  lemma LegacyParts(p: PrimitiveSchema)
    requires p.LegacyTitledEnum?
    ensures Print(p) == With(With(With(With(Head("string", p.title, p.description), "enum", Some(PrintStrings(p.values))),
                                       "enumNames", Some(PrintStrings(p.names))), "format", None),
                             "default", PrintString(p.initial))
    ensures forall name: string, j: Json :: Member(Print(p), name) == Some(j) ==> name in Print(p) && Print(p)[name] == j
  {
    hide PrintStrings, Head;
  }

  lemma UntitledSingleSelectBack(p: PrimitiveSchema)
    requires p.UntitledSingleSelect?
    ensures ReadUntitledSingleSelect(Print(p)) == Some(p) && "oneOf" !in Print(p) && "enumNames" !in Print(p)
  {
    NamesDiffer();
    StringsBack(p.values);
    HeadMembers("string", p.title, p.description);
    hide PrintStrings, ReadStrings, Head;
  }

  lemma BooleanFieldBack(p: PrimitiveSchema)
    requires p.BooleanField?
    ensures ReadBooleanField(Print(p)) == Some(p) && IsKind(Print(p), "boolean")
  {
    NamesDiffer();
    HeadMembers("boolean", p.title, p.description);
    hide Head;
  }

  // The head is there to be read, and these are all the members.
  ghost predicate Holds(f: Fields, kind: string, title: Option<string>, description: Option<string>, names: set<string>) {
    IsKind(f, kind) && ReadHead(f) == Some((title, description)) && f.Keys <= {"type", "title", "description"} + names
  }

  lemma WithHolds(f: Fields, kind: string, title: Option<string>, description: Option<string>, names: set<string>, name: string,
                  value: Option<Json>)
    requires Holds(f, kind, title, description, names) && value != Some(Null)
    requires name !in {"type", "title", "description"} + names
    ensures Holds(With(f, name, value), kind, title, description, names + {name})
    ensures Member(With(f, name, value), name) == value
    ensures name in With(f, name, value) <==> value.Some?
    ensures value.Some? ==> With(f, name, value)[name] == value.value
  {
    var g := With(f, name, value);
    WithKeys(f, name, value);
    SameHead(f, g, kind);
  }

  lemma WithOther(f: Fields, name: string, value: Option<Json>, other: string)
    requires other != name
    ensures Member(With(f, name, value), other) == Member(f, other)
    ensures other in With(f, name, value) <==> other in f
    ensures other in f ==> With(f, name, value)[other] == f[other]
  {
  }

  // Members printed one after another on the head are all read where they are, and so is the head.
  lemma Chain(kind: string, title: Option<string>, description: Option<string>, a: string, x: Option<Json>, b: string,
              y: Option<Json>, c: string, z: Option<Json>, d: string, w: Option<Json>)
    requires {a, b, c, d} !! {"type", "title", "description"}
    requires a != b && a != c && a != d && b != c && b != d && c != d
    requires x != Some(Null) && y != Some(Null) && z != Some(Null) && w != Some(Null)
    ensures var f := With(With(With(With(Head(kind, title, description), a, x), b, y), c, z), d, w);
            && Holds(f, kind, title, description, {a, b, c, d})
            && Member(f, a) == x && Member(f, b) == y && Member(f, c) == z && Member(f, d) == w
            && (c in f <==> z.Some?) && (z.Some? ==> f[c] == z.value)
  {
    var f0 := Head(kind, title, description);
    var f1 := With(f0, a, x);
    var f2 := With(f1, b, y);
    var f3 := With(f2, c, z);
    assert a in {a, b, c, d} && b in {a, b, c, d} && c in {a, b, c, d} && d in {a, b, c, d};
    HeadMembers(kind, title, description);
    assert Holds(f0, kind, title, description, {});
    hide Holds, Head, With, Member;
    WithHolds(f0, kind, title, description, {}, a, x);
    WithHolds(f1, kind, title, description, {} + {a}, b, y);
    WithHolds(f2, kind, title, description, {} + {a} + {b}, c, z);
    WithHolds(f3, kind, title, description, {} + {a} + {b} + {c}, d, w);
    assert {} + {a} + {b} + {c} + {d} == {a, b, c, d};
    WithOther(f1, b, y, a);
    WithOther(f2, c, z, a);
    WithOther(f2, c, z, b);
    WithOther(f3, d, w, a);
    WithOther(f3, d, w, b);
    WithOther(f3, d, w, c);
  }

  lemma WithKeys(fields: Fields, name: string, value: Option<Json>)
    ensures With(fields, name, value).Keys <= fields.Keys + {name}
  {
  }

  lemma SameHead(f: Fields, g: Fields, kind: string)
    requires IsKind(f, kind) && "type" in g && g["type"] == f["type"]
    requires Member(g, "title") == Member(f, "title") && Member(g, "description") == Member(f, "description")
    ensures IsKind(g, kind) && ReadHead(g) == ReadHead(f)
  {
  }

  lemma NumberNames()
    ensures {"minimum", "maximum", "format", "default"} !! {"type", "title", "description"}
    ensures "minimum" != "maximum" && "minimum" != "format" && "minimum" != "default"
    ensures "maximum" != "format" && "maximum" != "default" && "format" != "default"
  {
    NamesDiffer();
  }

  lemma NumberFieldBack(p: PrimitiveSchema)
    requires p.NumberField?
    ensures ReadNumberField(Print(p)) == Some(p) && IsKind(Print(p), if p.kind.Integer? then "integer" else "number")
  {
    hide Head, Member, ReadHead, IsKind;
    var kind := if p.kind.Integer? then "integer" else "number";
    NumberNames();
    Chain(kind, p.title, p.description, "minimum", PrintNumber(p.minimum), "maximum", PrintNumber(p.maximum), "format", None,
          "default", PrintNumber(p.start));
    OneKind(Print(p), kind, "integer");
  }

  lemma OneKind(f: Fields, kind: string, other: string)
    requires IsKind(f, kind)
    ensures IsKind(f, other) <==> other == kind
  {
  }

  lemma StringNames()
    ensures {"minLength", "maxLength", "format", "default"} !! {"type", "title", "description"}
    ensures "minLength" != "maxLength" && "minLength" != "format" && "minLength" != "default"
    ensures "maxLength" != "format" && "maxLength" != "default" && "format" != "default"
    ensures "oneOf" !in {"type", "title", "description", "minLength", "maxLength", "format", "default"}
    ensures "enum" !in {"type", "title", "description", "minLength", "maxLength", "format", "default"}
  {
    NamesDiffer();
  }

  lemma StringFieldBack(p: PrimitiveSchema)
    requires p.StringField?
    ensures ReadStringField(Print(p)) == Some(p) && IsKind(Print(p), "string")
    ensures "oneOf" !in Print(p) && "enum" !in Print(p)
  {
    hide Head, With, Member, ReadHead, IsKind, PrintFormat, ReadFormat;
    FormatBack(p.format);
    NotNullFormat(p.format);
    StringNames();
    Chain("string", p.title, p.description, "minLength", PrintU64(p.minLength), "maxLength", PrintU64(p.maxLength),
          "format", PrintFormat(p.format), "default", PrintString(p.initial));
  }

  lemma NotNullFormat(f: Option<StringFormat>)
    ensures PrintFormat(f) != Some(Null)
  {
  }

  // The members of a multi-select but for what its items hold.
  lemma MultiSelect(title: Option<string>, description: Option<string>, min: Option<U64>, max: Option<U64>, items: Fields,
                    picked: Option<seq<string>>)
    ensures var f := With(With(With(Head("array", title, description), "minItems", PrintU64(min)), "maxItems", PrintU64(max))
                            ["items" := Obj(items)], "default", PrintPicked(picked));
            && IsKind(f, "array") && ReadHead(f) == Some((title, description))
            && ReadBounds(f) == Some((min, max, picked)) && Items(f) == Some(items)
  {
    NamesDiffer();
    if picked.Some? { StringsBack(picked.value); }
    assert {"minItems", "maxItems", "items", "default"} !! {"type", "title", "description"};
    Chain("array", title, description, "minItems", PrintU64(min), "maxItems", PrintU64(max), "items", Some(Obj(items)),
          "default", PrintPicked(picked));
    hide Head, Member, ReadHead, IsKind, PrintStrings, ReadStrings;
  }

  lemma TitledMultiSelectBack(p: PrimitiveSchema)
    requires p.TitledMultiSelect?
    ensures ReadTitledMultiSelect(Print(p)) == Some(p) && IsKind(Print(p), "array")
  {
    OptionsBack(p.options);
    MultiSelect(p.title, p.description, p.minItems, p.maxItems, map["anyOf" := PrintOptions(p.options)], p.picked);
    hide Head, With, ReadHead, IsKind, ReadBounds, Items, PrintPicked, PrintOptions, ReadOptions;
  }

  lemma UntitledMultiSelectBack(p: PrimitiveSchema)
    requires p.UntitledMultiSelect?
    ensures ReadUntitledMultiSelect(Print(p)) == Some(p) && IsKind(Print(p), "array") && ReadTitledMultiSelect(Print(p)).None?
  {
    NamesDiffer();
    StringsBack(p.values);
    var items: Fields := map["type" := Str("string"), "enum" := PrintStrings(p.values)];
    assert "anyOf" !in items;
    assert IsKind(items, "string") && StringsAt(items, "enum") == Some(p.values);
    MultiSelect(p.title, p.description, p.minItems, p.maxItems, items, p.picked);
    hide Head, With, ReadHead, IsKind, ReadBounds, Items, PrintPicked, PrintStrings, ReadStrings, StringsAt;
  }

  // ---- First match -----------------------------------------------------------------------------

  lemma KindRefuses(f: Fields, kind: string)
    requires IsKind(f, kind)
    ensures kind != "string" ==>
              && ReadTitledSingleSelect(f).None? && ReadLegacyTitledEnum(f).None? && ReadUntitledSingleSelect(f).None?
              && ReadStringField(f).None?
    ensures kind != "array" ==> ReadTitledMultiSelect(f).None? && ReadUntitledMultiSelect(f).None?
    ensures kind != "number" && kind != "integer" ==> ReadNumberField(f).None?
  {
  }

  lemma MembersRefuse(f: Fields)
    ensures "oneOf" !in f ==> ReadTitledSingleSelect(f).None?
    ensures "enumNames" !in f || "enum" !in f ==> ReadLegacyTitledEnum(f).None?
    ensures "enum" !in f ==> ReadUntitledSingleSelect(f).None?
  {
  }

  /** A shape printed is read back as it was, and by no shape tried before it. */
  lemma PrimitiveRoundTrip(p: PrimitiveSchema)
    ensures ReadPrimitive(Obj(Print(p))) == Some(p)
  {
    var f := Print(p);
    NamesDiffer();
    MembersRefuse(f);
    match p {
      case TitledSingleSelect(_, _, _, _) => TitledSingleSelectBack(p);
      case LegacyTitledEnum(_, _, _, _, _) => LegacyTitledEnumBack(p);
      case UntitledSingleSelect(_, _, _, _) => UntitledSingleSelectBack(p);
      case TitledMultiSelect(_, _, _, _, _, _) => TitledMultiSelectBack(p); KindRefuses(f, "array");
      case UntitledMultiSelect(_, _, _, _, _, _) => UntitledMultiSelectBack(p); KindRefuses(f, "array");
      case StringField(_, _, _, _, _, _) => StringFieldBack(p); KindRefuses(f, "string");
      case NumberField(kind, _, _, _, _, _) =>
        NumberFieldBack(p);
        KindRefuses(f, if kind.Integer? then "integer" else "number");
      case BooleanField(_, _, _) => BooleanFieldBack(p); KindRefuses(f, "boolean");
    }
    hide Print, ReadTitledSingleSelect, ReadLegacyTitledEnum, ReadUntitledSingleSelect, ReadTitledMultiSelect,
         ReadUntitledMultiSelect, ReadStringField, ReadNumberField, ReadBooleanField;
  }

  /** The order the shapes are tried in matters: the plain ones would take what the titled ones printed, and lose it. */
  lemma PlainShapesTakeTitledOnes(title: Option<string>, description: Option<string>, values: seq<string>, names: seq<string>,
                                  initial: Option<string>)
    ensures ReadUntitledSingleSelect(Print(LegacyTitledEnum(title, description, values, names, initial))) ==
            Some(UntitledSingleSelect(title, description, values, initial))
  {
    NamesDiffer();
    StringsBack(values);
    HeadMembers("string", title, description);
    hide PrintStrings, ReadStrings, Head;
  }

  /** A schema printed, of any properties, is read back as it was. */
  lemma SchemaRoundTrip(s: ElicitationSchema)
    ensures ReadSchema(PrintSchema(s)) == Some(s)
  {
    hide Print, ReadPrimitive, PrintStrings, ReadStrings, ReadProperties;
    forall name | name in s.properties
      ensures ReadPrimitive(Obj(Print(s.properties[name]))) == Some(s.properties[name])
    {
      PrimitiveRoundTrip(s.properties[name]);
    }
    StringsBack(s.required);
    PropertiesBack(s.properties, map name | name in s.properties :: Obj(Print(s.properties[name])));
    SchemaNames();
  }

  lemma SchemaNames()
    ensures "type" != "required" && "type" != "properties" && "properties" != "required"
  {
  }

  lemma PropertiesBack(properties: map<string, PrimitiveSchema>, printed: Fields)
    requires printed.Keys == properties.Keys
    requires forall name :: name in properties ==> ReadPrimitive(printed[name]) == Some(properties[name])
    ensures ReadProperties(printed) == Some(properties)
  {
    hide ReadPrimitive;
    assert ReadProperties(printed).value == properties;
  }

  /** So is the request that carries it. */
  lemma RequestRoundTrip(r: ElicitRequest)
    ensures ReadRequest(PrintRequest(r)) == Some(r)
  {
    SchemaRoundTrip(r.requestedSchema);
    assert "message" != "requestedSchema";
    hide PrintSchema, ReadSchema;
  }
}
