/** The WIPP plugin manifest models: the two kinds of UI item, the field
    sets of the second kind and the manifest's required fields, as the
    validation a JSON document goes through to become one of them. */
module WippManifest {
  import opened Wrappers

  /** A JSON document (numbers are integers here). */
  datatype Json =
    | JNull
    | JBool(b: bool)
    | JInt(i: int)
    | JStr(s: string)
    | JArr(items: seq<Json>)
    | JObj(fields: map<string, Json>)

  /** Why a document is rejected: the first field, in declaration order,
      that fails, and the constraint it fails. */
  datatype Error =
    | MissingField(field: string)
    | WrongType(field: string)
    | TooFewItems(field: string)
    | NotUnique(field: string)
    | NotLiteral(field: string)
    | NoUnionMember

  /** `ui1`: a plain form entry. */
  datatype Ui1 = Ui1(
    key: string,
    title: string,
    description: Option<string>,
    condition: Option<string>,
    default: Option<Json>,
    hidden: Option<bool>,
    bind: Option<string>)

  /** `FieldSet`: a titled group of field keys. */
  datatype FieldSet = FieldSet(title: string, fields: seq<string>)

  /** `ui2`: its key is always the literal `fieldsets`. */
  datatype Ui2 = Ui2(fieldsets: seq<FieldSet>)

  datatype UiItem = Form(ui1: Ui1) | FieldSets(ui2: Ui2)

  /** The fields this model adds to the inherited manifest; the entries of
      `inputs` and `outputs` and the version stay as documents. */
  datatype Manifest = Manifest(inputs: seq<Json>, outputs: seq<Json>, ui: seq<UiItem>, version: Json)

  predicate Distinct<T(==)>(s: seq<T>) {
    forall i, j :: 0 <= i < j < |s| ==> s[i] != s[j]
  }

  /** A scalar that `Union[str, float, int, bool]` accepts. */
  predicate IsScalar(j: Json) {
    j.JStr? || j.JInt? || j.JBool?
  }

  /** The declared constraints, one predicate per model. */
  predicate FieldSetValid(f: FieldSet) {
    |f.fields| >= 1 && Distinct(f.fields)
  }

  predicate Ui2Valid(u: Ui2) {
    |u.fieldsets| >= 1 && Distinct(u.fieldsets) && forall i :: 0 <= i < |u.fieldsets| ==> FieldSetValid(u.fieldsets[i])
  }

  predicate Ui1Valid(u: Ui1) {
    u.default.Some? ==> IsScalar(u.default.value)
  }

  /** The pattern attached to `ui1.key`: `inputs`, any one character, then
      a letter or digit followed by letters, digits and dashes. It is given
      through a keyword the field does not recognise, so no key is ever
      checked against it. */
  predicate KeyPattern(key: string) {
    && |key| >= 8
    && key[..6] == "inputs"
    && AlphaNum(key[7])
    && forall i :: 8 <= i < |key| ==> AlphaNum(key[i]) || key[i] == '-'
  }

  predicate AlphaNum(c: char) {
    ('a' <= c <= 'z') || ('A' <= c <= 'Z') || ('0' <= c <= '9')
  }

  // ---------------------------------------------------------------------
  // Field validators

  /** A required string field. */
  function StrField(o: map<string, Json>, f: string): (r: Result<string, Error>)
    ensures r.Ok? <==> f in o && o[f].JStr?
    ensures r.Ok? ==> o[f] == JStr(r.value)
  {
    if f !in o then Err(MissingField(f))
    else if o[f].JStr? then Ok(o[f].s)
    else Err(WrongType(f))
  }

  /** An optional string field: absent or null is None. */
  function OptStrField(o: map<string, Json>, f: string): (r: Result<Option<string>, Error>)
    ensures r.Ok? <==> f !in o || o[f] == JNull || o[f].JStr?
    ensures r == Ok(None) <==> f !in o || o[f] == JNull
  {
    if f !in o || o[f] == JNull then Ok(None)
    else if o[f].JStr? then Ok(Some(o[f].s))
    else Err(WrongType(f))
  }

  /** `default`: absent or null is None, otherwise a scalar. */
  function DefaultField(o: map<string, Json>): (r: Result<Option<Json>, Error>)
    ensures r.Ok? <==> "default" !in o || o["default"] == JNull || IsScalar(o["default"])
    ensures r.Ok? && r.value.Some? ==> IsScalar(r.value.value)
  {
    if "default" !in o || o["default"] == JNull then Ok(None)
    else if IsScalar(o["default"]) then Ok(Some(o["default"]))
    else Err(WrongType("default"))
  }

  /** `hidden`: absent is False, null is None. */
  function HiddenField(o: map<string, Json>): (r: Result<Option<bool>, Error>)
    ensures "hidden" !in o ==> r == Ok(Some(false))
    ensures r.Ok? <==> "hidden" !in o || o["hidden"] == JNull || o["hidden"].JBool?
  {
    if "hidden" !in o then Ok(Some(false))
    else if o["hidden"] == JNull then Ok(None)
    else if o["hidden"].JBool? then Ok(Some(o["hidden"].b))
    else Err(WrongType("hidden"))
  }

  /** Every item a string, in order. */
  function Strings(items: seq<Json>): (r: Option<seq<string>>)
    ensures r.Some? <==> forall i :: 0 <= i < |items| ==> items[i].JStr?
    ensures r.Some? ==> |r.value| == |items| && forall i :: 0 <= i < |items| ==> items[i] == JStr(r.value[i])
    decreases |items|
  {
    if items == [] then Some([])
    else
      var n := |items| - 1;
      match Strings(items[..n])
      case None => None
      case Some(ss) => if items[n].JStr? then Some(ss + [items[n].s]) else None
  }

  // ---------------------------------------------------------------------
  // The models

  function ParseUi1(j: Json): (r: Result<Ui1, Error>)
    ensures r.Ok? ==> Ui1Valid(r.value)
  {
    if !j.JObj? then Err(WrongType("ui1"))
    else
      var o := j.fields;
      var key := StrField(o, "key");
      var title := StrField(o, "title");
      var description := OptStrField(o, "description");
      var condition := OptStrField(o, "condition");
      var default := DefaultField(o);
      var hidden := HiddenField(o);
      var bind := OptStrField(o, "bind");
      if key.Err? then Err(key.error)
      else if title.Err? then Err(title.error)
      else if description.Err? then Err(description.error)
      else if condition.Err? then Err(condition.error)
      else if default.Err? then Err(default.error)
      else if hidden.Err? then Err(hidden.error)
      else if bind.Err? then Err(bind.error)
      else Ok(Ui1(key.value, title.value, description.value, condition.value, default.value, hidden.value, bind.value))
  }

  function ParseFieldSet(j: Json): (r: Result<FieldSet, Error>)
    ensures r.Ok? ==> FieldSetValid(r.value)
  {
    if !j.JObj? then Err(WrongType("FieldSet"))
    else
      var o := j.fields;
      var title := StrField(o, "title");
      if title.Err? then Err(title.error)
      else if "fields" !in o then Err(MissingField("fields"))
      else if !o["fields"].JArr? then Err(WrongType("fields"))
      else
        match Strings(o["fields"].items)
        case None => Err(WrongType("fields"))
        case Some(fs) =>
          if |fs| < 1 then Err(TooFewItems("fields"))
          else if !Distinct(fs) then Err(NotUnique("fields"))
          else Ok(FieldSet(title.value, fs))
  }

  /** Every item a valid `FieldSet`, in order. */
  function ParseFieldSets(items: seq<Json>): (r: Result<seq<FieldSet>, Error>)
    ensures r.Ok? <==> forall i :: 0 <= i < |items| ==> ParseFieldSet(items[i]).Ok?
    ensures r.Ok? ==> |r.value| == |items| && forall i :: 0 <= i < |items| ==> ParseFieldSet(items[i]) == Ok(r.value[i])
    decreases |items|
  {
    if items == [] then Ok([])
    else
      var n := |items| - 1;
      var rest := ParseFieldSets(items[..n]);
      var last := ParseFieldSet(items[n]);
      if rest.Err? then Err(rest.error)
      else if last.Err? then Err(last.error)
      else Ok(rest.value + [last.value])
  }

  function ParseUi2(j: Json): (r: Result<Ui2, Error>)
    ensures r.Ok? ==> Ui2Valid(r.value)
  {
    if !j.JObj? then Err(WrongType("ui2"))
    else
      var o := j.fields;
      if "key" !in o then Err(MissingField("key"))
      else if o["key"] != JStr("fieldsets") then Err(NotLiteral("key"))
      else if "fieldsets" !in o then Err(MissingField("fieldsets"))
      else if !o["fieldsets"].JArr? then Err(WrongType("fieldsets"))
      else
        match ParseFieldSets(o["fieldsets"].items)
        case Err(e) => Err(e)
        case Ok(fs) =>
          if |fs| < 1 then Err(TooFewItems("fieldsets"))
          else if !Distinct(fs) then Err(NotUnique("fieldsets"))
          else Ok(Ui2(fs))
  }

  /** `Union[ui1, ui2]`: the first model the document validates as. */
  function ParseUi(j: Json): (r: Result<UiItem, Error>)
    ensures r.Ok? <==> ParseUi1(j).Ok? || ParseUi2(j).Ok?
    ensures ParseUi1(j).Ok? ==> r == Ok(Form(ParseUi1(j).value))
    ensures !ParseUi1(j).Ok? && ParseUi2(j).Ok? ==> r == Ok(FieldSets(ParseUi2(j).value))
  {
    match ParseUi1(j)
    case Ok(u) => Ok(Form(u))
    case Err(_) =>
      match ParseUi2(j)
      case Ok(u) => Ok(FieldSets(u))
      case Err(_) => Err(NoUnionMember)
  }

  function ParseUis(items: seq<Json>): (r: Result<seq<UiItem>, Error>)
    ensures r.Ok? <==> forall i :: 0 <= i < |items| ==> ParseUi(items[i]).Ok?
    ensures r.Ok? ==> |r.value| == |items| && forall i :: 0 <= i < |items| ==> ParseUi(items[i]) == Ok(r.value[i])
    decreases |items|
  {
    if items == [] then Ok([])
    else
      var n := |items| - 1;
      var rest := ParseUis(items[..n]);
      var last := ParseUi(items[n]);
      if rest.Err? then Err(rest.error)
      else if last.Err? then Err(last.error)
      else Ok(rest.value + [last.value])
  }

  /** A required list field. */
  function ListField(o: map<string, Json>, f: string): (r: Result<seq<Json>, Error>)
    ensures r.Ok? <==> f in o && o[f].JArr?
    ensures r.Ok? ==> o[f] == JArr(r.value)
  {
    if f !in o then Err(MissingField(f))
    else if o[f].JArr? then Ok(o[f].items)
    else Err(WrongType(f))
  }

  /** `WIPPPluginManifest`: `inputs`, `outputs`, `ui` and `version` are all
      required, and every `ui` item is a `ui1` or a `ui2`. */
  function ParseManifest(j: Json): (r: Result<Manifest, Error>)
    ensures r.Ok? <==>
      && j.JObj? && "version" in j.fields
      && ListField(j.fields, "inputs").Ok? && ListField(j.fields, "outputs").Ok?
      && ListField(j.fields, "ui").Ok?
      && forall i :: 0 <= i < |j.fields["ui"].items| ==> ParseUi(j.fields["ui"].items[i]).Ok?
    ensures r.Ok? ==>
      && JArr(r.value.inputs) == j.fields["inputs"] && JArr(r.value.outputs) == j.fields["outputs"]
      && r.value.version == j.fields["version"]
      && |r.value.ui| == |j.fields["ui"].items|
      && forall i :: 0 <= i < |r.value.ui| ==> ParseUi(j.fields["ui"].items[i]) == Ok(r.value.ui[i])
  {
    if !j.JObj? then Err(WrongType("manifest"))
    else
      var o := j.fields;
      var inputs := ListField(o, "inputs");
      var outputs := ListField(o, "outputs");
      var ui := ListField(o, "ui");
      if inputs.Err? then Err(inputs.error)
      else if outputs.Err? then Err(outputs.error)
      else if ui.Err? then Err(ui.error)
      else if ParseUis(ui.value).Err? then Err(ParseUis(ui.value).error)
      else if "version" !in o then Err(MissingField("version"))
      else Ok(Manifest(inputs.value, outputs.value, ParseUis(ui.value).value, o["version"]))
  }

  // ---------------------------------------------------------------------
  // Documents for the models, and what validation makes of them

  function StrItems(ss: seq<string>): (items: seq<Json>)
    ensures |items| == |ss| && forall i :: 0 <= i < |ss| ==> items[i] == JStr(ss[i])
  {
    seq(|ss|, i requires 0 <= i < |ss| => JStr(ss[i]))
  }

  function OptStrJson(o: Option<string>): Json {
    if o.Some? then JStr(o.value) else JNull
  }

  function FieldSetJson(f: FieldSet): Json {
    JObj(map["title" := JStr(f.title), "fields" := JArr(StrItems(f.fields))])
  }

  function Ui1Json(u: Ui1): Json {
    JObj(map[
      "key" := JStr(u.key), "title" := JStr(u.title),
      "description" := OptStrJson(u.description), "condition" := OptStrJson(u.condition),
      "default" := (if u.default.Some? then u.default.value else JNull),
      "hidden" := (if u.hidden.Some? then JBool(u.hidden.value) else JNull),
      "bind" := OptStrJson(u.bind)])
  }

  function Ui2Json(u: Ui2): Json {
    JObj(map["key" := JStr("fieldsets"),
             "fieldsets" := JArr(seq(|u.fieldsets|, i requires 0 <= i < |u.fieldsets| => FieldSetJson(u.fieldsets[i])))])
  }

  /** A field set's list of strings reads back as itself. */
  lemma StringsOfItems(ss: seq<string>)
    ensures Strings(StrItems(ss)) == Some(ss)
  {
    var r := Strings(StrItems(ss));
    assert r.value == ss;
  }

  /** A document is accepted as a given field set exactly when it carries
      that title and that list of field keys, and the field set meets its
      constraints (at least one key, no key twice); other members of the
      document are ignored. */
  lemma FieldSetExact(j: Json, f: FieldSet)
    ensures ParseFieldSet(j) == Ok(f) <==>
      && FieldSetValid(f) && j.JObj?
      && "title" in j.fields && j.fields["title"] == JStr(f.title)
      && "fields" in j.fields && j.fields["fields"] == JArr(StrItems(f.fields))
  {
    if ParseFieldSet(j) == Ok(f) {
      var items := j.fields["fields"].items;
      assert items == StrItems(f.fields);
    }
    if FieldSetValid(f) && j.JObj? && "title" in j.fields && j.fields["title"] == JStr(f.title)
      && "fields" in j.fields && j.fields["fields"] == JArr(StrItems(f.fields)) {
      StringsOfItems(f.fields);
    }
  }

  lemma FieldSetRoundTrip(f: FieldSet)
    requires FieldSetValid(f)
    ensures ParseFieldSet(FieldSetJson(f)) == Ok(f)
  {
    FieldSetExact(FieldSetJson(f), f);
  }

  /** A ui1 document reads back as the entry it was written from; among the
      entries of a UI list it is taken as a ui1. */
  lemma Ui1RoundTrip(u: Ui1)
    requires Ui1Valid(u)
    ensures ParseUi1(Ui1Json(u)) == Ok(u)
    ensures ParseUi(Ui1Json(u)) == Ok(Form(u))
  {
  }

  /** A ui2 document reads back as the entry it was written from; it has
      no title, so as a UI list entry it is not a ui1 and is taken as a ui2. */
  lemma Ui2RoundTrip(u: Ui2)
    requires Ui2Valid(u)
    ensures ParseUi2(Ui2Json(u)) == Ok(u)
    ensures ParseUi(Ui2Json(u)) == Ok(FieldSets(u))
  {
    var items := Ui2Json(u).fields["fieldsets"].items;
    forall i | 0 <= i < |items|
      ensures ParseFieldSet(items[i]) == Ok(u.fieldsets[i])
    {
      FieldSetRoundTrip(u.fieldsets[i]);
    }
    var r := ParseFieldSets(items);
    assert r.value == u.fieldsets;
    assert "title" !in Ui2Json(u).fields;
  }

  /** `key` and `title` are the only required members of a ui1: with just
      those two, description, condition, default and bind are None and
      hidden is False. */
  lemma Ui1Defaults(key: string, title: string)
    ensures ParseUi1(JObj(map["key" := JStr(key), "title" := JStr(title)]))
      == Ok(Ui1(key, title, None, None, None, Some(false), None))
  {
  }

  lemma Ui1NeedsKeyAndTitle(j: Json)
    requires ParseUi1(j).Ok?
    ensures j.JObj? && "key" in j.fields && j.fields["key"].JStr? && "title" in j.fields && j.fields["title"].JStr?
  {
  }

  /** The key pattern is never applied: a key that does not match it is
      accepted. */
  lemma KeyPatternNotApplied()
    ensures !KeyPattern("x")
    ensures ParseUi1(JObj(map["key" := JStr("x"), "title" := JStr("t")])).Ok?
  {
    Ui1Defaults("x", "t");
  }

  /** ui1 is tried first: a document with the literal key `fieldsets`, a
      title and valid field sets is taken as a ui1, and its field sets are
      dropped. */
  lemma FirstUnionMemberWins(title: string, u: Ui2)
    requires Ui2Valid(u)
    ensures var j := JObj(Ui2Json(u).fields["title" := JStr(title)]);
      && ParseUi2(j) == Ok(u)
      && ParseUi(j) == Ok(Form(Ui1("fieldsets", title, None, None, None, Some(false), None)))
  {
    Ui2RoundTrip(u);
    var j := JObj(Ui2Json(u).fields["title" := JStr(title)]);
    assert j.fields["fieldsets"] == Ui2Json(u).fields["fieldsets"];
  }

  /** A ui2 needs the literal key, and its field sets are not empty and not
      repeated. */
  lemma Ui2Constraints(j: Json)
    requires ParseUi2(j).Ok?
    ensures j.JObj? && "key" in j.fields && j.fields["key"] == JStr("fieldsets")
    ensures |ParseUi2(j).value.fieldsets| >= 1 && Distinct(ParseUi2(j).value.fieldsets)
  {
  }
}
