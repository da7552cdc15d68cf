/** The cookiecutter templates the current ImageJ op generator builds: one
    per plugin that has at least one supported overloading method. */
module ImagejJson {
  import opened Wrappers
  import opened Text
  import opened OrderedDicts
  import opened ImagejPopulate
  import opened ImagejWalk
  import opened PyRepr

  /* ---------------------------------------------------------------
     The call string of an overloading method
     --------------------------------------------------------------- */

  /** The error the replacement callback raises: the table has no entry
      for the character matched. */
  datatype SubstError = KeyError(c: char)

  /** `repr` of each string of a list, in order. */
  function Reprs(ts: seq<string>): (rs: seq<string>)
    ensures |rs| == |ts| && forall i :: 0 <= i < |ts| ==> rs[i] == Repr(ts[i])
  {
    seq(|ts|, i requires 0 <= i < |ts| => Repr(ts[i]))
  }

  /** `str(ts)` for a list of strings: the items' `repr`s between square
      brackets, separated by `, `. */
  function ListRepr(ts: seq<string>): string {
    "[" + Join(", ", Reprs(ts)) + "]"
  }

  /** What the callback does with one character of `s`: the characters
      the pattern `[\s'\[\]]` matches are looked up in the replacement
      table, which turns brackets into parentheses and drops quotes and
      spaces, and has no entry for any other whitespace character; every
      other character is kept. */
  function SubstChar(c: char): Result<string, SubstError> {
    if c == '[' then Ok("(")
    else if c == ']' then Ok(")")
    else if c == '\'' || c == ' ' then Ok("")
    else if IsSpace(c) then Err(KeyError(c))
    else Ok([c])
  }

  /** The concatenation of two results: the first error wins. */
  function Then(a: Result<string, SubstError>, b: Result<string, SubstError>): Result<string, SubstError> {
    if a.Err? then a else if b.Err? then b else Ok(a.value + b.value)
  }

  /** `re.sub` with the callback over all of `s`. */
  function Subst(s: string): Result<string, SubstError>
    decreases |s|
  {
    if s == [] then Ok("") else Then(SubstChar(s[0]), Subst(s[1..]))
  }

  lemma ThenAssoc(x: Result<string, SubstError>, y: Result<string, SubstError>, z: Result<string, SubstError>)
    ensures Then(x, Then(y, z)) == Then(Then(x, y), z)
  {
    if x.Ok? && y.Ok? && z.Ok? {
      assert x.value + (y.value + z.value) == (x.value + y.value) + z.value;
    }
  }

  lemma {:induction false} SubstAppend(a: string, b: string)
    ensures Subst(a + b) == Then(Subst(a), Subst(b))
    decreases |a|
  {
    if a == [] {
      assert a + b == b;
      if Subst(b).Ok? {
        assert "" + Subst(b).value == Subst(b).value;
      }
    } else {
      assert (a + b)[0] == a[0];
      assert (a + b)[1..] == a[1..] + b;
      SubstAppend(a[1..], b);
      ThenAssoc(SubstChar(a[0]), Subst(a[1..]), Subst(b));
    }
  }

  /** The substitution on a one-character string. */
  lemma SubstOne(c: char)
    ensures Subst([c]) == SubstChar(c)
  {
    assert [c][1..] == [];
    if SubstChar(c).Ok? {
      assert SubstChar(c).value + "" == SubstChar(c).value;
    }
  }

  /** The callback raises iff the text holds a whitespace character other
      than the space. */
  lemma {:induction false} SubstRaises(s: string)
    ensures Subst(s).Ok? <==> forall i :: 0 <= i < |s| ==> NoOddSpace(s[i])
    decreases |s|
  {
    if s != [] {
      SubstRaises(s[1..]);
      assert forall i :: 1 <= i < |s| ==> s[i] == s[1..][i - 1];
    }
  }

  /** The substitution never raises on a printed list of strings: `repr`
      escapes every whitespace character but the space, so the table has
      an entry for every character the pattern matches. */
  lemma ListReprSubstOk(ts: seq<string>)
    ensures Subst(ListRepr(ts)).Ok?
  {
    var rs := Reprs(ts);
    forall i | 0 <= i < |rs|
      ensures forall j :: 0 <= j < |rs[i]| ==> NoOddSpace(rs[i][j])
    {
      ReprNoOddSpace(ts[i]);
    }
    JoinNoOddSpace(rs);
    var j := Join(", ", rs);
    var l := ListRepr(ts);
    forall k | 0 <= k < |l|
      ensures NoOddSpace(l[k])
    {
      if 0 < k < |l| - 1 {
        assert l[k] == j[k - 1];
      }
    }
    SubstRaises(l);
  }

  /** Joining with `, ` brings in no whitespace but the space. */
  lemma {:induction false} JoinNoOddSpace(rs: seq<string>)
    requires forall i :: 0 <= i < |rs| ==> forall j :: 0 <= j < |rs[i]| ==> NoOddSpace(rs[i][j])
    ensures forall k :: 0 <= k < |Join(", ", rs)| ==> NoOddSpace(Join(", ", rs)[k])
    decreases |rs|
  {
    if |rs| > 1 {
      var front := rs[..|rs| - 1];
      JoinNoOddSpace(front);
      var jf, last := Join(", ", front), rs[|rs| - 1];
      AllNoOddSpaceAppend(jf, ", ");
      AllNoOddSpaceAppend(jf + ", ", last);
    }
  }

  lemma AllNoOddSpaceAppend(a: string, b: string)
    requires forall k :: 0 <= k < |a| ==> NoOddSpace(a[k])
    requires forall k :: 0 <= k < |b| ==> NoOddSpace(b[k])
    ensures forall k :: 0 <= k < |a + b| ==> NoOddSpace((a + b)[k])
  {
    forall k | 0 <= k < |a + b|
      ensures NoOddSpace((a + b)[k])
    {
      if k < |a| {
        assert (a + b)[k] == a[k];
      } else {
        assert (a + b)[k] == b[k - |a|];
      }
    }
  }

  /** A title as the call string shows it: its `repr` with the quotes and
      spaces dropped and square brackets turned into parentheses. */
  function CleanTitle(t: string): string {
    ReprNoOddSpace(t);
    SubstRaises(Repr(t));
    Subst(Repr(t)).value
  }

  /** Each title as the call string shows it, in order. */
  function CleanTitles(ts: seq<string>): (cs: seq<string>)
    ensures |cs| == |ts| && forall i :: 0 <= i < |ts| ==> cs[i] == CleanTitle(ts[i])
  {
    seq(|ts|, i requires 0 <= i < |ts| => CleanTitle(ts[i]))
  }

  /** The call string stored under a supported method's name. */
  function Namespace(op: Op): string {
    ListReprSubstOk(op.ImagejTitleRequiredInputs());
    "out = ij.op()." + ReplaceChar(op.plugin, '.', "().") + Subst(ListRepr(op.ImagejTitleRequiredInputs())).value
  }

  /** A character the substitution keeps. */
  predicate Kept(c: char) {
    SubstChar(c) == Ok([c])
  }

  /** A character of a title that reaches the call string unchanged. */
  predicate TitleChar(c: char) {
    Plain(c) && c != '[' && c != ']' && c != ' '
  }

  lemma TitleCharKept(t: string)
    requires forall i :: 0 <= i < |t| ==> TitleChar(t[i])
    ensures forall i :: 0 <= i < |t| ==> Kept(t[i])
  {
  }

  lemma {:induction false} SubstKept(t: string)
    requires forall i :: 0 <= i < |t| ==> Kept(t[i])
    ensures Subst(t) == Ok(t)
    decreases |t|
  {
    if t != [] {
      SubstKept(t[1..]);
      assert t == [t[0]] + t[1..];
    }
  }

  lemma SubstQuoted(t: string)
    requires forall i :: 0 <= i < |t| ==> Kept(t[i])
    ensures Subst("'" + t + "'") == Ok(t)
  {
    SubstKept(t);
    SubstOne('\'');
    SubstAppend("'" + t, "'");
    SubstAppend("'", t);
    assert "" + t + "" == t;
  }

  /** A title of printable characters without brackets, quotes, spaces
      or backslashes shows as itself. */
  lemma CleanPlainTitle(t: string)
    requires forall i :: 0 <= i < |t| ==> TitleChar(t[i])
    ensures CleanTitle(t) == t
  {
    ReprPlain(t);
    TitleCharKept(t);
    SubstQuoted(t);
  }

  /** A tab in a title stays escaped as `\t` in the call string. */
  lemma CleanTabExample()
    ensures CleanTitle("a\tb") == "a\\tb"
  {
    var shown := "a\\tb";
    CleanTitleOk("a\tb");
    ReprTabExample();
    assert forall i :: 0 <= i < |shown| ==> Kept(shown[i]);
    SubstQuoted(shown);
  }

  /** A title holding a single quote keeps the double quotes `repr`
      chose and loses its own quote. */
  lemma CleanQuoteExample()
    ensures CleanTitle("it's") == "\"its\""
  {
    CleanTitleOk("it's");
    ReprQuoteExample();
    assert forall i :: 0 <= i < 3 ==> Kept("\"it"[i]);
    assert forall i :: 0 <= i < 2 ==> Kept("s\""[i]);
    SubstKept("\"it");
    SubstKept("s\"");
    SubstOne('\'');
    SubstAppend("\"it", "'s\"");
    SubstAppend("'", "s\"");
    assert "\"it" + "'s\"" == "\"it's\"";
    assert "'" + "s\"" == "'s\"";
    assert "\"it" + ("" + "s\"") == "\"its\"";
  }

  /** The `repr`s of the titles separated by `, ` become the shown titles
      separated by `,`. */
  lemma {:induction false} SubstJoined(ts: seq<string>)
    ensures Subst(Join(", ", Reprs(ts))) == Ok(Join(",", CleanTitles(ts)))
    decreases |ts|
  {
    if |ts| == 1 {
      CleanTitleOk(ts[0]);
    } else if |ts| > 1 {
      var front, t := ts[..|ts| - 1], ts[|ts| - 1];
      var rs, cs := Reprs(ts), CleanTitles(ts);
      assert rs[..|ts| - 1] == Reprs(front);
      assert cs[..|ts| - 1] == CleanTitles(front);
      var jf := Join(", ", Reprs(front));
      assert Join(", ", rs) == jf + ", " + rs[|ts| - 1];
      assert Join(",", cs) == Join(",", CleanTitles(front)) + "," + cs[|ts| - 1];
      SubstJoined(front);
      CleanTitleOk(t);
      SubstSeparator();
      SubstAppend(jf + ", ", rs[|ts| - 1]);
      SubstAppend(jf, ", ");
    }
  }

  lemma CleanTitleOk(t: string)
    ensures Subst(Repr(t)) == Ok(CleanTitle(t))
  {
    ReprNoOddSpace(t);
    SubstRaises(Repr(t));
  }

  lemma SubstSeparator()
    ensures Subst(", ") == Ok(",")
  {
    SubstOne(',');
    SubstOne(' ');
    SubstAppend([','], [' ']);
    assert [','] + [' '] == ", ";
    assert "," + "" == ",";
  }

  /** The call string is `out = ij.op().` followed by the op name with
      each `.` turned into `().`, then the required titles, each as the
      call string shows it, separated by commas between parentheses. */
  lemma NamespaceShape(op: Op)
    ensures Namespace(op) == "out = ij.op()." + ReplaceChar(op.plugin, '.', "().")
      + "(" + Join(",", CleanTitles(op.ImagejTitleRequiredInputs())) + ")"
  {
    var ts := op.ImagejTitleRequiredInputs();
    var j := Join(", ", Reprs(ts));
    var c := Join(",", CleanTitles(ts));
    var pre := "out = ij.op()." + ReplaceChar(op.plugin, '.', "().");
    SubstJoined(ts);
    SubstAppend("[" + j, "]");
    SubstAppend("[", j);
    SubstOne('[');
    SubstOne(']');
    assert Subst(ListRepr(ts)) == Ok("(" + c + ")");
    assert pre + ("(" + c + ")") == pre + "(" + c + ")";
  }

  /** With plain titles the parentheses hold the titles themselves. */
  lemma NamespacePlain(op: Op)
    requires forall i :: 0 <= i < |op.required| ==>
      forall j :: 0 <= j < |op.required[i].v.title| ==> TitleChar(op.required[i].v.title[j])
    ensures Namespace(op) == "out = ij.op()." + ReplaceChar(op.plugin, '.', "().")
      + "(" + Join(",", op.ImagejTitleRequiredInputs()) + ")"
  {
    var ts := op.ImagejTitleRequiredInputs();
    NamespaceShape(op);
    forall i | 0 <= i < |ts|
      ensures CleanTitles(ts)[i] == ts[i]
    {
      CleanPlainTitle(ts[i]);
    }
    assert CleanTitles(ts) == ts;
  }

  /* ---------------------------------------------------------------
     The project description
     --------------------------------------------------------------- */

  /** `s` without its first and last character. */
  function Inner(s: string): string {
    if |s| >= 2 then s[1..|s| - 1] else ""
  }

  /** The printed list of names with its single quotes dropped, and
      without the brackets. */
  function ShortDescription(names: seq<string>): string {
    Inner(ReplaceChar(ListRepr(names), '\'', ""))
  }

  /** Each name's `repr` without its single quotes, in order. */
  function Unquoted(ts: seq<string>): (us: seq<string>)
    ensures |us| == |ts| && forall i :: 0 <= i < |ts| ==> us[i] == ReplaceChar(Repr(ts[i]), '\'', "")
  {
    seq(|ts|, i requires 0 <= i < |ts| => ReplaceChar(Repr(ts[i]), '\'', ""))
  }

  lemma {:induction false} UnquoteJoined(ts: seq<string>)
    ensures ReplaceChar(Join(", ", Reprs(ts)), '\'', "") == Join(", ", Unquoted(ts))
    decreases |ts|
  {
    if |ts| > 1 {
      var front := ts[..|ts| - 1];
      var rs, us := Reprs(ts), Unquoted(ts);
      assert rs[..|ts| - 1] == Reprs(front);
      assert us[..|ts| - 1] == Unquoted(front);
      var jf := Join(", ", Reprs(front));
      assert Join(", ", rs) == jf + ", " + rs[|ts| - 1];
      UnquoteJoined(front);
      ReplaceCharAppend(jf + ", ", rs[|ts| - 1], '\'', "");
      ReplaceCharAppend(jf, ", ", '\'', "");
    }
  }

  lemma Unquote(t: string)
    requires '\'' !in t
    ensures ReplaceChar("'" + t + "'", '\'', "") == t
  {
    ReplaceCharAppend("'" + t, "'", '\'', "");
    ReplaceCharAppend("'", t, '\'', "");
    assert ReplaceChar("'", '\'', "") == "" by {
      assert "'"[1..] == "";
    }
    assert "" + t + "" == t;
  }

  /** The description lists each name's `repr`, without single quotes,
      separated by `, `. */
  lemma ShortDescriptionShape(names: seq<string>)
    ensures ShortDescription(names) == Join(", ", Unquoted(names))
  {
    var j := Join(", ", Reprs(names));
    UnquoteJoined(names);
    ReplaceCharAppend("[" + j, "]", '\'', "");
    ReplaceCharAppend("[", j, '\'', "");
    var u := "[" + Join(", ", Unquoted(names)) + "]";
    assert ReplaceChar(ListRepr(names), '\'', "") == u;
    assert u[1..|u| - 1] == Join(", ", Unquoted(names));
  }

  /** With names of printable characters and no quote or backslash, the
      description lists the names themselves. */
  lemma ShortDescriptionPlain(names: seq<string>)
    requires forall i :: 0 <= i < |names| ==> forall j :: 0 <= j < |names[i]| ==> Plain(names[i][j])
    ensures ShortDescription(names) == Join(", ", names)
  {
    ShortDescriptionShape(names);
    forall i | 0 <= i < |names|
      ensures Unquoted(names)[i] == names[i]
    {
      ReprPlain(names[i]);
      Unquote(names[i]);
    }
    assert Unquoted(names) == names;
  }

  /* ---------------------------------------------------------------
     Templates
     --------------------------------------------------------------- */

  /** An entry of a template's `_inputs`: the menu of overloading methods
      under `opName`, or a plugin's required parameter. */
  datatype JsonInput =
    | OpNameEnum(title: string, kind: string, options: seq<string>, description: string, required: string)
    | Param(entry: InputEntry)

  /** The cookiecutter template of one plugin. */
  datatype PluginJson = PluginJson(
    author: string,
    email: string,
    githubUsername: string,
    version: string,
    projectName: string,
    projectShortDescription: string,
    pluginNamespace: Dict<string>,
    inputs: Dict<JsonInput>,
    outputs: Dict<OutputEntry>,
    projectSlug: string)

  /** The author information every template repeats. */
  datatype Author = Author(author: string, email: string, githubUsername: string, version: string)

  const ProjectSlug: string := "polus-{{ cookiecutter.project_name|lower|replace(' ', '-') }}-plugin"

  /** The names of the ops, in order. */
  function OpNames(ops: seq<Op>): (ns: seq<string>)
    ensures |ns| == |ops| && forall i :: 0 <= i < |ops| ==> ns[i] == ops[i].name
  {
    seq(|ops|, i requires 0 <= i < |ops| => ops[i].name)
  }

  /** The call string of each method, in order. */
  function CallStrings(ops: seq<Op>): (cs: seq<string>)
    ensures |cs| == |ops| && forall i :: 0 <= i < |ops| ==> cs[i] == Namespace(ops[i])
  {
    seq(|ops|, i requires 0 <= i < |ops| => Namespace(ops[i]))
  }

  /** Each op's name mapped to its call string, in op order. */
  function Namespaces(ops: seq<Op>): Dict<string> {
    Collect(OpNames(ops), CallStrings(ops))
  }

  /** The plugin's required-parameter entries as template inputs. */
  function AsParams(d: Dict<InputEntry>): (j: Dict<JsonInput>)
    ensures j.keys == d.keys
    ensures forall k :: k in j.vals <==> k in d.vals
    ensures forall k :: k in d.vals ==> j.vals[k] == Param(d.vals[k])
  {
    Dict(d.keys, map k | k in d.vals :: Param(d.vals[k]))
  }

  /** The template of the plugin `p` stored under `name`. */
  function TemplateOf(name: string, p: PluginState, a: Author): PluginJson
    requires p.Valid()
  {
    var ops := p.supportedOps.Values();
    var menu := OpNameEnum("Operation", "enum", OpNames(ops), "Operation to peform", "False");
    PluginJson(
      a.author, a.email, a.githubUsername, a.version,
      "ImageJ " + ReplaceChar(name, '.', " "),
      ShortDescription(p.supportedOps.keys),
      Namespaces(ops),
      Update(Dict(["opName"], map["opName" := menu]), AsParams(p.allRequiredInputs)),
      p.allOutputs,
      ProjectSlug)
  }

  /** Methods with distinct names give one call string per name, in order. */
  lemma NamespacesMeaning(ops: seq<Op>)
    requires forall i, j :: 0 <= i < j < |ops| ==> ops[i].name != ops[j].name
    ensures var d := Namespaces(ops);
      && d.Valid()
      && d.keys == OpNames(ops)
      && forall i :: 0 <= i < |ops| ==> ops[i].name in d.vals && d.vals[ops[i].name] == Namespace(ops[i])
  {
    var ks, vs := OpNames(ops), CallStrings(ops);
    CollectMeaning(ks, vs);
    forall i | 0 <= i < |ops|
      ensures ks[i] == ops[i].name && vs[i] == Namespace(ops[i])
    {
    }
  }

  /** In a well formed dictionary of methods filed under their names, the
      names of the values, in order, are the keys. */
  lemma ValueNames(ops: Dict<Op>)
    requires ops.Valid()
    requires forall k :: k in ops.vals ==> ops.vals[k].name == k
    ensures OpNames(ops.Values()) == ops.keys
    ensures forall i, j :: 0 <= i < j < |ops.keys| ==> ops.Values()[i].name != ops.Values()[j].name
    ensures forall k :: k in ops.vals ==> exists i :: 0 <= i < |ops.keys| && ops.Values()[i] == ops.vals[k]
  {
    var vs := ops.Values();
    forall k | k in ops.vals
      ensures exists i :: 0 <= i < |ops.keys| && vs[i] == ops.vals[k]
    {
      var i :| 0 <= i < |ops.keys| && ops.keys[i] == k;
      assert vs[i] == ops.vals[k];
    }
  }

  /** The call strings of a template are those of the plugin's supported
      methods, under their names and in their order. */
  lemma TemplateNamespace(name: string, p: PluginState, a: Author)
    requires p.Valid()
    ensures var ns, ops := TemplateOf(name, p, a).pluginNamespace, p.supportedOps;
      && ns.Valid()
      && ns.keys == ops.keys
      && forall k :: k in ops.vals ==> k in ns.vals && ns.vals[k] == Namespace(ops.vals[k])
  {
    ValueNames(p.supportedOps);
    NamespacesMeaning(p.supportedOps.Values());
  }

  /** The template's inputs start with the `opName` menu, whose options
      are the plugin's supported methods in order, followed by the
      plugin's required parameters; a parameter replaces the menu only if
      it is itself titled `opName`. The outputs are the plugin's. */
  lemma TemplateInputs(name: string, p: PluginState, a: Author)
    requires p.Valid()
    ensures var t, ops := TemplateOf(name, p, a), p.supportedOps;
      && t.inputs.Valid()
      && |t.inputs.keys| > 0 && t.inputs.keys[0] == "opName"
      && t.inputs.vals == map["opName" := OpNameEnum("Operation", "enum", ops.keys, "Operation to peform", "False")]
           + AsParams(p.allRequiredInputs).vals
      && t.outputs == p.allOutputs
  {
    ValueNames(p.supportedOps);
    var menu := OpNameEnum("Operation", "enum", p.supportedOps.keys, "Operation to peform", "False");
    var head := Dict(["opName"], map["opName" := menu]);
    var inputs := TemplateOf(name, p, a).inputs;
    assert inputs == Update(head, AsParams(p.allRequiredInputs));
    UpdateMeaning(head, AsParams(p.allRequiredInputs));
    assert inputs.keys[..1] == ["opName"];
    assert inputs.keys[0] == inputs.keys[..1][0];
  }

  /* ---------------------------------------------------------------
     The generator
     --------------------------------------------------------------- */

  /** The plugins with at least one supported method: those that get a
      template. */
  function Supported(ps: map<string, PluginState>): (s: set<string>)
    ensures forall n :: n in s <==> n in ps && |ps[n].supportedOps.keys| > 0
  {
    set n | n in ps && |ps[n].supportedOps.keys| > 0
  }

  /** The template of every plugin in `ps`. */
  function Templates(ps: map<string, PluginState>, a: Author): (m: map<string, PluginJson>)
    requires forall n :: n in ps ==> ps[n].Valid()
    ensures m.Keys == ps.Keys
    ensures forall n :: n in ps ==> m[n] == TemplateOf(n, ps[n], a)
  {
    map n | n in ps :: TemplateOf(n, ps[n], a)
  }

  /** The templates `build_json` writes when it walks the plugins `names`
      in order. */
  function BuildAll(names: seq<string>, ps: map<string, PluginState>, a: Author): Dict<PluginJson>
    requires forall n :: n in ps ==> ps[n].Valid()
  {
    Walk(names, Supported(ps), Templates(ps, a))
  }

  /** `build_json` writes one template for each plugin with a supported
      method, in plugin order, each built from that plugin alone. */
  lemma BuildAllMeaning(names: seq<string>, ps: map<string, PluginState>, a: Author)
    requires forall i, j :: 0 <= i < j < |names| ==> names[i] != names[j]
    requires forall n :: n in names ==> n in ps
    requires forall n :: n in ps ==> ps[n].Valid()
    ensures var d := BuildAll(names, ps, a);
      && d.Valid()
      && d.keys == Filter(names, Supported(ps))
      && forall k :: k in d.vals ==> k in names && d.vals[k] == TemplateOf(k, ps[k], a)
  {
    WalkMeaning(names, Supported(ps), Templates(ps, a));
  }

  /** The contents of every plugin in `ps`. */
  function States(ps: map<string, Plugin>): (m: map<string, PluginState>)
    reads ps.Values
    ensures m.Keys == ps.Keys
    ensures forall k :: k in ps ==> m[k] == ps[k].State()
  {
    map k | k in ps :: ps[k].State()
  }

  lemma StatesValid(pv: map<string, Plugin>)
    requires forall n :: n in pv ==> pv[n].Valid()
    ensures forall n :: n in States(pv) ==> States(pv)[n].Valid()
  {
    forall n | n in States(pv)
      ensures States(pv)[n].Valid()
    {
      assert States(pv)[n] == pv[n].State();
    }
  }

  /** The generator object: every plugin parsed from the ImageJ op help,
      and the templates built from them. */
  class Populate {
    var plugins: Dict<Plugin>
    var jsonDic: Dict<PluginJson>

    /** Each plugin is well formed and named by its key, so that no
        object is filed under two keys. */
    ghost predicate Valid()
      reads this`plugins, plugins.vals.Values
    {
      && plugins.Valid()
      && (forall k :: k in plugins.vals ==> plugins.vals[k].Valid() && plugins.vals[k].name == k)
    }

    constructor()
      ensures Valid() && plugins == Empty() && jsonDic == Empty()
    {
      plugins := Empty();
      jsonDic := Empty();
    }

    /** Registers a new, empty plugin under `name`; a plugin met again
        starts over with a new, empty object. */
    method AddPlugin(name: string)
      requires Valid()
      modifies this
      ensures Valid() && jsonDic == old(jsonDic)
      ensures name in plugins.vals && fresh(plugins.vals[name])
      ensures plugins == old(plugins).Put(name, plugins.vals[name])
      ensures plugins.vals[name].State() == PluginState(name, Empty(), Empty(), Empty(), Empty())
    {
      var p := new Plugin(name);
      PutValid(plugins, name, p);
      plugins := plugins.Put(name, p);
    }

    /** Hands the op to the plugin of that name: only that plugin changes. */
    method AddOp(name: string, op: Op)
      requires Valid() && name in plugins.vals && op.output.v.title == "out"
      modifies plugins.vals[name]
      ensures Valid() && plugins == old(plugins) && jsonDic == old(jsonDic)
      ensures plugins.vals[name].State() == AfterAddOp(old(plugins.vals[name].State()), op)
      ensures forall k :: k in plugins.vals && k != name ==> unchanged(plugins.vals[k])
    {
      plugins.vals[name].AddOp(op);
    }

    /** `build_json`: walks the plugins in order and writes a template for
        each one with a supported method. */
    method BuildJson(a: Author)
      requires Valid()
      modifies this`jsonDic
      ensures Valid()
      ensures jsonDic == BuildAll(plugins.keys, old(States(plugins.vals)), a)
    {
      var d := Templated(a);
      jsonDic := d;
    }

    /** The templates of the plugins, computed without changing anything. */
    method Templated(a: Author) returns (d: Dict<PluginJson>)
      requires Valid()
      ensures forall n :: n in States(plugins.vals) ==> States(plugins.vals)[n].Valid()
      ensures d == BuildAll(plugins.keys, States(plugins.vals), a)
    {
      var ps := States(plugins.vals);
      StatesValid(plugins.vals);
      d := WalkPlugins(plugins.keys, ps, a);
    }
  }

  /** The loop of `build_json` over the plugins `names`. */
  method WalkPlugins(names: seq<string>, ps: map<string, PluginState>, a: Author) returns (d: Dict<PluginJson>)
    requires forall n :: n in names ==> n in ps
    requires forall n :: n in ps ==> ps[n].Valid()
    ensures d == BuildAll(names, ps, a)
  {
    ghost var supported, templates := Supported(ps), Templates(ps, a);
    d := Empty();
    var i := 0;
    while i < |names|
      invariant 0 <= i <= |names|
      invariant d == Walk(names[..i], supported, templates)
    {
      var n := names[i];
      WalkSnoc(names, i, supported, templates);
      if |ps[n].supportedOps.keys| > 0 {
        var t := TemplateOf(n, ps[n], a);
        assert templates[n] == t;
        d := d.Put(n, t);
      }
      i := i + 1;
    }
    assert names[..i] == names;
  }
}

/** The walk of `build_json` over named items in order: an item in
    `supported` adds its value under its name. */
module ImagejWalk {
  import opened OrderedDicts

  function Walk<J>(names: seq<string>, supported: set<string>, build: map<string, J>): Dict<J>
    decreases |names|
  {
    if names == [] then Empty()
    else
      var n := names[|names| - 1];
      var d := Walk(names[..|names| - 1], supported, build);
      if n !in supported || n !in build then d else d.Put(n, build[n])
  }

  /** The dictionary pairing each key with its value, in order. */
  function Collect<V>(ks: seq<string>, vs: seq<V>): Dict<V>
    requires |ks| == |vs|
    decreases |ks|
  {
    if ks == [] then Empty()
    else Collect(ks[..|ks| - 1], vs[..|vs| - 1]).Put(ks[|ks| - 1], vs[|vs| - 1])
  }

  /** With distinct keys, the collection holds each key once, in order,
      with its value. */
  lemma {:induction false} CollectMeaning<V>(ks: seq<string>, vs: seq<V>)
    requires |ks| == |vs|
    requires forall i, j :: 0 <= i < j < |ks| ==> ks[i] != ks[j]
    ensures Collect(ks, vs).Valid()
    ensures Collect(ks, vs).keys == ks
    ensures forall i :: 0 <= i < |ks| ==> ks[i] in Collect(ks, vs).vals && Collect(ks, vs).vals[ks[i]] == vs[i]
    decreases |ks|
  {
    if ks != [] {
      var n := |ks| - 1;
      var kf, vf := ks[..n], vs[..n];
      CollectMeaning(kf, vf);
      assert ks[n] !in kf by {
        forall i | 0 <= i < n
          ensures kf[i] != ks[n]
        {
          assert kf[i] == ks[i];
        }
      }
      PutFresh(Collect(kf, vf), kf, vf, ks[n], vs[n]);
      FrontLast(ks);
      FrontLast(vs);
    }
  }

  lemma FrontLast<T>(s: seq<T>)
    requires |s| > 0
    ensures s[..|s| - 1] + [s[|s| - 1]] == s
  {
  }

  /** Adding a new key to a dictionary that pairs `ks` with `vs`. */
  lemma PutFresh<V>(d: Dict<V>, ks: seq<string>, vs: seq<V>, k: string, v: V)
    requires d.Valid() && d.keys == ks && |vs| == |ks|
    requires forall i :: 0 <= i < |ks| ==> ks[i] in d.vals && d.vals[ks[i]] == vs[i]
    requires k !in ks
    ensures d.Put(k, v).Valid()
    ensures d.Put(k, v).keys == ks + [k]
    ensures forall i :: 0 <= i < |ks| + 1 ==>
      (ks + [k])[i] in d.Put(k, v).vals && d.Put(k, v).vals[(ks + [k])[i]] == (vs + [v])[i]
  {
    PutValid(d, k, v);
    forall i | 0 <= i < |ks| + 1
      ensures (ks + [k])[i] in d.Put(k, v).vals && d.Put(k, v).vals[(ks + [k])[i]] == (vs + [v])[i]
    {
      if i < |ks| {
        assert (ks + [k])[i] == ks[i] && (vs + [v])[i] == vs[i];
      }
    }
  }

  /** The names of `names` in `s`, in order. */
  function Filter(names: seq<string>, s: set<string>): (r: seq<string>)
    ensures forall n :: n in r <==> n in names && n in s
    decreases |names|
  {
    if names == [] then []
    else
      var n := names[|names| - 1];
      var front := Filter(names[..|names| - 1], s);
      assert forall m :: m in names <==> m in names[..|names| - 1] || m == n;
      if n in s then front + [n] else front
  }

  lemma {:induction false} WalkMeaning<J>(names: seq<string>, supported: set<string>, build: map<string, J>)
    requires forall i, j :: 0 <= i < j < |names| ==> names[i] != names[j]
    requires forall n :: n in names ==> n in build
    ensures var d := Walk(names, supported, build);
      && d.Valid()
      && (forall k :: k in d.vals ==> k in names && k in build && build[k] == d.vals[k])
      && d.keys == Filter(names, supported)
    decreases |names|
  {
    if names != [] {
      var front := names[..|names| - 1];
      var n := names[|names| - 1];
      WalkMeaning(front, supported, build);
      var d := Walk(front, supported, build);
      assert n !in front;
      if n in supported {
        PutValid(d, n, build[n]);
      }
    }
  }

  /** One more item walked. */
  lemma WalkSnoc<J>(names: seq<string>, i: nat, supported: set<string>, build: map<string, J>)
    requires i < |names|
    ensures var w, w', n := Walk(names[..i], supported, build), Walk(names[..i + 1], supported, build), names[i];
      && (n !in supported || n !in build ==> w' == w)
      && (n in supported && n in build ==> w' == w.Put(n, build[n]))
  {
    assert names[..i + 1][..i] == names[..i];
  }
}
