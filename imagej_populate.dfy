/** The ImageJ op generator (current version): each overloading method of
    an ImageJ op becomes an `Op` value, which classifies its parameters and
    decides whether the method can be turned into a WIPP plugin; a
    `Plugin` collects the methods of one op; `Populate` turns the plugins
    into cookiecutter templates. */
module ImagejPopulate {
  import opened Wrappers
  import opened Text
  import opened OrderedDicts
  import opened ImagejTypes
  import Layout

  /* ---------------------------------------------------------------
     Parameters
     --------------------------------------------------------------- */

  /** A parameter of an overloading method as parsed from the ops help:
      its ImageJ data type and its title. */
  datatype IjVar = IjVar(dtype: string, title: string)

  /** A parameter paired with its WIPP type. */
  datatype Mapped = Mapped(v: IjVar, wipp: string)

  /** The title `in` is a Python keyword, so it is renamed `in1`. */
  function Renamed(v: IjVar): IjVar {
    if v.title == "in" then IjVar(v.dtype, "in1") else v
  }

  /** The renaming loop of the constructor, which rewrites the caller's
      list in place: a parameter titled `in` becomes `in1`, every other
      parameter stays as it is and in its place. */
  method RenameReserved(inputs: array<IjVar>)
    modifies inputs
    ensures forall i :: 0 <= i < inputs.Length ==>
      inputs[i].dtype == old(inputs[i].dtype)
      && inputs[i].title == (if old(inputs[i].title) == "in" then "in1" else old(inputs[i].title))
    ensures forall i :: 0 <= i < inputs.Length ==> inputs[i] == Renamed(old(inputs[i]))
    ensures forall i :: 0 <= i < inputs.Length ==> inputs[i].title != "in"
  {
    var i := 0;
    while i < inputs.Length
      invariant 0 <= i <= inputs.Length
      invariant forall j :: 0 <= j < i ==> inputs[j] == Renamed(old(inputs[j]))
      invariant forall j :: i <= j < inputs.Length ==> inputs[j] == old(inputs[j])
    {
      if inputs[i].title == "in" {
        inputs[i] := IjVar(inputs[i].dtype, "in1");
      }
      i := i + 1;
    }
  }

  /** A parameter with the WIPP type the table gives its ImageJ type. */
  function MapVar(v: IjVar): (m: Mapped)
    ensures m.v == v && IsWippType(m.wipp)
  {
    Mapped(v, WippType(v.dtype))
  }

  /** Every parameter, in order, paired with its WIPP type. */
  function MapAll(vs: seq<IjVar>): (ms: seq<Mapped>)
    ensures |ms| == |vs|
    ensures forall i :: 0 <= i < |vs| ==> ms[i].v == vs[i] && ms[i].wipp == WippType(vs[i].dtype)
  {
    seq(|vs|, i requires 0 <= i < |vs| => MapVar(vs[i]))
  }

  function Titles(ms: seq<Mapped>): (ts: seq<string>)
    ensures |ts| == |ms| && forall i :: 0 <= i < |ms| ==> ts[i] == ms[i].v.title
  {
    seq(|ms|, i requires 0 <= i < |ms| => ms[i].v.title)
  }

  lemma TitlesSnoc(ms: seq<Mapped>)
    requires ms != []
    ensures Titles(ms) == Titles(ms[..|ms| - 1]) + [ms[|ms| - 1].v.title]
  {
  }

  function Dtypes(ms: seq<Mapped>): (ts: seq<string>)
    ensures |ts| == |ms| && forall i :: 0 <= i < |ms| ==> ts[i] == ms[i].v.dtype
  {
    seq(|ms|, i requires 0 <= i < |ms| => ms[i].v.dtype)
  }

  function Wipps(ms: seq<Mapped>): (ws: seq<string>)
    ensures |ws| == |ms| && forall i :: 0 <= i < |ms| ==> ws[i] == ms[i].wipp
  {
    seq(|ms|, i requires 0 <= i < |ms| => ms[i].wipp)
  }

  /* ---------------------------------------------------------------
     Required and optional parameters
     --------------------------------------------------------------- */

  /** A parameter is required unless its title ends in `?` or is `out`.
      Both tests read the last character of the title, which an empty
      title does not have. */
  predicate IsRequired(m: Mapped) {
    var t := m.v.title;
    |t| > 0 && t[|t| - 1] != '?' && t != "out"
  }

  predicate IsOptional(m: Mapped) {
    var t := m.v.title;
    |t| > 0 && (t[|t| - 1] == '?' || t == "out")
  }

  predicate TitlesNonEmpty(ms: seq<Mapped>) {
    forall i :: 0 <= i < |ms| ==> ms[i].v.title != ""
  }

  /** The required parameters, in order. */
  function Required(ms: seq<Mapped>): seq<Mapped>
    decreases |ms|
  {
    if ms == [] then [] else (if IsRequired(ms[0]) then [ms[0]] else []) + Required(ms[1..])
  }

  /** The optional parameters, in order. */
  function Optional(ms: seq<Mapped>): seq<Mapped>
    decreases |ms|
  {
    if ms == [] then [] else (if IsOptional(ms[0]) then [ms[0]] else []) + Optional(ms[1..])
  }

  /** On a non-empty title the two tests are complementary. */
  lemma RequiredOrOptional(m: Mapped)
    requires m.v.title != ""
    ensures IsRequired(m) <==> !IsOptional(m)
  {
  }

  /** The required and the optional parameters split the parameters: when
      every title is non-empty, each parameter lands in exactly one of
      the two lists, as often as it occurs. */
  lemma {:induction false} RequiredOptionalPartition(ms: seq<Mapped>)
    requires TitlesNonEmpty(ms)
    ensures multiset(Required(ms)) + multiset(Optional(ms)) == multiset(ms)
    decreases |ms|
  {
    if ms != [] {
      var m, rest := ms[0], ms[1..];
      RequiredOptionalPartition(rest);
      RequiredOrOptional(m);
      assert ms == [m] + rest;
      if IsRequired(m) {
        assert Required(ms) == [m] + Required(rest);
        assert Optional(ms) == Optional(rest);
      } else {
        assert Required(ms) == Required(rest);
        assert Optional(ms) == [m] + Optional(rest);
      }
    }
  }

  /** Every required parameter is one of the parameters and passes the
      test; every optional one fails it. */
  lemma {:induction false} RequiredMembers(ms: seq<Mapped>)
    ensures forall m :: m in Required(ms) ==> m in ms && IsRequired(m)
    ensures forall m :: m in Optional(ms) ==> m in ms && IsOptional(m)
    decreases |ms|
  {
    if ms != [] {
      RequiredMembers(ms[1..]);
    }
  }

  /** Both lists keep the order of the parameters: filtering a
      concatenation filters each part. */
  lemma {:induction false} RequiredAppend(a: seq<Mapped>, b: seq<Mapped>)
    ensures Required(a + b) == Required(a) + Required(b)
    ensures Optional(a + b) == Optional(a) + Optional(b)
    decreases |a|
  {
    if a == [] {
      assert a + b == b;
    } else {
      assert (a + b)[0] == a[0];
      assert (a + b)[1..] == a[1..] + b;
      RequiredAppend(a[1..], b);
      var r := if IsRequired(a[0]) then [a[0]] else [];
      var o := if IsOptional(a[0]) then [a[0]] else [];
      assert Required(a + b) == r + (Required(a[1..]) + Required(b));
      assert Optional(a + b) == o + (Optional(a[1..]) + Optional(b));
      Layout.AppendAssoc(r, Required(a[1..]), Required(b));
      Layout.AppendAssoc(o, Optional(a[1..]), Optional(b));
    }
  }

  /* ---------------------------------------------------------------
     Support
     --------------------------------------------------------------- */

  /** Whether an overloading method can become a plugin. `msg[0]` says
      the required parameters and the output all have known WIPP types,
      `msg[1]` that some required parameter and the output are
      collections; `partial` needs both. `full` asks the same of all the
      parameters. The output test is Python's `in` on a string, a
      substring test. */
  method Support(inW: seq<string>, reqW: seq<string>, outW: string)
    returns (full: bool, partial: bool, msg: seq<bool>)
    ensures |msg| == 2
    ensures !msg[0] <==> Unknown in reqW || outW == Unknown
    ensures !msg[1] <==> "collection" !in reqW || !Contains(outW, "collection")
    ensures partial <==> msg[0] && msg[1]
    ensures !full <==>
      Unknown in inW || outW == Unknown || "collection" !in inW || !Contains(outW, "collection")
  {
    msg := [true, true];
    full := true;
    if Unknown in inW + [outW] {
      full := false;
    } else if "collection" !in inW || !Contains(outW, "collection") {
      full := false;
    }
    partial := true;
    if Unknown in reqW + [outW] {
      partial := false;
      msg := msg[0 := false];
    }
    if "collection" !in reqW || !Contains(outW, "collection") {
      partial := false;
      msg := msg[1 := false];
    }
  }

  /* ---------------------------------------------------------------
     Overloading methods
     --------------------------------------------------------------- */

  /** An overloading method of the op `plugin`. */
  datatype Op = Op(
    plugin: string,
    name: string,
    fullPath: string,
    inputs: seq<Mapped>,
    output: Mapped,
    required: seq<Mapped>,
    optional: seq<Mapped>,
    fullSupport: bool,
    partialSupport: bool,
    supportMsg: seq<bool>)
  {
    function ImagejInputDataTypes(): seq<string> { Dtypes(inputs) }
    function ImagejInputTitles(): seq<string> { Titles(inputs) }
    function WippTypeInputs(): seq<string> { Wipps(inputs) }
    function WippTypeOutput(): string { output.wipp }
    function ImagejTypeOutput(): string { output.v.dtype }
    function WippTypeRequiredInputs(): seq<string> { Wipps(required) }
    function ImagejTypeRequiredInputs(): seq<string> { Dtypes(required) }
    function ImagejTitleRequiredInputs(): seq<string> { Titles(required) }

    /** The output title with every `?` removed; it is always `out`. */
    function ImagejTitleOutput(): (t: string)
      ensures output.v.title == "out" ==> t == "out"
    {
      ReplaceChar(output.v.title, '?', "")
    }

    /** What the constructor establishes. */
    ghost predicate Valid() {
      && TitlesNonEmpty(inputs)
      && (forall i :: 0 <= i < |inputs| ==> inputs[i].v.title != "in")
      && (forall i :: 0 <= i < |inputs| ==> inputs[i].wipp == WippType(inputs[i].v.dtype))
      && output.v.title == "out" && output.wipp == WippType(output.v.dtype)
      && required == Required(inputs) && optional == Optional(inputs)
      && |supportMsg| == 2
      && (!supportMsg[0] <==> Unknown in Wipps(required) || output.wipp == Unknown)
      && (!supportMsg[1] <==> "collection" !in Wipps(required) || !Contains(output.wipp, "collection"))
      && (partialSupport <==> supportMsg[0] && supportMsg[1])
      && (!fullSupport <==>
            Unknown in Wipps(inputs) || output.wipp == Unknown
            || "collection" !in Wipps(inputs) || !Contains(output.wipp, "collection"))
    }
  }

  /** The constructor's only error: an empty parameter title, whose last
      character the required/optional test reads. */
  datatype OpError = IndexError

  /** Building an overloading method of an op. The renaming loop
      rewrites the caller's list first; the output's title is forced to
      `out`; every parameter and the output get their WIPP types; then
      the parameters are split and the support flags set. */
  method NewOp(plugin: string, name: string, fullPath: string, inputs: array<IjVar>, output: IjVar)
    returns (r: Result<Op, OpError>)
    modifies inputs
    ensures forall i :: 0 <= i < inputs.Length ==> inputs[i] == Renamed(old(inputs[i]))
    ensures r.Ok? <==> forall i :: 0 <= i < inputs.Length ==> old(inputs[i]).title != ""
    ensures r.Ok? ==> r.value.Valid()
    ensures r.Ok? ==> r.value.plugin == plugin && r.value.name == name && r.value.fullPath == fullPath
    ensures r.Ok? ==> r.value.inputs == MapAll(inputs[..])
    ensures r.Ok? ==> r.value.output == MapVar(IjVar(output.dtype, "out"))
  {
    RenameReserved(inputs);
    var out := output;
    if out.title != "out" {
      out := IjVar(out.dtype, "out");
    }
    var ins := MapAll(inputs[..]);
    var outM := MapVar(out);
    if exists i | 0 <= i < |ins| :: ins[i].v.title == "" {
      return Err(IndexError);
    }
    var req, opt := Required(ins), Optional(ins);
    var full, partial, msg := Support(Wipps(ins), Wipps(req), outM.wipp);
    r := Ok(Op(plugin, name, fullPath, ins, outM, req, opt, full, partial, msg));
  }

  /** The support decision in plain terms: partial support holds exactly
      when no required parameter and not the output has an unknown WIPP
      type, some required parameter is a collection and the output is a
      collection. */
  lemma PartialSupportMeaning(op: Op)
    requires op.Valid()
    ensures op.partialSupport <==>
      && (forall i :: 0 <= i < |op.required| ==> op.required[i].wipp != Unknown)
      && op.output.wipp == "collection"
      && (exists i :: 0 <= i < |op.required| && op.required[i].wipp == "collection")
  {
    CollectionSubstring(op.output.wipp);
    InWipps(op.required, Unknown);
    InWipps(op.required, "collection");
  }

  /** Full support asks the same of all the parameters. */
  lemma FullSupportMeaning(op: Op)
    requires op.Valid()
    ensures op.fullSupport <==>
      && (forall i :: 0 <= i < |op.inputs| ==> op.inputs[i].wipp != Unknown)
      && op.output.wipp == "collection"
      && (exists i :: 0 <= i < |op.inputs| && op.inputs[i].wipp == "collection")
  {
    CollectionSubstring(op.output.wipp);
    InWipps(op.inputs, Unknown);
    InWipps(op.inputs, "collection");
  }

  lemma InWipps(ms: seq<Mapped>, w: string)
    ensures w in Wipps(ms) <==> exists i :: 0 <= i < |ms| && ms[i].wipp == w
  {
    if w in Wipps(ms) {
      var i :| 0 <= i < |ms| && Wipps(ms)[i] == w;
    }
  }

  /** Full support does not imply partial support: a collection that is
      only an optional parameter gives the first without the second. */
  lemma FullWithoutPartial(op: Op)
    requires op.Valid()
    requires op.inputs == [Mapped(IjVar("Img", "image?"), "collection")]
    requires op.output == Mapped(IjVar("Img", "out"), "collection")
    ensures op.fullSupport && !op.partialSupport
  {
    assert !IsRequired(op.inputs[0]);
    assert op.inputs[1..] == [];
    assert Required(op.inputs) == Required(op.inputs[1..]);
    assert Wipps(op.inputs) == ["collection"];
    assert OccursAt(op.output.wipp, "collection", 0);
  }

  /** When every parameter is required, full support implies partial
      support. */
  lemma FullImpliesPartial(op: Op)
    requires op.Valid() && |op.optional| == 0 && op.fullSupport
    ensures op.partialSupport
  {
    AllRequired(op.inputs);
  }

  lemma {:induction false} AllRequired(ms: seq<Mapped>)
    requires TitlesNonEmpty(ms) && Optional(ms) == []
    ensures Required(ms) == ms
    decreases |ms|
  {
    if ms != [] {
      assert !IsOptional(ms[0]);
      AllRequired(ms[1..]);
    }
  }

  /* ---------------------------------------------------------------
     Plugins: the overloading methods of one op
     --------------------------------------------------------------- */

  /** The one-entry dictionary `k: v`. */
  function Single(k: string, v: string): (d: Dict<string>)
    ensures d.Valid() && d.keys == [k] && d.vals == map[k := v]
  {
    Dict([k], map[k := v])
  }

  /** The entry of a required parameter title in a plugin's input
      dictionary: its WIPP `type`, `title`, `description` and `required`
      flag come from the first method that has the title; `call_types`
      and `wipp_type` say, per method name, the ImageJ and WIPP type the
      parameter has in that method. */
  datatype InputEntry = InputEntry(
    wippType: string,
    title: string,
    description: string,
    required: bool,
    callTypes: Dict<string>,
    wippTypes: Dict<string>)

  /** The part of an entry only its first method sets. */
  function Fixed(e: InputEntry): (string, string, string, bool) {
    (e.wippType, e.title, e.description, e.required)
  }

  /** The value a per-method dictionary holds for method `n`, if any. */
  function At(d: Dict<string>, n: string): Option<string> {
    if n in d.vals then Some(d.vals[n]) else None
  }

  function NewInput(opName: string, m: Mapped): InputEntry {
    InputEntry(m.wipp, m.v.title, m.v.title, false, Single(opName, m.v.dtype), Single(opName, m.wipp))
  }

  /** The entry a parameter leaves under its title: a fresh one for a new
      title; for a known title the old entry with the types the parameter
      has in method `opName` recorded. */
  function EntryAfter(d: Dict<InputEntry>, opName: string, m: Mapped): InputEntry {
    var t := m.v.title;
    if t !in d.vals then NewInput(opName, m)
    else
      var e := d.vals[t];
      e.(wippTypes := e.wippTypes.Put(opName, m.wipp), callTypes := e.callTypes.Put(opName, m.v.dtype))
  }

  /** One step of the input loop of `add_op`: both of its branches set the
      entry of the parameter's title. */
  function AddInput(d: Dict<InputEntry>, opName: string, m: Mapped): (r: Dict<InputEntry>)
    requires d.Valid()
    ensures r.Valid()
  {
    PutValid(d, m.v.title, EntryAfter(d, opName, m));
    d.Put(m.v.title, EntryAfter(d, opName, m))
  }

  /** A known title keeps the part of its entry only the first method
      sets and what other methods recorded; a new title takes that part
      from the parameter; either way the parameter's types are recorded
      under `opName`. */
  lemma EntryAfterMeaning(d: Dict<InputEntry>, opName: string, m: Mapped)
    ensures m.v.title in d.vals ==> Fixed(EntryAfter(d, opName, m)) == Fixed(d.vals[m.v.title])
    ensures m.v.title !in d.vals ==> Fixed(EntryAfter(d, opName, m)) == (m.wipp, m.v.title, m.v.title, false)
    ensures At(EntryAfter(d, opName, m).callTypes, opName) == Some(m.v.dtype)
    ensures At(EntryAfter(d, opName, m).wippTypes, opName) == Some(m.wipp)
    ensures m.v.title in d.vals ==> forall n :: n != opName ==>
      At(EntryAfter(d, opName, m).callTypes, n) == At(d.vals[m.v.title].callTypes, n)
      && At(EntryAfter(d, opName, m).wippTypes, n) == At(d.vals[m.v.title].wippTypes, n)
  {
  }

  /** The input loop of `add_op` over the required parameters, in order. */
  function AddInputs(d: Dict<InputEntry>, opName: string, ms: seq<Mapped>): (r: Dict<InputEntry>)
    requires d.Valid()
    ensures r.Valid()
    decreases |ms|
  {
    if ms == [] then d else AddInput(AddInputs(d, opName, ms[..|ms| - 1]), opName, ms[|ms| - 1])
  }

  /** The input loop adds exactly the titles of the parameters, behind the
      titles already there. */
  lemma {:induction false} AddInputsKeys(d: Dict<InputEntry>, n: string, ms: seq<Mapped>)
    requires d.Valid()
    ensures forall k :: k in AddInputs(d, n, ms).vals <==> k in d.vals || k in Titles(ms)
    ensures |d.keys| <= |AddInputs(d, n, ms).keys|
    ensures AddInputs(d, n, ms).keys[..|d.keys|] == d.keys
    decreases |ms|
  {
    if ms != [] {
      var front, m := ms[..|ms| - 1], ms[|ms| - 1];
      AddInputsKeys(d, n, front);
      var p := AddInputs(d, n, front);
      var r := AddInput(p, n, m);
      TitlesSnoc(ms);
      assert r.keys[..|d.keys|] == r.keys[..|p.keys|][..|d.keys|];
    }
  }

  /** It leaves the entries of other titles alone, and an entry that was
      there keeps its `type`, `title`, `description` and `required`. */
  lemma {:induction false} AddInputsKeepsFixed(d: Dict<InputEntry>, n: string, ms: seq<Mapped>)
    requires d.Valid()
    ensures forall k :: k in d.vals ==> k in AddInputs(d, n, ms).vals
    ensures forall k :: k in d.vals && k !in Titles(ms) ==> AddInputs(d, n, ms).vals[k] == d.vals[k]
    ensures forall k :: k in d.vals ==> Fixed(AddInputs(d, n, ms).vals[k]) == Fixed(d.vals[k])
    decreases |ms|
  {
    if ms != [] {
      var front, m := ms[..|ms| - 1], ms[|ms| - 1];
      AddInputsKeepsFixed(d, n, front);
      EntryAfterMeaning(AddInputs(d, n, front), n, m);
      TitlesSnoc(ms);
    }
  }

  /** A title new to the dictionary takes its `type`, `title`,
      `description` and `required` from the first parameter that has it. */
  lemma {:induction false} AddInputsFirstFixes(d: Dict<InputEntry>, n: string, ms: seq<Mapped>, i: nat)
    requires d.Valid() && i < |ms| && ms[i].v.title !in d.vals
    requires forall j :: 0 <= j < i ==> ms[j].v.title != ms[i].v.title
    ensures ms[i].v.title in AddInputs(d, n, ms).vals
    ensures Fixed(AddInputs(d, n, ms).vals[ms[i].v.title]) == (ms[i].wipp, ms[i].v.title, ms[i].v.title, false)
    decreases |ms|
  {
    var front, m := ms[..|ms| - 1], ms[|ms| - 1];
    var p := AddInputs(d, n, front);
    EntryAfterMeaning(p, n, m);
    if i < |ms| - 1 {
      AddInputsFirstFixes(d, n, front, i);
    } else {
      AddInputsKeys(d, n, front);
      assert ms[i].v.title !in Titles(front);
    }
  }

  /** Under the method's own name, each title records the types of the
      last parameter that has it. */
  lemma {:induction false} AddInputsLastRecords(d: Dict<InputEntry>, n: string, ms: seq<Mapped>, i: nat)
    requires d.Valid() && i < |ms|
    requires forall j :: i < j < |ms| ==> ms[j].v.title != ms[i].v.title
    ensures ms[i].v.title in AddInputs(d, n, ms).vals
    ensures At(AddInputs(d, n, ms).vals[ms[i].v.title].callTypes, n) == Some(ms[i].v.dtype)
    ensures At(AddInputs(d, n, ms).vals[ms[i].v.title].wippTypes, n) == Some(ms[i].wipp)
    decreases |ms|
  {
    var front, m := ms[..|ms| - 1], ms[|ms| - 1];
    var p := AddInputs(d, n, front);
    EntryAfterMeaning(p, n, m);
    if i < |ms| - 1 {
      AddInputsLastRecords(d, n, front, i);
    }
  }

  /** What other methods recorded stays as it was. */
  lemma {:induction false} AddInputsKeepsOthers(d: Dict<InputEntry>, n: string, ms: seq<Mapped>, k: string, other: string)
    requires d.Valid() && k in d.vals && other != n
    ensures k in AddInputs(d, n, ms).vals
    ensures At(AddInputs(d, n, ms).vals[k].callTypes, other) == At(d.vals[k].callTypes, other)
    ensures At(AddInputs(d, n, ms).vals[k].wippTypes, other) == At(d.vals[k].wippTypes, other)
    decreases |ms|
  {
    if ms != [] {
      var front, m := ms[..|ms| - 1], ms[|ms| - 1];
      AddInputsKeepsOthers(d, n, front, k, other);
      EntryAfterMeaning(AddInputs(d, n, front), n, m);
    }
  }

  /** The entry of an output title in a plugin's output dictionary. */
  datatype OutputEntry = OutputEntry(
    wippType: string,
    title: string,
    description: string,
    callTypes: Dict<string>)

  function NewOutput(op: Op): OutputEntry {
    OutputEntry(op.WippTypeOutput(), op.ImagejTitleOutput(), "out", Single(op.name, op.ImagejTypeOutput()))
  }

  /** The output step of `add_op`. */
  function AddOutput(d: Dict<OutputEntry>, op: Op): (r: Dict<OutputEntry>)
    requires d.Valid()
    ensures r.Valid()
  {
    var t := op.ImagejTitleOutput();
    if d.vals == map[] then Dict([t], map[t := NewOutput(op)])
    else if t !in d.vals then (PutValid(d, t, NewOutput(op)); d.Put(t, NewOutput(op)))
    else
      var e := d.vals[t];
      var e' := e.(callTypes := e.callTypes.Put(op.name, op.ImagejTypeOutput()));
      PutValid(d, t, e');
      d.Put(t, e')
  }

  /** Every method's output title is `out`, so the output dictionary only
      ever has that one key: the first supported method creates its entry
      and fixes its `type`, `title` and `description`; a later one only
      records its own ImageJ output type under its name. */
  lemma AddOutputMeaning(d: Dict<OutputEntry>, op: Op)
    requires d.Valid() && op.output.v.title == "out"
    requires d.keys == [] || d.keys == ["out"]
    ensures AddOutput(d, op).keys == ["out"]
    ensures "out" !in d.vals ==> AddOutput(d, op).vals["out"] == NewOutput(op)
    ensures "out" in d.vals ==>
      var e, e' := d.vals["out"], AddOutput(d, op).vals["out"];
      && (e'.wippType, e'.title, e'.description) == (e.wippType, e.title, e.description)
      && e'.callTypes == e.callTypes.Put(op.name, op.output.v.dtype)
  {
    assert op.ImagejTitleOutput() == "out";
  }

  /** The contents of a plugin at one moment. */
  datatype PluginState = PluginState(
    name: string,
    ops: Dict<Op>,
    allRequiredInputs: Dict<InputEntry>,
    allOutputs: Dict<OutputEntry>,
    supportedOps: Dict<Op>)
  {
    /** The dictionaries are well formed; every supported method is a
        stored method with partial support, filed under its own name; and
        the output dictionary holds the single key `out` once a method is
        supported, and nothing before. */
    ghost predicate Valid() {
      && ops.Valid() && supportedOps.Valid() && allRequiredInputs.Valid() && allOutputs.Valid()
      && (forall k :: k in supportedOps.vals ==> k in ops.vals)
      && (forall k :: k in supportedOps.vals ==>
            supportedOps.vals[k].name == k && supportedOps.vals[k].partialSupport)
      && (supportedOps.keys == [] ==> allOutputs.keys == [])
      && (supportedOps.keys != [] ==> allOutputs.keys == ["out"])
    }
  }

  /** An ImageJ op and what its overloading methods contribute to its
      plugin template. */
  class Plugin {
    var name: string
    var ops: Dict<Op>
    var allRequiredInputs: Dict<InputEntry>
    var allOutputs: Dict<OutputEntry>
    var supportedOps: Dict<Op>

    function State(): PluginState
      reads this
    {
      PluginState(name, ops, allRequiredInputs, allOutputs, supportedOps)
    }

    ghost predicate Valid()
      reads this
    {
      State().Valid()
    }

    constructor(name: string)
      ensures Valid() && this.name == name
      ensures ops == Empty() && allRequiredInputs == Empty() && allOutputs == Empty()
      ensures supportedOps == Empty()
    {
      this.name := name;
      ops := Empty();
      allRequiredInputs := Empty();
      allOutputs := Empty();
      supportedOps := Empty();
    }

    /** `add_op` */
    method AddOp(op: Op)
      requires Valid() && op.output.v.title == "out"
      modifies this
      ensures Valid() && State() == AfterAddOp(old(State()), op)
    {
      AddOpKeepsValid(State(), op);
      var s := AddOpTo(State(), op);
      ops, allRequiredInputs, allOutputs, supportedOps := s.ops, s.allRequiredInputs, s.allOutputs, s.supportedOps;
    }
  }

  /** The steps of `add_op` on a plugin's contents. */
  method AddOpTo(s: PluginState, op: Op) returns (s': PluginState)
    requires s.allRequiredInputs.Valid() && s.allOutputs.Valid()
    ensures s' == AfterAddOp(s, op)
  {
    s' := s.(ops := s.ops.Put(op.name, op));
    if op.partialSupport {
      var inputs := AddRequiredInputs(s.allRequiredInputs, op.name, op.required);
      s' := s'.(supportedOps := s.supportedOps.Put(op.name, op), allRequiredInputs := inputs,
                allOutputs := AddOutput(s.allOutputs, op));
    }
  }

  /** The plugin after `add_op`: the method is always stored under its
      name; only a method with partial support is listed as supported and
      adds its required parameters and its output to the plugin's
      dictionaries. */
  function AfterAddOp(s: PluginState, op: Op): PluginState
    requires s.allRequiredInputs.Valid() && s.allOutputs.Valid()
  {
    var s' := s.(ops := s.ops.Put(op.name, op));
    if !op.partialSupport then s'
    else s'.(
      supportedOps := s.supportedOps.Put(op.name, op),
      allRequiredInputs := AddInputs(s.allRequiredInputs, op.name, op.required),
      allOutputs := AddOutput(s.allOutputs, op))
  }

  /** `add_op` keeps a plugin well formed. */
  lemma AddOpKeepsValid(s: PluginState, op: Op)
    requires s.Valid() && op.output.v.title == "out"
    ensures AfterAddOp(s, op).Valid()
    ensures AfterAddOp(s, op).name == s.name
  {
    PutValid(s.ops, op.name, op);
    if op.partialSupport {
      PutValid(s.supportedOps, op.name, op);
      AddOutputMeaning(s.allOutputs, op);
    }
  }

  /** The loop of `add_op` over a method's required parameters, in order. */
  method AddRequiredInputs(d0: Dict<InputEntry>, opName: string, ms: seq<Mapped>)
    returns (d: Dict<InputEntry>)
    requires d0.Valid()
    ensures d == AddInputs(d0, opName, ms)
  {
    d := d0;
    var i := 0;
    while i < |ms|
      invariant 0 <= i <= |ms|
      invariant d.Valid()
      invariant d == AddInputs(d0, opName, ms[..i])
    {
      d := AddInput(d, opName, ms[i]);
      assert ms[..i + 1][..i] == ms[..i];
      i := i + 1;
    }
    assert ms[..i] == ms;
  }
}
