/** The ImageJ op generator (legacy version): each ImageJ op becomes a
    `LegacyOp` that maps its parameters and its output to WIPP types and
    decides whether it is supported; a `Library` collects the ops of one
    ImageJ library; `LegacyPopulate` groups the parsed ops by library. */
module ImagejLegacy {
  import opened Wrappers
  import opened Text
  import opened OrderedDicts
  import opened ImagejTypes
  import opened ImagejPopulate

  /* ---------------------------------------------------------------
     Ops
     --------------------------------------------------------------- */

  /** An op: its library, name and path, its parameters paired with their
      WIPP types, its output (a bare ImageJ type name) with its WIPP type,
      and whether it is supported. */
  datatype LegacyOp = LegacyOp(
    library: string,
    name: string,
    fullPath: string,
    inputs: seq<Mapped>,
    outputType: string,
    outputWipp: string,
    support: bool)
  {
    function ImagejInputDataTypes(): seq<string> { Dtypes(inputs) }
    function ImagejInputTitles(): seq<string> { Titles(inputs) }
    function WippTypeInputs(): seq<string> { Wipps(inputs) }

    /** What the constructor establishes. */
    ghost predicate Valid() {
      && (forall i :: 0 <= i < |inputs| ==> inputs[i].wipp == WippType(inputs[i].v.dtype))
      && outputWipp == WippType(outputType)
      && (support <==> "collection" in Wipps(inputs) && Contains(outputWipp, "collection"))
    }
  }

  /** `__dataMap`: one pair per parameter, in order, with the WIPP type
      the table gives the parameter's ImageJ type, or `unknown` when the
      lookup fails; the output is mapped the same way. */
  method DataMap(inputs: seq<IjVar>, output: string) returns (ms: seq<Mapped>, outWipp: string)
    ensures ms == MapAll(inputs)
    ensures outWipp == WippType(output)
  {
    ms := [];
    var i := 0;
    while i < |inputs|
      invariant 0 <= i <= |inputs|
      invariant ms == MapAll(inputs[..i])
    {
      ms := ms + [MapVar(inputs[i])];
      i := i + 1;
    }
    assert inputs[..i] == inputs;
    outWipp := WippType(output);
  }

  /** Building a parsed op of library `library`. */
  method NewLegacyOp(library: string, name: string, fullPath: string, inputs: seq<IjVar>, output: string)
    returns (op: LegacyOp)
    ensures op.Valid()
    ensures op.library == library && op.name == name && op.fullPath == fullPath
    ensures op.inputs == MapAll(inputs) && op.outputType == output
  {
    var ms, w := DataMap(inputs, output);
    // `__support`: list membership on the inputs, a substring test on the output
    var support := "collection" in Wipps(ms) && Contains(w, "collection");
    op := LegacyOp(library, name, fullPath, ms, output, w, support);
  }

  /** An op is supported exactly when some parameter has an ImageJ
      collection type and so does the output. */
  lemma SupportMeaning(op: LegacyOp)
    requires op.Valid()
    ensures op.support <==>
      (exists i :: 0 <= i < |op.inputs| && op.inputs[i].v.dtype in CollectionTypes)
      && op.outputType in CollectionTypes
  {
    CollectionSubstring(op.outputWipp);
    WippTypeClassified(op.outputType);
    InWipps(op.inputs, "collection");
    forall i | 0 <= i < |op.inputs|
      ensures op.inputs[i].wipp == "collection" <==> op.inputs[i].v.dtype in CollectionTypes
    {
      WippTypeClassified(op.inputs[i].v.dtype);
    }
  }

  /** Unlike the current version, support ignores unknown types: for
      every op, dropping a parameter whose type has no WIPP mapping leaves
      the support decision as it was. */
  lemma UnknownParameterSupported(op: LegacyOp, i: nat)
    requires op.Valid() && i < |op.inputs| && op.inputs[i].wipp == Unknown
    ensures var rest := op.inputs[..i] + op.inputs[i + 1..];
      op.support <==> "collection" in Wipps(rest) && Contains(op.outputWipp, "collection")
  {
    DropUnknown(op.inputs, i);
  }

  lemma DropUnknown(ms: seq<Mapped>, i: nat)
    requires i < |ms| && ms[i].wipp == Unknown
    ensures "collection" in Wipps(ms) <==> "collection" in Wipps(ms[..i] + ms[i + 1..])
  {
    var ws := Wipps(ms);
    var rest := ms[..i] + ms[i + 1..];
    assert Wipps(rest) == ws[..i] + ws[i + 1..] by {
      forall k | 0 <= k < |rest|
        ensures Wipps(rest)[k] == (ws[..i] + ws[i + 1..])[k]
      {
        if k < i {
          assert rest[k] == ms[k];
        } else {
          assert rest[k] == ms[k + 1];
        }
      }
    }
    DropOther(ws, i, "collection");
  }

  /** Removing an item other than `w` does not change whether `w` occurs. */
  lemma DropOther(ws: seq<string>, i: nat, w: string)
    requires i < |ws| && ws[i] != w
    ensures w in ws <==> w in ws[..i] + ws[i + 1..]
  {
    assert ws == ws[..i] + [ws[i]] + ws[i + 1..];
  }

  /* ---------------------------------------------------------------
     Libraries
     --------------------------------------------------------------- */

  /** The entry of a parameter title in a library's input dictionary. */
  datatype LegacyInput = LegacyInput(
    wippType: string,
    title: string,
    description: string,
    required: bool,
    callTypes: Dict<string>)

  /** The part of an entry only the first op with the title sets. */
  function FixedL(e: LegacyInput): (string, string, string, bool) {
    (e.wippType, e.title, e.description, e.required)
  }

  /** The entry of a parameter's title after one step of the input loop
      of `addOp`: a new title takes its WIPP type and title from the
      parameter; a known title only records the op's ImageJ type. */
  function InputAfter(d: Dict<LegacyInput>, name: string, m: Mapped): LegacyInput {
    var t := m.v.title;
    if t !in d.vals then LegacyInput(m.wipp, t, t, false, Single(name, m.v.dtype))
    else d.vals[t].(callTypes := d.vals[t].callTypes.Put(name, m.v.dtype))
  }

  function AddInputL(d: Dict<LegacyInput>, name: string, m: Mapped): (r: Dict<LegacyInput>)
    requires d.Valid()
    ensures r.Valid()
  {
    PutValid(d, m.v.title, InputAfter(d, name, m));
    d.Put(m.v.title, InputAfter(d, name, m))
  }

  /** The input loop of `addOp` over all the op's parameters, in order. */
  function AddInputsL(d: Dict<LegacyInput>, name: string, ms: seq<Mapped>): (r: Dict<LegacyInput>)
    requires d.Valid()
    ensures r.Valid()
    decreases |ms|
  {
    if ms == [] then d else AddInputL(AddInputsL(d, name, ms[..|ms| - 1]), name, ms[|ms| - 1])
  }

  lemma InputAfterMeaning(d: Dict<LegacyInput>, name: string, m: Mapped)
    ensures m.v.title in d.vals ==> FixedL(InputAfter(d, name, m)) == FixedL(d.vals[m.v.title])
    ensures m.v.title !in d.vals ==> FixedL(InputAfter(d, name, m)) == (m.wipp, m.v.title, m.v.title, false)
    ensures At(InputAfter(d, name, m).callTypes, name) == Some(m.v.dtype)
    ensures m.v.title in d.vals ==> forall n :: n != name ==>
      At(InputAfter(d, name, m).callTypes, n) == At(d.vals[m.v.title].callTypes, n)
  {
  }

  /** The loop adds exactly the parameters' titles, behind those already
      there. */
  lemma {:induction false} AddInputsLKeys(d: Dict<LegacyInput>, n: string, ms: seq<Mapped>)
    requires d.Valid()
    ensures forall k :: k in AddInputsL(d, n, ms).vals <==> k in d.vals || k in Titles(ms)
    ensures |d.keys| <= |AddInputsL(d, n, ms).keys|
    ensures AddInputsL(d, n, ms).keys[..|d.keys|] == d.keys
    decreases |ms|
  {
    if ms != [] {
      var front, m := ms[..|ms| - 1], ms[|ms| - 1];
      AddInputsLKeys(d, n, front);
      var p := AddInputsL(d, n, front);
      var r := AddInputL(p, n, m);
      TitlesSnoc(ms);
      assert r.keys[..|d.keys|] == r.keys[..|p.keys|][..|d.keys|];
    }
  }

  /** It leaves the entries of other titles alone. */
  lemma {:induction false} AddInputsLKeepsOthers(d: Dict<LegacyInput>, n: string, ms: seq<Mapped>, k: string)
    requires d.Valid() && k in d.vals && k !in Titles(ms)
    ensures k in AddInputsL(d, n, ms).vals && AddInputsL(d, n, ms).vals[k] == d.vals[k]
    decreases |ms|
  {
    if ms != [] {
      TitlesSnoc(ms);
      AddInputsLKeepsOthers(d, n, ms[..|ms| - 1], k);
    }
  }

  /** A title new to the dictionary takes its WIPP type from the first
      parameter that has it, even when a later op gives the same title
      another WIPP type (the source only prints a warning then). */
  lemma {:induction false} AddInputsLFirstFixes(d: Dict<LegacyInput>, n: string, ms: seq<Mapped>, i: nat)
    requires d.Valid() && i < |ms| && ms[i].v.title !in d.vals
    requires forall j :: 0 <= j < i ==> ms[j].v.title != ms[i].v.title
    ensures ms[i].v.title in AddInputsL(d, n, ms).vals
    ensures FixedL(AddInputsL(d, n, ms).vals[ms[i].v.title]) == (ms[i].wipp, ms[i].v.title, ms[i].v.title, false)
    decreases |ms|
  {
    var front, m := ms[..|ms| - 1], ms[|ms| - 1];
    InputAfterMeaning(AddInputsL(d, n, front), n, m);
    if i < |ms| - 1 {
      AddInputsLFirstFixes(d, n, front, i);
    } else {
      AddInputsLKeys(d, n, front);
      assert ms[i].v.title !in Titles(front);
    }
  }

  /** An entry already there keeps its fixed part. */
  lemma {:induction false} AddInputsLKeepsFixed(d: Dict<LegacyInput>, n: string, ms: seq<Mapped>, k: string)
    requires d.Valid() && k in d.vals
    ensures k in AddInputsL(d, n, ms).vals
    ensures FixedL(AddInputsL(d, n, ms).vals[k]) == FixedL(d.vals[k])
    decreases |ms|
  {
    if ms != [] {
      var front, m := ms[..|ms| - 1], ms[|ms| - 1];
      AddInputsLKeepsFixed(d, n, front, k);
      InputAfterMeaning(AddInputsL(d, n, front), n, m);
    }
  }

  /** Under the op's name, each title records the ImageJ type of the last
      parameter that has it. */
  lemma {:induction false} AddInputsLLastRecords(d: Dict<LegacyInput>, n: string, ms: seq<Mapped>, i: nat)
    requires d.Valid() && i < |ms|
    requires forall j :: i < j < |ms| ==> ms[j].v.title != ms[i].v.title
    ensures ms[i].v.title in AddInputsL(d, n, ms).vals
    ensures At(AddInputsL(d, n, ms).vals[ms[i].v.title].callTypes, n) == Some(ms[i].v.dtype)
    decreases |ms|
  {
    var front, m := ms[..|ms| - 1], ms[|ms| - 1];
    InputAfterMeaning(AddInputsL(d, n, front), n, m);
    if i < |ms| - 1 {
      AddInputsLLastRecords(d, n, front, i);
    }
  }

  /** The output step of `addOp`. */
  function AddOutputL(d: Dict<OutputEntry>, name: string, op: LegacyOp): Dict<OutputEntry> {
    if "out" !in d.vals then
      Dict(["out"], map["out" := OutputEntry(op.outputWipp, "out", "out", Single(name, op.outputType))])
    else
      var e := d.vals["out"];
      d.Put("out", e.(callTypes := e.callTypes.Put(name, op.outputType)))
  }

  /** The output dictionary only ever has the key `out`: the first
      supported op creates its entry, a later one only records its output
      type under its name. */
  lemma AddOutputLMeaning(d: Dict<OutputEntry>, name: string, op: LegacyOp)
    requires d.Valid() && (d.keys == [] || d.keys == ["out"])
    ensures AddOutputL(d, name, op).Valid() && AddOutputL(d, name, op).keys == ["out"]
    ensures "out" !in d.vals ==>
      AddOutputL(d, name, op).vals["out"] == OutputEntry(op.outputWipp, "out", "out", Single(name, op.outputType))
    ensures "out" in d.vals ==>
      var e, e' := d.vals["out"], AddOutputL(d, name, op).vals["out"];
      && (e'.wippType, e'.title, e'.description) == (e.wippType, e.title, e.description)
      && e'.callTypes == e.callTypes.Put(name, op.outputType)
  {
  }

  /** The contents of a library at one moment. */
  datatype LibraryState = LibraryState(
    library: string,
    ops: Dict<LegacyOp>,
    allInputs: Dict<LegacyInput>,
    allOutputs: Dict<OutputEntry>,
    supportedOps: seq<string>)
  {
    /** The dictionaries are well formed, every name listed as supported
        is a stored op, and the output dictionary holds the single key
        `out` once an op is supported, and nothing before. */
    ghost predicate Valid() {
      && ops.Valid() && allInputs.Valid() && allOutputs.Valid()
      && (forall i :: 0 <= i < |supportedOps| ==> supportedOps[i] in ops.vals)
      && (supportedOps == [] ==> allOutputs.keys == [])
      && (supportedOps != [] ==> allOutputs.keys == ["out"])
    }
  }

  /** The library after `addOp(name, op)`: the op is always stored under
      the name; a supported op also appends the name to the supported
      list and adds all its parameters and its output. */
  function AfterAddOpL(s: LibraryState, name: string, op: LegacyOp): LibraryState
    requires s.allInputs.Valid()
  {
    var s' := s.(ops := s.ops.Put(name, op));
    if !op.support then s'
    else s'.(
      supportedOps := s.supportedOps + [name],
      allInputs := AddInputsL(s.allInputs, name, op.inputs),
      allOutputs := AddOutputL(s.allOutputs, name, op))
  }

  /** `addOp` keeps a library well formed. */
  lemma AddOpLKeepsValid(s: LibraryState, name: string, op: LegacyOp)
    requires s.Valid()
    ensures AfterAddOpL(s, name, op).Valid()
    ensures AfterAddOpL(s, name, op).library == s.library
    ensures AfterAddOpL(s, name, op).ops.vals[name] == op
  {
    PutValid(s.ops, name, op);
    if op.support {
      AddOutputLMeaning(s.allOutputs, name, op);
    }
  }

  /** The supported list is a list, not a set: a supported op added twice
      under one name is listed twice, and it stays listed after an
      unsupported op has replaced it under that name. */
  lemma SupportedListKeepsStaleNames(s: LibraryState, name: string, op: LegacyOp, op': LegacyOp)
    requires s.Valid() && op.support
    ensures var s1 := AfterAddOpL(s, name, op);
      var s2 := AfterAddOpL(s1, name, op');
      && (op'.support ==> s2.supportedOps == s.supportedOps + [name, name])
      && (!op'.support ==> s2.supportedOps == s.supportedOps + [name] && s2.ops.vals[name] == op')
  {
  }

  /** A library. */
  class Library {
    var library: string
    var ops: Dict<LegacyOp>
    var allInputs: Dict<LegacyInput>
    var allOutputs: Dict<OutputEntry>
    var supportedOps: seq<string>

    function State(): LibraryState
      reads this
    {
      LibraryState(library, ops, allInputs, allOutputs, supportedOps)
    }

    ghost predicate Valid()
      reads this
    {
      State().Valid()
    }

    constructor(library: string)
      ensures Valid()
      ensures State() == LibraryState(library, Empty(), Empty(), Empty(), [])
    {
      this.library := library;
      ops := Empty();
      allInputs := Empty();
      allOutputs := Empty();
      supportedOps := [];
    }

    /** `addOp(name, op)` */
    method AddOp(name: string, op: LegacyOp)
      requires Valid()
      modifies this
      ensures Valid() && State() == AfterAddOpL(old(State()), name, op)
      ensures ops == old(ops).Put(name, op)
    {
      AddOpLKeepsValid(State(), name, op);
      var s := AddOpToL(State(), name, op);
      ops, allInputs, allOutputs, supportedOps := s.ops, s.allInputs, s.allOutputs, s.supportedOps;
    }
  }

  /** The steps of `addOp` on a library's contents. */
  method AddOpToL(s: LibraryState, name: string, op: LegacyOp) returns (s': LibraryState)
    requires s.allInputs.Valid()
    ensures s' == AfterAddOpL(s, name, op)
  {
    s' := s.(ops := s.ops.Put(name, op));
    if op.support {
      var inputs := AddAllInputs(s.allInputs, name, op.inputs);
      s' := s'.(supportedOps := s.supportedOps + [name], allInputs := inputs,
                allOutputs := AddOutputL(s.allOutputs, name, op));
    }
  }

  /** The input loop of `addOp`. */
  method AddAllInputs(d0: Dict<LegacyInput>, name: string, ms: seq<Mapped>)
    returns (d: Dict<LegacyInput>)
    requires d0.Valid()
    ensures d == AddInputsL(d0, name, ms)
  {
    d := d0;
    var i := 0;
    while i < |ms|
      invariant 0 <= i <= |ms|
      invariant d.Valid()
      invariant d == AddInputsL(d0, name, ms[..i])
    {
      d := AddInputL(d, name, ms[i]);
      assert ms[..i + 1][..i] == ms[..i];
      i := i + 1;
    }
    assert ms[..i] == ms;
  }

  /* ---------------------------------------------------------------
     Grouping the parsed ops by library
     --------------------------------------------------------------- */

  /** The parser's result: every library met so far, under its name. */
  class LegacyPopulate {
    var libraries: Dict<Library>
    /** The library objects. */
    ghost var Repr: set<Library>

    /** Each library is well formed and named by its key (so no object
        serves two keys). */
    ghost predicate Valid()
      reads this, Repr
    {
      && libraries.Valid()
      && (forall k :: k in libraries.vals ==>
            libraries.vals[k] in Repr && libraries.vals[k].Valid() && libraries.vals[k].library == k)
    }

    constructor()
      ensures Valid() && libraries == Empty() && Repr == {}
    {
      libraries := Empty();
      Repr := {};
    }

    /** The grouping step of `_parser`: the op joins its library, which is
        created, empty, when the op is the first one met for it; no other
        library changes. */
    method AddParsed(library: string, name: string, op: LegacyOp)
      requires Valid()
      modifies this, Repr
      ensures Valid() && fresh(Repr - old(Repr))
      ensures library in old(libraries.vals) ==> libraries.keys == old(libraries.keys)
      ensures library !in old(libraries.vals) ==> libraries.keys == old(libraries.keys) + [library]
      ensures forall k :: k in old(libraries.vals) && k != library ==>
        libraries.vals[k] == old(libraries.vals[k]) && unchanged(libraries.vals[k])
      ensures library in libraries.vals && libraries.vals[library].State() == AfterAddOpL(
        if library in old(libraries.vals) then old(libraries.vals[library].State())
        else LibraryState(library, Empty(), Empty(), Empty(), []),
        name, op)
    {
      if library !in libraries.vals {
        AddLibrary(library);
      }
      JoinLibrary(library, name, op);
    }

    /** A new, empty library for the first op met of it. */
    method AddLibrary(library: string)
      requires Valid() && library !in libraries.vals
      modifies this
      ensures Valid() && fresh(Repr - old(Repr))
      ensures library in libraries.vals && libraries == old(libraries).Put(library, libraries.vals[library])
      ensures libraries.vals[library].State() == LibraryState(library, Empty(), Empty(), Empty(), [])
    {
      var l := new Library(library);
      PutValid(libraries, library, l);
      libraries, Repr := libraries.Put(library, l), Repr + {l};
    }

    /** The op joins a library already met. */
    method JoinLibrary(library: string, name: string, op: LegacyOp)
      requires Valid() && library in libraries.vals
      modifies libraries.vals[library]
      ensures Valid()
      ensures libraries.vals[library].State() == AfterAddOpL(old(libraries.vals[library].State()), name, op)
      ensures forall k :: k in libraries.vals && k != library ==> unchanged(libraries.vals[k])
    {
      var l := libraries.vals[library];
      l.AddOp(name, op);
      forall k | k in libraries.vals && k != library
        ensures libraries.vals[k] != l
      {
        assert libraries.vals[k].library != l.library;
      }
    }
  }
}
