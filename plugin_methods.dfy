/** The methods every polus plugin object shares: the required-input check,
    the docker invocation that `run` assembles (directory mapping, mounts,
    argument vector), the routing of attribute reads and writes to I/O
    values, the configuration snapshot and the CWL file-name checks. */
module PluginMethods {
  import opened Wrappers
  import opened Text
  import opened OrderedDicts

  /** The value held by an input or output: unset (`None`), a
      `pathlib.Path`, an enum member (by its member name), a string, a file
      system object, or any other value with its `str()` and its truth
      value. */
  datatype Value =
    | NoValue
    | PathValue(path: string)
    | EnumValue(member: string)
    | Str(s: string)
    | FileSystem(text: string)
    | Other(text: string, truthy: bool)

  /** Python truthiness of a value: `None` and the empty string are false,
      paths, enum members and file systems are true. */
  predicate Truthy(v: Value) {
    match v
    case NoValue => false
    case PathValue(_) => true
    case EnumValue(_) => true
    case Str(s) => s != ""
    case FileSystem(_) => true
    case Other(_, t) => t
  }

  /** `str(v)` for a value that is set; a path prints as itself and an enum
      member as its name. */
  function Printed(v: Value): string
    requires v != NoValue
  {
    match v
    case PathValue(p) => p
    case EnumValue(n) => n
    case Str(s) => s
    case FileSystem(t) => t
    case Other(t, _) => t
  }

  /** One input or output of a plugin: its name, whether it is required,
      its value and its file system `_fs`. */
  datatype Io = Io(name: string, required: bool, value: Value, fs: Value)

  datatype PluginError =
    | MissingInputValues(names: seq<string>)
    | IOKeyError(attr: string)
    | ValueError(message: string)
    | AttributeError(attr: string)
    | AssertionError(message: string)

  /** The inputs `_check_inputs` complains about: required and not truthy,
      in input order. */
  function Missing(inputs: seq<Io>): (r: seq<Io>)
    ensures |r| <= |inputs|
    ensures forall x :: x in r <==> x in inputs && x.required && !Truthy(x.value)
    decreases |inputs|
  {
    if inputs == [] then []
    else
      var rest := Missing(inputs[..|inputs| - 1]);
      var x := inputs[|inputs| - 1];
      assert inputs == inputs[..|inputs| - 1] + [x];
      if x.required && !Truthy(x.value) then rest + [x] else rest
  }

  function Names(ios: seq<Io>): (r: seq<string>)
    ensures |r| == |ios| && forall i :: 0 <= i < |ios| ==> r[i] == ios[i].name
  {
    seq(|ios|, i requires 0 <= i < |ios| => ios[i].name)
  }

  /** `_check_inputs`: raises `MissingInputValues`, listing the offending
      names, exactly when some required input has a falsy value. */
  function CheckInputs(inputs: seq<Io>): (r: Outcome<PluginError>)
    ensures r.Fail? <==> exists i :: 0 <= i < |inputs| && inputs[i].required && !Truthy(inputs[i].value)
    ensures r.Fail? ==> r.error == MissingInputValues(Names(Missing(inputs)))
  {
    var m := Missing(inputs);
    if |m| > 0 then
      assert m[0] in inputs;
      Fail(MissingInputValues(Names(m)))
    else
      assert forall i :: 0 <= i < |inputs| && inputs[i].required && !Truthy(inputs[i].value) ==> inputs[i] in m;
      Pass
  }

  /** `organization`: the container id up to its first `/`, or the whole id. */
  function Organization(containerId: string): (r: string)
    ensures '/' !in r
    ensures '/' in containerId ==> |r| < |containerId| && containerId[..|r| + 1] == r + "/"
    ensures '/' !in containerId ==> r == containerId
  {
    Before(containerId, '/')
  }

  // ---------------------------------------------------------------------
  // The docker invocation of `run`

  /** The host directories of the path-valued entries, in order, with
      repeats (the loops that fill `inp_dirs` and `out_dirs`). */
  function PathDirs(ios: seq<Io>): (dirs: seq<string>)
    ensures forall p :: p in dirs <==> exists i :: 0 <= i < |ios| && ios[i].value == PathValue(p)
    decreases |ios|
  {
    if ios == [] then []
    else
      var n := |ios| - 1;
      var rest := PathDirs(ios[..n]);
      assert forall i :: 0 <= i < n ==> ios[..n][i] == ios[i];
      if ios[n].value.PathValue? then rest + [ios[n].value.path] else rest
  }

  /** Collects the path-valued entries' directories, as `run` does. */
  method CollectDirs(ios: seq<Io>) returns (dirs: seq<string>)
    ensures dirs == PathDirs(ios)
  {
    dirs := [];
    var i := 0;
    while i < |ios|
      invariant i <= |ios|
      invariant dirs == PathDirs(ios[..i])
    {
      assert ios[..i + 1][..i] == ios[..i];
      if ios[i].value.PathValue? {
        dirs := dirs + [ios[i].value.path];
      }
      i := i + 1;
    }
    assert ios[..i] == ios;
  }

  /** The mapping from each directory to `prefix` followed by its position
      in `dirs`, built in order: assigning a key again keeps its first
      position and replaces its value. */
  function DirsDict(dirs: seq<string>, prefix: string): Dict<string>
    decreases |dirs|
  {
    if dirs == [] then Empty()
    else
      var n := |dirs| - 1;
      DirsDict(dirs[..n], prefix).Put(dirs[n], prefix + NatToString(n))
  }

  /** The last position of `x` in `s`. */
  function LastIndex(s: seq<string>, x: string): (n: nat)
    requires x in s
    ensures n < |s| && s[n] == x
    ensures forall m :: n < m < |s| ==> s[m] != x
    decreases |s|
  {
    if s[|s| - 1] == x then |s| - 1
    else
      assert s == s[..|s| - 1] + [s[|s| - 1]];
      LastIndex(s[..|s| - 1], x)
  }

  /** The first position of `x` in `s`. */
  function FirstIndex(s: seq<string>, x: string): (n: nat)
    requires x in s
    ensures n < |s| && s[n] == x
    ensures forall m :: 0 <= m < n ==> s[m] != x
    decreases |s|
  {
    var last := |s| - 1;
    if x in s[..last] then
      var r := FirstIndex(s[..last], x);
      assert forall m :: 0 <= m <= r ==> s[..last][m] == s[m];
      r
    else
      assert s == s[..last] + [s[last]];
      last
  }

  /** The mapping `run` builds: its keys are the distinct directories in
      order of first appearance, and each maps to the prefix followed by
      the LAST position the directory has in the list. */
  lemma DirsDictMeaning(dirs: seq<string>, prefix: string)
    ensures DirsDict(dirs, prefix).Valid()
    ensures forall x :: x in DirsDict(dirs, prefix).vals <==> x in dirs
    ensures forall x :: x in dirs ==> DirsDict(dirs, prefix).vals[x] == prefix + NatToString(LastIndex(dirs, x))
    ensures forall i, j :: 0 <= i < j < |DirsDict(dirs, prefix).keys| ==>
      FirstIndex(dirs, DirsDict(dirs, prefix).keys[i]) < FirstIndex(dirs, DirsDict(dirs, prefix).keys[j])
  {
    DirsDictKeys(dirs, prefix);
    DirsDictValues(dirs, prefix);
    DirsDictOrder(dirs, prefix);
  }

  lemma {:induction false} DirsDictKeys(dirs: seq<string>, prefix: string)
    ensures DirsDict(dirs, prefix).Valid()
    ensures forall x :: x in DirsDict(dirs, prefix).vals <==> x in dirs
    decreases |dirs|
  {
    if dirs != [] {
      var n := |dirs| - 1;
      DirsDictKeys(dirs[..n], prefix);
      PutValid(DirsDict(dirs[..n], prefix), dirs[n], prefix + NatToString(n));
      assert dirs == dirs[..n] + [dirs[n]];
    }
  }

  lemma {:induction false} DirsDictValues(dirs: seq<string>, prefix: string)
    ensures forall x :: x in dirs ==> x in DirsDict(dirs, prefix).vals
    ensures forall x :: x in dirs ==> DirsDict(dirs, prefix).vals[x] == prefix + NatToString(LastIndex(dirs, x))
    decreases |dirs|
  {
    if dirs != [] {
      var n := |dirs| - 1;
      DirsDictValues(dirs[..n], prefix);
      var d' := DirsDict(dirs, prefix);
      assert dirs == dirs[..n] + [dirs[n]];
      forall x | x in dirs
        ensures x in d'.vals && d'.vals[x] == prefix + NatToString(LastIndex(dirs, x))
      {
        if x != dirs[n] {
          assert x in dirs[..n];
          var k := LastIndex(dirs[..n], x);
          assert dirs[k] == x;
        }
      }
    }
  }

  lemma {:induction false} DirsDictOrder(dirs: seq<string>, prefix: string)
    ensures forall k :: k in DirsDict(dirs, prefix).keys ==> k in dirs
    ensures forall i, j :: 0 <= i < j < |DirsDict(dirs, prefix).keys| ==>
      FirstIndex(dirs, DirsDict(dirs, prefix).keys[i]) < FirstIndex(dirs, DirsDict(dirs, prefix).keys[j])
    decreases |dirs|
  {
    if dirs != [] {
      var n := |dirs| - 1;
      var d := DirsDict(dirs[..n], prefix);
      DirsDictOrder(dirs[..n], prefix);
      DirsDictKeys(dirs[..n], prefix);
      DirsOrderStep(dirs[..n], dirs[n], d, DirsDict(dirs, prefix));
      assert dirs == dirs[..n] + [dirs[n]];
    }
  }

  /** One step of `DirsDictOrder`, on the dictionary before and after `y`. */
  lemma DirsOrderStep(s: seq<string>, y: string, d: Dict<string>, d': Dict<string>)
    requires d.Valid() && forall k :: k in d.vals <==> k in s
    requires forall i, j :: 0 <= i < j < |d.keys| ==> FirstIndex(s, d.keys[i]) < FirstIndex(s, d.keys[j])
    requires d'.keys == if y in d.vals then d.keys else d.keys + [y]
    ensures forall k :: k in d'.keys ==> k in s + [y]
    ensures forall i, j :: 0 <= i < j < |d'.keys| ==> FirstIndex(s + [y], d'.keys[i]) < FirstIndex(s + [y], d'.keys[j])
  {
    OrderedStep(s, y, d.keys);
  }

  /** Appending `y` to a list keeps a first-appearance ordering of its
      keys, with `y` placed last when it is new. */
  lemma OrderedStep(s: seq<string>, y: string, keys: seq<string>)
    requires forall k :: k in keys <==> k in s
    requires forall i, j :: 0 <= i < j < |keys| ==> FirstIndex(s, keys[i]) < FirstIndex(s, keys[j])
    ensures var ks := if y in keys then keys else keys + [y];
      && (forall k :: k in ks ==> k in s + [y])
      && forall i, j :: 0 <= i < j < |ks| ==> FirstIndex(s + [y], ks[i]) < FirstIndex(s + [y], ks[j])
  {
    FirstIndicesKept(s, y, keys);
    if y !in keys {
      assert y !in s;
      forall i | 0 <= i < |keys|
        ensures keys[i] in s && FirstIndex(s + [y], keys[i]) < |s|
      {
        assert keys[i] in keys;
      }
      OrderedAppendNew(s, y, keys);
    }
  }

  /** The keys already seen keep their first positions after `y` is appended. */
  lemma FirstIndicesKept(s: seq<string>, y: string, keys: seq<string>)
    requires forall k :: k in keys ==> k in s
    ensures forall i :: 0 <= i < |keys| ==> FirstIndex(s + [y], keys[i]) == FirstIndex(s, keys[i])
  {
    forall i | 0 <= i < |keys|
      ensures FirstIndex(s + [y], keys[i]) == FirstIndex(s, keys[i])
    {
      FirstIndexSnoc(s, y, keys[i]);
    }
  }

  /** A new key appended last appears first at the end, after every old key. */
  lemma OrderedAppendNew(s: seq<string>, y: string, keys: seq<string>)
    requires forall i :: 0 <= i < |keys| ==> keys[i] in s
    requires y !in s
    requires forall i :: 0 <= i < |keys| ==> FirstIndex(s + [y], keys[i]) < |s|
    requires forall i, j :: 0 <= i < j < |keys| ==> FirstIndex(s + [y], keys[i]) < FirstIndex(s + [y], keys[j])
    ensures forall i, j :: 0 <= i < j < |keys + [y]| ==>
      FirstIndex(s + [y], (keys + [y])[i]) < FirstIndex(s + [y], (keys + [y])[j])
  {
    NewLast(s, y);
    var ks := keys + [y];
    forall i, j | 0 <= i < j < |ks|
      ensures FirstIndex(s + [y], ks[i]) < FirstIndex(s + [y], ks[j])
    {
      assert ks[i] == keys[i];
      if j < |keys| {
        assert ks[j] == keys[j];
      } else {
        assert ks[j] == y;
      }
    }
  }

  lemma NewLast(s: seq<string>, y: string)
    requires y !in s
    ensures FirstIndex(s + [y], y) == |s|
  {
    assert (s + [y])[|s|] == y;
  }

  lemma FirstIndexSnoc(s: seq<string>, y: string, k: string)
    requires k in s
    ensures FirstIndex(s + [y], k) == FirstIndex(s, k)
  {
    assert (s + [y])[..|s|] == s;
  }

  /** One docker mount, as the single-element list docker expects:
      `type=bind,source=…,target=…`, with `,readonly` for an input. */
  function Mount(source: string, target: string, readonly: bool): seq<string> {
    ["type=bind,source=" + source + ",target=" + target + (if readonly then ",readonly" else "")]
  }

  /** The mounts for a directory mapping, in its key order. */
  function Mounts(d: Dict<string>, readonly: bool): (ms: seq<seq<string>>)
    requires d.Valid()
    ensures |ms| == |d.keys|
    ensures forall i :: 0 <= i < |d.keys| ==> ms[i] == Mount(d.keys[i], d.vals[d.keys[i]], readonly)
  {
    seq(|d.keys|, i requires 0 <= i < |d.keys| => Mount(d.keys[i], d.vals[d.keys[i]], readonly))
  }

  /** Every path an entry carries is a key of the mapping. */
  predicate CoversPaths(ios: seq<Io>, d: Dict<string>) {
    forall i :: 0 <= i < |ios| && ios[i].value.PathValue? ==> ios[i].value.path in d.vals
  }

  /** The word after `--name` in the argument vector: the container path a
      path is mounted at, an enum member's name, or `str(value)`. */
  function ArgValue(io: Io, d: Dict<string>): string
    requires io.value != NoValue
    requires io.value.PathValue? ==> io.value.path in d.vals
  {
    if io.value.PathValue? then d.vals[io.value.path] else Printed(io.value)
  }

  /** The entries with a value, in order. */
  function SetEntries(ios: seq<Io>): (r: seq<Io>)
    ensures forall x :: x in r <==> x in ios && x.value != NoValue
    decreases |ios|
  {
    if ios == [] then []
    else
      var n := |ios| - 1;
      assert ios == ios[..n] + [ios[n]];
      var rest := SetEntries(ios[..n]);
      if ios[n].value != NoValue then rest + [ios[n]] else rest
  }

  /** The arguments contributed by a list of entries. */
  function ArgsOf(ios: seq<Io>, d: Dict<string>): seq<string>
    requires CoversPaths(ios, d)
    decreases |ios|
  {
    if ios == [] then []
    else
      var n := |ios| - 1;
      var rest := ArgsOf(ios[..n], d);
      if ios[n].value != NoValue then rest + ["--" + ios[n].name, ArgValue(ios[n], d)] else rest
  }

  /** The argument vector holds, for the k-th entry with a value, its
      `--name` at position 2k and its value word at 2k+1; unset entries are
      skipped, so its length is twice the number of set entries. */
  lemma {:induction false} ArgsLayout(ios: seq<Io>, d: Dict<string>)
    requires CoversPaths(ios, d)
    ensures var a := ArgsOf(ios, d); var s := SetEntries(ios);
      && |a| == 2 * |s|
      && forall k :: 0 <= k < |s| ==>
           s[k].value != NoValue && (s[k].value.PathValue? ==> s[k].value.path in d.vals)
           && a[2 * k] == "--" + s[k].name && a[2 * k + 1] == ArgValue(s[k], d)
    decreases |ios|
  {
    if ios != [] {
      var n := |ios| - 1;
      assert CoversPaths(ios[..n], d);
      ArgsLayout(ios[..n], d);
      assert ios == ios[..n] + [ios[n]];
    }
  }

  /** The argument loop of `run` over one list of entries. */
  method AppendArgs(args0: seq<string>, ios: seq<Io>, d: Dict<string>) returns (args: seq<string>)
    requires CoversPaths(ios, d)
    ensures args == args0 + ArgsOf(ios, d)
  {
    args := args0;
    var i := 0;
    while i < |ios|
      invariant i <= |ios|
      invariant CoversPaths(ios[..i], d)
      invariant args == args0 + ArgsOf(ios[..i], d)
    {
      assert ios[..i + 1][..i] == ios[..i];
      assert CoversPaths(ios[..i + 1], d);
      if ios[i].value != NoValue {
        args := args + ["--" + ios[i].name, ArgValue(ios[i], d)];
      }
      i := i + 1;
    }
    assert ios[..i] == ios;
  }

  /** What `run` hands to `docker.run`: the container image, the argument
      vector, the mounts and the `gpus` option (absent when `gpus` is
      None). The container is always removed afterwards. */
  datatype DockerRun = DockerRun(image: string, args: seq<string>, mounts: seq<seq<string>>, gpus: Option<string>)

  const InputTarget: string := "/data/inputs/input"
  const OutputTarget: string := "/data/outputs/output"

  /** The invocation `run` assembles once the input check has passed. */
  ghost function Invocation(containerId: string, inputs: seq<Io>, outputs: seq<Io>, gpus: Option<string>): DockerRun
  {
    var inDirs := DirsDict(PathDirs(inputs), InputTarget);
    var outDirs := DirsDict(PathDirs(outputs), OutputTarget);
    DirsDictMeaning(PathDirs(inputs), InputTarget);
    DirsDictMeaning(PathDirs(outputs), OutputTarget);
    DockerRun(containerId, ArgsOf(inputs, inDirs) + ArgsOf(outputs, outDirs),
      Mounts(inDirs, true) + Mounts(outDirs, false), gpus)
  }

  /** The path an input carries is mounted read-only at exactly the
      container path its argument names, and the input mounts come before
      every output mount. */
  lemma PathInputMounted(containerId: string, inputs: seq<Io>, outputs: seq<Io>, gpus: Option<string>, i: nat)
    requires i < |inputs| && inputs[i].value.PathValue?
    ensures var inv := Invocation(containerId, inputs, outputs, gpus);
      var inDirs := DirsDict(PathDirs(inputs), InputTarget);
      var p := inputs[i].value.path;
      && p in inDirs.vals
      && ArgValue(inputs[i], inDirs) == inDirs.vals[p]
      && (exists k :: 0 <= k < |inDirs.keys| && inv.mounts[k] == Mount(p, inDirs.vals[p], true))
      && |inDirs.keys| <= |inv.mounts|
      && forall k :: |inDirs.keys| <= k < |inv.mounts| ==> !ReadOnly(inv.mounts[k])
  {
    var inDirs := DirsDict(PathDirs(inputs), InputTarget);
    var outDirs := DirsDict(PathDirs(outputs), OutputTarget);
    var p := inputs[i].value.path;
    InputPathMapped(inputs, i);
    var k := InputMountIndex(inDirs, p);
    OutputMountsWritable(PathDirs(outputs));
    var a, b := Mounts(inDirs, true), Mounts(outDirs, false);
    MountsAfter(a, b);
    assert (a + b)[k] == a[k];
    var inv := Invocation(containerId, inputs, outputs, gpus);
    assert inv.mounts == a + b;
  }

  /** The path an input carries is a key of the input mapping. */
  lemma InputPathMapped(inputs: seq<Io>, i: nat)
    requires i < |inputs| && inputs[i].value.PathValue?
    ensures DirsDict(PathDirs(inputs), InputTarget).Valid()
    ensures inputs[i].value.path in DirsDict(PathDirs(inputs), InputTarget).vals
  {
    DirsDictMeaning(PathDirs(inputs), InputTarget);
    assert inputs[i].value.path in PathDirs(inputs);
  }

  /** Past the first list, a concatenation holds the second list's mounts. */
  lemma MountsAfter(a: seq<seq<string>>, b: seq<seq<string>>)
    requires forall q :: 0 <= q < |b| ==> !ReadOnly(b[q])
    ensures forall k :: |a| <= k < |a + b| ==> !ReadOnly((a + b)[k])
  {
    forall k | |a| <= k < |a + b|
      ensures !ReadOnly((a + b)[k])
    {
      assert (a + b)[k] == b[k - |a|];
    }
  }

  /** A key of an input mapping has its read-only mount among the mounts. */
  lemma InputMountIndex(d: Dict<string>, p: string) returns (k: nat)
    requires d.Valid() && p in d.vals
    ensures k < |d.keys| && Mounts(d, true)[k] == Mount(p, d.vals[p], true)
  {
    assert p in d.keys;
    k :| 0 <= k < |d.keys| && d.keys[k] == p;
  }

  /** No output mount is read-only. */
  lemma OutputMountsWritable(dirs: seq<string>)
    ensures DirsDict(dirs, OutputTarget).Valid()
    ensures forall q :: 0 <= q < |Mounts(DirsDict(dirs, OutputTarget), false)| ==>
      !ReadOnly(Mounts(DirsDict(dirs, OutputTarget), false)[q])
  {
    var d := DirsDict(dirs, OutputTarget);
    DirsDictMeaning(dirs, OutputTarget);
    forall q | 0 <= q < |Mounts(d, false)|
      ensures !ReadOnly(Mounts(d, false)[q])
    {
      var x := d.keys[q];
      assert x in d.vals;
      WriteMountNotReadOnly(x, LastIndex(dirs, x));
    }
  }

  /** A mount is read-only when its text ends in `,readonly`. */
  predicate ReadOnly(m: seq<string>) {
    |m| == 1 && |m[0]| >= 9 && m[0][|m[0]| - 9..] == ",readonly"
  }

  /** An output mount is never read-only: its text ends in the last digit
      of the container path. */
  lemma WriteMountNotReadOnly(source: string, n: nat)
    ensures !ReadOnly(Mount(source, OutputTarget + NatToString(n), false))
  {
    var target := OutputTarget + NatToString(n);
    var s := Mount(source, target, false)[0];
    assert s == "type=bind,source=" + source + ",target=" + target;
    assert s[|s| - 1] == target[|target| - 1] == NatToString(n)[|NatToString(n)| - 1];
  }

  // ---------------------------------------------------------------------
  // CWL files

  /** `_cwl_io`: the entries of `_io_keys` that hold a value, by name.
      The YAML rendering of an entry is not part of this model, so the
      entry itself stands for it. */
  function CwlIo(ios: seq<Io>): (d: Dict<Io>)
    ensures d.Valid()
    ensures forall k :: k in d.vals <==> IsIoName(ios, k) && ios[LastNamed(ios, k)].value != NoValue
    ensures forall k :: k in d.vals ==> d.vals[k] == ios[LastNamed(ios, k)]
  {
    var t := IoKeys(ios);
    WithValues(t.keys, t.vals)
  }

  /** The dictionary comprehension over `ks` that keeps the entries of `m`
      whose value is not None. */
  function WithValues(ks: seq<string>, m: map<string, Io>): (d: Dict<Io>)
    requires forall k :: k in ks ==> k in m
    ensures d.Valid()
    ensures forall k :: k in d.vals <==> k in ks && m[k].value != NoValue
    ensures forall k :: k in d.vals ==> d.vals[k] == m[k]
    decreases |ks|
  {
    if ks == [] then Empty()
    else
      var n := |ks| - 1;
      assert forall i :: 0 <= i < n ==> ks[..n][i] == ks[i];
      assert ks == ks[..n] + [ks[n]];
      var rest := WithValues(ks[..n], m);
      if m[ks[n]].value != NoValue then
        PutValid(rest, ks[n], m[ks[n]]);
        rest.Put(ks[n], m[ks[n]])
      else rest
  }

  /** The file-name check of `save_cwl` and `save_cwl_io`: the text after
      the last `.` must be `suffix`. The path itself is returned. */
  function CheckSuffix(path: string, suffix: string, message: string): (r: Result<string, PluginError>)
    ensures r.Ok? <==> AfterLast(path, '.') == suffix
    ensures r.Ok? ==> r.value == path
    ensures r.Err? ==> r.error == AssertionError(message)
  {
    if AfterLast(path, '.') == suffix then Ok(path) else Err(AssertionError(message))
  }

  /** `save_cwl`: the path must end in `.cwl`; writing the YAML file is not
      modelled. */
  function SaveCwl(path: string): (r: Result<string, PluginError>)
    ensures r.Ok? ==> r.value == path
  {
    CheckSuffix(path, "cwl", "Path must end in .cwl")
  }

  /** `save_cwl_io`: the inputs are checked first, then the path must end in
      `.yml`. */
  function SaveCwlIo(inputs: seq<Io>, path: string): (r: Result<string, PluginError>)
    ensures CheckInputs(inputs).Fail? ==> r == Err(CheckInputs(inputs).error)
    ensures CheckInputs(inputs).Pass? ==> r == CheckSuffix(path, "yml", "Path must end in .yml")
  {
    match CheckInputs(inputs)
    case Fail(e) => Err(e)
    case Pass => CheckSuffix(path, "yml", "Path must end in .yml")
  }

  /** The suffix check accepts exactly the paths that end in `.` followed
      by the suffix, and the bare suffix with no `.` at all; so `cwl` on its
      own passes `save_cwl`. */
  lemma SuffixAccepted(path: string, suffix: string)
    requires suffix != "" && '.' !in suffix
    ensures AfterLast(path, '.') == suffix <==>
      path == suffix || (|path| > |suffix| && path[|path| - |suffix| - 1..] == "." + suffix)
  {
    var dotted := |path| > |suffix| && path[|path| - |suffix| - 1..] == "." + suffix;
    if dotted {
      SuffixSufficient(path, suffix);
    } else if path != suffix && AfterLast(path, '.') == suffix {
      SuffixNeeded(path, suffix);
    }
  }

  lemma SuffixSufficient(path: string, suffix: string)
    requires '.' !in suffix
    requires |path| > |suffix| && path[|path| - |suffix| - 1..] == "." + suffix
    ensures AfterLast(path, '.') == suffix
  {
    var t := path[..|path| - |suffix| - 1];
    assert path == t + "." + suffix;
    AfterLastAppend(t, suffix);
  }

  lemma SuffixNeeded(path: string, suffix: string)
    requires AfterLast(path, '.') == suffix && path != suffix
    ensures |path| > |suffix| && path[|path| - |suffix| - 1..] == "." + suffix
  {
    AfterLastSplit(path, '.');
    DotThenTail(path, suffix, |path| - |suffix| - 1);
  }

  /** When the text after the last `c` is not the whole text, a `c`
      comes right before it. */
  lemma AfterLastSplit(s: string, c: char)
    requires AfterLast(s, c) != s
    ensures var r := AfterLast(s, c);
      && |r| < |s| && s[|s| - |r| - 1] == c && s[|s| - |r|..] == r
  {
  }

  lemma DotThenTail(path: string, suffix: string, k: nat)
    requires k + 1 + |suffix| == |path| && path[k] == '.' && path[k + 1..] == suffix
    ensures path[k..] == "." + suffix
  {
    assert path[k..] == [path[k]] + path[k + 1..];
  }

  /** The text after the last `.` of `t.suffix` is `suffix` when `suffix`
      holds no `.`. */
  lemma {:induction false} AfterLastAppend(t: string, suffix: string)
    requires '.' !in suffix
    ensures AfterLast(t + "." + suffix, '.') == suffix
    decreases |suffix|
  {
    var s := t + "." + suffix;
    if suffix == [] {
    } else {
      var n := |suffix| - 1;
      assert s[..|s| - 1] == t + "." + suffix[..n];
      AfterLastAppend(t, suffix[..n]);
      assert suffix == suffix[..n] + [suffix[n]];
    }
  }

  // ---------------------------------------------------------------------
  // Attribute routing

  /** The attribute-visible state of a plugin object: its inputs and
      outputs, whether its `_io_keys` table is in place, and its other
      attributes. The table indexes the inputs and outputs by name. */
  datatype Attrs = Attrs(inputs: seq<Io>, outputs: seq<Io>, hasIoKeys: bool, others: map<string, Value>)

  predicate IsIoName(ios: seq<Io>, attr: string) {
    exists i :: 0 <= i < |ios| && ios[i].name == attr
  }

  /** `_io_keys`: the inputs and outputs by name, built as a dict from
      `inputs + outputs` in order, so a repeated name keeps the place of
      its first entry and refers to its last. */
  function IoKeys(ios: seq<Io>): (d: Dict<Io>)
    ensures d.Valid()
    ensures forall k :: k in d.vals <==> IsIoName(ios, k)
    ensures forall k :: k in d.vals ==> d.vals[k] == ios[LastNamed(ios, k)]
    decreases |ios|
  {
    if ios == [] then Empty()
    else
      var n := |ios| - 1;
      var rest := IoKeys(ios[..n]);
      LastNamedSnoc(ios);
      PutValid(rest, ios[n].name, ios[n]);
      rest.Put(ios[n].name, ios[n])
  }

  /** The position of the last entry named `attr`. */
  function LastNamed(ios: seq<Io>, attr: string): (n: nat)
    requires IsIoName(ios, attr)
    ensures n < |ios| && ios[n].name == attr
    ensures forall i :: n < i < |ios| ==> ios[i].name != attr
    decreases |ios|
  {
    var m := |ios| - 1;
    if ios[m].name == attr then m
    else
      assert IsIoName(ios[..m], attr) by {
        var i :| 0 <= i < |ios| && ios[i].name == attr;
        assert ios[..m][i] == ios[i];
      }
      LastNamed(ios[..m], attr)
  }

  /** Adding an entry at the end: its own name now refers to it, and every
      other name is found where it was. */
  lemma LastNamedSnoc(ios: seq<Io>)
    requires |ios| > 0
    ensures var n := |ios| - 1;
      forall k :: IsIoName(ios, k) <==> IsIoName(ios[..n], k) || k == ios[n].name
    ensures var n := |ios| - 1;
      forall k :: IsIoName(ios[..n], k) && k != ios[n].name ==> LastNamed(ios, k) == LastNamed(ios[..n], k)
  {
    var n := |ios| - 1;
    forall k | IsIoName(ios, k)
      ensures IsIoName(ios[..n], k) || k == ios[n].name
    {
      var i :| 0 <= i < |ios| && ios[i].name == k;
      if i < n {
        assert ios[..n][i] == ios[i];
      }
    }
    forall k | IsIoName(ios[..n], k)
      ensures IsIoName(ios, k)
    {
      var i :| 0 <= i < n && ios[..n][i].name == k;
      assert ios[i] == ios[..n][i];
    }
  }

  /** The entry `_io_keys[attr]` refers to. */
  function FindIo(ios: seq<Io>, attr: string): (io: Io)
    requires IsIoName(ios, attr)
    ensures io == ios[LastNamed(ios, attr)]
    ensures io.name == attr
    ensures forall i :: 0 <= i < |ios| && ios[i].name == attr ==> i <= LastNamed(ios, attr)
  {
    IoKeys(ios).vals[attr]
  }

  /** Whether reading or writing `attr` goes to an I/O value. */
  predicate Routed(s: Attrs, attr: string) {
    attr != "_io_keys" && s.hasIoKeys && IsIoName(s.inputs + s.outputs, attr)
  }

  /** `_io_keys[attr].value = v`: the entry `_io_keys` refers to, an
      input or an output, gets the value; every other entry is as before. */
  function WithValue(s: Attrs, attr: string, v: Value): (r: Attrs)
    requires IsIoName(s.inputs + s.outputs, attr)
    ensures r.hasIoKeys == s.hasIoKeys && r.others == s.others
    ensures var all, all' := s.inputs + s.outputs, r.inputs + r.outputs;
      && |r.inputs| == |s.inputs| && |r.outputs| == |s.outputs|
      && (forall i :: 0 <= i < |all| ==>
            && all'[i].name == all[i].name && all'[i].required == all[i].required && all'[i].fs == all[i].fs
            && all'[i].value == if i == LastNamed(all, attr) then v else all[i].value)
  {
    var k := LastNamed(s.inputs + s.outputs, attr);
    if k < |s.inputs| then
      s.(inputs := s.inputs[k := s.inputs[k].(value := v)])
    else
      s.(outputs := s.outputs[k - |s.inputs| := s.outputs[k - |s.inputs|].(value := v)])
  }

  /** Every entry with its file system replaced by `fs`. */
  function WithFs(ios: seq<Io>, fs: Value): (r: seq<Io>)
    ensures |r| == |ios|
    ensures forall i :: 0 <= i < |ios| ==> r[i].fs == fs
    ensures forall i :: 0 <= i < |ios| ==> r[i].name == ios[i].name && r[i].required == ios[i].required && r[i].value == ios[i].value
  {
    seq(|ios|, i requires 0 <= i < |ios| => ios[i].(fs := fs))
  }

  /** The loop `__setattr__` runs over one list when `_fs` is set. */
  method SetFsAll(ios: seq<Io>, fs: Value) returns (r: seq<Io>)
    ensures r == WithFs(ios, fs)
  {
    r := ios;
    var i := 0;
    while i < |r|
      invariant i <= |r| == |ios|
      invariant forall j :: 0 <= j < i ==> r[j] == ios[j].(fs := fs)
      invariant forall j :: i <= j < |r| ==> r[j] == ios[j]
    {
      r := r[i := r[i].(fs := fs)];
      i := i + 1;
    }
  }

  /** `__setattr__(attr, v)`:
      - `_fs` must be a file system object, and is then handed to every
        input and output (the plugin keeps no `_fs` of its own);
      - once `_io_keys` exists, an I/O name sets that I/O's value and any
        other name (but `_io_keys` itself) raises `IOKeyError`;
      - otherwise the attribute is set as usual. */
  function SetAttrOf(s: Attrs, attr: string, v: Value): (r: Result<Attrs, PluginError>)
    ensures r.Err? <==>
      || (attr == "_fs" && !v.FileSystem?)
      || (attr != "_fs" && attr != "_io_keys" && s.hasIoKeys && !IsIoName(s.inputs + s.outputs, attr))
    ensures r.Err? && attr == "_fs" ==> r.error == ValueError("_fs must be an fsspec FileSystem")
    ensures r.Err? && attr != "_fs" ==> r.error == IOKeyError(attr)
  {
    if attr == "_fs" then
      if !v.FileSystem? then Err(ValueError("_fs must be an fsspec FileSystem"))
      else Ok(s.(inputs := WithFs(s.inputs, v), outputs := WithFs(s.outputs, v)))
    else if attr != "_io_keys" && s.hasIoKeys then
      if IsIoName(s.inputs + s.outputs, attr) then
        Ok(WithValue(s, attr, v))
      else Err(IOKeyError(attr))
    else Ok(s.(others := s.others[attr := v], hasIoKeys := s.hasIoKeys || attr == "_io_keys"))
  }

  /** What reading an I/O value returns: an enum member becomes its name. */
  function Shown(v: Value): Value {
    if v.EnumValue? then Str(v.member) else v
  }

  /** `__getattribute__(attr)`: an I/O name reads that I/O's value (an enum
      as its name); any other name is an ordinary attribute. */
  function GetAttrOf(s: Attrs, attr: string): (r: Result<Value, PluginError>)
    ensures Routed(s, attr) ==> r.Ok? && !r.value.EnumValue?
    ensures !Routed(s, attr) ==> (r.Ok? <==> attr in s.others)
  {
    if Routed(s, attr) then Ok(Shown(FindIo(s.inputs + s.outputs, attr).value))
    else if attr in s.others then Ok(s.others[attr])
    else Err(AttributeError(attr))
  }

  /** Reading an attribute back after writing it gives the value written,
      shown as an I/O value when the name is routed. */
  lemma SetThenGet(s: Attrs, attr: string, v: Value)
    requires attr != "_fs" && SetAttrOf(s, attr, v).Ok?
    ensures GetAttrOf(SetAttrOf(s, attr, v).value, attr) == Ok(if Routed(s, attr) then Shown(v) else v)
  {
    var s' := SetAttrOf(s, attr, v).value;
    if Routed(s, attr) {
      var all, all' := s.inputs + s.outputs, s'.inputs + s'.outputs;
      LastNamedSameNames(all, all', attr);
      assert Routed(s', attr);
    }
  }

  /** Writing one attribute leaves every other attribute reading as before,
      unless it is the write that installs `_io_keys`. */
  lemma SetLeavesOthers(s: Attrs, attr: string, v: Value, other: string)
    requires SetAttrOf(s, attr, v).Ok? && other != attr
    requires s.hasIoKeys || attr != "_io_keys"
    ensures GetAttrOf(SetAttrOf(s, attr, v).value, other) == GetAttrOf(s, other)
  {
    var s' := SetAttrOf(s, attr, v).value;
    if attr == "_fs" {
      SameReads(s, s', other);
    } else if Routed(s, attr) {
      SameReads(s, s', other);
    }
  }

  /** Setting `_fs` to a file system hands it to every input and output and
      changes what no attribute reads. */
  lemma FsPropagates(s: Attrs, v: Value, attr: string)
    requires v.FileSystem?
    ensures SetAttrOf(s, "_fs", v).Ok?
    ensures var s' := SetAttrOf(s, "_fs", v).value;
      && |s'.inputs| == |s.inputs| && |s'.outputs| == |s.outputs|
      && (forall i :: 0 <= i < |s.inputs| ==> s'.inputs[i] == s.inputs[i].(fs := v))
      && (forall i :: 0 <= i < |s.outputs| ==> s'.outputs[i] == s.outputs[i].(fs := v))
      && GetAttrOf(s', attr) == GetAttrOf(s, attr)
  {
    SameReads(s, SetAttrOf(s, "_fs", v).value, attr);
  }

  /** Two states whose entries agree on names, and on the value of every
      entry named `attr`, read `attr` alike. */
  lemma SameReads(s: Attrs, s': Attrs, attr: string)
    requires s'.hasIoKeys == s.hasIoKeys && s'.others == s.others
    requires |s'.inputs| == |s.inputs| && |s'.outputs| == |s.outputs|
    requires forall i :: 0 <= i < |s.inputs| ==>
      s'.inputs[i].name == s.inputs[i].name && (s.inputs[i].name == attr ==> s'.inputs[i].value == s.inputs[i].value)
    requires forall i :: 0 <= i < |s.outputs| ==>
      s'.outputs[i].name == s.outputs[i].name && (s.outputs[i].name == attr ==> s'.outputs[i].value == s.outputs[i].value)
    ensures GetAttrOf(s', attr) == GetAttrOf(s, attr)
  {
    var a := s.inputs + s.outputs;
    var b := s'.inputs + s'.outputs;
    forall i | 0 <= i < |a|
      ensures a[i].name == b[i].name && (a[i].name == attr ==> a[i].value == b[i].value)
    {
      if i >= |s.inputs| {
        assert a[i] == s.outputs[i - |s.inputs|] && b[i] == s'.outputs[i - |s.inputs|];
      }
    }
    LastNamedSameNames(a, b, attr);
  }

  /** Two lists with the same names in the same places find the same place
      for every name. */
  lemma LastNamedSameNames(a: seq<Io>, b: seq<Io>, attr: string)
    requires |a| == |b| && forall i :: 0 <= i < |a| ==> a[i].name == b[i].name
    ensures IsIoName(a, attr) <==> IsIoName(b, attr)
    ensures IsIoName(a, attr) ==> LastNamed(a, attr) == LastNamed(b, attr)
  {
    if IsIoName(a, attr) {
      assert b[LastNamed(a, attr)].name == attr;
    }
    if IsIoName(b, attr) {
      assert a[LastNamed(b, attr)].name == attr;
    }
  }

  // ---------------------------------------------------------------------
  // The plugin object

  /** What `_config` returns: the plugin's fields with every input unset. */
  datatype PluginConfig = PluginConfig(name: string, version: string, containerId: string, inputs: seq<Io>, outputs: seq<Io>)

  /** A plugin object; `version` stands for its `version.version` text. */
  class Plugin {
    var name: string
    var version: string
    var containerId: string
    var inputs: seq<Io>
    var outputs: seq<Io>
    var hasIoKeys: bool
    var others: map<string, Value>

    function Attributes(): Attrs
      reads this
    {
      Attrs(inputs, outputs, hasIoKeys, others)
    }

    /** A plugin whose `_io_keys` table is already in place. */
    constructor(name: string, version: string, containerId: string, inputs: seq<Io>, outputs: seq<Io>)
      ensures this.name == name && this.version == version && this.containerId == containerId
      ensures Attributes() == Attrs(inputs, outputs, true, map[])
    {
      this.name := name;
      this.version := version;
      this.containerId := containerId;
      this.inputs := inputs;
      this.outputs := outputs;
      hasIoKeys := true;
      others := map[];
    }

    /** `setattr(plugin, attr, v)`: on an error nothing changes. */
    method SetAttr(attr: string, v: Value) returns (r: Outcome<PluginError>)
      modifies this
      ensures SetAttrOf(old(Attributes()), attr, v).Err? ==>
        r == Fail(SetAttrOf(old(Attributes()), attr, v).error) && Attributes() == old(Attributes())
      ensures SetAttrOf(old(Attributes()), attr, v).Ok? ==>
        r == Pass && Attributes() == SetAttrOf(old(Attributes()), attr, v).value
      ensures name == old(name) && version == old(version) && containerId == old(containerId)
    {
      if attr == "_fs" {
        if !v.FileSystem? {
          return Fail(ValueError("_fs must be an fsspec FileSystem"));
        }
        inputs := SetFsAll(inputs, v);
        outputs := SetFsAll(outputs, v);
        return Pass;
      }
      if attr != "_io_keys" && hasIoKeys {
        if IsIoName(inputs + outputs, attr) {
          var k := LastNamed(inputs + outputs, attr);
          if k < |inputs| {
            inputs := inputs[k := inputs[k].(value := v)];
          } else {
            outputs := outputs[k - |inputs| := outputs[k - |inputs|].(value := v)];
          }
          return Pass;
        }
        return Fail(IOKeyError(attr));
      }
      others := others[attr := v];
      hasIoKeys := hasIoKeys || attr == "_io_keys";
      r := Pass;
    }

    /** `_config`: a copy of the plugin's fields in which every input's
        value is None; the plugin itself is not changed. */
    method Config() returns (c: PluginConfig)
      ensures c.name == name && c.version == version && c.containerId == containerId
      ensures c.outputs == outputs
      ensures |c.inputs| == |inputs|
      ensures forall i :: 0 <= i < |inputs| ==> c.inputs[i] == inputs[i].(value := NoValue)
    {
      var ins := inputs;
      for i := 0 to |ins|
        invariant |ins| == |inputs|
        invariant forall j :: 0 <= j < i ==> ins[j] == inputs[j].(value := NoValue)
        invariant forall j :: i <= j < |ins| ==> ins[j] == inputs[j]
      {
        ins := ins[i := ins[i].(value := NoValue)];
      }
      c := PluginConfig(name, version, containerId, ins, outputs);
    }

    /** `run(gpus)`: the input check comes first; then the directories of
        the path-valued inputs and outputs are mapped to container paths,
        mounted (inputs read-only, listed first) and the argument vector is
        built, inputs before outputs. The container itself is not run. */
    method Run(gpus: Option<string>) returns (r: Result<DockerRun, PluginError>)
      ensures CheckInputs(inputs).Fail? ==> r == Err(CheckInputs(inputs).error)
      ensures CheckInputs(inputs).Pass? ==> r == Ok(Invocation(containerId, inputs, outputs, gpus))
    {
      var check := CheckInputs(inputs);
      if check.Fail? {
        return Err(check.error);
      }
      var inpDirs := CollectDirs(inputs);
      var outDirs := CollectDirs(outputs);
      var inpDict := DirsDict(inpDirs, InputTarget);
      var outDict := DirsDict(outDirs, OutputTarget);
      DirsDictKeys(inpDirs, InputTarget);
      DirsDictKeys(outDirs, OutputTarget);
      var mounts := Mounts(inpDict, true) + Mounts(outDict, false);
      var args := AppendArgs([], inputs, inpDict);
      assert args == ArgsOf(inputs, inpDict);
      args := AppendArgs(args, outputs, outDict);
      r := Ok(DockerRun(containerId, args, mounts, gpus));
    }

    /** `self < other`, with the version order as a parameter. */
    predicate Less(other: Plugin, versionLess: (string, string) -> bool)
      reads this, other
    {
      versionLess(version, other.version)
    }

    /** `self > other` */
    predicate Greater(other: Plugin, versionLess: (string, string) -> bool)
      reads this, other
    {
      versionLess(other.version, version)
    }
  }

  /** `a > b` holds exactly when `b < a`; for an asymmetric version order
      the two comparisons never both hold. */
  lemma GreaterIsConverse(a: Plugin, b: Plugin, versionLess: (string, string) -> bool)
    ensures a.Greater(b, versionLess) <==> b.Less(a, versionLess)
    ensures (forall x, y :: versionLess(x, y) ==> !versionLess(y, x)) ==>
      !(a.Less(b, versionLess) && a.Greater(b, versionLess))
  {
  }
}
