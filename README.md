# Polus plugins: label facade, ImageJ op generator, plugin I/O and WIPP UI models

This project models, in Dafny, five parts of the Polus plugins repository.

- **`FtlLabel`**: the Python facade `PolygonSet` of the FTL label plugin.
  - Construction checks the connectivity.
  - `dtype` chooses the narrowest label type for the object count.
  - `read_from` cuts the image into a grid of tiles, binarises each tile and hands it to the compiled engine, then digests.
  - `write_to` asks the engine for one-plane-deep tiles of labels covering the whole volume.
  - The compiled engine is the class `RustEngine`. It only records the calls it receives.
  - The lemmas state the grid properties: coverage, disjointness, bounds, row-major order, tile counts and when `squeeze` keeps the (z, y, x) layout.
- **`ImagejTypes`, `ImagejPopulate`, `ImagejJson`, `ImagejWalk`**: the current ImageJ op generator.
  - Each overloading method becomes an `Op`: reserved titles are renamed, the output is forced to `out`, and every variable is typed through the ImageJ→WIPP table.
  - Inputs are split into required and optional, and full and partial support are decided.
  - A `Plugin` accumulates the input and output entries of its supported ops.
  - `build_json` builds one cookiecutter template per plugin with a supported op.
- **`ImagejLegacy`**: the earlier version of the same generator, with `Op`, `Library.addOp` and the grouping of parsed ops by library.
- **`PluginMethods`**: the I/O bookkeeping of a configured plugin.
  - The required-input check, and the container organization.
  - In `run`: the host→container directory maps, the mount list, and the argument vector of the docker invocation.
  - The routing of attribute writes and reads to I/O values, and `_config`.
  - `_cwl_io`, and the file-suffix checks of `save_cwl` and `save_cwl_io`.
  - The version ordering.
- **`WippManifest`**: the pydantic models `ui1`, `FieldSet`, `ui2` and `WIPPPluginManifest`, as parsers from a JSON document that either build the model or report the failing field.

Shared definitions used by the modules above:

- `Wrappers` holds the `Option`, `Result` and `Outcome` types.
- `OrderedDicts` holds Python's insertion-ordered `dict` as a key list plus a map.
- `Text` holds string helpers: `split(c)[0]`, `rsplit(c, 1)[-1]`, `str.replace`, `str(n)` and `', '.join`.
- `Layout` holds arithmetic and sequence-concatenation lemmas.
- `PyRepr` holds Python's `repr` of a string, with a reader that inverts it.

Some code follows the source's own form:

- Objects whose methods update fields are classes: `PolygonSet`, `RustEngine`, `Plugin` in both generators, `Library`, both `Populate` classes and the configured `Plugin`.
- The loops are methods with invariants: the tile loops, the renaming loop, the input-accumulation loops, the directory/argument loops, the `_fs` loop and the `_config` loop.
- Each loop method is proved equal to a specification function, and the lemmas state what that function means.

## Model

| member | source | states |
|---|---|---|
| FtlLabel.PolygonSet.New | polus-ftl-label-plugin/ftl_rust/__init__.py:34-40 | ValueError exactly when the connectivity is outside 1..3; otherwise a fresh set with that connectivity, no metadata, zero polygons and an engine that has received nothing |
| FtlLabel.PolygonSet.constructor | polus-ftl-label-plugin/ftl_rust/__init__.py:37-40 | the initial state after the connectivity check: fresh engine with the same connectivity, metadata None, num_polygons 0 |
| FtlLabel.RustEngine.constructor | polus-ftl-label-plugin/ftl_rust/__init__.py:37 | a fresh engine has received no tile, no digest and no extraction request |
| FtlLabel.RustEngine.AddTile | polus-ftl-label-plugin/ftl_rust/__init__.py:89 | accepts only a 0/1 tile and appends it to the tiles received, nothing else changes |
| FtlLabel.RustEngine.Digest | polus-ftl-label-plugin/ftl_rust/__init__.py:95-97 | counts one more digest and makes `len` report the component count found |
| FtlLabel.RustEngine.ExtractTile | polus-ftl-label-plugin/ftl_rust/__init__.py:129 | only after a digest; appends the requested bounds, nothing else changes |
| FtlLabel.DtypeFor | polus-ftl-label-plugin/ftl_rust/__init__.py:46-56 | the chosen label type holds the count, and no narrower type does |
| FtlLabel.DtypeBoundaries | polus-ftl-label-plugin/ftl_rust/__init__.py:48-55 | 0 and 255 get uint8, 256 and 65535 get uint16, 65536 and 2^32-1 get uint32, 2^32 gets uint64 |
| FtlLabel.TileSize | polus-ftl-label-plugin/ftl_rust/__init__.py:67 | the tile size is positive (1024 for a stack, 5120 for a single plane) |
| FtlLabel.GridCountIsCeiling | polus-ftl-label-plugin/ftl_rust/__init__.py:69-75 | the grid count is the ceiling of extent / tile size, zero only for an empty extent |
| FtlLabel.ProductZero | polus-ftl-label-plugin/ftl_rust/__init__.py:92 | a product of naturals is zero iff a factor is |
| FtlLabel.MulPositive | polus-ftl-label-plugin/ftl_rust/__init__.py:92 | a positive multiple of b is at least b |
| FtlLabel.NoTiles | polus-ftl-label-plugin/ftl_rust/__init__.py:92 | num_cols × num_rows is zero iff Y or X is empty |
| FtlLabel.RowStartsInside | polus-ftl-label-plugin/ftl_rust/__init__.py:78-80 | `range(0, n, ts)` visits r*ts exactly for r below the grid count |
| FtlLabel.PlaneBoxesShape | polus-ftl-label-plugin/ftl_rust/__init__.py:78-81 | there are rows×cols boxes; each is non-empty, inside the image and at most one tile size along each axis |
| FtlLabel.InGridBox | polus-ftl-label-plugin/ftl_rust/__init__.py:79-81 | a pixel lies in box (r, c) iff r and c are its coordinates divided by the tile size |
| FtlLabel.PlaneBoxesPartition | polus-ftl-label-plugin/ftl_rust/__init__.py:78-81 | every pixel of the plane lies in exactly one box, the one at its row-major cell index |
| FtlLabel.PartitionAt | polus-ftl-label-plugin/ftl_rust/__init__.py:78-81 | box k contains a given pixel iff k is that pixel's cell index |
| FtlLabel.PlaneBoxesCover | polus-ftl-label-plugin/ftl_rust/__init__.py:78-81 | every pixel of the plane lies in some box |
| FtlLabel.PlaneBoxesDisjoint | polus-ftl-label-plugin/ftl_rust/__init__.py:78-81 | no pixel lies in two different boxes |
| FtlLabel.PlaneBoxesRowMajor | polus-ftl-label-plugin/ftl_rust/__init__.py:78-81 | boxes are visited in row-major order of their top-left corners |
| FtlLabel.PlaneBoxAt | polus-ftl-label-plugin/ftl_rust/__init__.py:78-81 | the box visited at position r*cols+c is the clipped box of grid cell (r, c) |
| FtlLabel.RowHeight | polus-ftl-label-plugin/ftl_rust/__init__.py:79 | a grid row is a full tile high except the last, which is n mod ts high |
| FtlLabel.RowThick | polus-ftl-label-plugin/ftl_rust/__init__.py:79-83 | when n mod ts is not 1, every row of boxes is at least two pixels high |
| FtlLabel.LastRowThin | polus-ftl-label-plugin/ftl_rust/__init__.py:79-83 | when n mod ts is 1, the last row of boxes is one pixel high |
| FtlLabel.ThickEdgesMeaning | polus-ftl-label-plugin/ftl_rust/__init__.py:83-89 | every box is at least 2×2 iff neither extent is 1 more than a multiple of the tile size |
| FtlLabel.ThickBox | polus-ftl-label-plugin/ftl_rust/__init__.py:83-89 | under thick edges each box is at least 2×2 |
| FtlLabel.ThinBox | polus-ftl-label-plugin/ftl_rust/__init__.py:83-89 | without thick edges some box is one pixel high or wide |
| FtlLabel.Squeeze | polus-ftl-label-plugin/ftl_rust/__init__.py:83 | `numpy.squeeze` leaves no axis of length 1 |
| FtlLabel.SqueezeTriple | polus-ftl-label-plugin/ftl_rust/__init__.py:83 | squeezing (h, w, Z) keeps exactly the axes other than 1, in order |
| FtlLabel.SqueezeKeepsLayout | polus-ftl-label-plugin/ftl_rust/__init__.py:83-88 | squeeze then newaxis/transpose gives (Z, h, w) iff the tile is more than one pixel in both y and x |
| FtlLabel.TileOfMeaning | polus-ftl-label-plugin/ftl_rust/__init__.py:83-89 | a tile has origin (0, y, x), Z planes of the box's size, and holds 1 exactly where the image is non-zero |
| FtlLabel.TileOfBinary | polus-ftl-label-plugin/ftl_rust/__init__.py:84 | every tile handed on is 0/1-valued |
| FtlLabel.IngestedTiles | polus-ftl-label-plugin/ftl_rust/__init__.py:78-90 | tile k handed to the engine is the binarised tile of the k-th row-major box, and there is one per box |
| FtlLabel.IngestedLength | polus-ftl-label-plugin/ftl_rust/__init__.py:78-90 | read_from hands rows×cols tiles to the engine |
| FtlLabel.RowsLength | polus-ftl-label-plugin/ftl_rust/__init__.py:78-90 | the first n grid rows hold n×cols tiles |
| FtlLabel.RowsNext | polus-ftl-label-plugin/ftl_rust/__init__.py:78-90 | the tiles of n+1 rows are those of n rows followed by row n |
| FtlLabel.RowTilesUniform | polus-ftl-label-plugin/ftl_rust/__init__.py:80-90 | every grid row contributes cols tiles |
| FtlLabel.IngestStep | polus-ftl-label-plugin/ftl_rust/__init__.py:78-90 | the tile of cell (r, c) sits at position r*cols+c of the ingested sequence, and its squeezed shape is (Z, h, w) |
| FtlLabel.GridBoxThick | polus-ftl-label-plugin/ftl_rust/__init__.py:79-88 | under thick edges a grid box is at least 2×2 and reshapes to (Z, h, w) |
| FtlLabel.ReadStep | polus-ftl-label-plugin/ftl_rust/__init__.py:79-89 | the tile built in the inner loop is the c-th tile of row r, binary, and of shape (Z, h, w) |
| FtlLabel.PolygonSet.ReadRow | polus-ftl-label-plugin/ftl_rust/__init__.py:80-90 | one pass of the inner loop hands row r's tiles to the engine in order and counts cols more tiles |
| FtlLabel.PolygonSet.ReadTiles | polus-ftl-label-plugin/ftl_rust/__init__.py:77-92 | the two loops hand exactly the ingested tile sequence to the engine; the count is rows×cols; the progress line raises ZeroDivisionError iff Y is non-empty and X empty |
| FtlLabel.PolygonSet.ReadFrom | polus-ftl-label-plugin/ftl_rust/__init__.py:58-99 | stores the metadata and hands over every tile; ZeroDivisionError, before any digest, iff Y is non-empty and X empty; otherwise digests exactly once, `len` becomes the engine's count, and the result is rows×cols tiles |
| FtlLabel.PlaneBoundsNext | polus-ftl-label-plugin/ftl_rust/__init__.py:124-131 | the bounds of n+1 rows of a plane are those of n rows followed by row n |
| FtlLabel.PlanesBoundsNext | polus-ftl-label-plugin/ftl_rust/__init__.py:123-131 | the bounds of m+1 planes are those of m planes followed by plane m |
| FtlLabel.PlaneBoundsLength | polus-ftl-label-plugin/ftl_rust/__init__.py:124-131 | n rows of a plane give n×cols bounds |
| FtlLabel.PlanesUniform | polus-ftl-label-plugin/ftl_rust/__init__.py:123-131 | every plane gives rows×cols bounds |
| FtlLabel.PlanesBoundsLength | polus-ftl-label-plugin/ftl_rust/__init__.py:123-131 | m planes give m×rows×cols bounds |
| FtlLabel.ExtractionBoundAt | polus-ftl-label-plugin/ftl_rust/__init__.py:123-129 | request z*rows*cols + r*cols + c is (z, z+1) by the clipped box of cell (r, c) |
| FtlLabel.ExtractionBoundsClosed | polus-ftl-label-plugin/ftl_rust/__init__.py:123-129 | request k is plane k div n with plane box k mod n, where n is the number of boxes in a plane |
| FtlLabel.ExtractionBoundsShape | polus-ftl-label-plugin/ftl_rust/__init__.py:123-131 | Z×rows×cols requests, each one plane deep, non-empty, inside the volume and at most a tile size wide |
| FtlLabel.ExtractionPartitionAt | polus-ftl-label-plugin/ftl_rust/__init__.py:123-129 | request k contains a voxel iff k is that voxel's plane-major cell index |
| FtlLabel.ExtractionBoundsPartition | polus-ftl-label-plugin/ftl_rust/__init__.py:123-129 | every voxel of the volume is in exactly one requested block |
| FtlLabel.PolygonSet.WriteRow | polus-ftl-label-plugin/ftl_rust/__init__.py:126-131 | the inner loop requests row r's bounds of plane z in order and counts cols more tiles |
| FtlLabel.PolygonSet.WritePlane | polus-ftl-label-plugin/ftl_rust/__init__.py:124-131 | the middle loop requests plane z's bounds in row-major order |
| FtlLabel.PolygonSet.WriteTo | polus-ftl-label-plugin/ftl_rust/__init__.py:101-134 | the writer type is `dtype()` and exactly the extraction bounds are requested in plane-, row- and column-major order; ZeroDivisionError iff there is a plane and Y or X is empty; otherwise the count is Z×rows×cols |
| ImagejTypes.WippType | utils/polus-imagej-util/classes/populate.py:132-133 | the mapped type is one of the six WIPP type names |
| ImagejTypes.WippTypeClassified | utils/polus-imagej-util/classes/populate.py:186-239 | a type maps to collection, number, boolean, array or string iff it is in that list, and to unknown iff it is in none |
| ImagejTypes.ListsDisjoint | utils/polus-imagej-util/classes/populate.py:186-232 | no ImageJ type name is in two of the five lists, so the merge order does not matter |
| ImagejTypes.MergedLookup | utils/polus-imagej-util/classes/populate.py:235-239 | looking a name up in the merged table of disjoint lists gives that list's WIPP type |
| ImagejTypes.CollectionSubstring | utils/polus-imagej-util/classes/populate.py:339 | the substring test `'collection' in` a WIPP type name holds only for `collection` |
| ImagejPopulate.RenameReserved | utils/polus-imagej-util/classes/populate.py:118-121 | in place: a title `in` becomes `in1`, every other entry is unchanged, the order is kept, and no title `in` remains |
| ImagejPopulate.MapVar | utils/polus-imagej-util/classes/populate.py:133 | keeps the variable and pairs it with a WIPP type name |
| ImagejPopulate.MapAll | utils/polus-imagej-util/classes/populate.py:132 | one pair per input, in order, each with its table type or unknown |
| ImagejPopulate.Titles | utils/polus-imagej-util/classes/populate.py:153-154 | the titles of the pairs, position by position |
| ImagejPopulate.Dtypes | utils/polus-imagej-util/classes/populate.py:149-150 | the ImageJ types of the pairs, position by position |
| ImagejPopulate.Wipps | utils/polus-imagej-util/classes/populate.py:157-158 | the WIPP types of the pairs, position by position |
| ImagejPopulate.ImagejTitleOutput | utils/polus-imagej-util/classes/populate.py:169-170 | an output titled `out` reports the title `out` |
| ImagejPopulate.RequiredOrOptional | utils/polus-imagej-util/classes/populate.py:137-142 | a variable with a non-empty title is required iff it is not optional |
| ImagejPopulate.RequiredOptionalPartition | utils/polus-imagej-util/classes/populate.py:137-142 | required and optional inputs together are a permutation of all inputs |
| ImagejPopulate.RequiredMembers | utils/polus-imagej-util/classes/populate.py:137-142 | every required entry is an input with a required title, and every optional entry is an input with an optional title |
| ImagejPopulate.RequiredAppend | utils/polus-imagej-util/classes/populate.py:137-142 | the split distributes over concatenation, so the input order is kept |
| ImagejPopulate.AllRequired | utils/polus-imagej-util/classes/populate.py:137-142 | with no optional input, the required inputs are all inputs |
| ImagejPopulate.Support | utils/polus-imagej-util/classes/populate.py:297-355 | msg[0] fails iff unknown is among the required/output types; msg[1] fails iff no required input is a collection or the output does not contain `collection`; partial iff both hold; full fails iff some type is unknown or no input / the output is a collection |
| ImagejPopulate.NewOp | utils/polus-imagej-util/classes/populate.py:82-146 | renames the caller's list in place; IndexError iff some title is empty; the op records the renamed inputs with their WIPP types, output titled `out`, the required/optional split and the support decision |
| ImagejPopulate.PartialSupportMeaning | utils/polus-imagej-util/classes/populate.py:345-355 | partial support iff no required input is unknown, the output is a collection, and some required input is a collection |
| ImagejPopulate.FullSupportMeaning | utils/polus-imagej-util/classes/populate.py:332-340 | full support iff no input is unknown, the output is a collection, and some input is a collection |
| ImagejPopulate.InWipps | utils/polus-imagej-util/classes/populate.py:335-353 | a WIPP type is in the list iff some entry has it |
| ImagejPopulate.FullWithoutPartial | utils/polus-imagej-util/classes/populate.py:332-355 | an op whose only collection input is optional is fully but not partially supported |
| ImagejPopulate.FullImpliesPartial | utils/polus-imagej-util/classes/populate.py:332-355 | with no optional inputs, full support implies partial support |
| ImagejPopulate.Single | utils/polus-imagej-util/classes/populate.py:446-447 | a one-entry dict `{k: v}` |
| ImagejPopulate.AddInput | utils/polus-imagej-util/classes/populate.py:439-457 | adding one required input keeps the dict well formed |
| ImagejPopulate.AddInputs | utils/polus-imagej-util/classes/populate.py:435-457 | adding an op's required inputs keeps the dict well formed |
| ImagejPopulate.EntryAfterMeaning | utils/polus-imagej-util/classes/populate.py:439-457 | an existing entry keeps its type/title/description/required and gains the op's call and WIPP types; a new entry is (wipp, title, title, False) with only this op |
| ImagejPopulate.AddInputsKeys | utils/polus-imagej-util/classes/populate.py:435-457 | the keys afterwards are the old keys plus the new titles, and the old keys keep their order at the front |
| ImagejPopulate.AddInputsKeepsFixed | utils/polus-imagej-util/classes/populate.py:451-457 | existing titles keep their fixed fields, and titles this op lacks are untouched |
| ImagejPopulate.AddInputsFirstFixes | utils/polus-imagej-util/classes/populate.py:440-448 | the first occurrence of a new title fixes its type, title, description and required=False |
| ImagejPopulate.AddInputsLastRecords | utils/polus-imagej-util/classes/populate.py:452-453 | the last occurrence of a title sets this op's call type and WIPP type |
| ImagejPopulate.AddInputsKeepsOthers | utils/polus-imagej-util/classes/populate.py:452-453 | entries recorded under other op names are unchanged |
| ImagejPopulate.AddRequiredInputs | utils/polus-imagej-util/classes/populate.py:435-457 | the loop over the zipped required inputs computes the accumulated dict |
| ImagejPopulate.AddOutput | utils/polus-imagej-util/classes/populate.py:460-488 | adding the output keeps the dict well formed |
| ImagejPopulate.AddOutputMeaning | utils/polus-imagej-util/classes/populate.py:460-488 | the outputs dict always has the single key `out`; the first supported op creates it, later ones only add their call type |
| ImagejPopulate.Plugin.constructor | utils/polus-imagej-util/classes/populate.py:384-400 | a new plugin has its name and four empty dicts |
| ImagejPopulate.Plugin.AddOp | utils/polus-imagej-util/classes/populate.py:402-488 | the new state is the add_op step of the old one, and the plugin invariant is kept |
| ImagejPopulate.AddOpTo | utils/polus-imagej-util/classes/populate.py:425-488 | the method on plugin states computes the add_op step |
| ImagejPopulate.AddOpKeepsValid | utils/polus-imagej-util/classes/populate.py:425-488 | add_op keeps supported ops a subset of ops, all partially supported and under their own names, and outputs keyed `out` exactly when some op is supported |
| PyRepr.HexRoundTrip | utils/polus-imagej-util/classes/populate.py:789 | the w-digit lower-case hex of a number below 16^w reads back as that number |
| PyRepr.ReprRoundTrip | utils/polus-imagej-util/classes/populate.py:782-789 | `repr` of a string, as `str(list)` prints each item, reads back as the string: it is quoted with `'` unless the string holds `'` and no `"`, the quote and `\` are escaped, `\t \n \r` get letter escapes, other non-printable characters `\x`, `\u` or `\U` escapes, so the rendering loses nothing |
| PyRepr.ReprPlain | utils/polus-imagej-util/classes/populate.py:782-789 | a string of printable characters without `'` or `\` is printed as itself between single quotes |
| PyRepr.EscapeKept | utils/polus-imagej-util/classes/populate.py:782-789 | printable characters other than the quote and `\` are not escaped |
| PyRepr.ReprNoOddSpace | utils/polus-imagej-util/classes/populate.py:789 | the only whitespace character `repr` ever produces is the space |
| PyRepr.ReprQuoteExample | utils/polus-imagej-util/classes/populate.py:789 | `it's` is printed between double quotes, with its `'` unescaped |
| PyRepr.ReprTabExample | utils/polus-imagej-util/classes/populate.py:789 | a tab is printed as the two characters `\t` |
| ImagejJson.Reprs | utils/polus-imagej-util/classes/populate.py:789 | the `repr` of each title, position by position |
| ImagejJson.ThenAssoc | utils/polus-imagej-util/classes/populate.py:787-789 | chaining substitutions is associative, including the error |
| ImagejJson.SubstAppend | utils/polus-imagej-util/classes/populate.py:787-789 | substituting a concatenation is substituting each part, with the first KeyError winning |
| ImagejJson.SubstOne | utils/polus-imagej-util/classes/populate.py:760-765 | the one-character substitution: `[` and `]` to parentheses, `'` and the space removed, any other whitespace character a KeyError (the table has no entry for it), anything else kept |
| ImagejJson.SubstRaises | utils/polus-imagej-util/classes/populate.py:787-789 | the substitution succeeds iff the text holds no whitespace other than the space |
| ImagejJson.ListReprSubstOk | utils/polus-imagej-util/classes/populate.py:784-789 | on the printed list of any titles the substitution succeeds, so the KeyError never happens |
| ImagejJson.CleanTitleOk | utils/polus-imagej-util/classes/populate.py:787-789 | a title's `repr` substitutes to the title as the call string shows it |
| ImagejJson.TitleCharKept | utils/polus-imagej-util/classes/populate.py:760-765 | printable characters other than quotes, backslash, brackets and space are kept by the substitution |
| ImagejJson.SubstKept | utils/polus-imagej-util/classes/populate.py:787-789 | text of kept characters is unchanged |
| ImagejJson.SubstQuoted | utils/polus-imagej-util/classes/populate.py:787-789 | a single-quoted text of kept characters loses its quotes |
| ImagejJson.CleanPlainTitle | utils/polus-imagej-util/classes/populate.py:787-789 | a title of plain characters appears in the call string as itself |
| ImagejJson.CleanTabExample | utils/polus-imagej-util/classes/populate.py:787-789 | the title `a<tab>b` appears as `a\tb` (backslash, t) |
| ImagejJson.CleanQuoteExample | utils/polus-imagej-util/classes/populate.py:787-789 | the title `it's` appears as `"its"`: repr switches to double quotes and the substitution drops the `'` |
| ImagejJson.SubstJoined | utils/polus-imagej-util/classes/populate.py:787-789 | the printed items joined by `, ` become the cleaned titles joined by `,` |
| ImagejJson.SubstSeparator | utils/polus-imagej-util/classes/populate.py:787-789 | the separator `, ` becomes `,` |
| ImagejJson.NamespaceShape | utils/polus-imagej-util/classes/populate.py:784-789 | for every op the call string is `out = ij.op().` + plugin with `.`→`().` + `(` + the cleaned required titles joined by `,` + `)` |
| ImagejJson.NamespacePlain | utils/polus-imagej-util/classes/populate.py:784-789 | when the required titles are plain, the parentheses hold the titles themselves joined by `,` |
| ImagejJson.Unquoted | utils/polus-imagej-util/classes/populate.py:782 | each name's `repr` with its single quotes removed, position by position |
| ImagejJson.UnquoteJoined | utils/polus-imagej-util/classes/populate.py:782 | removing single quotes from the printed items joined by `, ` gives the unquoted items joined by `, ` |
| ImagejJson.Unquote | utils/polus-imagej-util/classes/populate.py:782 | removing quotes from a single-quoted name without `'` leaves the name |
| ImagejJson.ShortDescriptionShape | utils/polus-imagej-util/classes/populate.py:781-782 | for every list of op names the short description is their unquoted `repr`s joined by `, ` |
| ImagejJson.ShortDescriptionPlain | utils/polus-imagej-util/classes/populate.py:781-782 | with names of plain characters, the short description is the names joined by `, ` |
| ImagejJson.OpNames | utils/polus-imagej-util/classes/populate.py:797 | the names of the ops, position by position |
| ImagejJson.CallStrings | utils/polus-imagej-util/classes/populate.py:783-791 | the call string of each op, position by position |
| ImagejJson.AsParams | utils/polus-imagej-util/classes/populate.py:810 | the required-input entries as template inputs, same keys and order |
| ImagejJson.NamespacesMeaning | utils/polus-imagej-util/classes/populate.py:783-791 | for ops with distinct names the namespace dict is keyed by the op names in order, each with its call string |
| ImagejJson.ValueNames | utils/polus-imagej-util/classes/populate.py:790-798 | iterating supported_ops.values() gives the ops in key order, with distinct names |
| ImagejJson.TemplateNamespace | utils/polus-imagej-util/classes/populate.py:783-791 | the template's plugin_namespace has the supported op names in insertion order, each mapped to its call string |
| ImagejJson.TemplateInputs | utils/polus-imagej-util/classes/populate.py:792-810 | `_inputs` starts with the opName enum listing the supported op names, followed by the plugin's required inputs; `_outputs` is the plugin's outputs |
| ImagejJson.Supported | utils/polus-imagej-util/classes/populate.py:771 | a plugin gets a template iff it has a supported op |
| ImagejJson.Templates | utils/polus-imagej-util/classes/populate.py:768-810 | the template of every plugin, keyed by name |
| ImagejJson.BuildAllMeaning | utils/polus-imagej-util/classes/populate.py:756-821 | json_dic is a well-formed dict whose keys are exactly the plugins with a supported op, in plugin order, each holding its template |
| ImagejJson.States | utils/polus-imagej-util/classes/populate.py:768 | the state of every plugin, keyed by name |
| ImagejJson.StatesValid | utils/polus-imagej-util/classes/populate.py:768 | the plugin invariant holds for every snapshot |
| ImagejJson.Populate.constructor | utils/polus-imagej-util/classes/populate.py:547 | a populate object starts with no plugins and no templates |
| ImagejJson.Populate.AddPlugin | utils/polus-imagej-util/classes/populate.py:594 | registers a fresh empty plugin under its name, templates unchanged |
| ImagejJson.Populate.AddOp | utils/polus-imagej-util/classes/populate.py:645 | the named plugin takes the add_op step and every other plugin is unchanged |
| ImagejJson.Populate.Templated | utils/polus-imagej-util/classes/populate.py:768-821 | the templates built from the current plugins, in insertion order, without changing anything |
| ImagejJson.Populate.BuildJson | utils/polus-imagej-util/classes/populate.py:720-821 | json_dic becomes the templates of the plugins with a supported op, in insertion order (see BuildAllMeaning), and the object invariant is kept |
| ImagejJson.WalkPlugins | utils/polus-imagej-util/classes/populate.py:768-821 | the loop over the plugins computes json_dic |
| ImagejWalk.CollectMeaning | utils/polus-imagej-util/classes/populate.py:783-791 | on distinct keys, the collected dict has those keys in order and each computed value |
| ImagejWalk.Filter | utils/polus-imagej-util/classes/populate.py:768-771 | the names kept are exactly those that pass the test |
| ImagejWalk.WalkMeaning | utils/polus-imagej-util/classes/populate.py:768-810 | the walk's dict is well formed, holds only entries that were built, and its keys are exactly the passing names in order |
| ImagejWalk.WalkSnoc | utils/polus-imagej-util/classes/populate.py:768-810 | one loop step: a name that does not pass changes nothing, a passing one is added with its entry |
| ImagejLegacy.DataMap | utils/polus-imagej-util/classes/Populate.py:113-135 | one (input, WIPP type) pair per input, in order, defaulting to unknown; the output string is mapped the same way |
| ImagejLegacy.NewLegacyOp | utils/polus-imagej-util/classes/Populate.py:9-15 | an op with its library, name, path, typed inputs and output, and the support decision |
| ImagejLegacy.SupportMeaning | utils/polus-imagej-util/classes/Populate.py:138-142 | supported iff some input has a collection type and the output has a collection type |
| ImagejLegacy.UnknownParameterSupported | utils/polus-imagej-util/classes/Populate.py:138-142 | for every op, dropping a parameter of unknown type leaves the support decision unchanged |
| ImagejLegacy.AddInputL | utils/polus-imagej-util/classes/Populate.py:167-181 | adding one input keeps the dict well formed |
| ImagejLegacy.AddInputsL | utils/polus-imagej-util/classes/Populate.py:164-181 | adding every input keeps the dict well formed |
| ImagejLegacy.InputAfterMeaning | utils/polus-imagej-util/classes/Populate.py:167-181 | an existing entry keeps its fixed fields and gains this op's call type; a new entry is (wipp, title, title, False) |
| ImagejLegacy.AddInputsLKeys | utils/polus-imagej-util/classes/Populate.py:164-181 | the keys afterwards are the old keys plus all the op's titles, and the old keys keep their order at the front |
| ImagejLegacy.AddInputsLKeepsOthers | utils/polus-imagej-util/classes/Populate.py:164-181 | entries for titles the op lacks are unchanged |
| ImagejLegacy.AddInputsLFirstFixes | utils/polus-imagej-util/classes/Populate.py:167-174 | the first occurrence of a new title fixes its type, title, description and required=False |
| ImagejLegacy.AddInputsLKeepsFixed | utils/polus-imagej-util/classes/Populate.py:177-181 | existing entries keep their fixed fields |
| ImagejLegacy.AddInputsLLastRecords | utils/polus-imagej-util/classes/Populate.py:178 | the last occurrence of a title sets this op's call type |
| ImagejLegacy.AddOutputLMeaning | utils/polus-imagej-util/classes/Populate.py:184-199 | the outputs dict has the single key `out`; the first supported op creates it, later ones only set their call type |
| ImagejLegacy.AddOpLKeepsValid | utils/polus-imagej-util/classes/Populate.py:153-199 | addOp keeps the library invariant and always stores the op under its name |
| ImagejLegacy.SupportedListKeepsStaleNames | utils/polus-imagej-util/classes/Populate.py:155-161 | adding a name twice lists it twice when both ops are supported, and keeps it listed when the replacing op is not |
| ImagejLegacy.Library.constructor | utils/polus-imagej-util/classes/Populate.py:146-151 | a new library has its name, empty dicts and an empty supported list |
| ImagejLegacy.Library.AddOp | utils/polus-imagej-util/classes/Populate.py:153-199 | the new state is the addOp step of the old one, and `_ops` gains the op under its name |
| ImagejLegacy.AddOpToL | utils/polus-imagej-util/classes/Populate.py:153-199 | the method on library states computes the addOp step |
| ImagejLegacy.AddAllInputs | utils/polus-imagej-util/classes/Populate.py:164-181 | the loop over the zipped inputs computes the accumulated dict |
| ImagejLegacy.LegacyPopulate.constructor | utils/polus-imagej-util/classes/Populate.py:226 | no libraries yet |
| ImagejLegacy.LegacyPopulate.AddParsed | utils/polus-imagej-util/classes/Populate.py:253-266 | the op joins its library, which is created on the library's first op and appended to the library order; the other libraries are unchanged |
| ImagejLegacy.LegacyPopulate.AddLibrary | utils/polus-imagej-util/classes/Populate.py:262-263 | a fresh empty library is registered under its name |
| ImagejLegacy.LegacyPopulate.JoinLibrary | utils/polus-imagej-util/classes/Populate.py:259 | the named library takes the addOp step and the others are unchanged |
| PluginMethods.Missing | src/polus/plugins/_plugins/classes/plugin_methods.py:43 | an input is listed iff it is required and its value is falsy |
| PluginMethods.Names | src/polus/plugins/_plugins/classes/plugin_methods.py:46 | the names, position by position |
| PluginMethods.CheckInputs | src/polus/plugins/_plugins/classes/plugin_methods.py:41-47 | fails iff some required input is falsy, with MissingInputValues naming all of them |
| PluginMethods.Organization | src/polus/plugins/_plugins/classes/plugin_methods.py:49-52 | the text before the first `/`, or the whole id when it has none |
| PluginMethods.PathDirs | src/polus/plugins/_plugins/classes/plugin_methods.py:77-83 | a directory is listed iff some entry's value is that path |
| PluginMethods.CollectDirs | src/polus/plugins/_plugins/classes/plugin_methods.py:77-83 | the loop collects the path-valued entries' directories |
| PluginMethods.LastIndex | src/polus/plugins/_plugins/classes/plugin_methods.py:85-88 | the last position of a value |
| PluginMethods.FirstIndex | src/polus/plugins/_plugins/classes/plugin_methods.py:85-88 | the first position of a value |
| PluginMethods.DirsDictMeaning | src/polus/plugins/_plugins/classes/plugin_methods.py:85-88 | each directory maps to the prefix plus the index of its last occurrence, and the keys are in order of first occurrence |
| PluginMethods.DirsDictKeys | src/polus/plugins/_plugins/classes/plugin_methods.py:85-88 | the dict is well formed and keyed by exactly the directories |
| PluginMethods.DirsDictValues | src/polus/plugins/_plugins/classes/plugin_methods.py:85-88 | a repeated directory gets the index of its last occurrence |
| PluginMethods.DirsDictOrder | src/polus/plugins/_plugins/classes/plugin_methods.py:85-88 | the keys keep the order of first occurrence |
| PluginMethods.Mounts | src/polus/plugins/_plugins/classes/plugin_methods.py:90-97 | one bind mount per dict entry, in key order |
| PluginMethods.SetEntries | src/polus/plugins/_plugins/classes/plugin_methods.py:102-128 | the entries whose value is not None, in order |
| PluginMethods.ArgsLayout | src/polus/plugins/_plugins/classes/plugin_methods.py:102-128 | twice as many args as set entries; arg 2k is `--name` and arg 2k+1 the container path, enum member name or printed value |
| PluginMethods.AppendArgs | src/polus/plugins/_plugins/classes/plugin_methods.py:102-128 | the loop appends exactly the args of the entries |
| PluginMethods.PathInputMounted | src/polus/plugins/_plugins/classes/plugin_methods.py:85-108 | a path input's argument is its mount target, that mount is readonly, and every mount after the input mounts is writable |
| PluginMethods.WriteMountNotReadOnly | src/polus/plugins/_plugins/classes/plugin_methods.py:94-96 | an output mount is never readonly |
| PluginMethods.CwlIo | src/polus/plugins/_plugins/classes/plugin_methods.py:239-244 | exactly the names of `_io_keys` whose entry holds a value, each mapped to that entry |
| PluginMethods.WithValues | src/polus/plugins/_plugins/classes/plugin_methods.py:242-244 | the comprehension keeps exactly the keys whose entry has a value, with that entry |
| PluginMethods.CheckSuffix | src/polus/plugins/_plugins/classes/plugin_methods.py:234 | accepts iff the text after the last `.` is the suffix, else AssertionError with the message |
| PluginMethods.SaveCwl | src/polus/plugins/_plugins/classes/plugin_methods.py:232-237 | on success the path is returned |
| PluginMethods.SaveCwlIo | src/polus/plugins/_plugins/classes/plugin_methods.py:246-252 | the input check comes first, then the `yml` suffix check |
| PluginMethods.SuffixAccepted | src/polus/plugins/_plugins/classes/plugin_methods.py:232-252 | the assertion passes iff the path ends in `.` + suffix or is the bare suffix |
| PluginMethods.SuffixSufficient | src/polus/plugins/_plugins/classes/plugin_methods.py:232-252 | a path ending in `.` + suffix passes |
| PluginMethods.SuffixNeeded | src/polus/plugins/_plugins/classes/plugin_methods.py:232-252 | a passing path other than the bare suffix ends in `.` + suffix |
| PluginMethods.AfterLastAppend | src/polus/plugins/_plugins/classes/plugin_methods.py:234 | `rsplit('.', 1)[-1]` of t + `.` + suffix is the suffix |
| PluginMethods.IoKeys | src/polus/plugins/_plugins/classes/plugin_methods.py:185-186 | `_io_keys` holds exactly the I/O names, each referring to the last entry of that name |
| PluginMethods.LastNamed | src/polus/plugins/_plugins/classes/plugin_methods.py:185-186 | the last position of that name |
| PluginMethods.LastNamedSnoc | src/polus/plugins/_plugins/classes/plugin_methods.py:185-186 | an entry added at the end is found under its own name, and other names are found where they were |
| PluginMethods.FindIo | src/polus/plugins/_plugins/classes/plugin_methods.py:185-186 | the entry `_io_keys` refers to: the last I/O entry of that name |
| PluginMethods.WithValue | src/polus/plugins/_plugins/classes/plugin_methods.py:208 | the entry `_io_keys` refers to, an input or an output, gets the value; every other entry and attribute is as before |
| PluginMethods.WithFs | src/polus/plugins/_plugins/classes/plugin_methods.py:197-200 | every entry gets the file system, and everything else is as before |
| PluginMethods.SetFsAll | src/polus/plugins/_plugins/classes/plugin_methods.py:197-200 | the loop sets the file system of every entry |
| PluginMethods.SetAttrOf | src/polus/plugins/_plugins/classes/plugin_methods.py:193-215 | fails iff `_fs` gets a non-file-system (ValueError) or, once `_io_keys` exists, the name is not an I/O name (IOKeyError) |
| PluginMethods.GetAttrOf | src/polus/plugins/_plugins/classes/plugin_methods.py:183-191 | an I/O name reads its value with enums shown by name; another name reads an ordinary attribute or AttributeError |
| PluginMethods.SetThenGet | src/polus/plugins/_plugins/classes/plugin_methods.py:183-215 | reading back what was set gives the value, or its enum name for an I/O |
| PluginMethods.SetLeavesOthers | src/polus/plugins/_plugins/classes/plugin_methods.py:183-215 | a write does not change what any other name reads |
| PluginMethods.FsPropagates | src/polus/plugins/_plugins/classes/plugin_methods.py:194-201 | setting `_fs` sets it on every input and output and changes no read |
| PluginMethods.SameReads | src/polus/plugins/_plugins/classes/plugin_methods.py:183-191 | reads depend only on the names, that name's values and the other attributes |
| PluginMethods.LastNamedSameNames | src/polus/plugins/_plugins/classes/plugin_methods.py:185-186 | lookup by name depends only on the names |
| PluginMethods.Plugin.constructor | src/polus/plugins/_plugins/classes/plugin_methods.py:183-215 | a configured plugin starts with `_io_keys` present and no other attributes |
| PluginMethods.Plugin.SetAttr | src/polus/plugins/_plugins/classes/plugin_methods.py:193-215 | a failing write raises and changes nothing; a passing one gives the routed state; name, version and container id are untouched |
| PluginMethods.Plugin.Config | src/polus/plugins/_plugins/classes/plugin_methods.py:169-174 | every input's value is None, outputs and the other fields are unchanged |
| PluginMethods.Plugin.Run | src/polus/plugins/_plugins/classes/plugin_methods.py:68-167 | MissingInputValues before anything is built; otherwise the docker invocation with the container id, mounts (inputs then outputs), args and the gpus option |
| PluginMethods.GreaterIsConverse | src/polus/plugins/_plugins/classes/plugin_methods.py:294-298 | a > b iff b < a, and for an asymmetric version order never both a < b and a > b |
| WippManifest.StrField | src/polus/plugins/_plugins/models/wipp.py:9-21 | a required str field passes iff present and a string |
| WippManifest.OptStrField | src/polus/plugins/_plugins/models/wipp.py:12-16 | an optional str field passes iff absent, null or a string; absent or null gives None |
| WippManifest.DefaultField | src/polus/plugins/_plugins/models/wipp.py:14 | the default passes iff absent, null, or a str/int/bool scalar |
| WippManifest.HiddenField | src/polus/plugins/_plugins/models/wipp.py:15 | hidden passes iff absent, null or a bool, and defaults to False when absent |
| WippManifest.Strings | src/polus/plugins/_plugins/models/wipp.py:21 | a list of strings is accepted iff every item is a string, keeping them in order |
| WippManifest.ParseUi1 | src/polus/plugins/_plugins/models/wipp.py:9-16 | an accepted ui1 has a scalar default or none |
| WippManifest.ParseFieldSet | src/polus/plugins/_plugins/models/wipp.py:19-21 | an accepted field set has at least one field and no repeated field |
| WippManifest.ParseFieldSets | src/polus/plugins/_plugins/models/wipp.py:26 | the list is accepted iff every field set is, item by item |
| WippManifest.ParseUi2 | src/polus/plugins/_plugins/models/wipp.py:24-26 | an accepted ui2 has at least one field set, none repeated, each valid |
| WippManifest.ParseUi | src/polus/plugins/_plugins/models/wipp.py:36 | a ui item is accepted iff it is a ui1 or a ui2, and ui1 is tried first |
| WippManifest.ParseUis | src/polus/plugins/_plugins/models/wipp.py:36 | the ui list is accepted iff every item is, item by item |
| WippManifest.ListField | src/polus/plugins/_plugins/models/wipp.py:30-36 | a required list field passes iff present and a list |
| WippManifest.ParseManifest | src/polus/plugins/_plugins/models/wipp.py:29-37 | accepted iff inputs, outputs and ui are lists, version is present and every ui item is accepted; the result keeps them |
| WippManifest.StrItems | src/polus/plugins/_plugins/models/wipp.py:21 | the strings as JSON strings |
| WippManifest.StringsOfItems | src/polus/plugins/_plugins/models/wipp.py:21 | reading back JSON strings gives the strings |
| WippManifest.FieldSetExact | src/polus/plugins/_plugins/models/wipp.py:19-21 | a document parses to a field set iff the set is valid and the document holds its title and fields |
| WippManifest.FieldSetRoundTrip | src/polus/plugins/_plugins/models/wipp.py:19-21 | a valid field set survives writing and reading |
| WippManifest.Ui1RoundTrip | src/polus/plugins/_plugins/models/wipp.py:9-16 | a valid ui1 survives writing and reading, also as a ui item |
| WippManifest.Ui2RoundTrip | src/polus/plugins/_plugins/models/wipp.py:24-26 | a valid ui2 survives writing and reading, also as a ui item because it has no title |
| WippManifest.Ui1Defaults | src/polus/plugins/_plugins/models/wipp.py:9-16 | only key and title given: every optional field None, hidden False |
| WippManifest.Ui1NeedsKeyAndTitle | src/polus/plugins/_plugins/models/wipp.py:10-11 | an accepted ui1 had a string key and a string title |
| WippManifest.KeyPatternNotApplied | src/polus/plugins/_plugins/models/wipp.py:10 | a key that fails the intended pattern is still accepted |
| WippManifest.FirstUnionMemberWins | src/polus/plugins/_plugins/models/wipp.py:36 | a ui2 document that also has a title is read as a ui1 with key `fieldsets` |
| WippManifest.Ui2Constraints | src/polus/plugins/_plugins/models/wipp.py:25-26 | an accepted ui2 had the literal key and at least one field set, none repeated |
| OrderedDicts.PutAllMeaning | utils/polus-imagej-util/classes/populate.py:810 | `dict.update` keeps the old keys first, adds new keys in order, and later values win |
| OrderedDicts.UpdateMeaning | utils/polus-imagej-util/classes/populate.py:810 | `dict.update` with another dict: the old keys stay in front, and the values merge with the update winning |
| Text.NatToStringRoundTrip | src/polus/plugins/_plugins/classes/plugin_methods.py:85-88 | the decimal text of n reads back as n |
| Text.NatToStringInjective | src/polus/plugins/_plugins/classes/plugin_methods.py:85-88 | different indices give different container targets |
| Text.Before | src/polus/plugins/_plugins/classes/plugin_methods.py:52 | `split(c)[0]` has no c and is a prefix of the text |
| Text.AfterLast | src/polus/plugins/_plugins/classes/plugin_methods.py:234 | `rsplit(c, 1)[-1]` has no c and is a suffix of the text |
| Text.ReplaceChar | utils/polus-imagej-util/classes/populate.py:780-786 | `str.replace` of one character: text without it is unchanged, and none remains when the replacement lacks it |
| Text.ReplaceCharAppend | utils/polus-imagej-util/classes/populate.py:780-786 | replacing in a concatenation is replacing in each part |

## Left out

- The compiled labelling engine (union-find, stitching, digest, extraction) is not shown. `RustEngine` records the tiles and requests it receives. The component count enters `ReadFrom` as the parameter `found`. Extracted label values are not modelled.
- BioReader/BioWriter file I/O, the reader metadata beyond Z, Y and X, the writer's thread count and all logging are I/O. The progress percentages are floats. All of these are left out. The assignment of each extracted tile into the writer is not modelled.
- FtlLabel.PolygonSet.ReadFrom: requires that neither Y nor X is one more than a multiple of the tile size. Otherwise an edge tile is one pixel thick, and `squeeze` drops that axis too, so the reshape does not give (z, y, x). `SqueezeKeepsLayout`, `LastRowThin` and `ThinBox` state the failure. The model does not follow numpy's behaviour on such tiles.
- FtlLabel.PolygonSet.ReadFrom: requires Z >= 1. The reader is taken to report at least one plane. With Z = 0 the slice `reader[..., :, 0, 0]` would be empty, and the model does not follow numpy on it.
- FtlLabel.PolygonSet.WriteTo: requires that `read_from` has run to its digest, so `metadata` is set. The source also allows `write_to` first, with `metadata` None (__init__.py:39) passed to BioWriter (:109). What BioWriter makes of None, and what the engine returns before a digest, is not shown, so that call is not modelled. After a `read_from` that raised, the model promises nothing about `write_to` either.
- FtlLabel.PolygonSet.constructor: requires a valid connectivity; `PolygonSet.New` models the ValueError path.
- ImagejPopulate.NewOp: Python's `TypeError` for a non-list `inputs` cannot arise, because the model's inputs are always a sequence. An empty title is reported as IndexError, the error `title[-1]` raises.
- ImagejPopulate.Plugin.AddOp: requires an op whose output is titled `out`. Every op built by `NewOp` has this, because `Op.__init__` forces it.
- The new version's `Op.__dataMap` (populate.py from line 242) is not called: its call in `__init__` is commented out. It is not modelled apart from the table it shares.
- JVM and ImageJ start-up, `scyjava`, loci log switching and the regular-expression parsing of the ops help (`_parser` in both versions) are left out. They depend on JVM-supplied text. In the new version the loop of `_parser` is `AddPlugin` per plugin and `AddOp` per parsed method. `__logger` and log messages are also left out.
- ImagejLegacy.LegacyPopulate.AddParsed: models the grouping step for one already-parsed op. The loop over the regex matches is not modelled.
- The legacy `buildJSON` is left out, because it reads a `Library.availableOps` attribute that does not exist (Populate.py:356).
- PyRepr.Printable: Python's `repr` also escapes characters of the Unicode categories Cf, Co and Cn (format, private use, unassigned). The Unicode database is not modelled, so those characters count as printable. Control characters, the C1 range, and every whitespace character except the space are escaped as Python does.
- Writing the cookiecutter files and directories in `build_json` is left out. `json_dic` is modelled.
- The legacy `addOp` prints a warning when a title's type differs. The new one has a no-op there. Both are left out.
- Docker (`docker.run`, `docker.kill`), signal handling, the random container name and extra keyword arguments of `run` are left out. So are cwltool (`run_cwl`), YAML/JSON dumping, `_to_cwl` with its shared `CWL_BASE_DICT`, `load_config`, `manifest` and `__repr__`. `Run` returns the docker invocation it would make, and gpus=None gives the run without GPUs.
- PluginMethods.Plugin.Run: `gpus` has no default. The source's default `"all"` must be passed explicitly. The source also accepts an int, which the model does not: `gpus` is an optional string handed to docker unchanged.
- PluginMethods.Plugin.Run: the per-entry `_validate()` of `io` objects is not shown and is assumed to pass.
- PluginMethods.CwlIo: `io_to_yml` is not shown, so each entry keeps its `Io` rather than the converted form.
- The building of `_io_keys` is not shown. `IoKeys` takes it to be a dict built from the inputs, then the outputs, by name, so a repeated name refers to its last entry. Reads, writes and `_cwl_io` all go through that one entry. The alias between an `_io_keys` entry and the list element is modelled on values.
- Pydantic's checks on assignment and the fsspec class hierarchy are left out. A file system is the value kind `FileSystem`.
- Python truthiness of arbitrary values is a flag on `Other`.
- PluginMethods.Plugin.Less: the `Version` ordering is not shown, so it is a parameter.
- WippManifest.ParseUi1: pydantic reports every failing field, while the model reports the first failing field in declaration order.
- Pydantic's type coercion (numbers to str, ints and strings to bool) and floats in `default` are left out.
- The `Input`, `Output` and `Version` models and the parent `WippPluginManifest` schema are not shown, so their entries stay JSON documents.
- WippManifest.KeyPattern: the `constr=` pattern on the ui1 key is not a pydantic constraint, so it is stated as a predicate and not applied.
