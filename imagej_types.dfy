/** The fixed table from ImageJ data type names to WIPP data types. Both
    versions of the ImageJ op generator carry the same five lists and
    build the same table from them. */
module ImagejTypes {
  import opened Text

  /** ImageJ types shown to WIPP as an image collection. */
  const CollectionTypes: seq<string> := [
    "Iterable", "Interval", "IterableInterval", "RandomAccessibleInterval",
    "ImgPlus", "PlanarImg", "ArrayImg", "Img"
  ]

  const NumberTypes: seq<string> := [
    "RealType", "NumericType",
    "byte", "ByteType", "UnsignedByteType",
    "short", "ShortType", "UnsignedShortType",
    "int", "Integer", "IntegerType",
    "long", "Long", "LongType", "UnsignedLongType",
    "float", "FloatType",
    "double", "Double", "DoubleType"
  ]

  const BooleanTypes: seq<string> := ["boolean", "Boolean", "BooleanType"]

  const ArrayTypes: seq<string> := ["List", "double[]", "long[]", "ArrayList", "int[]"]

  const StringTypes: seq<string> := ["RealLocalizable", "String"]

  /** The WIPP type names the table produces, and the default for a type
      it does not know. */
  const Unknown: string := "unknown"

  predicate IsWippType(w: string) {
    w in ["collection", "number", "boolean", "array", "string", "unknown"]
  }

  /** Every name of `types` mapped to the WIPP type `w`. */
  function AllTo(types: seq<string>, w: string): map<string, string> {
    map t | t in types :: w
  }

  /** The table: the collection entries first, then each later list merged
      in with `dict.update`, so that a later list would win on a shared
      name. */
  const TypeMap: map<string, string> :=
    AllTo(CollectionTypes, "collection")
    + AllTo(NumberTypes, "number")
    + AllTo(BooleanTypes, "boolean")
    + AllTo(ArrayTypes, "array")
    + AllTo(StringTypes, "string")

  /** The WIPP type of the ImageJ type `t`, `unknown` when the table lacks it. */
  function WippType(t: string): (w: string)
    ensures IsWippType(w)
  {
    ListsDisjoint(t);
    MergedLookup(CollectionTypes, NumberTypes, BooleanTypes, ArrayTypes, StringTypes, t);
    if t in TypeMap then TypeMap[t] else Unknown
  }

  /** The table is the disjoint union of the five lists: each list's names
      get that list's WIPP type, and every other name is unknown. */
  lemma WippTypeClassified(t: string)
    ensures t in CollectionTypes <==> WippType(t) == "collection"
    ensures t in NumberTypes <==> WippType(t) == "number"
    ensures t in BooleanTypes <==> WippType(t) == "boolean"
    ensures t in ArrayTypes <==> WippType(t) == "array"
    ensures t in StringTypes <==> WippType(t) == "string"
    ensures WippType(t) == Unknown <==>
      t !in CollectionTypes && t !in NumberTypes && t !in BooleanTypes
      && t !in ArrayTypes && t !in StringTypes
  {
    ListsDisjoint(t);
    MergedLookup(CollectionTypes, NumberTypes, BooleanTypes, ArrayTypes, StringTypes, t);
  }

  /** Looking a name up in five merged lists that share no name. */
  lemma MergedLookup(c: seq<string>, n: seq<string>, b: seq<string>, a: seq<string>, s: seq<string>, t: string)
    requires t in c ==> t !in n && t !in b && t !in a && t !in s
    requires t in n ==> t !in b && t !in a && t !in s
    requires t in b ==> t !in a && t !in s
    requires t in a ==> t !in s
    ensures var m := AllTo(c, "collection") + AllTo(n, "number") + AllTo(b, "boolean")
      + AllTo(a, "array") + AllTo(s, "string");
      && (t in m <==> t in c || t in n || t in b || t in a || t in s)
      && (t in c ==> m[t] == "collection")
      && (t in n ==> m[t] == "number")
      && (t in b ==> m[t] == "boolean")
      && (t in a ==> m[t] == "array")
      && (t in s ==> m[t] == "string")
  {
  }

  /** No ImageJ type name is in two of the lists. */
  lemma ListsDisjoint(t: string)
    ensures t in CollectionTypes ==> t !in NumberTypes && t !in BooleanTypes && t !in ArrayTypes && t !in StringTypes
    ensures t in NumberTypes ==> t !in BooleanTypes && t !in ArrayTypes && t !in StringTypes
    ensures t in BooleanTypes ==> t !in ArrayTypes && t !in StringTypes
    ensures t in ArrayTypes ==> t !in StringTypes
  {
    CollectionNotNumber(t);
    CollectionNotOther(t);
    NumberNotOther(t);
  }

  lemma CollectionNotNumber(t: string)
    ensures t in CollectionTypes ==> t !in NumberTypes
  {
  }

  lemma CollectionNotOther(t: string)
    ensures t in CollectionTypes ==> t !in BooleanTypes && t !in ArrayTypes && t !in StringTypes
  {
  }

  lemma NumberNotOther(t: string)
    ensures t in NumberTypes ==> t !in BooleanTypes && t !in StringTypes
    ensures t in NumberTypes ==> t !in ArrayTypes
  {
    NumberNotArray(t);
  }

  lemma NumberNotArray(t: string)
    ensures t in NumberTypes ==> t !in ArrayTypes
  {
  }

  /** `'collection' in w` on a WIPP type name holds only for the name
      `collection` itself: every other name is shorter. */
  lemma CollectionSubstring(w: string)
    requires IsWippType(w)
    ensures Contains(w, "collection") <==> w == "collection"
  {
    if w == "collection" {
      assert OccursAt(w, "collection", 0);
    } else {
      ShorterNeverContains(w, "collection");
    }
  }
}
