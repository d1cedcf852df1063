/**
 * The NBT tag tree as far as the library reads and writes it, block names,
 * and blocks with their conversions to and from palette compounds.
 * NBT strings are modified-UTF-8 byte strings in the library; here they are
 * `string`, so decoding them (`to_str`) is the identity.
 */
module Nbt {
  import opened Ints
  import opened Errors

  datatype Tag =
    | TByte(b: i8)
    | TInt(i: int)
    | TString(s: string)
    | TLongArray(longs: seq<int>)
    | TByteArray(bytes: seq<int>)
    | TList(list: TagList)
    | TCompound(fields: map<string, Tag>)

  /** An NBT list is homogeneous; only the element kinds the library inspects are told apart. */
  datatype TagList =
    | EmptyList
    | StringList(strings: seq<string>)
    | CompoundList(compounds: seq<map<string, Tag>>)
    | OtherList

  type Compound = map<string, Tag>

  // Typed accessors: a tag that is missing or of another type reads as None.

  function StringTag(c: Compound, key: string): Option<string>
  {
    if key in c && c[key].TString? then Some(c[key].s) else None
  }

  function ByteTag(c: Compound, key: string): Option<i8>
  {
    if key in c && c[key].TByte? then Some(c[key].b) else None
  }

  function IntTag(c: Compound, key: string): Option<int>
  {
    if key in c && c[key].TInt? then Some(c[key].i) else None
  }

  function LongArrayTag(c: Compound, key: string): Option<seq<int>>
  {
    if key in c && c[key].TLongArray? then Some(c[key].longs) else None
  }

  function CompoundTag(c: Compound, key: string): Option<Compound>
  {
    if key in c && c[key].TCompound? then Some(c[key].fields) else None
  }

  function ListTag(c: Compound, key: string): Option<TagList>
  {
    if key in c && c[key].TList? then Some(c[key].list) else None
  }

  /** `populate_namespace`: prefixes the default namespace to an id that has none. */
  function PopulateNamespace(id: string): (r: string)
    ensures ':' in r
    ensures |r| >= |id| && r[|r| - |id|..] == id
    ensures ':' in id ==> r == id
    ensures ':' !in id ==> r[..|r| - |id|] == "minecraft:"
  {
    if ':' !in id then "minecraft:" + id else id
  }

  lemma PopulateNamespaceIdempotent(id: string)
    ensures PopulateNamespace(PopulateNamespace(id)) == PopulateNamespace(id)
  {
  }

  datatype Name = Namespaced(s: string) | Id(s: string)

  /** `Name::to_str`: the raw text, whichever variant. */
  function NameText(n: Name): string
  {
    n.s
  }

  /** `Name::into_namespaced`: an `Id` gets the default namespace when it has none. */
  function IntoNamespaced(n: Name): (r: Name)
    ensures r.Namespaced?
    ensures n.Namespaced? ==> r == n
    ensures n.Id? ==> ':' in r.s && (':' in n.s ==> r.s == n.s)
  {
    match n
    case Namespaced(s) => Namespaced(s)
    case Id(s) => Namespaced(PopulateNamespace(s))
  }

  lemma IntoNamespacedIdempotent(n: Name)
    ensures IntoNamespaced(IntoNamespaced(n)) == IntoNamespaced(n)
  {
  }

  /** `Name == Name` compares the raw text and ignores the variant. */
  predicate NameEq(a: Name, b: Name)
  {
    NameText(a) == NameText(b)
  }

  lemma NameEqIgnoresVariant(s: string)
    ensures NameEq(Namespaced(s), Id(s))
    ensures ':' !in s ==> !NameEq(IntoNamespaced(Id(s)), Id(s))
  {
    if ':' !in s {
      assert PopulateNamespace(s) == "minecraft:" + s;
      assert |PopulateNamespace(s)| > |s|;
    }
  }

  /** `Into<Name>` for strings gives the `Id` variant, so a missing namespace is filled in only on writing. */
  function NameFromText(s: string): (r: Name)
    ensures NameText(r) == s && IntoNamespaced(r).s == PopulateNamespace(s)
  {
    Id(s)
  }

  datatype Block = Block(name: Name, properties: Option<map<string, string>>)

  /** The derived `PartialEq`: names by raw text, properties as maps. */
  predicate BlockEq(a: Block, b: Block)
  {
    NameEq(a.name, b.name) && a.properties == b.properties
  }

  /** `Block::try_new` / `Block::new` / `Into<Block>`: a block without properties. */
  function NewBlock(name: Name): (r: Block)
    ensures r.properties == None && r.name == name
  {
    Block(name, None)
  }

  /** Inserts the pairs one after another, so a later pair with the same key wins. */
  function InsertAll(m: map<string, string>, pairs: seq<(string, string)>): map<string, string>
    decreases |pairs|
  {
    if pairs == [] then m else InsertAll(m[pairs[0].0 := pairs[0].1], pairs[1..])
  }

  lemma {:induction false} InsertAllKeys(m: map<string, string>, pairs: seq<(string, string)>, k: string)
    ensures k in InsertAll(m, pairs) <==> k in m || exists i :: 0 <= i < |pairs| && pairs[i].0 == k
    decreases |pairs|
  {
    if pairs != [] {
      InsertAllKeys(m[pairs[0].0 := pairs[0].1], pairs[1..], k);
      if exists i :: 0 <= i < |pairs| && pairs[i].0 == k {
        var i :| 0 <= i < |pairs| && pairs[i].0 == k;
        if i > 0 { assert pairs[1..][i - 1].0 == k; }
      }
    }
  }

  lemma {:induction false} InsertAllLastWins(m: map<string, string>, pairs: seq<(string, string)>, i: nat)
    requires i < |pairs|
    requires forall j :: i < j < |pairs| ==> pairs[j].0 != pairs[i].0
    ensures pairs[i].0 in InsertAll(m, pairs) && InsertAll(m, pairs)[pairs[i].0] == pairs[i].1
    decreases |pairs|
  {
    if i == 0 {
      InsertAllUntouched(m[pairs[0].0 := pairs[0].1], pairs[1..], pairs[0].0);
    } else {
      InsertAllLastWins(m[pairs[0].0 := pairs[0].1], pairs[1..], i - 1);
    }
  }

  lemma {:induction false} InsertAllUntouched(m: map<string, string>, pairs: seq<(string, string)>, k: string)
    requires k in m
    requires forall j :: 0 <= j < |pairs| ==> pairs[j].0 != k
    ensures k in InsertAll(m, pairs) && InsertAll(m, pairs)[k] == m[k]
    decreases |pairs|
  {
    if pairs != [] {
      InsertAllUntouched(m[pairs[0].0 := pairs[0].1], pairs[1..], k);
    }
  }

  /** `Block::try_new_with_props`: the properties are always `Some`, even for an empty list. */
  function NewBlockWithProps(name: Name, pairs: seq<(string, string)>): (r: Block)
    ensures r.name == name && r.properties.Some?
    ensures forall k :: k in r.properties.value <==> exists i :: 0 <= i < |pairs| && pairs[i].0 == k
    ensures forall i :: 0 <= i < |pairs| && (forall j :: i < j < |pairs| ==> pairs[j].0 != pairs[i].0) ==>
              r.properties.value[pairs[i].0] == pairs[i].1
  {
    var props := InsertAll(map[], pairs);
    forall k { InsertAllKeys(map[], pairs, k); }
    forall i | 0 <= i < |pairs| && (forall j :: i < j < |pairs| ==> pairs[j].0 != pairs[i].0) {
      InsertAllLastWins(map[], pairs, i);
    }
    Block(name, Some(props))
  }

  /** The property compound as written to NBT: every value a string tag. */
  function PropertiesCompound(p: map<string, string>): (r: Compound)
    ensures r.Keys == p.Keys
    ensures forall k :: k in r ==> r[k] == TString(p[k])
  {
    map k | k in p :: TString(p[k])
  }

  /** `Block::to_compound`: the namespaced name, and the properties only when present and non-empty. */
  function ToCompound(b: Block): (r: Compound)
    ensures StringTag(r, "Name") == Some(IntoNamespaced(b.name).s)
    ensures "Properties" in r <==> b.properties.Some? && b.properties.value != map[]
    ensures "Properties" in r ==> CompoundTag(r, "Properties") == Some(PropertiesCompound(b.properties.value))
    ensures r.Keys <= {"Name", "Properties"}
  {
    var named := map["Name" := TString(IntoNamespaced(b.name).s)];
    match b.properties
    case Some(p) =>
      if p != map[] then named["Properties" := TCompound(PropertiesCompound(p))] else named
    case None => named
  }

  predicate AllStringValues(c: Compound)
  {
    forall k :: k in c ==> c[k].TString?
  }

  function StringValues(c: Compound): (r: map<string, string>)
    requires AllStringValues(c)
    ensures r.Keys == c.Keys && PropertiesCompound(r) == c
  {
    map k | k in c :: c[k].s
  }

  /** `Block::from_compound`: an empty property compound reads as no properties; the name comes back namespaced. */
  function FromCompound(c: Compound): (r: Result<Block>)
    ensures StringTag(c, "Name").None? ==> r == Err(MissingNbtTag("Name"))
    ensures r.Ok? ==> r.value.name == Namespaced(StringTag(c, "Name").value)
    ensures r.Ok? ==> r.value.properties != Some(map[])
  {
    match StringTag(c, "Name")
    case None => Err(MissingNbtTag("Name"))
    case Some(name) =>
      match CompoundTag(c, "Properties")
      case None => Ok(Block(Namespaced(name), None))
      case Some(props) =>
        if props == map[] then Ok(Block(Namespaced(name), None))
        else if AllStringValues(props) then Ok(Block(Namespaced(name), Some(StringValues(props))))
        else Err(InvalidNbtType("Properties > value"))
  }

  /** The block that survives a write and a read: namespaced name, empty properties dropped. */
  function Normalized(b: Block): (r: Block)
    ensures r.name.Namespaced? && r.properties != Some(map[])
    ensures NameText(r.name) == IntoNamespaced(b.name).s
  {
    Block(IntoNamespaced(b.name), if b.properties == Some(map[]) then None else b.properties)
  }

  /** `&Block == &NbtCompound`: the palette lookup used when writing. */
  predicate EqCompound(b: Block, c: Compound)
  {
    StringTag(c, "Name") == Some(IntoNamespaced(b.name).s) &&
    match b.properties
    case Some(bp) =>
      CompoundTag(c, "Properties").Some? &&
      AllStringValues(CompoundTag(c, "Properties").value) &&
      StringValues(CompoundTag(c, "Properties").value) == bp
    case None => "Properties" !in c
  }

  lemma FromToCompound(b: Block)
    ensures FromCompound(ToCompound(b)) == Ok(Normalized(b))
  {
    var c := ToCompound(b);
    if b.properties.Some? && b.properties.value != map[] {
      assert StringValues(PropertiesCompound(b.properties.value)) == b.properties.value;
    }
  }

  /** Writing then reading keeps a block equal to itself when its name is already namespaced. */
  lemma FromToCompoundEq(b: Block)
    requires ':' in NameText(b.name) && b.properties != Some(map[])
    ensures FromCompound(ToCompound(b)).Ok? && BlockEq(FromCompound(ToCompound(b)).value, b)
  {
    FromToCompound(b);
  }

  /** A block equals its own compound exactly when it does not carry an empty property map. */
  lemma EqOwnCompound(b: Block)
    ensures EqCompound(b, ToCompound(b)) <==> b.properties != Some(map[])
  {
    if b.properties.Some? && b.properties.value != map[] {
      assert StringValues(PropertiesCompound(b.properties.value)) == b.properties.value;
    }
  }

  /** Whatever compound a block matches reads back as the block's normal form. */
  lemma EqCompoundReadsBack(b: Block, c: Compound)
    requires EqCompound(b, c)
    ensures FromCompound(c) == Ok(Normalized(b))
  {
  }

  /** What `Hash for Block` feeds the hasher: the raw name, then the property entries (none for `None`). */
  function HashFeed(b: Block): (string, map<string, string>)
  {
    (NameText(b.name), if b.properties.Some? then b.properties.value else map[])
  }

  /** Hashing agrees with equality; `None` and `Some(empty)` collide, which a hash may do. */
  lemma HashAgreesWithEq(a: Block, b: Block)
    ensures BlockEq(a, b) ==> HashFeed(a) == HashFeed(b)
    ensures HashFeed(Block(a.name, None)) == HashFeed(Block(a.name, Some(map[])))
    ensures !BlockEq(Block(a.name, None), Block(a.name, Some(map[])))
  {
  }
}
