/**
 * The converter from the Ozon and Yandex category trees (JSON) to the
 * two-column category TSV.
 *
 * A JSON object is modelled by the scalar entries it holds (`fields`) and its
 * `children` list; a missing `children` key is the empty list. Scalar values
 * carry Python truthiness and the text `str()` gives them.
 */
module Taxonomy {
  import opened Wrappers
  import opened Text
  import opened TsvFormat
  import opened Seqs

  /** A scalar JSON value as Python holds it after `json.load`. */
  datatype Value = Null | Bool(b: bool) | Int(i: int) | Str(s: string)

  /** Python truthiness: `None`, `False`, `0` and `""` are false. */
  predicate Truthy(v: Value) {
    match v
    case Null => false
    case Bool(b) => b
    case Int(i) => i != 0
    case Str(s) => s != []
  }

  /** What an f-string makes of the value. */
  function Show(v: Value): string {
    match v
    case Null => "None"
    case Bool(b) => if b then "True" else "False"
    case Int(i) => IntToString(i)
    case Str(s) => s
  }

  /** `dict.get(key)`: the value, or `None` when the key is absent. */
  function Get(fields: map<string, Value>, key: string): Value {
    if key in fields then fields[key] else Null
  }

  /** One flattened category: its id and its full path. */
  datatype Entry = Entry(id: Value, path: string)

  /** The path of a node named `name` below `parent`; a node under the empty path has just its name. */
  function PathOf(parent: string, name: string): (p: string)
    ensures parent != [] ==> p == parent + " > " + name
    ensures parent == [] ==> p == name
  {
    if parent != [] then parent + " > " + name else name
  }

  /**
   * The `parent_path` an Ozon item hands its children. At the top level
   * `full_path` is the raw name, and the recursive call tests that value's
   * truthiness: a falsy name (`None`, `False`, `0`, `""`) hands down the
   * empty path, so its children are written as top-level paths.
   */
  function ChildPath(parent: string, name: Value): (p: string)
    ensures parent == [] && !Truthy(name) ==> p == []
    ensures parent != [] || Truthy(name) ==> p == PathOf(parent, Show(name))
  {
    if parent == [] && !Truthy(name) then [] else PathOf(parent, Show(name))
  }

  datatype ConvertError = MissingKey(key: string) | NotAnObject

  // ---- Ozon ----------------------------------------------------------------

  /** An element of an Ozon `result` or `children` list. */
  datatype OzonItem = OzonItem(fields: map<string, Value>, children: seq<OzonItem>)

  /** Which id and name an Ozon item uses. */
  datatype Head = Skip | Missing(key: string) | Named(id: Value, name: Value)

  /**
   * `description_category_id` with `category_name` wins over `type_id` with
   * `type_name`; an item with neither id key is skipped; an id key without
   * its name key raises `KeyError`.
   */
  function OzonHead(fields: map<string, Value>): Head {
    if "description_category_id" in fields then
      if "category_name" in fields then Named(fields["description_category_id"], fields["category_name"])
      else Missing("category_name")
    else if "type_id" in fields then
      if "type_name" in fields then Named(fields["type_id"], fields["type_name"])
      else Missing("type_name")
    else Skip
  }

  /** `item.get("disabled", False)` is truthy. */
  predicate Disabled(fields: map<string, Value>) {
    "disabled" in fields && Truthy(fields["disabled"])
  }

  /** The first failure of two results, or both values concatenated. */
  function Then(x: Result<seq<Entry>, ConvertError>, y: Result<seq<Entry>, ConvertError>): Result<seq<Entry>, ConvertError> {
    if x.Failure? then x
    else if y.Failure? then y
    else Success(x.value + y.value)
  }

  /** What one Ozon item contributes: its own entry followed by its subtree's. */
  function OzonItemEntries(item: OzonItem, parent: string): Result<seq<Entry>, ConvertError>
    decreases item, 0
  {
    match OzonHead(item.fields)
    case Skip => Success([])
    case Missing(k) => Failure(MissingKey(k))
    case Named(id, name) =>
      if Disabled(item.fields) then Success([])
      else
        Then(Success([Entry(id, PathOf(parent, Show(name)))]), FlattenOzon(item.children, ChildPath(parent, name)))
  }

  /** `flatten_ozon_categories(items, parent)`. */
  function FlattenOzon(items: seq<OzonItem>, parent: string): Result<seq<Entry>, ConvertError>
    decreases items, 1
  {
    if items == [] then Success([])
    else Then(OzonItemEntries(items[0], parent), FlattenOzon(items[1..], parent))
  }

  /** The number of items in a forest. */
  function OzonNodes(items: seq<OzonItem>): nat
    decreases items
  {
    if items == [] then 0 else 1 + OzonNodes(items[0].children) + OzonNodes(items[1..])
  }

  /** Flattening is compositional: the entries of `a + b` are those of `a`, then those of `b`. */
  lemma {:induction false} OzonAppend(a: seq<OzonItem>, b: seq<OzonItem>, parent: string)
    ensures FlattenOzon(a + b, parent) == Then(FlattenOzon(a, parent), FlattenOzon(b, parent))
    decreases |a|
  {
    if a == [] {
      assert a + b == b;
      ThenNil(FlattenOzon(b, parent));
    } else {
      assert (a + b)[0] == a[0];
      assert (a + b)[1..] == a[1..] + b;
      OzonAppend(a[1..], b, parent);
      ThenAssoc(OzonItemEntries(a[0], parent), FlattenOzon(a[1..], parent), FlattenOzon(b, parent));
    }
  }

  /** Nothing followed by `y` is `y`. */
  lemma ThenNil(y: Result<seq<Entry>, ConvertError>)
    ensures Then(Success([]), y) == y
  {
    if y.Success? {
      assert [] + y.value == y.value;
    }
  }

  lemma ThenAssoc(x: Result<seq<Entry>, ConvertError>, y: Result<seq<Entry>, ConvertError>, z: Result<seq<Entry>, ConvertError>)
    ensures Then(x, Then(y, z)) == Then(Then(x, y), z)
  {
    if x.Success? && y.Success? && z.Success? {
      AppendAssoc(x.value, y.value, z.value);
    }
  }

  /** An item with neither id key is dropped together with its subtree. */
  lemma OzonSkipsKeyless(item: OzonItem, rest: seq<OzonItem>, parent: string)
    requires "description_category_id" !in item.fields && "type_id" !in item.fields
    ensures FlattenOzon([item] + rest, parent) == FlattenOzon(rest, parent)
  {
    assert ([item] + rest)[1..] == rest;
    ThenNil(FlattenOzon(rest, parent));
  }

  /** A disabled item is dropped together with its subtree. */
  lemma OzonSkipsDisabled(item: OzonItem, rest: seq<OzonItem>, parent: string)
    requires OzonHead(item.fields).Named? && Disabled(item.fields)
    ensures FlattenOzon([item] + rest, parent) == FlattenOzon(rest, parent)
  {
    assert ([item] + rest)[1..] == rest;
    ThenNil(FlattenOzon(rest, parent));
  }

  /** An id key without its name key fails the whole flattening, before any later sibling is looked at. */
  lemma OzonMissingName(item: OzonItem, rest: seq<OzonItem>, parent: string)
    requires "description_category_id" in item.fields ==> "category_name" !in item.fields
    requires "description_category_id" !in item.fields ==> "type_id" in item.fields && "type_name" !in item.fields
    ensures FlattenOzon([item] + rest, parent).Failure?
    ensures "description_category_id" in item.fields ==>
      FlattenOzon([item] + rest, parent).error == MissingKey("category_name")
    ensures "description_category_id" !in item.fields ==>
      FlattenOzon([item] + rest, parent).error == MissingKey("type_name")
  {
    assert ([item] + rest)[0] == item;
  }

  /**
   * A kept item comes first, with the description id when it has one and the
   * type id otherwise, and is followed directly by its descendants (pre-order),
   * which are flattened below the item's path, or below the empty path when
   * the item is at the top level and its name is falsy.
   */
  lemma OzonPreOrder(item: OzonItem, parent: string)
    requires OzonItemEntries(item, parent).Success? && OzonHead(item.fields).Named? && !Disabled(item.fields)
    ensures var es := OzonItemEntries(item, parent).value;
      var path := PathOf(parent, Show(OzonHead(item.fields).name));
      var below := if parent == [] && !Truthy(OzonHead(item.fields).name) then "" else path;
      && es != []
      && es[0] == Entry(OzonHead(item.fields).id, path)
      && FlattenOzon(item.children, below) == Success(es[1..])
    ensures "description_category_id" in item.fields ==>
      OzonItemEntries(item, parent).value[0] ==
        Entry(item.fields["description_category_id"], PathOf(parent, Show(item.fields["category_name"])))
    ensures "description_category_id" !in item.fields ==>
      OzonItemEntries(item, parent).value[0] ==
        Entry(item.fields["type_id"], PathOf(parent, Show(item.fields["type_name"])))
  {
    var path := PathOf(parent, Show(OzonHead(item.fields).name));
    var below := FlattenOzon(item.children, ChildPath(parent, OzonHead(item.fields).name));
    assert below.Success?;
    assert ([Entry(OzonHead(item.fields).id, path)] + below.value)[1..] == below.value;
  }

  /**
   * A top-level category whose name is `null` is written as `None`, and its
   * children, handed a falsy parent path, are written under their bare names.
   */
  lemma OzonNullTopName()
    ensures
      var child := OzonItem(map["type_id" := Int(2), "type_name" := Str("X")], []);
      var top := OzonItem(map["description_category_id" := Int(1), "category_name" := Null], [child]);
      FlattenOzon([top], "") == Success([Entry(Int(1), "None"), Entry(Int(2), "X")])
  {
    var child := OzonItem(map["type_id" := Int(2), "type_name" := Str("X")], []);
    var top := OzonItem(map["description_category_id" := Int(1), "category_name" := Null], [child]);
    assert "description_category_id"[0] != "type_id"[0] && "disabled"[0] != "type_id"[0];
    assert child.fields.Keys == {"type_id", "type_name"} && "disabled" != "type_name";
    assert OzonHead(child.fields) == Named(Int(2), Str("X")) && !Disabled(child.fields);
    assert "disabled" != "description_category_id" && "disabled" != "category_name";
    assert OzonHead(top.fields) == Named(Int(1), Null) && !Disabled(top.fields);
    assert [child][1..] == [] && [top][1..] == [];
    assert FlattenOzon(child.children, "X") == Success([]);
    assert [Entry(Int(2), "X")] + [] == [Entry(Int(2), "X")];
    assert OzonItemEntries(child, "") == Success([Entry(Int(2), "X")]);
    assert FlattenOzon([child], "") == Success([Entry(Int(2), "X")]);
    assert ChildPath("", Null) == "" && PathOf("", Show(Null)) == "None";
    assert [Entry(Int(1), "None")] + [Entry(Int(2), "X")] == [Entry(Int(1), "None"), Entry(Int(2), "X")];
    assert OzonItemEntries(top, "") == Success([Entry(Int(1), "None"), Entry(Int(2), "X")]);
    assert [Entry(Int(1), "None"), Entry(Int(2), "X")] + [] == [Entry(Int(1), "None"), Entry(Int(2), "X")];
  }

  /** Below a non-empty parent path, every path extends `parent + " > "`. */
  lemma {:induction false} OzonPaths(items: seq<OzonItem>, parent: string)
    requires parent != [] && FlattenOzon(items, parent).Success?
    ensures forall e :: e in FlattenOzon(items, parent).value ==> parent + " > " <= e.path
    decreases items, 1
  {
    if items != [] {
      OzonItemPaths(items[0], parent);
      OzonPaths(items[1..], parent);
    }
  }

  lemma {:induction false} OzonItemPaths(item: OzonItem, parent: string)
    requires parent != [] && OzonItemEntries(item, parent).Success?
    ensures forall e :: e in OzonItemEntries(item, parent).value ==> parent + " > " <= e.path
    decreases item, 0
  {
    var h := OzonHead(item.fields);
    if h.Named? && !Disabled(item.fields) {
      var path := ChildPath(parent, h.name);
      OzonPaths(item.children, path);
      forall e | e in FlattenOzon(item.children, path).value
        ensures parent + " > " <= e.path
      {
        PrefixTrans(parent + " > ", path, " > ", e.path);
      }
    }
  }

  /** A prefix of `a` is a prefix of anything `a + b` is a prefix of. */
  lemma PrefixTrans(p: string, a: string, b: string, c: string)
    requires p <= a && a + b <= c
    ensures p <= c
  {
    assert c[..|p|] == (a + b)[..|p|];
  }

  /** Each item gives at most one entry, so there are at most as many entries as items. */
  lemma {:induction false} OzonBound(items: seq<OzonItem>, parent: string)
    requires FlattenOzon(items, parent).Success?
    ensures |FlattenOzon(items, parent).value| <= OzonNodes(items)
    decreases items
  {
    if items != [] {
      var item := items[0];
      OzonBound(items[1..], parent);
      var h := OzonHead(item.fields);
      if h.Named? && !Disabled(item.fields) {
        OzonBound(item.children, ChildPath(parent, h.name));
      }
    }
  }

  // ---- Yandex --------------------------------------------------------------

  /** A Yandex node: an object with scalar fields and `children`, or any other JSON value. */
  datatype YandexNode = Object(fields: map<string, Value>, children: seq<YandexNode>) | NotObject

  /** `flatten_yandex_categories(node, parent)`. */
  function FlattenYandex(node: YandexNode, parent: string): seq<Entry>
    decreases node, 0
  {
    match node
    case NotObject => []
    case Object(fields, children) =>
      var id := Get(fields, "id");
      var name := Get(fields, "name");
      if Truthy(id) && Truthy(name) then
        var path := PathOf(parent, Show(name));
        [Entry(id, path)] + FlattenYandexAll(children, path)
      else []
  }

  /** The children loop: each child's entries in turn. */
  function FlattenYandexAll(nodes: seq<YandexNode>, parent: string): seq<Entry>
    decreases nodes, 1
  {
    if nodes == [] then [] else FlattenYandex(nodes[0], parent) + FlattenYandexAll(nodes[1..], parent)
  }

  /** The number of nodes in a forest. */
  function YandexNodes(nodes: seq<YandexNode>): nat
    decreases nodes
  {
    if nodes == [] then 0
    else (if nodes[0].Object? then 1 + YandexNodes(nodes[0].children) else 1) + YandexNodes(nodes[1..])
  }

  /** A non-object, or an object whose `id` or `name` is missing or falsy, yields nothing: its subtree goes with it. */
  lemma YandexDropped(node: YandexNode, parent: string)
    requires node.Object? ==> !Truthy(Get(node.fields, "id")) || !Truthy(Get(node.fields, "name"))
    ensures FlattenYandex(node, parent) == []
  {
  }

  /** A kept node comes first, followed by its children's entries in order. */
  lemma YandexPreOrder(node: YandexNode, parent: string)
    requires node.Object? && Truthy(Get(node.fields, "id")) && Truthy(Get(node.fields, "name"))
    ensures var es := FlattenYandex(node, parent);
      var path := PathOf(parent, Show(Get(node.fields, "name")));
      && es != []
      && es[0] == Entry(Get(node.fields, "id"), path)
      && es[1..] == FlattenYandexAll(node.children, path)
  {
  }

  /** The children loop distributes over concatenation. */
  lemma {:induction false} YandexAppend(a: seq<YandexNode>, b: seq<YandexNode>, parent: string)
    ensures FlattenYandexAll(a + b, parent) == FlattenYandexAll(a, parent) + FlattenYandexAll(b, parent)
    decreases |a|
  {
    if a == [] {
      assert a + b == b;
    } else {
      assert (a + b)[0] == a[0];
      assert (a + b)[1..] == a[1..] + b;
      YandexAppend(a[1..], b, parent);
    }
  }

  /** Below a non-empty parent path, every path extends `parent + " > "`. */
  lemma {:induction false} YandexPaths(nodes: seq<YandexNode>, parent: string)
    requires parent != []
    ensures forall e :: e in FlattenYandexAll(nodes, parent) ==> parent + " > " <= e.path
    decreases nodes, 1
  {
    if nodes != [] {
      YandexNodePaths(nodes[0], parent);
      YandexPaths(nodes[1..], parent);
    }
  }

  lemma {:induction false} YandexNodePaths(node: YandexNode, parent: string)
    requires parent != []
    ensures forall e :: e in FlattenYandex(node, parent) ==> parent + " > " <= e.path
    decreases node, 0
  {
    if node.Object? && Truthy(Get(node.fields, "id")) && Truthy(Get(node.fields, "name")) {
      var path := PathOf(parent, Show(Get(node.fields, "name")));
      YandexPaths(node.children, path);
      forall e | e in FlattenYandexAll(node.children, path)
        ensures parent + " > " <= e.path
      {
        PrefixTrans(parent + " > ", path, " > ", e.path);
      }
    }
  }

  /** Each node gives at most one entry. */
  lemma {:induction false} YandexBound(nodes: seq<YandexNode>, parent: string)
    ensures |FlattenYandexAll(nodes, parent)| <= YandexNodes(nodes)
    decreases nodes
  {
    if nodes != [] {
      YandexBound(nodes[1..], parent);
      var n := nodes[0];
      if n.Object? && Truthy(Get(n.fields, "id")) && Truthy(Get(n.fields, "name")) {
        YandexBound(n.children, PathOf(parent, Show(Get(n.fields, "name"))));
      }
    }
  }

  // ---- Writing the TSV ------------------------------------------------------

  /** The rows the converters write: `str(id)` and the path. */
  function AsCategories(entries: seq<Entry>): (cats: seq<Category>)
    ensures |cats| == |entries|
    ensures forall j :: 0 <= j < |entries| ==> cats[j] == Category(Show(entries[j].id), entries[j].path)
  {
    seq(|entries|, j requires 0 <= j < |entries| => Category(Show(entries[j].id), entries[j].path))
  }

  /** What a converter returns: the text of the output file and the row count. */
  datatype Converted = Converted(text: string, count: nat)

  /** The header, then one `id\tpath\n` line per entry. */
  method WriteRows(entries: seq<Entry>) returns (text: string)
    ensures text == TsvText(AsCategories(entries))
  {
    text := Header;
    for j := 0 to |entries|
      invariant text == Header + RowsText(AsCategories(entries[..j]))
    {
      ghost var before := text;
      text := text + Show(entries[j].id) + "\t" + entries[j].path + "\n";
      RowStep(entries, j, before, text);
    }
    assert entries[..|entries|] == entries;
  }

  /** Writing entry `j` extends the text written for the entries before it. */
  lemma RowStep(entries: seq<Entry>, j: nat, text: string, text': string)
    requires j < |entries| && text == Header + RowsText(AsCategories(entries[..j]))
    requires text' == text + Show(entries[j].id) + "\t" + entries[j].path + "\n"
    ensures text' == Header + RowsText(AsCategories(entries[..j + 1]))
  {
    var cats := AsCategories(entries[..j + 1]);
    assert cats[..|cats| - 1] == AsCategories(entries[..j]);
    assert cats[|cats| - 1] == Category(Show(entries[j].id), entries[j].path);
    calc {
      Header + RowsText(cats);
      Header + (RowsText(AsCategories(entries[..j])) + Line(cats[|cats| - 1]) + "\n");
      { AppendAssoc(Header, RowsText(AsCategories(entries[..j])), Line(cats[|cats| - 1]) + "\n"); }
      text + (Line(cats[|cats| - 1]) + "\n");
    }
  }

  /** `convert_ozon_to_tsv` on the `result` list: fails exactly when flattening does. */
  method ConvertOzonToTsv(categories: seq<OzonItem>) returns (r: Result<Converted, ConvertError>)
    ensures FlattenOzon(categories, "").Failure? ==> r == Failure(FlattenOzon(categories, "").error)
    ensures FlattenOzon(categories, "").Success? ==>
      var flat := FlattenOzon(categories, "").value;
      r == Success(Converted(TsvText(AsCategories(flat)), |flat|))
  {
    var flattened := FlattenOzon(categories, "");
    if flattened.Failure? {
      return Failure(flattened.error);
    }
    var text := WriteRows(flattened.value);
    return Success(Converted(text, |flattened.value|));
  }

  /**
   * `convert_yandex_to_tsv` on the `result` object: the root itself is left
   * out, and each of its children is flattened as a top-level tree.
   */
  method ConvertYandexToTsv(result: YandexNode) returns (r: Result<Converted, ConvertError>)
    ensures result.NotObject? ==> r == Failure(NotAnObject)
    ensures result.Object? ==>
      var flat := FlattenYandexAll(result.children, "");
      r == Success(Converted(TsvText(AsCategories(flat)), |flat|))
  {
    if result.NotObject? {
      return Failure(NotAnObject);
    }
    var children := result.children;
    var flattened: seq<Entry> := [];
    for j := 0 to |children|
      invariant flattened == FlattenYandexAll(children[..j], "")
    {
      YandexAppend(children[..j], [children[j]], "");
      assert children[..j + 1] == children[..j] + [children[j]];
      flattened := flattened + FlattenYandex(children[j], "");
    }
    assert children[..|children|] == children;
    var text := WriteRows(flattened);
    return Success(Converted(text, |flattened|));
  }

  /** A converted file whose rows are all writable reads back, row for row, as the flattened entries. */
  lemma ConvertedReadsBack(entries: seq<Entry>)
    requires forall j :: 0 <= j < |entries| ==> Writable(Category(Show(entries[j].id), entries[j].path))
    ensures ParsedCategories(TsvText(AsCategories(entries))) == AsCategories(entries)
    ensures |ParsedCategories(TsvText(AsCategories(entries)))| == |entries|
  {
    ReadWritten(AsCategories(entries));
  }
}
