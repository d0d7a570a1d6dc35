/**
 * The dynamically typed Java values that flow through the query pipeline
 * (filter operands, query params, mapping specs, documents and POJO field
 * values), as one datatype.
 */
module Values {
  import opened Wrappers
  import opened Strings

  /** A Java object as seen by the core; a map is its entries in one fixed iteration order. */
  datatype Value =
    | VNull
    | VStr(s: string)
    | VInt(i: int)                 // java.lang.Integer
    | VLong(l: int)                // java.lang.Long
    | VBool(b: bool)
    | VUuid(uuid: string)          // java.util.UUID, by its canonical text
    | VInstant(instant: string)    // java.time.Instant, by its ISO text
    | VList(kind: Coll, items: seq<Value>)  // a List, a Set, an Object[] or another Collection
    | VMap(entries: seq<Entry>)    // a Map or a BSON Document
    | VParam(name: string)         // QueryValues.Param: a reference to a query param
    | VBind(bind: Bind)            // a Bind handed in as a param value
    | VOther(cls: string, text: string)  // any other object: its class and toString

  /** Which Java collection a VList stands for: the container codecs treat them differently. */
  datatype Coll = JList | JSet | JArray | JCollection

  datatype Entry = Entry(key: string, val: Value)

  /** A value together with the logical type id it is bound as. */
  datatype Bind = Bind(value: Value, userTypeId: string)

  /** A column (or document path) and the bind that fills it. */
  datatype ColumnBind = ColumnBind(column: string, bind: Bind)

  function Keys(es: seq<Entry>): (r: seq<string>)
    ensures |r| == |es|
    ensures forall i :: 0 <= i < |es| ==> r[i] == es[i].key
  {
    if es == [] then [] else [es[0].key] + Keys(es[1..])
  }

  predicate HasKey(es: seq<Entry>, k: string)
  {
    exists i :: 0 <= i < |es| && es[i].key == k
  }

  /** Map.get: the value under k, or None when k is absent. */
  function Get(es: seq<Entry>, k: string): (r: Option<Value>)
    ensures r.Some? <==> HasKey(es, k)
    ensures r.Some? ==> exists i :: 0 <= i < |es| && es[i] == Entry(k, r.value)
  {
    if es == [] then None
    else if es[0].key == k then Some(es[0].val)
    else
      var r := Get(es[1..], k);
      assert HasKey(es, k) ==> HasKey(es[1..], k) by {
        if HasKey(es, k) {
          var i :| 0 <= i < |es| && es[i].key == k;
          assert i > 0 && es[1..][i - 1].key == k;
        }
      }
      assert r.Some? ==> exists i :: 0 <= i < |es| && es[i] == Entry(k, r.value) by {
        if r.Some? {
          var i :| 0 <= i < |es[1..]| && es[1..][i] == Entry(k, r.value);
          assert es[i + 1] == Entry(k, r.value);
        }
      }
      r
  }

  /** Map.get where a missing key and a null value both read as null. */
  function GetOrNull(es: seq<Entry>, k: string): Value
  {
    Get(es, k).UnwrapOr(VNull)
  }

  /** LinkedHashMap.put: a present key keeps its position and takes the new value. */
  function Put(es: seq<Entry>, k: string, v: Value): (r: seq<Entry>)
    ensures Get(r, k) == Some(v)
    ensures forall j :: j != k ==> Get(r, j) == Get(es, j)
  {
    if es == [] then [Entry(k, v)]
    else if es[0].key == k then [Entry(k, v)] + es[1..]
    else
      var rest := Put(es[1..], k, v);
      assert ([es[0]] + rest)[1..] == rest;
      [es[0]] + rest
  }

  predicate IsMap(v: Value) { v.VMap? }

  /**
   * String.valueOf: the text Java prints for the value. A Java array prints
   * as its type and identity hash instead; here it prints like a list.
   */
  function Show(v: Value): string
  {
    match v
    case VNull => "null"
    case VStr(s) => s
    case VInt(i) => IntToString(i)
    case VLong(l) => IntToString(l)
    case VBool(b) => if b then "true" else "false"
    case VUuid(u) => u
    case VInstant(t) => t
    case VList(_, items) => "[" + ShowItems(items) + "]"
    case VMap(es) => "{" + ShowEntries(es) + "}"
    case VParam(name) => "Param[name=" + name + "]"
    case VBind(b) => "Bind[value=" + Show(b.value) + ", userTypeId=" + b.userTypeId + "]"
    case VOther(_, text) => text
  }

  /** getClass().getName() for the classes the core tells apart ("null" for null). */
  function TypeName(v: Value): string
  {
    match v
    case VNull => "null"
    case VStr(_) => "java.lang.String"
    case VInt(_) => "java.lang.Integer"
    case VLong(_) => "java.lang.Long"
    case VBool(_) => "java.lang.Boolean"
    case VUuid(_) => "java.util.UUID"
    case VInstant(_) => "java.time.Instant"
    case VList(kind, _) =>
      (match kind
       case JList => "java.util.ArrayList"
       case JSet => "java.util.LinkedHashSet"
       case JArray => "[Ljava.lang.Object;"
       case JCollection => "java.util.ArrayDeque")
    case VMap(_) => "java.util.LinkedHashMap"
    case VParam(_) => "io.intellixity.nativa.persistence.query.QueryValues$Param"
    case VBind(_) => "io.intellixity.nativa.persistence.compile.Bind"
    case VOther(cls, _) => cls
  }

  /** getClass().toString(). */
  function ClassName(v: Value): string
  {
    "class " + TypeName(v)
  }

  function ShowItems(items: seq<Value>): string
  {
    if items == [] then ""
    else if |items| == 1 then Show(items[0])
    else Show(items[0]) + ", " + ShowItems(items[1..])
  }

  function ShowEntries(es: seq<Entry>): string
  {
    if es == [] then ""
    else if |es| == 1 then es[0].key + "=" + Show(es[0].val)
    else es[0].key + "=" + Show(es[0].val) + ", " + ShowEntries(es[1..])
  }
}
