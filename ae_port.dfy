/**
 * `EntityAttributeImporter`: how an attribute value read from the entity-attribute file is
 * rendered as the string stored on a graph node, and how an existing node is updated with
 * the rendered attributes of a record. A value is the parsed JSON; rendering a
 * `common_operations` list raises when an operation's name is not a string, and that is the
 * `None` of the formatters below.
 */
module AePort {
  import opened Wrappers
  import opened Text
  import opened Json
  import opened Seqs

  const CommonOperationsKey: string := "common_operations"
  const TimeComplexityKey: string := "time_complexity"

  // ---------------------------------------------------------------- reference definitions

  /** `f"{k}: {v}"`. */
  function PairText(k: string, v: Json): string {
    k + ": " + PyStr(v)
  }

  /** The `k: v` parts of a dict, in order. */
  function PairTexts(entries: seq<(string, Json)>): seq<string> {
    seq(|entries|, i requires 0 <= i < |entries| => PairText(entries[i].0, entries[i].1))
  }

  /** A dict entry: `k (nk: nv, ...)` for a nested dict, `k: v` for anything else. */
  function EntryText(k: string, v: Json): string {
    if v.JDict? then k + " (" + Join(PairTexts(v.entries), ", ") + ")" else PairText(k, v)
  }

  function DictText(entries: seq<(string, Json)>): string {
    Join(seq(|entries|, i requires 0 <= i < |entries| => EntryText(entries[i].0, entries[i].1)), "; ")
  }

  /** A list item: `(k: v, ...)` for a dict, `str(item)` for anything else. */
  function ItemText(item: Json): string {
    if item.JDict? then "(" + Join(PairTexts(item.entries), ", ") + ")" else PyStr(item)
  }

  function ListText(items: seq<Json>): string {
    Join(seq(|items|, i requires 0 <= i < |items| => ItemText(items[i])), "; ")
  }

  /** `format_time_complexity`. */
  function TimeComplexityText(v: Json): string {
    if !Truthy(v) then ""
    else if v.JStr? then v.s
    else if v.JDict? then DictText(v.entries)
    else PyStr(v)
  }

  /** `op.get('name', op.get('operation_name', ''))`. */
  function OperationName(op: seq<(string, Json)>): (name: Json)
    ensures Get(op, "name").Some? ==> name == Get(op, "name").value
    ensures Get(op, "name").None? ==> name == Get(op, "operation_name").GetOr(JStr(""))
  {
    match Get(op, "name")
    case Some(n) => n
    case None => Get(op, "operation_name").GetOr(JStr(""))
  }

  /** The value of an optional field, "" when absent. */
  function FieldOr(op: seq<(string, Json)>, k: string): Json {
    Get(op, k).GetOr(JStr(""))
  }

  function DescriptionPart(op: seq<(string, Json)>): string {
    var d := FieldOr(op, "description");
    if Truthy(d) then ": " + PyStr(d) else ""
  }

  function UsagePart(op: seq<(string, Json)>): string {
    var u := FieldOr(op, "typical_usage");
    if Truthy(u) then " (用途: " + PyStr(u) + ")" else ""
  }

  /** One operation of `format_common_operations`; `None` when its name is not a string. */
  function OperationText(op: Json): (r: Option<string>)
    ensures !op.JDict? ==> r == Some(PyStr(op))
    ensures op.JDict? ==> (r.Some? <==> OperationName(op.entries).JStr?)
    ensures op.JDict? && r.Some? ==>
      var name := OperationName(op.entries).s;
      && |name| <= |r.value| && r.value[..|name|] == name
      && (!Truthy(FieldOr(op.entries, "description")) && !Truthy(FieldOr(op.entries, "typical_usage")) ==> r.value == name)
      && (Truthy(FieldOr(op.entries, "description")) ==>
            |name| + 2 <= |r.value| && r.value[|name|..|name| + 2] == ": ")
      && (Truthy(FieldOr(op.entries, "typical_usage")) ==> EndsWith(r.value, ")"))
      && (!Truthy(FieldOr(op.entries, "description")) && Truthy(FieldOr(op.entries, "typical_usage")) ==>
            r.value == name + " (用途: " + PyStr(FieldOr(op.entries, "typical_usage")) + ")")
  {
    if op.JDict? then
      var name := OperationName(op.entries);
      if name.JStr? then
        var r := name.s + DescriptionPart(op.entries) + UsagePart(op.entries);
        assert r[..|name.s|] == name.s;
        assert Truthy(FieldOr(op.entries, "description")) ==> r[|name.s|..|name.s| + 2] == ": ";
        Some(r)
      else None
    else Some(PyStr(op))
  }

  /** `format_common_operations`. */
  function CommonOperationsText(v: Json): Option<string> {
    if !Truthy(v) then Some("")
    else if v.JStr? then Some(v.s)
    else if v.JList? then
      var texts := AllSome(v.items, OperationText);
      if texts.None? then None else Some(Join(texts.value, "; "))
    else Some(PyStr(v))
  }

  /** An operation whose rendering raises: a dict whose name is not a string. */
  predicate RaisesOperation(op: Json) {
    op.JDict? && !OperationName(op.entries).JStr?
  }

  /** `format_attribute_value`. */
  function AttributeText(key: string, v: Json): (r: Option<string>)
    ensures !Truthy(v) ==> r == Some("")
    ensures v.JStr? ==> r == Some(v.s)
    ensures r.None? <==>
      key == CommonOperationsKey && v.JList? && exists i :: 0 <= i < |v.items| && RaisesOperation(v.items[i])
    ensures v.JInt? || v.JBool? || v.JNull? ==> r == Some(if Truthy(v) then PyStr(v) else "")
  {
    if !Truthy(v) then Some("")
    else if v.JStr? then Some(v.s)
    else if v.JList? then
      if key == CommonOperationsKey then CommonOperationsText(v) else Some(ListText(v.items))
    else if v.JDict? then
      if key == TimeComplexityKey then Some(TimeComplexityText(v)) else Some(DictText(v.entries))
    else Some(PyStr(v))
  }

  /** A `time_complexity` dict is rendered exactly as any other dict attribute. */
  lemma TimeComplexityAsAnyDict(v: Json, key: string)
    requires v.JDict? && key != CommonOperationsKey
    ensures AttributeText(TimeComplexityKey, v) == AttributeText(key, v)
  {
  }

  /** A `common_operations` list without dict entries is rendered as any other list. */
  lemma PlainOperationsAsAnyList(items: seq<Json>, key: string)
    requires forall i :: 0 <= i < |items| ==> !items[i].JDict?
    requires key != TimeComplexityKey
    ensures AttributeText(CommonOperationsKey, JList(items)) == AttributeText(key, JList(items))
  {
    var texts := AllSome(items, OperationText);
    assert texts.value == seq(|items|, i requires 0 <= i < |items| => ItemText(items[i]));
  }

  // ---------------------------------------------------------------- the formatting loops

  /** The `dict_parts` loop: `f"{k}: {v}"` for every entry. */
  method FormatPairs(entries: seq<(string, Json)>) returns (parts: seq<string>)
    ensures parts == PairTexts(entries)
  {
    parts := [];
    var i := 0;
    while i < |entries|
      invariant 0 <= i <= |entries|
      invariant |parts| == i && forall j :: 0 <= j < i ==> parts[j] == PairText(entries[j].0, entries[j].1)
    {
      var (k, v) := entries[i];
      parts := parts + [k + ": " + PyStr(v)];
      i := i + 1;
    }
  }

  /** The loop over a dict's entries shared by dict attributes and `format_time_complexity`. */
  method FormatEntries(entries: seq<(string, Json)>) returns (text: string)
    ensures text == DictText(entries)
  {
    var parts: seq<string> := [];
    var i := 0;
    while i < |entries|
      invariant 0 <= i <= |entries|
      invariant |parts| == i && forall j :: 0 <= j < i ==> parts[j] == EntryText(entries[j].0, entries[j].1)
    {
      var (k, v) := entries[i];
      if v.JDict? {
        var nested := FormatPairs(v.entries);
        parts := parts + [k + " (" + Join(nested, ", ") + ")"];
      } else {
        parts := parts + [k + ": " + PyStr(v)];
      }
      i := i + 1;
    }
    assert parts == seq(|entries|, i requires 0 <= i < |entries| => EntryText(entries[i].0, entries[i].1));
    text := Join(parts, "; ");
  }

  /** `format_time_complexity`. */
  method FormatTimeComplexity(value: Json) returns (text: string)
    ensures text == TimeComplexityText(value)
  {
    if !Truthy(value) {
      return "";
    }
    if value.JStr? {
      return value.s;
    }
    if value.JDict? {
      text := FormatEntries(value.entries);
      return;
    }
    text := PyStr(value);
  }

  /** One pass of `format_common_operations`' loop; `None` when the operation's name is not a string. */
  method FormatOperation(op: Json) returns (text: Option<string>)
    ensures text == OperationText(op)
  {
    if op.JDict? {
      var name := OperationName(op.entries);
      if !name.JStr? {
        return None;
      }
      var t := name.s;
      var desc := FieldOr(op.entries, "description");
      var usage := FieldOr(op.entries, "typical_usage");
      if Truthy(desc) {
        t := t + ": " + PyStr(desc);
      }
      assert t == name.s + DescriptionPart(op.entries);
      if Truthy(usage) {
        t := t + " (用途: " + PyStr(usage) + ")";
      }
      assert t == name.s + DescriptionPart(op.entries) + UsagePart(op.entries);
      text := Some(t);
    } else {
      text := Some(PyStr(op));
    }
  }

  /** `format_common_operations`; `None` when an operation's name is not a string. */
  method FormatCommonOperations(value: Json) returns (text: Option<string>)
    ensures text == CommonOperationsText(value)
  {
    if !Truthy(value) {
      return Some("");
    }
    if value.JStr? {
      return Some(value.s);
    }
    if !value.JList? {
      return Some(PyStr(value));
    }
    var ops := value.items;
    var formatted: seq<string> := [];
    var i := 0;
    while i < |ops|
      invariant 0 <= i <= |ops|
      invariant AllSome(ops[..i], OperationText) == Some(formatted)
    {
      assert ops[..i + 1][..i] == ops[..i];
      var opText := FormatOperation(ops[i]);
      if opText.None? {
        return None;
      }
      formatted := formatted + [opText.value];
      i := i + 1;
    }
    assert ops[..|ops|] == ops;
    text := Some(Join(formatted, "; "));
  }

  /** `format_attribute_value`; `None` when rendering a `common_operations` list raises. */
  method FormatAttributeValue(key: string, value: Json) returns (text: Option<string>)
    ensures text == AttributeText(key, value)
  {
    if !Truthy(value) {
      return Some("");
    }
    if value.JStr? {
      return Some(value.s);
    }
    if value.JList? {
      if key == CommonOperationsKey {
        text := FormatCommonOperations(value);
        return;
      }
      var items := value.items;
      var formatted: seq<string> := [];
      var i := 0;
      while i < |items|
        invariant 0 <= i <= |items|
        invariant |formatted| == i && forall j :: 0 <= j < i ==> formatted[j] == ItemText(items[j])
      {
        var item := items[i];
        if item.JDict? {
          var parts := FormatPairs(item.entries);
          formatted := formatted + ["(" + Join(parts, ", ") + ")"];
        } else {
          formatted := formatted + [PyStr(item)];
        }
        i := i + 1;
      }
      assert formatted == seq(|items|, i requires 0 <= i < |items| => ItemText(items[i]));
      return Some(Join(formatted, "; "));
    }
    if value.JDict? {
      if key == TimeComplexityKey {
        var t := FormatTimeComplexity(value);
        return Some(t);
      }
      var t := FormatEntries(value.entries);
      return Some(t);
    }
    text := Some(PyStr(value));
  }

  // ---------------------------------------------------------------- updating a node

  /** The basic fields a record's update never touches. */
  const BasicFields: seq<string> := ["name", "type"]

  /**
   * The `update_props` of `update_existing_entity`: the non-empty rendering of every field
   * except `name` and `type`, later entries overriding earlier ones; `None` when a rendering
   * raises.
   */
  function PendingUpdates(data: seq<(string, Json)>): Option<map<string, string>>
    decreases |data|
  {
    if data == [] then Some(map[])
    else
      var n := |data| - 1;
      var p := PendingUpdates(data[..n]);
      var (k, v) := data[n];
      if p.None? then None
      else if k in BasicFields then p
      else
        var f := AttributeText(k, v);
        if f.None? then None
        else if f.value != "" then Some(p.value[k := f.value])
        else p
  }

  /**
   * An update sets no basic field and no empty text; every field it sets is rendered from the
   * record under that key; every field of the record with a non-empty rendering is set.
   */
  lemma {:induction false} PendingUpdatesSpec(data: seq<(string, Json)>)
    requires PendingUpdates(data).Some?
    ensures forall k :: k in PendingUpdates(data).value ==>
      k !in BasicFields && PendingUpdates(data).value[k] != "" &&
      exists i :: 0 <= i < |data| && data[i].0 == k && AttributeText(k, data[i].1) == Some(PendingUpdates(data).value[k])
    ensures forall i :: 0 <= i < |data| && data[i].0 !in BasicFields && AttributeText(data[i].0, data[i].1) != Some("") ==>
      data[i].0 in PendingUpdates(data).value
    decreases |data|
  {
    if data != [] {
      var n := |data| - 1;
      var init := data[..n];
      PendingUpdatesSpec(init);
      var p := PendingUpdates(init).value;
      var u := PendingUpdates(data).value;
      var (k, v) := data[n];
      assert forall i :: 0 <= i < n ==> init[i] == data[i];
      forall key | key in u
        ensures exists i :: 0 <= i < |data| && data[i].0 == key && AttributeText(key, data[i].1) == Some(u[key])
      {
        if key in p && u[key] == p[key] {
          var i :| 0 <= i < |init| && init[i].0 == key && AttributeText(key, init[i].1) == Some(p[key]);
          assert data[i] == init[i];
        } else {
          assert data[n].0 == key;
        }
      }
      forall i | 0 <= i < |data| && data[i].0 !in BasicFields && AttributeText(data[i].0, data[i].1) != Some("")
        ensures data[i].0 in u
      {
        if i < n {
          assert init[i] == data[i];
        }
      }
    }
  }

  /** Once a rendering raises, no longer record can be rendered either. */
  lemma {:induction false} PendingUpdatesRaises(data: seq<(string, Json)>, i: nat)
    requires i <= |data| && PendingUpdates(data[..i]).None?
    ensures PendingUpdates(data).None?
    decreases |data| - i
  {
    if i < |data| {
      assert data[..i + 1][..i] == data[..i];
      PendingUpdatesRaises(data, i + 1);
    } else {
      assert data[..i] == data;
    }
  }

  /** A graph node whose properties are updated in place. */
  class EntityNode {
    var properties: map<string, string>

    constructor (properties: map<string, string>)
      ensures this.properties == properties
    {
      this.properties := properties;
    }
  }

  /**
   * `update_existing_entity`: the rendered fields are written onto the node, and the result
   * says whether there were any. `None`: a rendering raised and the node is unchanged.
   */
  method UpdateExistingEntity(node: EntityNode, data: seq<(string, Json)>) returns (updated: Option<bool>)
    modifies node
    ensures PendingUpdates(data).None? ==> updated.None? && node.properties == old(node.properties)
    ensures PendingUpdates(data).Some? ==>
      var u := PendingUpdates(data).value;
      updated == Some(u != map[]) && node.properties == old(node.properties) + u
    ensures updated == Some(false) ==> node.properties == old(node.properties)
    ensures forall k :: k in BasicFields && k in old(node.properties) ==>
      k in node.properties && node.properties[k] == old(node.properties)[k]
  {
    var pending: map<string, string> := map[];
    var i := 0;
    while i < |data|
      invariant 0 <= i <= |data|
      invariant PendingUpdates(data[..i]) == Some(pending)
      invariant node.properties == old(node.properties)
    {
      assert data[..i + 1][..i] == data[..i];
      var (key, value) := data[i];
      if key !in BasicFields {
        var formatted := FormatAttributeValue(key, value);
        if formatted.None? {
          assert data[..i + 1][i] == data[i];
          assert PendingUpdates(data[..i + 1]).None?;
          PendingUpdatesRaises(data, i + 1);
          return None;
        }
        if formatted.value != "" {
          pending := pending[key := formatted.value];
        }
      }
      i := i + 1;
    }
    assert data[..|data|] == data;
    PendingUpdatesSpec(data);
    if pending != map[] {
      node.properties := node.properties + pending;
      return Some(true);
    }
    assert node.properties + pending == node.properties;
    return Some(false);
  }
}
