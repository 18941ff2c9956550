/**
 * The refactoring actions the brain may ask for, and their JSON wire form.
 *
 * An action item is a closed union of three records. On the wire each item is a JSON
 * object whose property "type" carries the variant's tag; the other properties are the
 * record's components. A plan is an object with the file hash it was computed against and
 * an array of items. The JSON text itself is produced and read by a foreign library; this
 * module models the tree that library builds (`Json`) and the mapping between that tree
 * and the records, which is where the tags live.
 */
module ActionItems {
  import opened Wrappers

  /** Java's `Integer`: the `line` component of every record. */
  newtype Int32 = x: int | -0x8000_0000 <= x < 0x8000_0000

  /** `ActionItemType`, one constant per variant. */
  datatype ActionItemType = ADD_COMMENT | RENAME_METHOD | RENAME_VARIABLE

  /** The sealed `ActionItem` interface and its three permitted records. */
  datatype ActionItem =
    | AddCommentAction(line: Int32, content: string)
    | RenameMethodAction(line: Int32, oldName: string, newName: string)
    | RenameVariableAction(line: Int32, oldName: string, newName: string)

  /** `ActionPlan`: the hash of the file the items were computed for, and the items in order. */
  datatype ActionPlan = ActionPlan(fileHash: string, actionItems: seq<ActionItem>)

  /** `getType()` of each record (not serialised). */
  function GetType(item: ActionItem): (t: ActionItemType)
    ensures item.AddCommentAction? <==> t == ADD_COMMENT
    ensures item.RenameMethodAction? <==> t == RENAME_METHOD
    ensures item.RenameVariableAction? <==> t == RENAME_VARIABLE
  {
    match item
    case AddCommentAction(_, _) => ADD_COMMENT
    case RenameMethodAction(_, _, _) => RENAME_METHOD
    case RenameVariableAction(_, _, _) => RENAME_VARIABLE
  }

  /** The name an `ActionItemType` constant has on the wire (its `@JsonProperty`). */
  function TypeWireName(t: ActionItemType): string
  {
    match t
    case ADD_COMMENT => "addComment"
    case RENAME_METHOD => "renameMethod"
    case RENAME_VARIABLE => "renameVariable"
  }

  /** The `@JsonSubTypes` name of each record: the value of its "type" property. */
  function Tag(item: ActionItem): string
  {
    match item
    case AddCommentAction(_, _) => "addComment"
    case RenameMethodAction(_, _, _) => "renameMethod"
    case RenameVariableAction(_, _, _) => "renameVariable"
  }

  /** The three tags are distinct, so the tag alone decides the variant. */
  lemma TagsIdentifyVariant(a: ActionItem, b: ActionItem)
    ensures Tag(a) == Tag(b) <==> GetType(a) == GetType(b)
  {
    // "addComment" differs from the others at index 0, and "renameMethod" from
    // "renameVariable" at index 6.
    assert Tag(a) == Tag(b) ==> Tag(a)[0] == Tag(b)[0] && Tag(a)[6] == Tag(b)[6];
  }

  /** The enum's wire names are exactly the union's tags. */
  lemma WireNameIsTag(item: ActionItem)
    ensures TypeWireName(GetType(item)) == Tag(item)
  {
  }

  // ---------------------------------------------------------------------------
  // The JSON tree

  datatype Json =
    | JNull
    | JString(str: string)
    | JNumber(num: int)
    | JArray(elems: seq<Json>)
    | JObject(fields: map<string, Json>)

  function EncodeItem(item: ActionItem): Json
  {
    match item
    case AddCommentAction(line, content) =>
      JObject(map["type" := JString(Tag(item)), "line" := JNumber(line as int),
                  "content" := JString(content)])
    case RenameMethodAction(line, oldName, newName) =>
      JObject(map["type" := JString(Tag(item)), "line" := JNumber(line as int),
                  "oldName" := JString(oldName), "newName" := JString(newName)])
    case RenameVariableAction(line, oldName, newName) =>
      JObject(map["type" := JString(Tag(item)), "line" := JNumber(line as int),
                  "oldName" := JString(oldName), "newName" := JString(newName)])
  }

  predicate IsString(fields: map<string, Json>, key: string)
  {
    key in fields && fields[key].JString?
  }

  predicate IsInt32(fields: map<string, Json>, key: string)
  {
    key in fields && fields[key].JNumber? && -0x8000_0000 <= fields[key].num < 0x8000_0000
  }

  /**
   * Reads one item: the "type" property selects the record, which must then find exactly
   * its own components (an unknown property is an error, as is a line outside `Integer`).
   */
  function DecodeItem(j: Json): (r: Option<ActionItem>)
    ensures r.Some? ==> j.JObject? && "type" in j.fields && j.fields["type"] == JString(Tag(r.value))
  {
    if !j.JObject? || !IsString(j.fields, "type") then None
    else
      var f := j.fields;
      var tag := f["type"].str;
      if tag == "addComment" then
        if f.Keys == {"type", "line", "content"} && IsInt32(f, "line") && IsString(f, "content")
        then Some(AddCommentAction(f["line"].num as Int32, f["content"].str))
        else None
      else if tag == "renameMethod" || tag == "renameVariable" then
        if f.Keys == {"type", "line", "oldName", "newName"} && IsInt32(f, "line")
           && IsString(f, "oldName") && IsString(f, "newName")
        then
          var line, oldName, newName := f["line"].num as Int32, f["oldName"].str, f["newName"].str;
          Some(if tag == "renameMethod" then RenameMethodAction(line, oldName, newName)
               else RenameVariableAction(line, oldName, newName))
        else None
      else None
  }

  /** Serialising an item and reading it back gives the same item. */
  lemma DecodeEncodeItem(item: ActionItem)
    ensures DecodeItem(EncodeItem(item)) == Some(item)
  {
    var f := EncodeItem(item).fields;
    match item
    case AddCommentAction(_, _) =>
      assert f.Keys == {"type", "line", "content"};
    case RenameMethodAction(_, _, _) =>
      assert f.Keys == {"type", "line", "oldName", "newName"};
    case RenameVariableAction(_, _, _) =>
      assert f.Keys == {"type", "line", "oldName", "newName"};
  }

  /** Conversely, the only trees that read as an item are that item's serialisation. */
  lemma EncodeDecodeItem(j: Json)
    requires DecodeItem(j).Some?
    ensures EncodeItem(DecodeItem(j).value) == j
  {
    var f := j.fields;
    var g := EncodeItem(DecodeItem(j).value).fields;
    assert g.Keys == f.Keys;
    forall k | k in f ensures g[k] == f[k] {
    }
    assert g == f;
  }

  // ---------------------------------------------------------------------------
  // Lists of items, as the brain sends them, and plans, as the server sends them

  function EncodeItems(items: seq<ActionItem>): (j: Json)
    ensures j.JArray? && |j.elems| == |items|
    ensures forall i :: 0 <= i < |items| ==> j.elems[i] == EncodeItem(items[i])
  {
    JArray(seq(|items|, i requires 0 <= i < |items| => EncodeItem(items[i])))
  }

  /**
   * The outcome of reading a list of items: the list, a malformed payload (the library's
   * processing exception), or a null list or null element, which the library accepts but
   * the immutable-list copy then rejects with a null-pointer exception.
   */
  datatype ItemsRead = Items(items: seq<ActionItem>) | Malformed | NullItems

  /** An element the library cannot read as an item (a null element it does accept). */
  predicate MalformedElem(e: Json)
  {
    e != JNull && DecodeItem(e).None?
  }

  function DecodeElems(elems: seq<Json>): (r: ItemsRead)
    ensures r.Items? ==> |r.items| == |elems|
    ensures r.Items? ==> forall i :: 0 <= i < |elems| ==> DecodeItem(elems[i]) == Some(r.items[i])
    ensures r.Malformed? <==> exists i :: 0 <= i < |elems| && MalformedElem(elems[i])
    ensures r.NullItems? <==> !r.Malformed? && exists i :: 0 <= i < |elems| && elems[i] == JNull
  {
    if elems == [] then Items([])
    else
      // The whole array is read before the copy looks for nulls, so a malformed
      // element anywhere wins over a null one.
      var rest := DecodeElems(elems[1..]);
      assert forall i :: 1 <= i < |elems| ==> elems[i] == elems[1..][i - 1];
      if MalformedElem(elems[0]) then Malformed
      else if rest.Malformed? then Malformed
      else if elems[0] == JNull || rest.NullItems? then NullItems
      else
        var items := [DecodeItem(elems[0]).value] + rest.items;
        assert forall i :: 1 <= i < |elems| ==> items[i] == rest.items[i - 1];
        Items(items)
  }

  /**
   * `readValue` into a list of items followed by the immutable-list copy: an array of
   * readable elements gives its items, a null list or a null element gives `NullItems`,
   * and anything else (another kind of value, an unreadable element) is malformed.
   */
  function DecodeItems(j: Json): (r: ItemsRead)
    ensures r.Items? <==> j.JArray? && forall i :: 0 <= i < |j.elems| ==> DecodeItem(j.elems[i]).Some?
    ensures r.Items? ==> |r.items| == |j.elems| && forall i :: 0 <= i < |j.elems| ==> DecodeItem(j.elems[i]) == Some(r.items[i])
    ensures r.NullItems? <==> j == JNull || (j.JArray? && (forall i :: 0 <= i < |j.elems| ==> !MalformedElem(j.elems[i]))
                                      && exists i :: 0 <= i < |j.elems| && j.elems[i] == JNull)
  {
    match j
    case JNull => NullItems
    case JArray(elems) => DecodeElems(elems)
    case _ => Malformed
  }

  lemma {:induction false} DecodeEncodeElems(items: seq<ActionItem>)
    ensures DecodeElems(EncodeItems(items).elems) == Items(items)
  {
    var elems := EncodeItems(items).elems;
    if items != [] {
      DecodeEncodeElems(items[1..]);
      assert elems[1..] == EncodeItems(items[1..]).elems;
      DecodeEncodeItem(items[0]);
      assert [items[0]] + items[1..] == items;
    }
  }

  /** Serialising a list of items and reading it back gives the same list. */
  lemma DecodeEncodeItems(items: seq<ActionItem>)
    ensures DecodeItems(EncodeItems(items)) == Items(items)
  {
    DecodeEncodeElems(items);
  }

  function EncodePlan(plan: ActionPlan): Json
  {
    JObject(map["fileHash" := JString(plan.fileHash), "actionItems" := EncodeItems(plan.actionItems)])
  }

  function DecodePlan(j: Json): (r: Option<ActionPlan>)
    ensures r.Some? ==> j.JObject? && "fileHash" in j.fields && j.fields["fileHash"] == JString(r.value.fileHash)
  {
    if j.JObject? && j.fields.Keys == {"fileHash", "actionItems"} && IsString(j.fields, "fileHash")
       && DecodeItems(j.fields["actionItems"]).Items?
    then Some(ActionPlan(j.fields["fileHash"].str, DecodeItems(j.fields["actionItems"]).items))
    else None
  }

  /** Serialising a plan and reading it back gives the same plan. */
  lemma DecodeEncodePlan(plan: ActionPlan)
    ensures DecodePlan(EncodePlan(plan)) == Some(plan)
  {
    var f := EncodePlan(plan).fields;
    assert f.Keys == {"fileHash", "actionItems"};
    DecodeEncodeItems(plan.actionItems);
  }
}
