/** Loosely typed database documents and `object_id_to_str`, which prepares
    documents for JSON: a document's `_id` becomes `id` (an ObjectId turned
    into its text), ObjectId values become text, and lists are converted
    element by element. */
module Documents {
  import opened Wrappers

  datatype Value =
    | Null
    | Bool(b: bool)
    | Int(i: int)
    | Num(r: real)
    | Str(s: string)
    | ObjectId(hex: string)
    | List(items: seq<Value>)
    | Doc(fields: seq<Field>)

  /** One key of a document; a document keeps its keys in insertion order. */
  datatype Field = Field(key: string, value: Value)

  /** The value stored under `key`, if any. */
  function Get(fields: seq<Field>, key: string): Option<Value>
  {
    if |fields| == 0 then None
    else if fields[0].key == key then Some(fields[0].value)
    else Get(fields[1..], key)
  }

  function Keys(fields: seq<Field>): seq<string> {
    seq(|fields|, i requires 0 <= i < |fields| => fields[i].key)
  }

  /** `data[key] = value`: replaces the value in place, or appends a new key. */
  function Put(fields: seq<Field>, key: string, value: Value): (r: seq<Field>)
    ensures Get(r, key) == Some(value)
    ensures forall k :: k != key ==> Get(r, k) == Get(fields, k)
    ensures Get(fields, key).Some? ==> Keys(r) == Keys(fields)
    ensures Get(fields, key).None? ==> Keys(r) == Keys(fields) + [key]
  {
    if |fields| == 0 then [Field(key, value)]
    else if fields[0].key == key then [Field(key, value)] + fields[1..]
    else
      var rest := Put(fields[1..], key, value);
      assert Keys([fields[0]] + rest) == [fields[0].key] + Keys(rest);
      assert Keys(fields) == [fields[0].key] + Keys(fields[1..]);
      [fields[0]] + rest
  }

  /** `del data[key]`. */
  function Delete(fields: seq<Field>, key: string): (r: seq<Field>)
    ensures Get(r, key) == None
    ensures forall k :: k != key ==> Get(r, k) == Get(fields, k)
    ensures forall i :: 0 <= i < |r| ==> r[i] in fields && r[i].key != key
  {
    if |fields| == 0 then []
    else if fields[0].key == key then Delete(fields[1..], key)
    else [fields[0]] + Delete(fields[1..], key)
  }

  /** `str(value)` when the value is an ObjectId; anything else is kept. */
  function OidToStr(v: Value): (r: Value)
    ensures !r.ObjectId?
  {
    if v.ObjectId? then Str(v.hex) else v
  }

  function MapOpt(o: Option<Value>): Option<Value> {
    if o.Some? then Some(OidToStr(o.value)) else None
  }

  /** The final loop: every ObjectId value of the document becomes text. */
  function StringifyValues(fields: seq<Field>): (r: seq<Field>)
    ensures |r| == |fields|
    ensures forall i :: 0 <= i < |r| ==> r[i].key == fields[i].key && !r[i].value.ObjectId?
    ensures forall k :: Get(r, k) == MapOpt(Get(fields, k))
    ensures (forall i :: 0 <= i < |fields| ==> !fields[i].value.ObjectId?) ==> r == fields
  {
    if |fields| == 0 then []
    else [Field(fields[0].key, OidToStr(fields[0].value))] + StringifyValues(fields[1..])
  }

  /** The `_id` step: copy `_id` into `id` (as text if an ObjectId) and drop `_id`. */
  function RenameId(fields: seq<Field>): seq<Field>
  {
    match Get(fields, "_id")
    case None => fields
    case Some(id) => Delete(Put(fields, "id", OidToStr(id)), "_id")
  }

  /** `object_id_to_str`. */
  function ObjectIdToStr(v: Value): (r: Value)
    ensures v.List? ==> r.List? && |r.items| == |v.items|
                        && forall i :: 0 <= i < |v.items| ==> r.items[i] == ObjectIdToStr(v.items[i])
    ensures v.Doc? ==> r.Doc? && Get(r.fields, "_id") == None
    ensures v.Doc? && Get(v.fields, "_id").Some? ==>
              Get(r.fields, "id") == Some(OidToStr(Get(v.fields, "_id").value))
    ensures v.Doc? && Get(v.fields, "_id").None? ==> Get(r.fields, "id") == MapOpt(Get(v.fields, "id"))
    ensures v.Doc? ==> forall k :: k != "_id" && k != "id" ==> Get(r.fields, k) == MapOpt(Get(v.fields, k))
    ensures v.Doc? ==> forall i :: 0 <= i < |r.fields| ==> !r.fields[i].value.ObjectId?
    ensures !v.List? && !v.Doc? ==> r == v
    decreases v
  {
    match v
    case List(items) => List(seq(|items|, i requires 0 <= i < |items| => ObjectIdToStr(items[i])))
    case Doc(fields) =>
      var renamed := RenameId(fields);
      assert forall k :: k != "_id" && k != "id" ==> Get(renamed, k) == Get(fields, k);
      Doc(StringifyValues(renamed))
    case _ => v
  }

  /** Converting twice changes nothing more than converting once. */
  lemma {:induction false} ObjectIdToStrIdempotent(v: Value)
    ensures ObjectIdToStr(ObjectIdToStr(v)) == ObjectIdToStr(v)
    decreases v
  {
    match v
    case List(items) =>
      var once := ObjectIdToStr(v);
      forall i | 0 <= i < |items|
        ensures ObjectIdToStr(once.items[i]) == once.items[i]
      {
        ObjectIdToStrIdempotent(items[i]);
      }
    case Doc(fields) =>
      var once := ObjectIdToStr(v).fields;
      assert RenameId(once) == once;
    case _ =>
  }
}
