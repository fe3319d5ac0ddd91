/** JSON documents as the SDK sees them (c-sdk-common/src/json.c over cJSON). Text is a sequence of bytes written as
    characters; numbers are exact reals. */
module JsonValue {
  import opened Basics

  datatype Json =
    | Null
    | Bool(b: bool)
    | Number(n: real)
    | Text(s: string)
    | Array(items: seq<Json>)
    | Object(fields: seq<Field>)

  datatype Field = Field(key: string, value: Json)

  /** cJSON_GetObjectItemCaseSensitive on the field list: the first field of that name. */
  function Find(fields: seq<Field>, key: string): Option<Json> {
    if fields == [] then None
    else if fields[0].key == key then Some(fields[0].value)
    else Find(fields[1..], key)
  }

  /** LDObjectLookup; a value that is not an object has no fields. */
  function Lookup(json: Json, key: string): Option<Json> {
    if json.Object? then Find(json.fields, key) else None
  }

  /** Lookup followed by LDi_notNull: an explicit null counts as missing. */
  function NotNull(json: Json, key: string): Option<Json> {
    var found := Lookup(json, key);
    if found == Some(Null) then None else found
  }

  /** What a lookup finds: the value of the first field of that name, if there is one. */
  lemma {:induction false} FindIsFirst(fields: seq<Field>, key: string)
    ensures Find(fields, key).None? <==> forall i :: 0 <= i < |fields| ==> fields[i].key != key
    ensures forall i ::
      0 <= i < |fields| && fields[i].key == key && (forall j :: 0 <= j < i ==> fields[j].key != key) ==>
        Find(fields, key) == Some(fields[i].value)
  {
    if fields != [] && fields[0].key != key {
      FindIsFirst(fields[1..], key);
    }
  }

  /** The first field of a name counts as missing if its value is null; so does a name that no field has. */
  lemma {:induction false} NullIsMissing(fields: seq<Field>, key: string, i: nat)
    requires i < |fields| && fields[i].key == key && forall j :: 0 <= j < i ==> fields[j].key != key
    ensures Lookup(Object(fields), key) == Some(fields[i].value)
    ensures NotNull(Object(fields), key) == if fields[i].value == Null then None else Some(fields[i].value)
  {
    FindIsFirst(fields, key);
  }
}
