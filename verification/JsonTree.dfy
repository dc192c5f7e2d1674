/** JSON values, shared by the code that packs actions and the code that dispatches replies.

    An object is a sequence of members: the encoder uses an insertion-ordered object type and the
    reply parsers visit members in document order, so order and duplicates are kept.
    A character stands for one byte of a `std::string`. */
module JsonTree {

  datatype Json =
    | Null
    | Bool(b: bool)
    | Int(i: int)
    | Real(r: real)
    | Str(s: string)
    | Arr(items: seq<Json>)
    | Obj(members: seq<Member>)

  datatype Member = Member(key: string, value: Json)

  /** The first member called `key`, and where it is; |members| when there is none. */
  function IndexOf(members: seq<Member>, key: string): (i: nat)
    ensures i <= |members|
    ensures i < |members| ==> members[i].key == key
    ensures forall j :: 0 <= j < i ==> members[j].key != key
  {
    if members == [] then 0
    else if members[0].key == key then 0
    else 1 + IndexOf(members[1..], key)
  }

  predicate Has(v: Json, key: string) {
    v.Obj? && IndexOf(v.members, key) < |v.members|
  }

  /** Plain member lookup; Null when `v` is not an object or has no such member. */
  function Get(v: Json, key: string): Json {
    if Has(v, key) then v.members[IndexOf(v.members, key)].value else Null
  }

  ghost predicate UniqueKeys(members: seq<Member>) {
    forall i, j :: 0 <= i < j < |members| ==> members[i].key != members[j].key
  }

  ghost predicate Unique(v: Json) { v.Obj? ==> UniqueKeys(v.members) }
}
