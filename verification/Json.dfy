/** JSON values and the length of their text as JSON.stringify(value, null, 2) writes it
    (section 25.5.2 of ECMA-262). */
module Json {
  import opened Option

  datatype Json =
    | Raw(text: string)  // a number, true, false or null, in its JSON text
    | Str(value: string)
    | Arr(items: seq<Json>)
    | Obj(members: seq<Member>)

  datatype Member = Member(key: string, value: Json)

  // ----- Objects as insertion-ordered members -----

  function Get(members: seq<Member>, key: string): (r: Option<Json>)
    ensures r.None? <==> forall m :: m in members ==> m.key != key
  {
    if members == [] then None
    else if members[0].key == key then Some(members[0].value)
    else Get(members[1..], key)
  }

  /** An assignment, or a later entry of a spread: in place when the key exists, at the end otherwise. */
  function Put(members: seq<Member>, key: string, value: Json): seq<Member> {
    if members == [] then [Member(key, value)]
    else if members[0].key == key then [Member(key, value)] + members[1..]
    else [members[0]] + Put(members[1..], key, value)
  }

  lemma {:induction false} PutThenGet(members: seq<Member>, key: string, value: Json, other: string)
    ensures Get(Put(members, key, value), other) == if other == key then Some(value) else Get(members, other)
  {
    if members != [] && members[0].key != key {
      PutThenGet(members[1..], key, value, other);
    }
  }

  lemma {:induction false} PutNewAppends(members: seq<Member>, key: string, value: Json)
    requires Get(members, key).None?
    ensures Put(members, key, value) == members + [Member(key, value)]
  {
    if members != [] {
      assert members[0] in members;
      PutNewAppends(members[1..], key, value);
    }
  }

  // ----- Length of the text -----

  function CharSize(c: char): nat {
    if c in {'"', '\\', '\U{0008}', '\U{000C}', '\n', '\r', '\t'} then 2
    else if c < ' ' then 6
    else 1
  }

  function BodySize(s: string): nat {
    if s == [] then 0 else CharSize(s[0]) + BodySize(s[1..])
  }

  function StringSize(s: string): nat {
    2 + BodySize(s)
  }

  /** A value at nesting depth d: brackets, and a line with its indent for each item and for the closing bracket. */
  function SizeAt(v: Json, d: nat): nat
    decreases v
  {
    match v
    case Raw(text) => |text|
    case Str(s) => StringSize(s)
    case Arr(items) => if items == [] then 2 else 2 + ItemsSize(items, d + 1) + |items| - 1 + 1 + 2 * d
    case Obj(members) => if members == [] then 2 else 2 + MembersSize(members, d + 1) + |members| - 1 + 1 + 2 * d
  }

  function ItemsSize(items: seq<Json>, d: nat): nat
    decreases items
  {
    if items == [] then 0 else 1 + 2 * d + SizeAt(items[0], d) + ItemsSize(items[1..], d)
  }

  function MembersSize(members: seq<Member>, d: nat): nat
    decreases members
  {
    if members == [] then 0
    else 1 + 2 * d + StringSize(members[0].key) + 2 + SizeAt(members[0].value, d) + MembersSize(members[1..], d)
  }

  function Size(members: seq<Member>): nat {
    SizeAt(Obj(members), 0)
  }

  lemma {:induction false} MembersSizeAppend(xs: seq<Member>, ys: seq<Member>, d: nat)
    ensures MembersSize(xs + ys, d) == MembersSize(xs, d) + MembersSize(ys, d)
  {
    if xs == [] {
      assert xs + ys == ys;
    } else {
      assert (xs + ys)[1..] == xs[1..] + ys;
      MembersSizeAppend(xs[1..], ys, d);
    }
  }

  /** A new key always makes the text longer. */
  lemma NewKeyGrows(members: seq<Member>, key: string, value: Json)
    requires Get(members, key).None?
    ensures Size(members) < Size(Put(members, key, value))
  {
    PutNewAppends(members, key, value);
    MembersSizeAppend(members, [Member(key, value)], 1);
  }
}
