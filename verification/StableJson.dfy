/**
 * The stable text of a JSON value (apps/api/src/service.ts): members in the order of a key comparison, at every depth.
 * The comparison is the platform's; what the text promises depends on whether it tells all keys apart.
 */
module StableJson {
  import opened Prelude
  import opened Json

  type Compare = (string, string) -> int

  /** A comparison Array.prototype.sort may be given. */
  ghost predicate Consistent(cmp: Compare) {
    && (forall a, b :: cmp(a, b) <= 0 <==> cmp(b, a) >= 0)
    && (forall a, b, c :: cmp(a, b) <= 0 && cmp(b, c) <= 0 ==> cmp(a, c) <= 0)
  }

  /** Sorting is stable: a member goes before the first later one that is strictly greater. */
  function Insert(cmp: Compare, m: Member, sorted: seq<Member>): seq<Member> {
    if sorted == [] || cmp(m.key, sorted[0].key) <= 0 then [m] + sorted
    else [sorted[0]] + Insert(cmp, m, sorted[1..])
  }

  function SortMembers(cmp: Compare, members: seq<Member>): seq<Member> {
    if members == [] then [] else Insert(cmp, members[0], SortMembers(cmp, members[1..]))
  }

  function Normalize(cmp: Compare, j: Json): Json
    decreases j, 0
  {
    match j
    case Array(items) => Array(NormalizeItems(cmp, items))
    case Object(members) => Object(SortMembers(cmp, NormalizeMembers(cmp, members)))
    case _ => j
  }

  function NormalizeItems(cmp: Compare, items: seq<Json>): seq<Json>
    decreases items, 1
  {
    if items == [] then [] else [Normalize(cmp, items[0])] + NormalizeItems(cmp, items[1..])
  }

  function NormalizeMembers(cmp: Compare, members: seq<Member>): seq<Member>
    decreases members, 1
  {
    if members == [] then []
    else [Member(members[0].key, Normalize(cmp, members[0].value))] + NormalizeMembers(cmp, members[1..])
  }

  function Stable(cmp: Compare, j: Json): string {
    Render(Normalize(cmp, j))
  }

  // ---- What a value means ------------------------------------------------------------------------------------------

  /** A value whose objects are maps: the order of members is gone. */
  datatype Value =
    | VNull
    | VBool(value: bool)
    | VNumber(digits: NumberText)
    | VText(text: string)
    | VArray(items: seq<Value>)
    | VObject(members: map<string, Value>)

  function Meaning(j: Json): Value
    decreases j, 0
  {
    match j
    case Null => VNull
    case Bool(b) => VBool(b)
    case Number(digits) => VNumber(digits)
    case Text(text) => VText(text)
    case Array(items) => VArray(MeaningOfItems(items))
    case Object(members) => VObject(MeaningOfMembers(members))
  }

  function MeaningOfItems(items: seq<Json>): seq<Value>
    decreases items, 1
  {
    if items == [] then [] else [Meaning(items[0])] + MeaningOfItems(items[1..])
  }

  function MeaningOfMembers(members: seq<Member>): map<string, Value>
    decreases members, 1
  {
    if members == [] then map[] else MeaningOfMembers(members[1..])[members[0].key := Meaning(members[0].value)]
  }

  /** No object in the value has two keys that the comparison ties. */
  ghost predicate NoTies(cmp: Compare, v: Value) {
    match v
    case VArray(items) => forall i :: 0 <= i < |items| ==> NoTies(cmp, items[i])
    case VObject(members) =>
      && (forall k, l :: k in members && l in members && cmp(k, l) == 0 ==> k == l)
      && (forall k :: k in members ==> NoTies(cmp, members[k]))
    case _ => true
  }

  /** Keys of one object differ, at every depth. */
  predicate Proper(j: Json)
    decreases j, 0
  {
    match j
    case Array(items) => ProperItems(items)
    case Object(members) => ProperMembers(members)
    case _ => true
  }

  predicate ProperItems(items: seq<Json>)
    decreases items, 1
  {
    items == [] || (Proper(items[0]) && ProperItems(items[1..]))
  }

  predicate ProperMembers(members: seq<Member>)
    decreases members, 1
  {
    members == []
    || (Proper(members[0].value) && ProperMembers(members[1..]) && !HasKey(members[1..], members[0].key))
  }

  predicate HasKey(members: seq<Member>, key: string) {
    exists i :: 0 <= i < |members| && members[i].key == key
  }

  lemma {:induction false} KeysOfMeaning(members: seq<Member>, key: string)
    ensures key in MeaningOfMembers(members) <==> HasKey(members, key)
  {
    if members != [] {
      KeysOfMeaning(members[1..], key);
      HasKeyCons(members[0], members[1..], key);
      assert [members[0]] + members[1..] == members;
    }
  }

  lemma HasKeyCons(m: Member, rest: seq<Member>, key: string)
    ensures HasKey([m] + rest, key) <==> m.key == key || HasKey(rest, key)
  {
    var all := [m] + rest;
    if m.key == key {
      assert all[0].key == key;
    }
    if i :| 0 <= i < |rest| && rest[i].key == key {
      assert all[i + 1].key == key;
    }
  }

  // ---- Sorting keeps the meaning -----------------------------------------------------------------------------------

  lemma {:induction false} InsertKeepsKeys(cmp: Compare, m: Member, sorted: seq<Member>, key: string)
    ensures HasKey(Insert(cmp, m, sorted), key) <==> key == m.key || HasKey(sorted, key)
  {
    if sorted == [] || cmp(m.key, sorted[0].key) <= 0 {
      HasKeyCons(m, sorted, key);
    } else {
      InsertKeepsKeys(cmp, m, sorted[1..], key);
      HasKeyCons(sorted[0], Insert(cmp, m, sorted[1..]), key);
      assert sorted == [sorted[0]] + sorted[1..];
      HasKeyCons(sorted[0], sorted[1..], key);
    }
  }

  lemma {:induction false} InsertKeeps(cmp: Compare, m: Member, sorted: seq<Member>)
    requires ProperMembers(sorted) && Proper(m.value) && !HasKey(sorted, m.key)
    ensures ProperMembers(Insert(cmp, m, sorted))
    ensures MeaningOfMembers(Insert(cmp, m, sorted)) == MeaningOfMembers(sorted)[m.key := Meaning(m.value)]
  {
    var after := Insert(cmp, m, sorted);
    if sorted == [] || cmp(m.key, sorted[0].key) <= 0 {
      assert after[1..] == sorted;
    } else {
      var head, rest := sorted[0], sorted[1..];
      assert sorted == [head] + rest;
      HasKeyCons(head, rest, m.key);
      HasKeyCons(head, rest, head.key);
      InsertKeeps(cmp, m, rest);
      InsertKeepsKeys(cmp, m, rest, head.key);
      assert after[1..] == Insert(cmp, m, rest);
    }
  }

  lemma {:induction false} SortKeeps(cmp: Compare, members: seq<Member>)
    requires ProperMembers(members)
    ensures ProperMembers(SortMembers(cmp, members))
    ensures MeaningOfMembers(SortMembers(cmp, members)) == MeaningOfMembers(members)
    ensures forall key :: HasKey(SortMembers(cmp, members), key) <==> HasKey(members, key)
  {
    if members != [] {
      SortKeeps(cmp, members[1..]);
      InsertKeeps(cmp, members[0], SortMembers(cmp, members[1..]));
      forall key
        ensures HasKey(SortMembers(cmp, members), key) <==> HasKey(members, key)
      {
        assert members == [members[0]] + members[1..];
        HasKeyCons(members[0], members[1..], key);
        InsertKeepsKeys(cmp, members[0], SortMembers(cmp, members[1..]), key);
      }
    }
  }

  lemma {:induction false} NormalizeKeepsMeaning(cmp: Compare, j: Json)
    requires Proper(j)
    ensures Proper(Normalize(cmp, j)) && Meaning(Normalize(cmp, j)) == Meaning(j)
    decreases j, 0
  {
    match j
    case Array(items) => NormalizeItemsKeeps(cmp, items);
    case Object(members) =>
      NormalizeMembersKeeps(cmp, members);
      SortKeeps(cmp, NormalizeMembers(cmp, members));
    case _ =>
  }

  lemma {:induction false} NormalizeItemsKeeps(cmp: Compare, items: seq<Json>)
    requires ProperItems(items)
    ensures ProperItems(NormalizeItems(cmp, items)) && MeaningOfItems(NormalizeItems(cmp, items)) == MeaningOfItems(items)
    decreases items, 1
  {
    if items != [] {
      NormalizeKeepsMeaning(cmp, items[0]);
      NormalizeItemsKeeps(cmp, items[1..]);
      assert NormalizeItems(cmp, items)[1..] == NormalizeItems(cmp, items[1..]);
    }
  }

  lemma {:induction false} NormalizeMembersKeeps(cmp: Compare, members: seq<Member>)
    requires ProperMembers(members)
    ensures var after := NormalizeMembers(cmp, members);
            && ProperMembers(after) && MeaningOfMembers(after) == MeaningOfMembers(members)
            && (forall key :: HasKey(after, key) <==> HasKey(members, key))
    decreases members, 1
  {
    if members != [] {
      var head, rest := Member(members[0].key, Normalize(cmp, members[0].value)), NormalizeMembers(cmp, members[1..]);
      NormalizeKeepsMeaning(cmp, members[0].value);
      NormalizeMembersKeeps(cmp, members[1..]);
      assert NormalizeMembers(cmp, members)[1..] == rest;
      forall key
        ensures HasKey([head] + rest, key) <==> HasKey(members, key)
      {
        assert members == [members[0]] + members[1..];
        HasKeyCons(members[0], members[1..], key);
        HasKeyCons(head, rest, key);
      }
    }
  }

  // ---- Sorted values with one meaning are one value ----------------------------------------------------------------

  predicate SortedKeys(cmp: Compare, members: seq<Member>) {
    forall i, j :: 0 <= i < j < |members| ==> cmp(members[i].key, members[j].key) <= 0
  }

  predicate Ordered(cmp: Compare, j: Json)
    decreases j, 0
  {
    match j
    case Array(items) => OrderedItems(cmp, items)
    case Object(members) => SortedKeys(cmp, members) && OrderedMembers(cmp, members)
    case _ => true
  }

  predicate OrderedItems(cmp: Compare, items: seq<Json>)
    decreases items, 1
  {
    items == [] || (Ordered(cmp, items[0]) && OrderedItems(cmp, items[1..]))
  }

  predicate OrderedMembers(cmp: Compare, members: seq<Member>)
    decreases members, 1
  {
    members == [] || (Ordered(cmp, members[0].value) && OrderedMembers(cmp, members[1..]))
  }

  lemma {:induction false} InsertKeepsOrdered(cmp: Compare, m: Member, sorted: seq<Member>)
    requires OrderedMembers(cmp, sorted) && Ordered(cmp, m.value)
    ensures OrderedMembers(cmp, Insert(cmp, m, sorted))
  {
    if sorted == [] || cmp(m.key, sorted[0].key) <= 0 {
      assert ([m] + sorted)[1..] == sorted;
    } else {
      InsertKeepsOrdered(cmp, m, sorted[1..]);
      assert Insert(cmp, m, sorted)[1..] == Insert(cmp, m, sorted[1..]);
    }
  }

  predicate AllAtLeast(cmp: Compare, key: string, members: seq<Member>) {
    forall k :: 0 <= k < |members| ==> cmp(key, members[k].key) <= 0
  }

  lemma SortedCons(cmp: Compare, m: Member, rest: seq<Member>)
    requires SortedKeys(cmp, rest) && AllAtLeast(cmp, m.key, rest)
    ensures SortedKeys(cmp, [m] + rest)
  {
  }

  lemma {:induction false} InsertSorts(cmp: Compare, m: Member, sorted: seq<Member>, low: string)
    requires Consistent(cmp) && SortedKeys(cmp, sorted)
    ensures SortedKeys(cmp, Insert(cmp, m, sorted))
    ensures AllAtLeast(cmp, low, sorted) && cmp(low, m.key) <= 0 ==> AllAtLeast(cmp, low, Insert(cmp, m, sorted))
  {
    if sorted == [] || cmp(m.key, sorted[0].key) <= 0 {
      assert AllAtLeast(cmp, m.key, sorted);
      SortedCons(cmp, m, sorted);
    } else {
      var head, rest := sorted[0], sorted[1..];
      assert AllAtLeast(cmp, head.key, rest);
      InsertSorts(cmp, m, rest, head.key);
      SortedCons(cmp, head, Insert(cmp, m, rest));
      if AllAtLeast(cmp, low, sorted) && cmp(low, m.key) <= 0 {
        assert AllAtLeast(cmp, low, rest);
        InsertSorts(cmp, m, rest, low);
      }
    }
  }

  lemma {:induction false} SortSorts(cmp: Compare, members: seq<Member>)
    requires Consistent(cmp) && OrderedMembers(cmp, members)
    ensures SortedKeys(cmp, SortMembers(cmp, members)) && OrderedMembers(cmp, SortMembers(cmp, members))
  {
    if members != [] {
      SortSorts(cmp, members[1..]);
      InsertSorts(cmp, members[0], SortMembers(cmp, members[1..]), members[0].key);
      InsertKeepsOrdered(cmp, members[0], SortMembers(cmp, members[1..]));
    }
  }

  lemma {:induction false} NormalizeOrders(cmp: Compare, j: Json)
    requires Consistent(cmp)
    ensures Ordered(cmp, Normalize(cmp, j))
    decreases j, 0
  {
    match j
    case Array(items) => NormalizeItemsOrders(cmp, items);
    case Object(members) =>
      NormalizeMembersOrders(cmp, members);
      SortSorts(cmp, NormalizeMembers(cmp, members));
    case _ =>
  }

  lemma {:induction false} NormalizeItemsOrders(cmp: Compare, items: seq<Json>)
    requires Consistent(cmp)
    ensures OrderedItems(cmp, NormalizeItems(cmp, items))
    decreases items, 1
  {
    if items != [] {
      NormalizeOrders(cmp, items[0]);
      NormalizeItemsOrders(cmp, items[1..]);
      assert NormalizeItems(cmp, items)[1..] == NormalizeItems(cmp, items[1..]);
    }
  }

  lemma {:induction false} NormalizeMembersOrders(cmp: Compare, members: seq<Member>)
    requires Consistent(cmp)
    ensures OrderedMembers(cmp, NormalizeMembers(cmp, members))
    decreases members, 1
  {
    if members != [] {
      NormalizeOrders(cmp, members[0].value);
      NormalizeMembersOrders(cmp, members[1..]);
      assert NormalizeMembers(cmp, members)[1..] == NormalizeMembers(cmp, members[1..]);
    }
  }

  lemma {:induction false} OrderedIsCanonical(cmp: Compare, a: Json, b: Json)
    requires Consistent(cmp) && NoTies(cmp, Meaning(a))
    requires Proper(a) && Proper(b) && Ordered(cmp, a) && Ordered(cmp, b) && Meaning(a) == Meaning(b)
    ensures a == b
    decreases a, 0
  {
    match a
    case Array(items) => OrderedItemsAreCanonical(cmp, items, b.items);
    case Object(members) => OrderedMembersAreCanonical(cmp, members, b.members);
    case _ =>
  }

  lemma {:induction false} OrderedItemsAreCanonical(cmp: Compare, a: seq<Json>, b: seq<Json>)
    requires Consistent(cmp) && NoTies(cmp, VArray(MeaningOfItems(a)))
    requires ProperItems(a) && ProperItems(b) && OrderedItems(cmp, a) && OrderedItems(cmp, b)
    requires MeaningOfItems(a) == MeaningOfItems(b)
    ensures a == b
    decreases a, 1
  {
    if a != [] {
      assert MeaningOfItems(a)[0] == MeaningOfItems(b)[0];
      assert MeaningOfItems(a)[1..] == MeaningOfItems(b)[1..];
      assert forall i :: 0 <= i < |MeaningOfItems(a[1..])| ==> MeaningOfItems(a[1..])[i] == MeaningOfItems(a)[i + 1];
      OrderedIsCanonical(cmp, a[0], b[0]);
      OrderedItemsAreCanonical(cmp, a[1..], b[1..]);
      assert a == [a[0]] + a[1..] && b == [b[0]] + b[1..];
    } else {
      assert b == [];
    }
  }

  /** The least key comes first in both. */
  lemma SameFirstKey(cmp: Compare, a: seq<Member>, b: seq<Member>)
    requires Consistent(cmp) && NoTies(cmp, VObject(MeaningOfMembers(a)))
    requires a != [] && b != [] && SortedKeys(cmp, a) && SortedKeys(cmp, b)
    requires MeaningOfMembers(a).Keys == MeaningOfMembers(b).Keys
    ensures a[0].key == b[0].key
  {
    KeysOfMeaning(a, a[0].key);
    KeysOfMeaning(b, a[0].key);
    KeysOfMeaning(a, b[0].key);
    KeysOfMeaning(b, b[0].key);
    assert a[0].key in MeaningOfMembers(a) && b[0].key in MeaningOfMembers(b);
    assert a[0].key in MeaningOfMembers(b).Keys && b[0].key in MeaningOfMembers(a).Keys;
    var i :| 0 <= i < |b| && b[i].key == a[0].key;
    var j :| 0 <= j < |a| && a[j].key == b[0].key;
    assert cmp(b[0].key, a[0].key) <= 0 && cmp(a[0].key, b[0].key) <= 0;
  }

  lemma OnlyEmptyMeansNothing(members: seq<Member>)
    ensures MeaningOfMembers(members) == map[] <==> members == []
  {
    if members != [] {
      assert members[0].key in MeaningOfMembers(members);
    }
  }

  lemma FirstMeaning(members: seq<Member>)
    requires members != [] && ProperMembers(members)
    ensures members[0].key in MeaningOfMembers(members)
    ensures MeaningOfMembers(members)[members[0].key] == Meaning(members[0].value)
    ensures MeaningOfMembers(members) - {members[0].key} == MeaningOfMembers(members[1..])
  {
    KeysOfMeaning(members[1..], members[0].key);
  }

  lemma SameHeadAndTail(a: seq<Member>, b: seq<Member>)
    requires a != [] && b != [] && ProperMembers(a) && ProperMembers(b)
    requires MeaningOfMembers(a) == MeaningOfMembers(b) && a[0].key == b[0].key
    ensures Meaning(a[0].value) == Meaning(b[0].value)
    ensures MeaningOfMembers(a[1..]) == MeaningOfMembers(b[1..])
  {
    FirstMeaning(a);
    FirstMeaning(b);
  }

  lemma NoTiesTail(cmp: Compare, a: seq<Member>)
    requires a != [] && ProperMembers(a) && NoTies(cmp, VObject(MeaningOfMembers(a)))
    ensures NoTies(cmp, Meaning(a[0].value)) && NoTies(cmp, VObject(MeaningOfMembers(a[1..])))
  {
    FirstMeaning(a);
    var all, rest := MeaningOfMembers(a), MeaningOfMembers(a[1..]);
    assert forall k :: k in rest ==> k in all && all[k] == rest[k];
  }

  lemma ConsEqual(a: seq<Member>, b: seq<Member>)
    requires a != [] && b != [] && a[0] == b[0] && a[1..] == b[1..]
    ensures a == b
  {
    assert a == [a[0]] + a[1..] && b == [b[0]] + b[1..];
  }

  lemma {:induction false} OrderedMembersAreCanonical(cmp: Compare, a: seq<Member>, b: seq<Member>)
    requires Consistent(cmp) && NoTies(cmp, VObject(MeaningOfMembers(a)))
    requires ProperMembers(a) && ProperMembers(b) && SortedKeys(cmp, a) && SortedKeys(cmp, b)
    requires OrderedMembers(cmp, a) && OrderedMembers(cmp, b)
    requires MeaningOfMembers(a) == MeaningOfMembers(b)
    ensures a == b
    decreases a, 1
  {
    OnlyEmptyMeansNothing(a);
    OnlyEmptyMeansNothing(b);
    if a != [] {
      SameFirstKey(cmp, a, b);
      SameHeadAndTail(a, b);
      NoTiesTail(cmp, a);
      OrderedIsCanonical(cmp, a[0].value, b[0].value);
      OrderedMembersAreCanonical(cmp, a[1..], b[1..]);
      ConsEqual(a, b);
    }
  }

  // ---- What the stable text promises -------------------------------------------------------------------------------

  /** While no object ties two keys, another value has the same text if and only if it differs at most in key order. */
  lemma StableTextIsTheMeaning(cmp: Compare, a: Json, b: Json)
    requires Consistent(cmp) && Proper(a) && Proper(b) && NoTies(cmp, Meaning(a))
    ensures Stable(cmp, a) == Stable(cmp, b) <==> Meaning(a) == Meaning(b)
  {
    NormalizeKeepsMeaning(cmp, a);
    NormalizeKeepsMeaning(cmp, b);
    NormalizeOrders(cmp, a);
    NormalizeOrders(cmp, b);
    RenderIsInjective(Normalize(cmp, a), Normalize(cmp, b));
    if Meaning(a) == Meaning(b) {
      OrderedIsCanonical(cmp, Normalize(cmp, a), Normalize(cmp, b));
    }
  }

  /** Whatever the comparison, values that mean something different never share a stable text. */
  lemma UnequalNeverShareText(cmp: Compare, a: Json, b: Json)
    requires Proper(a) && Proper(b) && Stable(cmp, a) == Stable(cmp, b)
    ensures Meaning(a) == Meaning(b)
  {
    NormalizeKeepsMeaning(cmp, a);
    NormalizeKeepsMeaning(cmp, b);
    RenderIsInjective(Normalize(cmp, a), Normalize(cmp, b));
  }
}
