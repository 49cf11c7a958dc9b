/** The exact condition for the stable text to be free of key order: no object in the value has two keys that tie. */
module KeyTies {
  import opened Prelude
  import opened Json
  import opened StableJson

  // ---- The order in which members stand ----------------------------------------------------------------------------

  predicate Precedes(members: seq<Member>, k: string, l: string) {
    exists i, j :: 0 <= i < j < |members| && members[i].key == k && members[j].key == l
  }

  predicate DistinctKeys(members: seq<Member>) {
    forall i, j :: 0 <= i < j < |members| ==> members[i].key != members[j].key
  }

  lemma {:induction false} ProperKeysDiffer(members: seq<Member>)
    requires ProperMembers(members)
    ensures DistinctKeys(members)
  {
    if members != [] {
      ProperKeysDiffer(members[1..]);
      assert forall j :: 0 < j < |members| ==> members[j] == members[1..][j - 1];
    }
  }

  lemma NotBothOrders(members: seq<Member>, k: string, l: string)
    requires DistinctKeys(members) && k != l
    ensures !(Precedes(members, k, l) && Precedes(members, l, k))
  {
  }

  lemma PrecedesInRest(m: Member, rest: seq<Member>, k: string, l: string)
    ensures Precedes([m] + rest, k, l) <==> (m.key == k && HasKey(rest, l)) || Precedes(rest, k, l)
  {
    var all := [m] + rest;
    if i, j :| 0 <= i < j < |all| && all[i].key == k && all[j].key == l {
      assert all[j] == rest[j - 1];
      if i > 0 {
        assert all[i] == rest[i - 1];
      }
    }
    if j :| 0 <= j < |rest| && rest[j].key == l && m.key == k {
      assert all[0].key == k && all[j + 1].key == l;
    }
    if i, j :| 0 <= i < j < |rest| && rest[i].key == k && rest[j].key == l {
      assert all[i + 1].key == k && all[j + 1].key == l;
    }
  }

  lemma EitherOrder(members: seq<Member>, k: string, l: string)
    requires HasKey(members, k) && HasKey(members, l) && k != l
    ensures Precedes(members, k, l) || Precedes(members, l, k)
  {
    var i :| 0 <= i < |members| && members[i].key == k;
    var j :| 0 <= j < |members| && members[j].key == l;
  }

  lemma {:induction false} InsertPrecedes(cmp: Compare, m: Member, sorted: seq<Member>, k: string, l: string)
    ensures Precedes(sorted, k, l) ==> Precedes(Insert(cmp, m, sorted), k, l)
    ensures m.key == k && HasKey(sorted, l) && cmp(k, l) <= 0 ==> Precedes(Insert(cmp, m, sorted), k, l)
  {
    if sorted == [] || cmp(m.key, sorted[0].key) <= 0 {
      PrecedesInRest(m, sorted, k, l);
    } else {
      var head, rest := sorted[0], sorted[1..];
      assert sorted == [head] + rest;
      InsertPrecedes(cmp, m, rest, k, l);
      PrecedesInRest(head, rest, k, l);
      PrecedesInRest(head, Insert(cmp, m, rest), k, l);
      InsertKeepsKeys(cmp, m, rest, l);
      HasKeyCons(head, rest, l);
    }
  }

  lemma {:induction false} SortKeepsKeys(cmp: Compare, members: seq<Member>, key: string)
    ensures HasKey(SortMembers(cmp, members), key) <==> HasKey(members, key)
  {
    if members != [] {
      SortKeepsKeys(cmp, members[1..], key);
      InsertKeepsKeys(cmp, members[0], SortMembers(cmp, members[1..]), key);
      assert members == [members[0]] + members[1..];
      HasKeyCons(members[0], members[1..], key);
    }
  }

  /** Sorting is stable: tied keys keep the order in which they stand. */
  lemma {:induction false} SortPrecedes(cmp: Compare, members: seq<Member>, k: string, l: string)
    requires Precedes(members, k, l) && cmp(k, l) <= 0
    ensures Precedes(SortMembers(cmp, members), k, l)
  {
    var head, rest := members[0], members[1..];
    assert members == [head] + rest;
    PrecedesInRest(head, rest, k, l);
    InsertPrecedes(cmp, head, SortMembers(cmp, rest), k, l);
    if head.key == k && HasKey(rest, l) {
      SortKeepsKeys(cmp, rest, l);
    } else {
      SortPrecedes(cmp, rest, k, l);
    }
  }

  lemma {:induction false} NormalizeKeepsOrder(cmp: Compare, members: seq<Member>)
    ensures |NormalizeMembers(cmp, members)| == |members|
    ensures forall i :: 0 <= i < |members| ==> NormalizeMembers(cmp, members)[i].key == members[i].key
  {
    if members != [] {
      NormalizeKeepsOrder(cmp, members[1..]);
    }
  }

  // ---- The same members, the other way round -----------------------------------------------------------------------

  function Reverse(members: seq<Member>): seq<Member> {
    if members == [] then [] else Reverse(members[1..]) + [members[0]]
  }

  lemma {:induction false} ReverseAt(members: seq<Member>)
    ensures |Reverse(members)| == |members|
    ensures forall i :: 0 <= i < |members| ==> Reverse(members)[|members| - 1 - i] == members[i]
  {
    if members != [] {
      ReverseAt(members[1..]);
    }
  }

  lemma ReversePrecedes(members: seq<Member>, k: string, l: string)
    requires Precedes(members, k, l)
    ensures Precedes(Reverse(members), l, k)
  {
    ReverseAt(members);
    var i, j :| 0 <= i < j < |members| && members[i].key == k && members[j].key == l;
    var r, n := Reverse(members), |members| - 1;
    assert r[n - j].key == l && r[n - i].key == k;
  }

  lemma {:induction false} AppendMember(members: seq<Member>, m: Member)
    requires ProperMembers(members) && Proper(m.value) && !HasKey(members, m.key)
    ensures ProperMembers(members + [m])
    ensures MeaningOfMembers(members + [m]) == MeaningOfMembers(members)[m.key := Meaning(m.value)]
    ensures forall key :: HasKey(members + [m], key) <==> key == m.key || HasKey(members, key)
  {
    if members == [] {
      assert members + [m] == [m] + [];
      forall key ensures HasKey([m] + [], key) <==> key == m.key || HasKey([], key) { HasKeyCons(m, [], key); }
      assert [m][1..] == [];
    } else {
      var head, rest := members[0], members[1..];
      assert members == [head] + rest && members + [m] == [head] + (rest + [m]) && (members + [m])[1..] == rest + [m];
      HasKeyCons(head, rest, m.key);
      HasKeyCons(head, rest, head.key);
      AppendMember(rest, m);
      forall key
        ensures HasKey(members + [m], key) <==> key == m.key || HasKey(members, key)
      {
        HasKeyCons(head, rest, key);
        HasKeyCons(head, rest + [m], key);
      }
    }
  }

  lemma {:induction false} ReverseKeeps(members: seq<Member>)
    requires ProperMembers(members)
    ensures ProperMembers(Reverse(members)) && MeaningOfMembers(Reverse(members)) == MeaningOfMembers(members)
    ensures forall key :: HasKey(Reverse(members), key) <==> HasKey(members, key)
  {
    if members != [] {
      var head, rest := members[0], members[1..];
      assert members == [head] + rest;
      ReverseKeeps(rest);
      AppendMember(Reverse(rest), head);
      forall key
        ensures HasKey(members, key) <==> key == head.key || HasKey(rest, key)
      {
        HasKeyCons(head, rest, key);
      }
    }
  }

  /** Two tied keys of one object stand in the order of the input, so the reversed object has another text. */
  lemma ReversedDiffers(cmp: Compare, members: seq<Member>, k: string, l: string)
    requires ProperMembers(members) && Precedes(members, k, l) && k != l && cmp(k, l) <= 0 && cmp(l, k) <= 0
    ensures SortMembers(cmp, NormalizeMembers(cmp, members)) != SortMembers(cmp, NormalizeMembers(cmp, Reverse(members)))
  {
    var a, b := NormalizeMembers(cmp, members), NormalizeMembers(cmp, Reverse(members));
    NormalizeKeepsOrder(cmp, members);
    NormalizeKeepsOrder(cmp, Reverse(members));
    ReversePrecedes(members, k, l);
    SamePrecedes(members, a, k, l);
    SamePrecedes(Reverse(members), b, l, k);
    SortPrecedes(cmp, a, k, l);
    SortPrecedes(cmp, b, l, k);
    NormalizeMembersKeeps(cmp, members);
    SortKeeps(cmp, a);
    ProperKeysDiffer(SortMembers(cmp, a));
    NotBothOrders(SortMembers(cmp, a), k, l);
  }

  lemma SamePrecedes(a: seq<Member>, b: seq<Member>, k: string, l: string)
    requires |a| == |b| && forall i :: 0 <= i < |a| ==> a[i].key == b[i].key
    requires Precedes(a, k, l)
    ensures Precedes(b, k, l)
  {
    var i, j :| 0 <= i < j < |a| && a[i].key == k && a[j].key == l;
    assert b[i].key == k && b[j].key == l;
  }

  // ---- What an object holds under its keys -------------------------------------------------------------------------

  function Fields(members: seq<Member>): map<string, Json> {
    if members == [] then map[] else Fields(members[1..])[members[0].key := members[0].value]
  }

  lemma {:induction false} FieldsHaveKeys(members: seq<Member>, key: string)
    ensures key in Fields(members) <==> HasKey(members, key)
  {
    if members != [] {
      FieldsHaveKeys(members[1..], key);
      assert [members[0]] + members[1..] == members;
      HasKeyCons(members[0], members[1..], key);
    }
  }

  lemma {:induction false} InsertKeepsFields(cmp: Compare, m: Member, sorted: seq<Member>)
    requires !HasKey(sorted, m.key)
    ensures Fields(Insert(cmp, m, sorted)) == Fields(sorted)[m.key := m.value]
  {
    if sorted == [] || cmp(m.key, sorted[0].key) <= 0 {
      assert ([m] + sorted)[1..] == sorted;
    } else {
      var head, rest := sorted[0], sorted[1..];
      assert sorted == [head] + rest;
      HasKeyCons(head, rest, m.key);
      InsertKeepsFields(cmp, m, rest);
      assert Insert(cmp, m, sorted)[1..] == Insert(cmp, m, rest);
    }
  }

  lemma {:induction false} SortKeepsFields(cmp: Compare, members: seq<Member>)
    requires ProperMembers(members)
    ensures Fields(SortMembers(cmp, members)) == Fields(members)
  {
    if members != [] {
      SortKeepsFields(cmp, members[1..]);
      SortKeepsKeys(cmp, members[1..], members[0].key);
      InsertKeepsFields(cmp, members[0], SortMembers(cmp, members[1..]));
    }
  }

  // ---- A value with a tie has a twin -------------------------------------------------------------------------------

  predicate Twins(cmp: Compare, a: Json, b: Json) {
    Proper(b) && Meaning(b) == Meaning(a) && Normalize(cmp, b) != Normalize(cmp, a)
  }

  lemma {:induction false} TiedHasTwin(cmp: Compare, a: Json) returns (b: Json)
    requires Consistent(cmp) && Proper(a) && !NoTies(cmp, Meaning(a))
    ensures Twins(cmp, a, b)
    decreases a, 0
  {
    match a
    case Array(items) =>
      var twin := TiedItemsHaveTwin(cmp, items);
      b := Array(twin);
    case Object(members) =>
      var m := MeaningOfMembers(members);
      if k, l :| k in m && l in m && cmp(k, l) == 0 && k != l {
        b := ReversedIsTwin(cmp, members, k, l);
      } else {
        var twin := TiedMembersHaveTwin(cmp, members);
        NormalizeMembersKeeps(cmp, members);
        NormalizeMembersKeeps(cmp, twin);
        SortKeepsFields(cmp, NormalizeMembers(cmp, members));
        SortKeepsFields(cmp, NormalizeMembers(cmp, twin));
        b := Object(twin);
      }
  }

  lemma ReversedIsTwin(cmp: Compare, members: seq<Member>, k: string, l: string) returns (b: Json)
    requires Consistent(cmp) && ProperMembers(members)
    requires k in MeaningOfMembers(members) && l in MeaningOfMembers(members) && k != l && cmp(k, l) == 0
    ensures Twins(cmp, Object(members), b)
  {
    KeysOfMeaning(members, k);
    KeysOfMeaning(members, l);
    EitherOrder(members, k, l);
    assert cmp(l, k) <= 0;
    if Precedes(members, k, l) {
      ReversedDiffers(cmp, members, k, l);
    } else {
      ReversedDiffers(cmp, members, l, k);
    }
    ReverseKeeps(members);
    b := Object(Reverse(members));
  }

  lemma {:induction false} TiedItemsHaveTwin(cmp: Compare, items: seq<Json>) returns (twin: seq<Json>)
    requires Consistent(cmp) && ProperItems(items) && !NoTies(cmp, VArray(MeaningOfItems(items)))
    ensures ProperItems(twin) && MeaningOfItems(twin) == MeaningOfItems(items)
    ensures NormalizeItems(cmp, twin) != NormalizeItems(cmp, items)
    decreases items, 1
  {
    if !NoTies(cmp, Meaning(items[0])) {
      var t := TiedHasTwin(cmp, items[0]);
      twin := [t] + items[1..];
      assert twin[1..] == items[1..];
      assert NormalizeItems(cmp, twin)[0] == Normalize(cmp, t) && NormalizeItems(cmp, items)[0] == Normalize(cmp, items[0]);
    } else {
      var all, later := MeaningOfItems(items), MeaningOfItems(items[1..]);
      assert all == [Meaning(items[0])] + later;
      var rest := TiedItemsHaveTwin(cmp, items[1..]);
      twin := [items[0]] + rest;
      assert twin[1..] == rest;
      assert NormalizeItems(cmp, twin)[1..] == NormalizeItems(cmp, rest);
      assert NormalizeItems(cmp, items)[1..] == NormalizeItems(cmp, items[1..]);
    }
  }

  lemma {:induction false} TiedMembersHaveTwin(cmp: Compare, members: seq<Member>) returns (twin: seq<Member>)
    requires Consistent(cmp) && ProperMembers(members)
    requires exists k :: k in MeaningOfMembers(members) && !NoTies(cmp, MeaningOfMembers(members)[k])
    ensures ProperMembers(twin) && MeaningOfMembers(twin) == MeaningOfMembers(members)
    ensures Fields(NormalizeMembers(cmp, twin)) != Fields(NormalizeMembers(cmp, members))
    decreases members, 1
  {
    var head, rest := members[0], members[1..];
    FirstMeaning(members);
    if !NoTies(cmp, Meaning(head.value)) {
      var t := TiedHasTwin(cmp, head.value);
      twin := [Member(head.key, t)] + rest;
      assert twin[1..] == rest;
      NormalizedField(cmp, twin);
      NormalizedField(cmp, members);
      assert Fields(NormalizeMembers(cmp, twin))[head.key] != Fields(NormalizeMembers(cmp, members))[head.key];
    } else {
      var twins := TiedMembersHaveTwin(cmp, rest);
      KeysOfMeaning(rest, head.key);
      KeysOfMeaning(twins, head.key);
      twin := [head] + twins;
      assert twin[1..] == twins;
      NormalizedField(cmp, twin);
      NormalizedField(cmp, members);
      assert Fields(NormalizeMembers(cmp, twin)) - {head.key} == Fields(NormalizeMembers(cmp, twins));
      assert Fields(NormalizeMembers(cmp, members)) - {head.key} == Fields(NormalizeMembers(cmp, rest));
    }
  }

  lemma NormalizedField(cmp: Compare, members: seq<Member>)
    requires members != [] && ProperMembers(members)
    ensures var all, rest := Fields(NormalizeMembers(cmp, members)), Fields(NormalizeMembers(cmp, members[1..]));
            && all == rest[members[0].key := Normalize(cmp, members[0].value)]
            && members[0].key !in rest
  {
    var n := NormalizeMembers(cmp, members);
    assert n[0] == Member(members[0].key, Normalize(cmp, members[0].value));
    assert n[1..] == NormalizeMembers(cmp, members[1..]);
    assert Fields(n) == Fields(n[1..])[n[0].key := n[0].value];
    NormalizeKeepsOrder(cmp, members[1..]);
    FieldsHaveKeys(NormalizeMembers(cmp, members[1..]), members[0].key);
  }

  // ---- The exact condition -----------------------------------------------------------------------------------------

  /** Every value that differs at most in key order has the same text. */
  ghost predicate OrderFree(cmp: Compare, a: Json) {
    forall b :: Proper(b) && Meaning(b) == Meaning(a) ==> Stable(cmp, b) == Stable(cmp, a)
  }

  /** A value's text is free of key order if and only if no object in it has two keys that the comparison ties. */
  lemma OrderFreeExactlyWhen(cmp: Compare, a: Json)
    requires Consistent(cmp) && Proper(a)
    ensures OrderFree(cmp, a) <==> NoTies(cmp, Meaning(a))
  {
    if NoTies(cmp, Meaning(a)) {
      forall b | Proper(b) && Meaning(b) == Meaning(a)
        ensures Stable(cmp, b) == Stable(cmp, a)
      {
        StableTextIsTheMeaning(cmp, a, b);
      }
    } else {
      var b := TiedHasTwin(cmp, a);
      RenderIsInjective(Normalize(cmp, a), Normalize(cmp, b));
    }
  }

  function Pair(first: string, second: string): Json {
    Object([Member(first, Null), Member(second, Null)])
  }

  lemma SingleMeaning(l: string)
    ensures ProperMembers([Member(l, Null)]) && MeaningOfMembers([Member(l, Null)]) == map[l := VNull]
    ensures forall key :: HasKey([Member(l, Null)], key) <==> key == l
  {
    var single := [Member(l, Null)];
    assert single[1..] == [] && MeaningOfMembers([]) == map[] && Proper(single[0].value);
    assert ProperMembers(single[1..]) && !HasKey(single[1..], l);
    assert single == [single[0]] + [];
    forall key
      ensures HasKey(single, key) <==> key == l
    {
      HasKeyCons(single[0], [], key);
    }
  }

  lemma PairMeaning(k: string, l: string)
    requires k != l
    ensures Proper(Pair(k, l)) && Meaning(Pair(k, l)) == VObject(map[k := VNull, l := VNull])
  {
    var members := [Member(k, Null), Member(l, Null)];
    SingleMeaning(l);
    assert members[1..] == [Member(l, Null)] && Proper(members[0].value);
    assert MeaningOfMembers(members) == map[l := VNull][k := VNull];
  }

  /** The smallest case: two members in either order keep one text exactly when the comparison tells their keys apart. */
  lemma KeyOrderMattersExactlyForTies(cmp: Compare, k: string, l: string)
    requires Consistent(cmp) && k != l
    ensures Proper(Pair(k, l)) && Proper(Pair(l, k)) && Meaning(Pair(k, l)) == Meaning(Pair(l, k))
    ensures Stable(cmp, Pair(k, l)) == Stable(cmp, Pair(l, k)) <==> cmp(k, l) != 0
  {
    PairMeaning(k, l);
    PairMeaning(l, k);
    if cmp(k, l) == 0 {
      var members := Pair(k, l).members;
      assert members[0].key == k && members[1].key == l;
      assert Precedes(members, k, l) && cmp(l, k) <= 0;
      ReversedDiffers(cmp, members, k, l);
      PairReversed(k, l);
      RenderIsInjective(Normalize(cmp, Pair(k, l)), Normalize(cmp, Pair(l, k)));
    } else {
      assert cmp(l, k) != 0;
      StableTextIsTheMeaning(cmp, Pair(k, l), Pair(l, k));
    }
  }

  lemma PairReversed(k: string, l: string)
    ensures Reverse(Pair(k, l).members) == Pair(l, k).members
  {
    ReverseAt(Pair(k, l).members);
  }
}
