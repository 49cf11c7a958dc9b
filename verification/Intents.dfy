/** Creating an intent, and creating it again (apps/api/src/service.ts, packages/db/src/repository.ts). */
module Intents {
  import opened Prelude
  import opened Json
  import opened StableJson

  datatype Request = Request(metadata: Json, expectedCells: Json)

  predicate ProperRequest(r: Request) {
    Proper(r.metadata) && Proper(r.expectedCells)
  }

  predicate SameRequest(a: Request, b: Request) {
    Meaning(a.metadata) == Meaning(b.metadata) && Meaning(a.expectedCells) == Meaning(b.expectedCells)
  }

  /** The column type may reorder the members of an object, and changes nothing else. */
  ghost predicate KeepsMeaning(column: Json -> Json) {
    forall j :: Proper(j) ==> Proper(column(j)) && Meaning(column(j)) == Meaning(j)
  }

  /** The comparison of keys tells all keys of the input's objects apart. */
  ghost predicate TieFree(cmp: Compare, r: Request) {
    NoTies(cmp, Meaning(r.metadata)) && NoTies(cmp, Meaning(r.expectedCells))
  }

  predicate SameTexts(cmp: Compare, a: Request, b: Request) {
    Stable(cmp, a.metadata) == Stable(cmp, b.metadata) && Stable(cmp, a.expectedCells) == Stable(cmp, b.expectedCells)
  }

  lemma SameTextsMeanSameRequest(cmp: Compare, a: Request, b: Request)
    requires Consistent(cmp) && ProperRequest(a) && ProperRequest(b)
    ensures SameTexts(cmp, a, b) ==> SameRequest(a, b)
    ensures TieFree(cmp, b) && SameRequest(a, b) ==> SameTexts(cmp, a, b)
  {
    if SameTexts(cmp, a, b) {
      UnequalNeverShareText(cmp, a.metadata, b.metadata);
      UnequalNeverShareText(cmp, a.expectedCells, b.expectedCells);
    }
    if TieFree(cmp, b) && SameRequest(a, b) {
      StableTextIsTheMeaning(cmp, b.metadata, a.metadata);
      StableTextIsTheMeaning(cmp, b.expectedCells, a.expectedCells);
    }
  }

  datatype Created = Created | Existing | Conflict

  class IntentTable {
    const cmp: Compare
    const column: Json -> Json
    var rows: map<string, Request>

    ghost predicate Valid()
      reads this
    {
      && Consistent(cmp) && KeepsMeaning(column)
      && forall id :: id in rows ==> ProperRequest(rows[id])
    }

    constructor (cmp: Compare, column: Json -> Json)
      requires Consistent(cmp) && KeepsMeaning(column)
      ensures Valid() && rows == map[] && this.cmp == cmp && this.column == column
    {
      this.cmp, this.column, rows := cmp, column, map[];
    }

    /**
     * Creating an intent again never changes it. Different input always conflicts; the same input, in any key order, never
     * does, as long as the comparison ties no two keys in it.
     */
    method CreateIntent(id: string, r: Request) returns (result: Created)
      requires Valid() && ProperRequest(r)
      modifies this`rows
      ensures Valid()
      ensures result.Created? <==> id !in old(rows)
      ensures id in old(rows) && !SameRequest(old(rows)[id], r) ==> result.Conflict?
      ensures TieFree(cmp, r) ==> (result.Conflict? <==> id in old(rows) && !SameRequest(old(rows)[id], r))
      ensures id in rows && rows - {id} == old(rows) - {id}
      ensures if result.Created? then SameRequest(rows[id], r) else rows == old(rows)
    {
      if id !in rows {
        rows := rows[id := Request(column(r.metadata), column(r.expectedCells))];
        return Created.Created;
      }
      SameTextsMeanSameRequest(cmp, rows[id], r);
      if !SameTexts(cmp, rows[id], r) {
        return Conflict;
      }
      return Existing;
    }
  }

  /** A second creation conflicts whenever its input differs from the first one's in more than key order, and else only for ties. */
  method CreateTwice(table: IntentTable, id: string, first: Request, second: Request) returns (result: Created)
    requires table.Valid() && id !in table.rows && ProperRequest(first) && ProperRequest(second)
    modifies table
    ensures !SameRequest(first, second) ==> result.Conflict?
    ensures TieFree(table.cmp, second) ==> (result.Conflict? <==> !SameRequest(first, second))
    ensures !result.Created?
  {
    var _ := table.CreateIntent(id, first);
    result := table.CreateIntent(id, second);
  }
}
