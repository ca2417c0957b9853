/**
 * The `ritRouter` of api/router/rit.ts: five tRPC procedures over the `rit`
 * table. Each procedure first runs its zod input schema; a refused input is
 * answered with the list of issues and the table is not touched. The Prisma
 * table is a map from id to the five data columns.
 */
module RitRouter {
  import opened Wrappers
  import opened RitSchema

  /** Why a procedure call is rejected. */
  datatype RouterError =
    | BadInput(issues: seq<Issue>)   // the zod schema refused the input; the procedure body did not run
    | RecordNotFound(id: Id)         // Prisma found no row to update or delete

  /** Every id of the table has the shape `z.string().cuid()` checks for. */
  ghost predicate IdsAreCuids(rows: map<Id, RitData>) {
    forall id :: id in rows ==> IsCuid(id)
  }

  /**
   * On a table whose ids all came from `create`, every row can be reached:
   * its id passes the id check of `delete`, and together with any five valid
   * data values the input check of `updateCompletely`.
   */
  lemma EveryRowReachable(rows: map<Id, RitData>, id: Id, raw: RawInput)
    requires IdsAreCuids(rows) && id in rows
    ensures ValidateDeleteInput(raw.(id := Str(id))) == Success(id)
    ensures DataPresent(raw) ==> ValidateUpdateInput(raw.(id := Str(id))).Success?
    ensures DataPresent(raw) ==> ValidateUpdateInput(raw.(id := Str(id))).value.id == id
  {
  }

  /** The `rit` table behind the router. */
  class RitStore {
    var rows: map<Id, RitData>

    /** Every id in the table was generated as a cuid by `create`. */
    ghost predicate Valid()
      reads this
    {
      IdsAreCuids(rows)
    }

    constructor ()
      ensures Valid() && rows == map[]
    {
      rows := map[];
    }

    /** `getAll`: `findMany()`, every row of the table and nothing else. */
    method GetAll() returns (all: set<Rit>)
      ensures forall r :: r in all <==> r.id in rows && rows[r.id] == r.data
    {
      all := set id | id in rows :: Rit(id, rows[id]);
    }

    /**
     * `get`: `findUnique` by id. Any string id is accepted (there is no cuid
     * check here); an id with no row gives `null`, not an error.
     */
    method Get(raw: RawInput) returns (res: Result<Option<Rit>, RouterError>)
      ensures res.Success? <==> raw.id.Str?
      ensures res.Failure? ==> res.error == BadInput(ValidateGetInput(raw).error)
      ensures res.Success? ==> (res.value.Some? <==> raw.id.s in rows)
      ensures res.Success? && res.value.Some? ==> res.value.value == Rit(raw.id.s, rows[raw.id.s])
    {
      var v := ValidateGetInput(raw);
      if v.Failure? {
        return Failure(BadInput(v.error));
      }
      var id := v.value;
      if id in rows {
        res := Success(Some(Rit(id, rows[id])));
      } else {
        res := Success(None);
      }
    }

    /**
     * `create`: validates a date and four integers, then inserts one row
     * under a fresh cuid and returns it. Nothing else in the table changes.
     */
    method Create(raw: RawInput) returns (res: Result<Rit, RouterError>)
      requires Valid()
      modifies this
      ensures Valid()
      ensures res.Success? <==> DataPresent(raw)
      ensures res.Failure? ==> res.error == BadInput(DataIssues(raw)) && rows == old(rows)
      ensures res.Success? ==> res.value.id !in old(rows) && IsCuid(res.value.id)
      ensures res.Success? ==> Carries(raw, res.value.data)
      ensures res.Success? ==> rows == old(rows)[res.value.id := res.value.data]
      ensures res.Success? ==> |rows| == |old(rows)| + 1
    {
      var v := ValidateCreateInput(raw);
      if v.Failure? {
        return Failure(BadInput(v.error));
      }
      FreshCuidExists(rows.Keys);
      var id :| IsCuid(id) && id !in rows;
      rows := rows[id := v.value];
      res := Success(Rit(id, v.value));
    }

    /**
     * `updateCompletely`: validates a cuid-shaped id and all five data keys,
     * splits the id off and overwrites the five columns of that row. The id of
     * the row and every other row stay as they were. Returns no value.
     */
    method UpdateCompletely(raw: RawInput) returns (res: Result<(), RouterError>)
      requires Valid()
      modifies this
      ensures Valid()
      ensures res.Success? <==> CuidPresent(raw.id) && DataPresent(raw) && raw.id.s in old(rows)
      ensures !ValidateUpdateInput(raw).Success? ==>
                res == Failure(BadInput(ValidateUpdateInput(raw).error))
      ensures ValidateUpdateInput(raw).Success? && raw.id.s !in old(rows) ==>
                res == Failure(RecordNotFound(raw.id.s))
      ensures res.Failure? ==> rows == old(rows)
      ensures res.Success? ==> rows.Keys == old(rows).Keys && Carries(raw, rows[raw.id.s])
      ensures res.Success? ==> forall id :: id in rows && id != raw.id.s ==> rows[id] == old(rows)[id]
    {
      var v := ValidateUpdateInput(raw);
      if v.Failure? {
        return Failure(BadInput(v.error));
      }
      var id, rest := v.value.id, v.value.data;
      if id !in rows {
        return Failure(RecordNotFound(id));
      }
      rows := rows[id := rest];
      res := Success(());
    }

    /** `delete`: validates a cuid-shaped id, removes that row and returns it. */
    method Delete(raw: RawInput) returns (res: Result<Rit, RouterError>)
      requires Valid()
      modifies this
      ensures Valid()
      ensures res.Success? <==> CuidPresent(raw.id) && raw.id.s in old(rows)
      ensures !CuidPresent(raw.id) ==> res == Failure(BadInput(CuidIssues(IdField, raw.id)))
      ensures CuidPresent(raw.id) && raw.id.s !in old(rows) ==> res == Failure(RecordNotFound(raw.id.s))
      ensures res.Failure? ==> rows == old(rows)
      ensures res.Success? ==> res.value == Rit(raw.id.s, old(rows)[raw.id.s])
      ensures res.Success? ==> rows == old(rows) - {raw.id.s} && |rows| == |old(rows)| - 1
    {
      var v := ValidateDeleteInput(raw);
      if v.Failure? {
        return Failure(BadInput(v.error));
      }
      var id := v.value;
      if id !in rows {
        return Failure(RecordNotFound(id));
      }
      res := Success(Rit(id, rows[id]));
      rows := rows - {id};
    }
  }

  /**
   * A sequence of calls on a new table, as the renderer makes them: what
   * `create` returns is the one record `getAll` lists and the record `get`
   * finds, a full update is read back under the same id, and after `delete`
   * `get` finds nothing.
   */
  method CrudRoundTrip(input: RawInput, update: RawInput)
      returns (created: Rit, listed: set<Rit>, found: Option<Rit>, updated: Option<Rit>, afterDelete: Option<Rit>)
    requires DataPresent(input) && DataPresent(update)
    ensures Carries(input, created.data) && IsCuid(created.id)
    ensures listed == {created}
    ensures found == Some(created)
    ensures updated.Some? && updated.value.id == created.id && Carries(update, updated.value.data)
    ensures afterDelete == None
  {
    var store := new RitStore();
    var c := store.Create(input);
    created := c.value;
    var key := Str(created.id);

    listed := store.GetAll();
    assert listed == {created};

    var g := store.Get(input.(id := key));
    found := g.value;

    var u := store.UpdateCompletely(update.(id := key));
    assert u.Success?;
    var g2 := store.Get(input.(id := key));
    updated := g2.value;

    var d := store.Delete(RawInput(key, Missing, Missing, Missing, Missing, Missing));
    assert d.Success? && Carries(update, d.value.data);
    var g3 := store.Get(input.(id := key));
    afterDelete := g3.value;
  }
}
