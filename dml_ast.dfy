/**
 * The backend-neutral DML statements the planners produce and the dialects
 * render: insert, update, delete and upsert, over columns (SQL) or paths
 * (documents), each with its bind.
 */
module DmlAst {
  import opened Wrappers
  import opened Values
  import opened QueryAst

  datatype InsertAst = InsertAst(table: string, columns: seq<ColumnBind>, returningColumns: seq<string>)

  datatype UpdateAst = UpdateAst(table: string, sets: seq<ColumnBind>, where: Option<Element>)

  datatype DeleteAst = DeleteAst(table: string, where: Option<Element>)

  datatype UpsertAst = UpsertAst(insert: InsertAst, conflictColumns: seq<string>, updateColumns: seq<string>)

  datatype Dml =
    | Insert(ins: InsertAst)
    | Update(upd: UpdateAst)
    | Delete(del: DeleteAst)
    | Upsert(ups: UpsertAst)
}
