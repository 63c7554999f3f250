/** The task store client: the `download_tasks` table of the external record
    store, seen through the one call the service makes on it,
    `table('download_tasks').update(fields).eq('id', task_id).execute()`.
    The network client itself is not modelled: a write either reaches the
    store or fails, and which one happens is an input. */
module TaskStore {

  /** A column value as the service writes it: text (status names, URLs,
      error messages, ISO-8601 timestamps) or an integer (progress). */
  datatype Value = Text(s: string) | Int(n: int)

  /** The columns of `download_tasks`: the six the service writes
      (`status`, `progress`, `file_url`, `error_message`, `updated_at`,
      `completed_at`) and any other column of the table, by name. */
  datatype Column = Status | Progress | FileUrl | ErrorMessage | UpdatedAt | CompletedAt
                  | Other(name: string)

  /** One row of the table, column to value; an absent column is NULL. */
  type Record = map<Column, Value>

  /** The column dictionary handed to `update`. */
  type Patch = map<Column, Value>

  /** The table, keyed by its `id` column. */
  type Table = map<string, Record>

  /** Timestamps are the text of `datetime.now().isoformat()`; the model
      never looks inside them. */
  type Timestamp = string

  /** One `update(fields).eq('id', id)` call, and whether it reached the store. */
  datatype Write = Write(id: string, fields: Patch, lands: bool)

  /** The effect of one update that reaches the store: the row whose id is
      `id` takes the columns of `fields` and keeps its other columns; every
      other row is untouched; an id with no row matches nothing. */
  function UpdateRows(rows: Table, id: string, fields: Patch): (r: Table)
    ensures r.Keys == rows.Keys
    ensures forall k :: k in rows && k != id ==> r[k] == rows[k]
    ensures id in rows ==> r[id].Keys == rows[id].Keys + fields.Keys
    ensures id in rows ==> forall c :: c in fields ==> r[id][c] == fields[c]
    ensures id in rows ==> forall c :: c in rows[id] && c !in fields ==> r[id][c] == rows[id][c]
    ensures id !in rows ==> r == rows
  {
    if id in rows then rows[id := rows[id] + fields] else rows
  }

  /** One logged write: a failed write changes nothing. */
  function Step(rows: Table, w: Write): (r: Table)
    ensures r.Keys == rows.Keys
    ensures forall k :: k in rows && k != w.id ==> r[k] == rows[k]
    ensures !w.lands ==> r == rows
  {
    if w.lands then UpdateRows(rows, w.id, w.fields) else rows
  }

  /** The table after the writes `ws`, in order. Updates never add or
      remove a row. */
  function Replay(rows: Table, ws: seq<Write>): (r: Table)
    ensures r.Keys == rows.Keys
    decreases |ws|
  {
    if ws == [] then rows else Replay(Step(rows, ws[0]), ws[1..])
  }

  /** The columns a write sets if it lands: none if it fails. */
  function Effect(w: Write): Patch
  {
    if w.lands then w.fields else map[]
  }

  /** The columns that the landed writes of `ws` set, later writes winning. */
  function Landed(ws: seq<Write>): Patch
    decreases |ws|
  {
    if ws == [] then map[] else Effect(ws[0]) + Landed(ws[1..])
  }

  /** Laying patches over a row in turn is laying their union over it. */
  lemma MergeAssoc(a: Record, b: Patch, c: Patch)
    ensures a + (b + c) == (a + b) + c
  {
  }

  /** A single write contributes its effect. */
  lemma LandedOne(a: Write)
    ensures Landed([a]) == Effect(a)
  {
  }

  /** Two writes in order: the second wins where both set a column. */
  lemma LandedTwo(a: Write, b: Write)
    ensures Landed([a, b]) == Effect(a) + Effect(b)
  {
    assert [a, b][1..] == [b];
    LandedOne(b);
  }

  /** Writes that set only columns of `cols` lay only columns of `cols`. */
  lemma {:induction false} LandedWithin(ws: seq<Write>, cols: set<Column>)
    requires forall i :: 0 <= i < |ws| ==> ws[i].fields.Keys <= cols
    ensures Landed(ws).Keys <= cols
    decreases |ws|
  {
    if ws != [] {
      LandedWithin(ws[1..], cols);
    }
  }

  /** A write appended to a log lays its columns over those of the writes
      before it. */
  lemma {:induction false} LandedSnoc(ws: seq<Write>, w: Write)
    ensures Landed(ws + [w]) == Landed(ws) + Effect(w)
    decreases |ws|
  {
    if ws == [] {
      assert ws + [w] == [w];
      LandedOne(w);
      assert map[] + Effect(w) == Effect(w);
    } else {
      assert (ws + [w])[0] == ws[0];
      assert (ws + [w])[1..] == ws[1..] + [w];
      LandedSnoc(ws[1..], w);
      MergeAssoc(Effect(ws[0]), Landed(ws[1..]), Effect(w));
    }
  }

  /** Replaying two logs one after the other is replaying their concatenation. */
  lemma {:induction false} ReplayAppend(rows: Table, a: seq<Write>, b: seq<Write>)
    ensures Replay(rows, a + b) == Replay(Replay(rows, a), b)
    decreases |a|
  {
    if a == [] {
      assert a + b == b;
    } else {
      assert (a + b)[0] == a[0];
      assert (a + b)[1..] == a[1..] + b;
      ReplayAppend(Step(rows, a[0]), a[1..], b);
    }
  }

  /** Writes that all name `id` leave every other row as it was, never add or
      remove a row, and do nothing at all when no row has that id. */
  lemma {:induction false} ReplayScoped(rows: Table, ws: seq<Write>, id: string)
    requires forall i :: 0 <= i < |ws| ==> ws[i].id == id
    ensures Replay(rows, ws).Keys == rows.Keys
    ensures forall k :: k in rows && k != id ==> Replay(rows, ws)[k] == rows[k]
    ensures id !in rows ==> Replay(rows, ws) == rows
    decreases |ws|
  {
    if ws != [] {
      ReplayScoped(Step(rows, ws[0]), ws[1..], id);
    }
  }

  /** Writes that all name `id` turn its row into the old row overwritten by
      the columns of the landed writes, the last write of a column winning. */
  lemma {:induction false} ReplayRow(rows: Table, ws: seq<Write>, id: string)
    requires forall i :: 0 <= i < |ws| ==> ws[i].id == id
    requires id in rows
    ensures id in Replay(rows, ws)
    ensures Replay(rows, ws)[id] == rows[id] + Landed(ws)
    decreases |ws|
  {
    if ws == [] {
      assert rows[id] + map[] == rows[id];
    } else {
      var next := Step(rows, ws[0]);
      assert next[id] == rows[id] + Effect(ws[0]);
      ReplayRow(next, ws[1..], id);
      MergeAssoc(rows[id], Effect(ws[0]), Landed(ws[1..]));
    }
  }

  /** The store handle. `rows` is the remote table; the ghost fields record
      the table as it was when the handle was made and every update sent
      through it, landed or not, so that the table is always the replay of
      that log. */
  class Store {
    var rows: Table
    ghost const initial: Table
    ghost var log: seq<Write>

    ghost predicate Valid()
      reads this
    {
      rows == Replay(initial, log)
    }

    constructor (rows: Table)
      ensures Valid() && this.rows == rows && initial == rows && log == []
    {
      this.rows := rows;
      initial := rows;
      log := [];
    }

    /** `update(fields).eq('id', id).execute()`; `fails` says whether the
        call raises (network failure, store unavailable). A raising call
        leaves the table unchanged; one that reaches the store changes the
        matching row only. */
    method Update(id: string, fields: Patch, fails: bool) returns (ok: bool)
      requires Valid()
      modifies this
      ensures Valid()
      ensures ok == !fails
      ensures log == old(log) + [Write(id, fields, ok)]
      ensures rows == Step(old(rows), Write(id, fields, ok))
    {
      ok := !fails;
      var w := Write(id, fields, ok);
      ReplayAppend(initial, log, [w]);
      rows := Step(rows, w);
      log := log + [w];
    }
  }
}
