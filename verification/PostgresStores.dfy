/** The Postgres proposal store (crates/securedeploy-infra/src/postgres.rs): the
    visible statements' effect on a table keyed by a signed 64-bit id. */
module PostgresStores {
  import opened Machine
  import opened Domain

  /** `x as i64`. */
  function AsI64(x: u64): i64 {
    if x <= I64_MAX then x else x - 0x1_0000_0000_0000_0000
  }

  /** `x as u64`. */
  function AsU64(x: i64): u64 {
    if x >= 0 then x else x + 0x1_0000_0000_0000_0000
  }

  datatype Row = Row(
    id: i64,
    programId: string,
    buildHash: string,
    proposer: string,
    eta: i64,
    approvals: int,
    threshold: int,
    status: string,
    createdAt: i64)

  function StatusStr(s: ProposalStatus): string {
    match s
    case Pending => "pending"
    case Approved => "approved"
    case Executed => "executed"
    case Cancelled => "cancelled"
  }

  function ParseStatus(s: string): ProposalStatus {
    if s == "approved" then Approved
    else if s == "executed" then Executed
    else if s == "cancelled" then Cancelled
    else Pending
  }

  /** The INSERT's VALUES. */
  function ToRow(r: ProposalRecord): Row {
    Row(AsI64(r.id), r.programId, r.buildHash, r.proposer, r.eta, r.approvals, r.threshold, StatusStr(r.status),
        r.createdAt)
  }

  /** `map_row`; the counters are read back with `as u8`. */
  function MapRow(row: Row): ProposalRecord {
    ProposalRecord(AsU64(row.id), row.programId, row.buildHash, row.proposer, row.eta,
                   row.approvals % 0x100, row.threshold % 0x100, ParseStatus(row.status), row.createdAt)
  }

  type Table = map<i64, Row>

  ghost predicate KeyedByRowId(t: Table) {
    forall id :: id in t ==> t[id].id == id
  }

  /** INSERT .. ON CONFLICT (id) DO UPDATE SET approvals, status. */
  function UpsertRow(t: Table, r: ProposalRecord): Table {
    var row := ToRow(r);
    if row.id in t then t[row.id := t[row.id].(approvals := row.approvals, status := row.status)] else t[row.id := row]
  }

  function GetRow(t: Table, id: u64): Option<ProposalRecord> {
    if AsI64(id) in t then Some(MapRow(t[AsI64(id)])) else None
  }

  /** SELECT * .. ORDER BY id: every row once, in increasing signed id. */
  ghost predicate IsRowListing(t: Table, l: seq<Row>) {
    && |l| == |t|
    && (forall i, j :: 0 <= i < j < |l| ==> l[i].id < l[j].id)
    && forall i :: 0 <= i < |l| ==> l[i].id in t && t[l[i].id] == l[i]
  }

  /** A record survives the row encoding unchanged. */
  lemma RowRoundTrip(r: ProposalRecord)
    ensures MapRow(ToRow(r)) == r
  {
    assert ParseStatus(StatusStr(r.status)) == r.status by {
      assert "approved" != "pending" && "approved" != "executed" && "approved" != "cancelled";
      assert "executed"[0] == 'e' && "cancelled"[0] == 'c' && "pending"[0] == 'p' && "approved"[0] == 'a';
    }
  }

  /** What a conflicting upsert can be trusted with: it stores the whole record
      exactly when the record differs from the stored one in nothing but the
      counter and the status. */
  lemma UpsertOverwritesExactly(t: Table, r: ProposalRecord)
    requires KeyedByRowId(t) && AsI64(r.id) in t
    ensures GetRow(UpsertRow(t, r), r.id) == Some(r)
            <==> r == GetRow(t, r.id).value.(approvals := r.approvals, status := r.status)
  {
    RowRoundTrip(r);
    var before, after := t[AsI64(r.id)], UpsertRow(t, r)[AsI64(r.id)];
    assert MapRow(after) == MapRow(before).(approvals := r.approvals, status := r.status);
  }

  /** The status column of a row, as the schema spells it. */
  ghost predicate StatusColumn(row: Row, status: ProposalStatus) {
    && (row.status == "pending" <==> status.Pending?)
    && (row.status == "approved" <==> status.Approved?)
    && (row.status == "executed" <==> status.Executed?)
    && (row.status == "cancelled" <==> status.Cancelled?)
  }

  /** The id column holds the id as a two's-complement 64-bit number. */
  ghost predicate IdColumn(row: Row, id: u64) {
    row.id == id || row.id == id - 0x1_0000_0000_0000_0000
  }

  /** Every column of a row holds the field of the record it is named after. */
  ghost predicate Columns(row: Row, r: ProposalRecord) {
    && IdColumn(row, r.id)
    && row.programId == r.programId && row.buildHash == r.buildHash && row.proposer == r.proposer
    && row.eta == r.eta && row.approvals == r.approvals && row.threshold == r.threshold
    && StatusColumn(row, r.status) && row.createdAt == r.createdAt
  }

  lemma StatusSpelt(s: ProposalStatus)
    ensures s.Pending? ==> StatusStr(s) == "pending"
    ensures s.Approved? ==> StatusStr(s) == "approved"
    ensures s.Executed? ==> StatusStr(s) == "executed"
    ensures s.Cancelled? ==> StatusStr(s) == "cancelled"
  {
  }

  /** The four status texts are told apart by their first character. */
  lemma StatusTextsDiffer(text: string)
    requires text == "pending" || text == "approved" || text == "executed" || text == "cancelled"
    ensures text == "pending" <==> text[0] == 'p'
    ensures text == "approved" <==> text[0] == 'a'
    ensures text == "executed" <==> text[0] == 'e'
    ensures text == "cancelled" <==> text[0] == 'c'
  {
  }

  lemma StatusWritten(row: Row, s: ProposalStatus)
    requires row.status == StatusStr(s)
    ensures StatusColumn(row, s)
  {
    StatusSpelt(s);
    StatusTextsDiffer(row.status);
  }

  /** Every field of the record in the column named after it. */
  lemma RowColumns(r: ProposalRecord)
    ensures Columns(ToRow(r), r)
  {
    StatusWritten(ToRow(r), r.status);
  }

  /** What an upsert writes, in the row it writes: under a new id every field in its
      column; on conflict the two columns, the others as they were. No other row. */
  lemma UpsertColumns(t: Table, r: ProposalRecord) returns (id: i64)
    requires KeyedByRowId(t)
    ensures var after := UpsertRow(t, r);
            && id in after && after[id].id == id && IdColumn(after[id], r.id)
            && after == t[id := after[id]]
            && (id !in t ==> Columns(after[id], r))
            && (id in t ==>
                  && after[id] == t[id].(approvals := r.approvals, status := after[id].status)
                  && StatusColumn(after[id], r.status))
  {
    id := AsI64(r.id);
    RowColumns(r);
    if id in t {
      StatusWritten(UpsertRow(t, r)[id], r.status);
    }
  }

  class PgProposalStore {
    var rows: Table

    ghost predicate Valid()
      reads this
    {
      KeyedByRowId(rows)
    }

    constructor ()
      ensures Valid() && rows == map[]
    {
      rows := map[];
    }

    method Upsert(r: ProposalRecord)
      requires Valid()
      modifies this
      ensures Valid()
      ensures rows == UpsertRow(old(rows), r)
    {
      var row := ToRow(r);
      if row.id in rows {
        var stored := rows[row.id];
        stored := stored.(approvals := row.approvals);
        stored := stored.(status := row.status);
        rows := rows[row.id := stored];
      } else {
        rows := rows[row.id := row];
      }
    }

    method Get(id: u64) returns (r: Option<ProposalRecord>)
      ensures r == GetRow(rows, id)
    {
      if AsI64(id) in rows {
        r := Some(MapRow(rows[AsI64(id)]));
      } else {
        r := None;
      }
    }

    method Count() returns (n: nat)
      ensures n == |rows|
    {
      n := |rows|;
    }
  }
}
