/** The `requests` table and the SQL statements run against it (requests/requests.go).
    Each statement is one atomic step; the protocol built on them is in RequestProtocol. */
module RequestTable {
  import opened Wrappers

  type ReqId = string

  datatype Kind = VmStart | VmStop | VmDelete | NicClone | DiskWipe | Unknown

  /** `obj` is the object id text in the JSON payload, None when it does not unmarshal;
      `newName` is the name a NIC clone is to get. */
  datatype Row = Row(kind: Kind, obj: Option<string>, newName: string, started: bool, complete: bool, successful: bool)

  type Rows = map<ReqId, Row>

  datatype Error = InvalidRequest | CreateFailure

  predicate ValidVmReqType(kind: Kind) {
    kind in {VmStart, VmStop, VmDelete}
  }

  predicate ValidDiskReqType(kind: Kind) {
    kind == DiskWipe
  }

  predicate Names(row: Row, objId: string) {
    row.kind != Unknown && row.obj == Some(objId)
  }

  /** Request `id` is incomplete and concerns `objId`. */
  predicate PendingFor(rows: Rows, id: ReqId, objId: string) {
    id in rows && !rows[id].complete && Names(rows[id], objId)
  }

  function NewRow(kind: Kind, objId: string, newName: string): Row {
    Row(kind, Some(objId), newName, false, false, false)
  }

  function MarkStarted(rows: Rows, id: ReqId): Rows
    requires id in rows
  {
    rows[id := rows[id].(started := true)]
  }

  function MarkSucceeded(rows: Rows, id: ReqId): Rows
    requires id in rows
  {
    rows[id := rows[id].(complete := true, successful := true)]
  }

  /** gorm writes only the non-zero fields of the update, so `successful` is left alone. */
  function MarkFailed(rows: Rows, id: ReqId): Rows
    requires id in rows
  {
    rows[id := rows[id].(complete := true)]
  }

  function MarkAllComplete(rows: Rows): Rows {
    map id | id in rows :: rows[id].(complete := true)
  }

  /** What the statements mean to the two kinds of reader. Starting a request takes it, and
      nothing else, away from the dispatcher and no pending check can tell; completing it
      takes it, and nothing else, out of every pending check and the dispatcher cannot tell. */
  lemma MarksAndReaders(rows: Rows, id: ReqId, other: ReqId, objId: string)
    requires id in rows
    ensures PendingFor(MarkStarted(rows, id), other, objId) <==> PendingFor(rows, other, objId)
    ensures PendingFor(MarkSucceeded(rows, id), other, objId) <==> other != id && PendingFor(rows, other, objId)
    ensures PendingFor(MarkFailed(rows, id), other, objId) <==> other != id && PendingFor(rows, other, objId)
    ensures Unstarted(MarkStarted(rows, id), other) <==> other != id && Unstarted(rows, other)
    ensures Unstarted(MarkSucceeded(rows, id), other) <==> Unstarted(rows, other)
    ensures Unstarted(MarkFailed(rows, id), other) <==> Unstarted(rows, other)
    ensures MarkSucceeded(rows, id)[id].successful && MarkSucceeded(rows, id)[id].complete
    ensures MarkFailed(rows, id)[id].complete && MarkFailed(rows, id)[id].successful == rows[id].successful
    ensures !PendingFor(MarkAllComplete(rows), other, objId)
    ensures Unstarted(MarkAllComplete(rows), other) <==> Unstarted(rows, other)
  {
  }

  predicate OthersSame(before: Rows, after: Rows, id: ReqId) {
    after.Keys == before.Keys && forall other :: other in before && other != id ==> after[other] == before[other]
  }

  predicate Unstarted(rows: Rows, id: ReqId) {
    id in rows && !rows[id].started
  }

  class Table {
    var rows: Rows

    constructor ()
      ensures rows == map[]
    {
      rows := map[];
    }

    /** `parses` is the verdict of the UUID library, `fresh` the generated row id and
        `stored` whether the INSERT went through. */
    method CreateVmReq(kind: Kind, vmId: string, parses: bool, newId: ReqId, stored: bool)
      returns (r: Result<ReqId, Error>)
      requires newId !in rows
      modifies this
      ensures r.Ok? <==> vmId != "" && parses && kind in {VmStart, VmStop, VmDelete} && stored
      ensures r.Ok? ==> r.value == newId && rows == old(rows)[newId := Row(kind, Some(vmId), "", false, false, false)]
      ensures r.Err? ==> rows == old(rows)
    {
      if vmId == "" || !parses || !ValidVmReqType(kind) {
        return Err(InvalidRequest);
      }
      if !stored {
        return Err(CreateFailure);
      }
      rows := rows[newId := NewRow(kind, vmId, "")];
      return Ok(newId);
    }

    method CreateDiskReq(kind: Kind, diskId: string, parses: bool, newId: ReqId, stored: bool)
      returns (r: Result<ReqId, Error>)
      requires newId !in rows
      modifies this
      ensures r.Ok? <==> diskId != "" && parses && kind == DiskWipe && stored
      ensures r.Ok? ==> r.value == newId && rows == old(rows)[newId := Row(kind, Some(diskId), "", false, false, false)]
      ensures r.Err? ==> rows == old(rows)
    {
      if diskId == "" || !parses || !ValidDiskReqType(kind) {
        return Err(InvalidRequest);
      }
      if !stored {
        return Err(CreateFailure);
      }
      rows := rows[newId := NewRow(kind, diskId, "")];
      return Ok(newId);
    }

    /** `nameOk` is the verdict on the clone's name. */
    method CreateNicCloneReq(nicId: string, newName: string, parses: bool, nameOk: bool, newId: ReqId, stored: bool)
      returns (r: Result<ReqId, Error>)
      requires newId !in rows
      modifies this
      ensures r.Ok? <==> nicId != "" && parses && nameOk && stored
      ensures r.Ok? ==>
                r.value == newId && rows == old(rows)[newId := Row(NicClone, Some(nicId), newName, false, false, false)]
      ensures r.Err? ==> rows == old(rows)
    {
      if nicId == "" || !parses || !nameOk {
        return Err(InvalidRequest);
      }
      if !stored {
        return Err(CreateFailure);
      }
      rows := rows[newId := NewRow(NicClone, nicId, newName)];
      return Ok(newId);
    }

    /** `LIMIT 1` with no ORDER BY: any row without a start time may come back. */
    method GetUnstarted() returns (r: Option<ReqId>)
      ensures r.Some? ==> r.value in rows && !rows[r.value].started
      ensures r.None? ==> forall id :: id in rows ==> rows[id].started
    {
      if id :| id in rows && !rows[id].started {
        return Some(id);
      }
      return None;
    }

    /** The pending requests for an object, each once, in the order the SELECT returned. */
    method PendingReqExists(objId: string) returns (ids: seq<ReqId>)
      ensures forall id :: id in ids <==>
                id in rows && !rows[id].complete && rows[id].obj == Some(objId) &&
                rows[id].kind in {VmStart, VmStop, VmDelete, NicClone, DiskWipe}
      ensures forall i, j :: 0 <= i < j < |ids| ==> ids[i] != ids[j]
    {
      ids := [];
      var incomplete := set id | id in rows && !rows[id].complete;
      var todo := incomplete;
      while todo != {}
        invariant todo <= incomplete
        invariant forall id :: id in ids <==> id in incomplete - todo && PendingFor(rows, id, objId)
        invariant forall i, j :: 0 <= i < j < |ids| ==> ids[i] != ids[j]
        decreases todo
      {
        var id :| id in todo;
        assert id !in ids;
        todo := todo - {id};
        match rows[id].kind {
          case Unknown =>
          case _ =>
            if rows[id].obj == Some(objId) {
              ids := ids + [id];
            }
        }
      }
    }

    method Start(id: ReqId)
      requires id in rows
      modifies this
      ensures rows == MarkStarted(old(rows), id)
      ensures rows[id] == old(rows)[id].(started := true) && OthersSame(old(rows), rows, id)
    {
      rows := rows[id := rows[id].(started := true)];
    }

    method Succeeded(id: ReqId)
      requires id in rows
      modifies this
      ensures rows == MarkSucceeded(old(rows), id)
      ensures rows[id] == old(rows)[id].(complete := true, successful := true) && OthersSame(old(rows), rows, id)
    {
      rows := rows[id := rows[id].(complete := true, successful := true)];
    }

    method Failed(id: ReqId)
      requires id in rows
      modifies this
      ensures rows == MarkFailed(old(rows), id)
      ensures rows[id] == old(rows)[id].(complete := true) && OthersSame(old(rows), rows, id)
    {
      rows := rows[id := rows[id].(complete := true)];
    }

    /** One UPDATE over every incomplete row, reporting how many it touched. */
    method FailAllPending() returns (affected: nat)
      modifies this
      ensures rows == MarkAllComplete(old(rows))
      ensures rows.Keys == old(rows).Keys && forall id :: id in rows ==> rows[id] == old(rows)[id].(complete := true)
      ensures affected == |set id | id in old(rows) && !old(rows)[id].complete|
    {
      var pending := set id | id in rows && !rows[id].complete;
      affected := |pending|;
      rows := map id | id in rows :: if id in pending then rows[id].(complete := true) else rows[id];
    }
  }
}
