/** Which NICs a VM has (vm/nic.go SetNics): unbind them all, validate the request, bind
    what it names. Reads and writes of the database may fail at any point. */
module NicAttach {
  import opened Wrappers
  import opened NicWiring
  import opened NetDevice
  import DiskAttach

  datatype Error =
    | NotStopped
    | Unbinding          // reading or saving the current NICs failed
    | Rejected           // validateNics refused the request
    | Binding            // a requested NIC could not be looked up as written, or saved

  type Vms = map<string, Vm>

  /** Configurations belong to one VM each, and zero to none. */
  predicate OwnConfigs(vms: Vms) {
    && (forall v :: v in vms ==> vms[v].configId != 0)
    && (forall v, w :: v in vms && w in vms && vms[v].configId == vms[w].configId ==> v == w)
  }

  /** NIC `id` is bound to some VM other than `vm`. */
  predicate Elsewhere(rows: Rows, vms: Vms, vm: string, id: string) {
    id in rows && exists w :: w in vms && w != vm && rows[id].configId == vms[w].configId
  }

  /** The rows once VM configuration `configId` has given up its NICs. */
  function Unbound(rows: Rows, configId: nat): Rows {
    map id | id in rows :: if rows[id].configId == configId then rows[id].(configId := 0) else rows[id]
  }

  /** The rows once the NICs named have gone to the configuration. */
  function Bound(rows: Rows, configId: nat, ids: seq<string>): Rows {
    map id | id in rows :: if id in ids then rows[id].(configId := configId) else rows[id]
  }

  function BoundTo(rows: Rows, configId: nat): set<string> {
    set id | id in rows && rows[id].configId == configId
  }

  /** `after` is `before` with other owners, but the NICs of other VMs keep theirs. */
  predicate OthersKept(before: Rows, after: Rows, vms: Vms, vm: string) {
    && after.Keys == before.Keys
    && (forall id :: id in before ==> after[id].(configId := 0) == before[id].(configId := 0))
    && (forall id :: id in before && Elsewhere(before, vms, vm, id) ==> after[id] == before[id])
    && (forall id :: id in before && Elsewhere(after, vms, vm, id) ==> after[id] == before[id])
  }

  lemma OthersKeptStep(before: Rows, rows: Rows, vms: Vms, vm: string, id: string, configId: nat)
    requires OwnConfigs(vms) && vm in vms && OthersKept(before, rows, vms, vm)
    requires id in rows && !Elsewhere(rows, vms, vm, id) && configId in {0, vms[vm].configId}
    ensures OthersKept(before, rows[id := rows[id].(configId := configId)], vms, vm)
  {
    var after := rows[id := rows[id].(configId := configId)];
    assert !Elsewhere(after, vms, vm, id);
  }

  /** A save; it may fail unless `dbOk`. */
  method TrySave(table: NicTable, nic: Nic, dbOk: bool) returns (ok: bool)
    modifies table
    ensures table.rows == if ok then old(table.rows)[nic.id := nic] else old(table.rows)
    ensures dbOk ==> ok
  {
    ok := Attempt(true, dbOk);
    if ok {
      table.Save(nic);
    }
  }

  /** removeAllNicsFromVM. */
  method UnbindAll(table: NicTable, vms: Vms, vm: string, dbOk: bool) returns (ok: bool)
    requires Keyed(table.rows) && OwnConfigs(vms) && vm in vms
    modifies table
    ensures Keyed(table.rows) && OthersKept(old(table.rows), table.rows, vms, vm)
    ensures Unbound(table.rows, vms[vm].configId) == Unbound(old(table.rows), vms[vm].configId)
    ensures ok ==> table.rows == Unbound(old(table.rows), vms[vm].configId)
    ensures dbOk ==> ok
  {
    var readable := Attempt(true, dbOk);
    if !readable {
      return false;
    }
    var nics := table.GetNics(vms[vm].configId);
    for i := 0 to |nics|
      invariant Keyed(table.rows) && OthersKept(old(table.rows), table.rows, vms, vm)
      invariant StillBound(table.rows, vms[vm].configId, nics[i..])
      invariant Unbound(table.rows, vms[vm].configId) == Unbound(old(table.rows), vms[vm].configId)
    {
      assert nics[i..][0] == nics[i] && nics[i..][1..] == nics[i + 1..];
      var nic := nics[i];
      assert nic in nics[i..];
      OthersKeptStep(old(table.rows), table.rows, vms, vm, nic.id, 0);
      StillBoundStep(table.rows, vms[vm].configId, nics[i..]);
      UnboundStep(table.rows, vms[vm].configId, nic);
      ok := TrySave(table, nic.(configId := 0), dbOk);
      if !ok {
        return;
      }
    }
    UnboundEnd(table.rows, vms[vm].configId);
    return true;
  }

  /** The NICs of the configuration are those of the list, each once, as they stand. */
  ghost predicate StillBound(rows: Rows, configId: nat, nics: seq<Nic>) {
    && (forall n :: n in nics <==> exists id :: id in rows && rows[id] == n && n.configId == configId)
    && (forall i, j :: 0 <= i < j < |nics| ==> nics[i].id != nics[j].id)
  }

  lemma UnboundStep(rows: Rows, configId: nat, nic: Nic)
    requires configId != 0 && nic.id in rows && rows[nic.id] == nic && nic.configId == configId
    ensures Unbound(rows[nic.id := nic.(configId := 0)], configId) == Unbound(rows, configId)
  {
  }

  lemma UnboundEnd(rows: Rows, configId: nat)
    requires StillBound(rows, configId, [])
    ensures Unbound(rows, configId) == rows
    ensures BoundTo(rows, configId) == {}
  {
    forall id | id in rows
      ensures rows[id].configId != configId
    {
      assert rows[id] !in [];
    }
  }

  lemma StillBoundStep(rows: Rows, configId: nat, nics: seq<Nic>)
    requires Keyed(rows) && configId != 0 && nics != [] && StillBound(rows, configId, nics)
    ensures nics[0].id in rows && rows[nics[0].id] == nics[0]
    ensures StillBound(rows[nics[0].id := nics[0].(configId := 0)], configId, nics[1..])
  {
    var first := nics[0];
    assert first in nics;
    var after := rows[first.id := first.(configId := 0)];
    assert forall n :: n in nics[1..] ==> n in nics && n.id != first.id;
    assert forall n :: n in nics ==> n == first || n in nics[1..];
    forall n
      ensures n in nics[1..] <==> exists id :: id in after && after[id] == n && n.configId == configId
    {
      if n in nics[1..] {
        assert after[n.id] == n;
      }
    }
  }

  /** The checks on the i-th id; `valid` stands for Validate. */
  predicate Passes(rows: Rows, vms: Vms, vm: string, ids: seq<string>, i: nat,
                   parse: DiskAttach.Parser, valid: Nic -> bool)
    requires i < |ids|
  {
    && parse(ids[i]).Some? && parse(ids[i]).value in rows && valid(rows[parse(ids[i]).value])
    && ids[i] !in ids[..i]
    && !Elsewhere(rows, vms, vm, ids[i])
  }

  predicate AllPass(rows: Rows, vms: Vms, vm: string, ids: seq<string>, parse: DiskAttach.Parser, valid: Nic -> bool) {
    forall i :: 0 <= i < |ids| ==> Passes(rows, vms, vm, ids, i, parse, valid)
  }

  /** All of them name NICs that are there and valid, none is given twice, and none is bound to
      another VM. */
  predicate Acceptable(rows: Rows, vms: Vms, vm: string, ids: seq<string>, parse: DiskAttach.Parser,
                       valid: Nic -> bool)
  {
    && (forall i :: 0 <= i < |ids| ==>
          parse(ids[i]).Some? && parse(ids[i]).value in rows && valid(rows[parse(ids[i]).value]))
    && (forall i, j :: 0 <= i < j < |ids| ==> ids[i] != ids[j])
    && (forall i, w :: 0 <= i < |ids| && ids[i] in rows && w in vms && w != vm ==>
          rows[ids[i]].configId != vms[w].configId)
  }

  lemma AcceptableExactly(rows: Rows, vms: Vms, vm: string, ids: seq<string>, parse: DiskAttach.Parser,
                          valid: Nic -> bool)
    ensures AllPass(rows, vms, vm, ids, parse, valid) <==> Acceptable(rows, vms, vm, ids, parse, valid)
  {
    if AllPass(rows, vms, vm, ids, parse, valid) {
      forall i, j | 0 <= i < j < |ids|
        ensures ids[i] != ids[j]
      {
        assert Passes(rows, vms, vm, ids, j, parse, valid) && ids[..j][i] == ids[i];
      }
      forall i, w | 0 <= i < |ids| && ids[i] in rows && w in vms && w != vm
        ensures rows[ids[i]].configId != vms[w].configId
      {
        assert Passes(rows, vms, vm, ids, i, parse, valid);
      }
      forall i | 0 <= i < |ids|
        ensures parse(ids[i]).Some? && parse(ids[i]).value in rows && valid(rows[parse(ids[i]).value])
      {
        assert Passes(rows, vms, vm, ids, i, parse, valid);
      }
    }
    if Acceptable(rows, vms, vm, ids, parse, valid) {
      forall i | 0 <= i < |ids|
        ensures Passes(rows, vms, vm, ids, i, parse, valid)
      {
        assert forall j :: 0 <= j < i ==> ids[..i][j] != ids[i];
      }
    }
  }

  /** validateNics; a failing database read rejects the request too. */
  method ValidateNics(table: NicTable, vms: Vms, vm: string, ids: seq<string>,
                      parse: DiskAttach.Parser, valid: Nic -> bool, dbOk: bool) returns (ok: bool)
    requires Keyed(table.rows)
    ensures ok ==> AllPass(table.rows, vms, vm, ids, parse, valid)
    ensures dbOk && !ok ==> !AllPass(table.rows, vms, vm, ids, parse, valid)
    ensures ok ==> Acceptable(table.rows, vms, vm, ids, parse, valid)
    ensures dbOk ==> (ok <==> Acceptable(table.rows, vms, vm, ids, parse, valid))
  {
    AcceptableExactly(table.rows, vms, vm, ids, parse, valid);
    var occurred: set<string> := {};
    for i := 0 to |ids|
      invariant forall j :: 0 <= j < i ==> Passes(table.rows, vms, vm, ids, j, parse, valid)
      invariant forall id :: id in occurred <==> id in ids[..i]
    {
      var canonical := parse(ids[i]);
      ghost var passes := Passes(table.rows, vms, vm, ids, i, parse, valid);
      if canonical.None? || canonical.value !in table.rows
         || !valid(table.rows[canonical.value]) || ids[i] in occurred {
        assert !passes;
        return false;
      }
      occurred := occurred + {ids[i]};
      var free := AttachedToNoOther(table, vms, vm, ids[i], dbOk);
      if !free {
        assert dbOk ==> !passes;
        return false;
      }
    }
    return true;
  }

  /** nicAttached: reads the NICs of every VM. */
  method AttachedToNoOther(table: NicTable, vms: Vms, vm: string, id: string, dbOk: bool) returns (free: bool)
    requires Keyed(table.rows)
    ensures free ==> !Elsewhere(table.rows, vms, vm, id)
    ensures dbOk && !free ==> Elsewhere(table.rows, vms, vm, id)
    ensures dbOk ==>
              (free <==> forall w :: w in vms && w != vm && id in table.rows ==>
                           table.rows[id].configId != vms[w].configId)
  {
    var todo := vms.Keys;
    while todo != {}
      invariant todo <= vms.Keys
      invariant forall w :: w in vms && w !in todo && w != vm && id in table.rows ==>
                  table.rows[id].configId != vms[w].configId
      decreases todo
    {
      var w :| w in todo;
      todo := todo - {w};
      var readable := Attempt(true, dbOk);
      if !readable {
        return false;
      }
      var nics := table.GetNics(vms[w].configId);
      for i := 0 to |nics|
        invariant w != vm ==> forall j :: 0 <= j < i ==> nics[j].id != id
      {
        if id == nics[i].id && w != vm {
          assert nics[i] in nics;
          return false;
        }
      }
      assert id in table.rows && table.rows[id].configId == vms[w].configId ==> table.rows[id] in nics;
    }
    return true;
  }

  /** SetNics. Success binds exactly the requested NICs to the VM; a rejected request leaves
      it with none; whatever happens no NIC of another VM changes, and no NIC changes in
      anything but its owner. While the database works, requests fail only for the reasons
      given. */
  method SetNics(table: NicTable, vms: Vms, vm: string, ids: seq<string>,
                 parse: DiskAttach.Parser, valid: Nic -> bool, dbOk: bool) returns (err: Option<Error>)
    requires Keyed(table.rows) && OwnConfigs(vms) && vm in vms
    modifies table
    ensures Keyed(table.rows) && OthersKept(old(table.rows), table.rows, vms, vm)
    ensures err == Some(NotStopped) <==> !vms[vm].stopped
    ensures err == Some(NotStopped) ==> table.rows == old(table.rows)
    ensures err == Some(Rejected) ==> table.rows == Unbound(old(table.rows), vms[vm].configId)
    ensures err == Some(Binding) ==> BoundTo(table.rows, vms[vm].configId) <= (set id | id in ids)
    ensures err.None? ==>
              && BoundTo(table.rows, vms[vm].configId) == (set id | id in ids)
              && table.rows == Bound(Unbound(old(table.rows), vms[vm].configId), vms[vm].configId, ids)
    ensures dbOk ==> err != Some(Unbinding)
    ensures dbOk && vms[vm].stopped ==>
              var free := Unbound(old(table.rows), vms[vm].configId);
              && (err == Some(Rejected) <==> !AllPass(free, vms, vm, ids, parse, valid))
              && (err == Some(Binding) ==> exists i :: 0 <= i < |ids| && ids[i] !in free)
              && (err.None? ==> forall i :: 0 <= i < |ids| ==> ids[i] in free)
  {
    if !vms[vm].stopped {
      return Some(NotStopped);
    }
    var ok := UnbindAll(table, vms, vm, dbOk);
    if !ok {
      return Some(Unbinding);
    }
    ok := ValidateNics(table, vms, vm, ids, parse, valid, dbOk);
    if !ok {
      return Some(Rejected);
    }
    forall i | 0 <= i < |ids|
      ensures !Elsewhere(table.rows, vms, vm, ids[i])
    {
      assert Passes(table.rows, vms, vm, ids, i, parse, valid);
    }
    ghost var validated := table.rows;
    ok := BindAll(table, vms, vm, ids, dbOk);
    OthersKeptTwice(old(table.rows), validated, table.rows, vms, vm);
    return if ok then None else Some(Binding);
  }

  lemma OthersKeptTwice(a: Rows, b: Rows, c: Rows, vms: Vms, vm: string)
    requires OthersKept(a, b, vms, vm) && OthersKept(b, c, vms, vm)
    ensures OthersKept(a, c, vms, vm)
  {
  }

  /** One save of a binding loop. */
  datatype Bind = Bind(id: string, configId: nat)

  function BindRun(rows: Rows, steps: seq<Bind>): Rows {
    if steps == [] then rows
    else
      var n := |steps| - 1;
      var before := BindRun(rows, steps[..n]);
      var id := steps[n].id;
      if id in before then before[id := before[id].(configId := steps[n].configId)] else before
  }

  /** The saves of two calls, in any order in which they can come. */
  predicate Interleaves(steps: seq<Bind>, a: nat, xs: seq<string>, b: nat, ys: seq<string>) {
    && (forall s :: s in steps ==> (s.configId == a && s.id in xs) || (s.configId == b && s.id in ys))
    && (forall x :: x in xs ==> Bind(x, a) in steps) && (forall y :: y in ys ==> Bind(y, b) in steps)
  }

  /** The owner is the one that saved last, or the one there was. */
  lemma {:induction false} LastBindWins(rows: Rows, steps: seq<Bind>, id: string)
    requires id in rows
    ensures BindRun(rows, steps).Keys == rows.Keys
    ensures (forall s :: s in steps ==> s.id != id) ==> BindRun(rows, steps)[id] == rows[id]
    ensures (exists s :: s in steps && s.id == id) ==>
              exists s :: s in steps && s.id == id && BindRun(rows, steps)[id].configId == s.configId
  {
    if steps != [] {
      var n := |steps| - 1;
      LastBindWins(rows, steps[..n], id);
      assert steps == steps[..n] + [steps[n]];
      if steps[n].id != id && exists s :: s in steps && s.id == id {
        var s :| s in steps[..n] && s.id == id && BindRun(rows, steps[..n])[id].configId == s.configId;
        assert s in steps;
      } else if steps[n].id == id {
        assert steps[n] in steps;
      }
    }
  }

  /** Two VMs can both validate a NIC before either binds it. When both loops then run, in
      any interleaving, both VMs end with exactly what they asked for if and only if no id
      is in both requests. */
  lemma OverlappingSetNicsExactly(rows: Rows, a: nat, xs: seq<string>, b: nat, ys: seq<string>, steps: seq<Bind>)
    requires a != b && BoundTo(rows, a) == {} && BoundTo(rows, b) == {}
    requires forall x :: x in xs || x in ys ==> x in rows
    requires Interleaves(steps, a, xs, b, ys)
    ensures var end := BindRun(rows, steps);
            BoundTo(end, a) == (set x | x in xs) && BoundTo(end, b) == (set y | y in ys) <==>
            forall x :: x in xs ==> x !in ys
  {
    var end := BindRun(rows, steps);
    EndKeys(rows, steps);
    if x :| x in xs && x in ys {
      assert x in (set z | z in xs) && x in (set z | z in ys);
      assert !(x in BoundTo(end, a) && x in BoundTo(end, b));
    } else {
      forall id | id in rows
        ensures end[id].configId == a <==> id in xs
        ensures end[id].configId == b <==> id in ys
      {
        assert id !in BoundTo(rows, a) && id !in BoundTo(rows, b);
        LastBindWins(rows, steps, id);
      }
      assert BoundTo(end, a) == set x | x in xs;
      assert BoundTo(end, b) == set y | y in ys;
    }
  }

  lemma {:induction false} EndKeys(rows: Rows, steps: seq<Bind>)
    ensures BindRun(rows, steps).Keys == rows.Keys
  {
    if steps != [] {
      EndKeys(rows, steps[..|steps| - 1]);
    }
  }

  /** Validation does not keep them apart: a NIC that no other VM has passes for both. */
  lemma BothValidate(rows: Rows, vms: Vms, a: string, b: string, id: string, parse: DiskAttach.Parser,
                     valid: Nic -> bool)
    requires Passes(rows, vms, a, [id], 0, parse, valid) &&
             (id in rows ==> forall w :: w in vms ==> rows[id].configId != vms[w].configId)
    ensures Passes(rows, vms, b, [id], 0, parse, valid)
  {
  }

  /** The binding loop: every id is looked up as written. */
  method BindAll(table: NicTable, vms: Vms, vm: string, ids: seq<string>, dbOk: bool) returns (ok: bool)
    requires Keyed(table.rows) && OwnConfigs(vms) && vm in vms
    requires BoundTo(table.rows, vms[vm].configId) == {}
    requires forall i :: 0 <= i < |ids| ==> !Elsewhere(table.rows, vms, vm, ids[i])
    modifies table
    ensures Keyed(table.rows) && OthersKept(old(table.rows), table.rows, vms, vm)
    ensures BoundTo(table.rows, vms[vm].configId) <= (set id | id in ids)
    ensures ok ==>
              && BoundTo(table.rows, vms[vm].configId) == (set id | id in ids)
              && table.rows == Bound(old(table.rows), vms[vm].configId, ids)
              && forall i :: 0 <= i < |ids| ==> ids[i] in old(table.rows)
    ensures dbOk && !ok ==> exists i :: 0 <= i < |ids| && ids[i] !in old(table.rows)
  {
    ghost var before, c := table.rows, vms[vm].configId;
    for i := 0 to |ids|
      invariant forall j :: 0 <= j < i ==> ids[j] in before
      invariant table.rows == Bound(before, c, ids[..i])
    {
      BoundIs(before, vms, vm, ids[..i]);
      if ids[i] !in table.rows {
        return false;
      }
      BoundStep(before, c, ids, i);
      ok := TrySave(table, table.rows[ids[i]].(configId := vms[vm].configId), dbOk);
      if !ok {
        return;
      }
    }
    assert ids[..|ids|] == ids;
    BoundIs(before, vms, vm, ids);
    return true;
  }

  lemma BoundIs(rows: Rows, vms: Vms, vm: string, ids: seq<string>)
    requires Keyed(rows) && OwnConfigs(vms) && vm in vms
    requires BoundTo(rows, vms[vm].configId) == {}
    requires forall i :: 0 <= i < |ids| ==> ids[i] in rows && !Elsewhere(rows, vms, vm, ids[i])
    ensures Keyed(Bound(rows, vms[vm].configId, ids))
    ensures OthersKept(rows, Bound(rows, vms[vm].configId, ids), vms, vm)
    ensures BoundTo(Bound(rows, vms[vm].configId, ids), vms[vm].configId) == set id | id in ids
  {
    var c := vms[vm].configId;
    var after := Bound(rows, c, ids);
    forall id | id in rows && Elsewhere(after, vms, vm, id)
      ensures after[id] == rows[id]
    {
      assert after[id].configId != c;
    }
    assert forall id :: id in rows && rows[id].configId == c ==> id in BoundTo(rows, c);
  }

  lemma BoundStep(rows: Rows, configId: nat, ids: seq<string>, i: nat)
    requires i < |ids| && ids[i] in rows
    ensures var before := Bound(rows, configId, ids[..i]);
            Bound(rows, configId, ids[..i + 1]) == before[ids[i] := before[ids[i]].(configId := configId)]
  {
    assert ids[..i + 1] == ids[..i] + [ids[i]];
  }
}
