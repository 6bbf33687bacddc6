/** Which VM has which disk (vm/disk.go, disk/disk.go, rpc_disk.go getDiskVM). Ids are
    validated by parsing them, but compared and looked up as the text that was sent. */
module DiskAttach {
  import opened Wrappers

  datatype Error = NotStopped | Invalid | NotFound | Duplicate | AttachedElsewhere | SaveFailed | UsedByTwo

  /** The UUID library: the canonical text (RFC 9562, section 4) of an id, if it is one. */
  type Parser = string -> Option<string>

  /** A VM's disk list; None is a nil entry. */
  type Slots = seq<Option<string>>

  function Filled(ids: seq<string>): (slots: Slots)
    ensures |slots| == |ids| && forall i :: 0 <= i < |ids| ==> slots[i] == Some(ids[i])
  {
    seq(|ids|, i requires 0 <= i < |ids| => Some(ids[i]))
  }

  lemma FilledSnoc(ids: seq<string>, last: string)
    ensures Filled(ids + [last]) == Filled(ids) + [Some(last)]
  {
  }

  /** No disk is in two places, be it in two VMs' lists or twice in one. */
  ghost predicate Exclusive(lists: map<string, Slots>) {
    forall v, w, i, j | v in lists && w in lists && 0 <= i < |lists[v]| && 0 <= j < |lists[w]| ::
      lists[v][i].Some? && lists[v][i] == lists[w][j] ==> v == w && i == j
  }

  predicate HeldBy(lists: map<string, Slots>, vm: string, disk: string) {
    vm in lists && Some(disk) in lists[vm]
  }

  class Registry {
    const parse: Parser
    var disks: map<string, string>    // the disk list: id to name
    var lists: map<string, Slots>     // the VM list: id to attached disks
    var stopped: set<string>

    constructor (parse: Parser, disks: map<string, string>, lists: map<string, Slots>, stopped: set<string>)
      ensures this.parse == parse && this.disks == disks && this.lists == lists && this.stopped == stopped
    {
      this.parse, this.disks, this.lists, this.stopped := parse, disks, lists, stopped;
    }

    /** The checks made on the i-th id. */
    predicate Passes(vm: string, ids: seq<string>, i: nat)
      requires i < |ids|
      reads this
    {
      && parse(ids[i]).Some? && parse(ids[i]).value in disks && disks[parse(ids[i]).value] != ""
      && ids[i] !in ids[..i]
      && forall other :: other in lists && other != vm ==> !HeldBy(lists, other, ids[i])
    }

    predicate ValidFor(vm: string, ids: seq<string>)
      reads this
    {
      forall i :: 0 <= i < |ids| ==> Passes(vm, ids, i)
    }

    /** All of them name disks that are there and have a name, none is given twice, and none is
        on another VM. */
    predicate Acceptable(vm: string, ids: seq<string>)
      reads this
    {
      && (forall i :: 0 <= i < |ids| ==>
            parse(ids[i]).Some? && parse(ids[i]).value in disks && disks[parse(ids[i]).value] != "")
      && (forall i, j :: 0 <= i < j < |ids| ==> ids[i] != ids[j])
      && (forall i, other :: 0 <= i < |ids| && other in lists && other != vm ==> Some(ids[i]) !in lists[other])
    }

    lemma ValidIs(vm: string, ids: seq<string>)
      ensures ValidFor(vm, ids) <==> Acceptable(vm, ids)
    {
      if ValidFor(vm, ids) {
        forall i, j | 0 <= i < j < |ids|
          ensures ids[i] != ids[j]
        {
          assert Passes(vm, ids, j) && ids[..j][i] == ids[i];
        }
        forall i, other | 0 <= i < |ids| && other in lists && other != vm
          ensures Some(ids[i]) !in lists[other]
        {
          assert Passes(vm, ids, i) && !HeldBy(lists, other, ids[i]);
        }
        forall i | 0 <= i < |ids|
          ensures parse(ids[i]).Some? && parse(ids[i]).value in disks && disks[parse(ids[i]).value] != ""
        {
          assert Passes(vm, ids, i);
        }
      }
      if Acceptable(vm, ids) {
        forall i | 0 <= i < |ids|
          ensures Passes(vm, ids, i)
        {
          assert forall j :: 0 <= j < i ==> ids[..i][j] != ids[i];
        }
      }
    }

    /** diskAttached: the loops over all VMs and their lists. */
    method AttachedToAnother(vm: string, disk: string) returns (attached: bool)
      ensures attached <==> exists other :: other in lists && other != vm && Some(disk) in lists[other]
    {
      var todo := lists.Keys;
      while todo != {}
        invariant todo <= lists.Keys
        invariant forall other :: other in lists && other !in todo && other != vm ==> !HeldBy(lists, other, disk)
        decreases todo
      {
        var other :| other in todo;
        todo := todo - {other};
        var slots := lists[other];
        for i := 0 to |slots|
          invariant other != vm ==> forall j :: 0 <= j < i ==> slots[j] != Some(disk)
        {
          if slots[i].None? {
            continue;
          }
          if disk == slots[i].value && other != vm {
            return true;
          }
        }
      }
      return false;
    }

    /** validateDisks. */
    method ValidateDisks(vm: string, ids: seq<string>) returns (err: Option<Error>)
      ensures err.None? <==> ValidFor(vm, ids)
      ensures err.None? <==> Acceptable(vm, ids)
    {
      ValidIs(vm, ids);
      var occurred: set<string> := {};
      for i := 0 to |ids|
        invariant forall j :: 0 <= j < i ==> Passes(vm, ids, j)
        invariant forall id :: id in occurred <==> id in ids[..i]
      {
        var canonical := parse(ids[i]);
        ghost var passes := Passes(vm, ids, i);
        if canonical.None? {
          assert !passes;
          return Some(Invalid);
        }
        if canonical.value !in disks {
          assert !passes;
          return Some(NotFound);
        }
        if disks[canonical.value] == "" {
          assert !passes;
          return Some(NotFound);
        }
        if ids[i] in occurred {
          assert !passes;
          return Some(Duplicate);
        }
        occurred := occurred + {ids[i]};
        var attached := AttachedToAnother(vm, ids[i]);
        if attached {
          assert !passes;
          return Some(AttachedElsewhere);
        }
      }
      return None;
    }

    /** The ids before the first that is not in the disk list as written. */
    function Resolved(ids: seq<string>): (r: seq<string>)
      reads `disks
      ensures r <= ids && (forall id :: id in r ==> id in disks)
      ensures |r| < |ids| ==> ids[|r|] !in disks
    {
      if ids == [] || ids[0] !in disks then []
      else
        assert ids == [ids[0]] + ids[1..];
        [ids[0]] + Resolved(ids[1..])
    }

    /** AttachDisks: replaces the list once validation has passed, whatever comes after. */
    method AttachDisks(vm: string, ids: seq<string>, saveOk: bool) returns (err: Option<Error>)
      requires vm in lists
      modifies this`lists
      ensures lists == if vm in stopped &&
              old(ValidFor(vm, ids)) then old(lists)[vm := Filled(Resolved(ids))] else old(lists)
      ensures err.None? <==> vm in stopped && old(ValidFor(vm, ids)) && Resolved(ids) == ids && saveOk
    {
      if vm !in stopped {
        return Some(NotStopped);
      }
      err := ValidateDisks(vm, ids);
      if err.Some? {
        return;
      }
      var complete := FillList(vm, ids);
      if !complete {
        return Some(NotFound);
      }
      if !saveOk {
        return Some(SaveFailed);
      }
      return None;
    }

    /** The loop of AttachDisks: reset the list, look every id up as written, append. */
    method FillList(vm: string, ids: seq<string>) returns (complete: bool)
      requires vm in lists
      modifies this`lists
      ensures lists == old(lists)[vm := Filled(Resolved(ids))]
      ensures complete <==> Resolved(ids) == ids
    {
      lists := lists[vm := []];
      for i := 0 to |ids|
        invariant forall j :: 0 <= j < i ==> ids[j] in disks
        invariant lists == old(lists)[vm := Filled(ids[..i])]
      {
        if ids[i] !in disks {
          ResolvedIs(ids, i);
          return false;
        }
        FilledSnoc(ids[..i], ids[i]);
        assert ids[..i + 1] == ids[..i] + [ids[i]];
        lists := lists[vm := lists[vm] + [Some(ids[i])]];
      }
      ResolvedIs(ids, |ids|);
      return true;
    }

    lemma ResolvedIs(ids: seq<string>, i: nat)
      requires i <= |ids| && (forall j :: 0 <= j < i ==> ids[j] in disks)
      requires i < |ids| ==> ids[i] !in disks
      ensures Resolved(ids) == ids[..i]
    {
      var r := Resolved(ids);
      assert forall j :: 0 <= j < |r| ==> r[j] in r;
    }

    /** getDiskVM. */
    method GetDiskVm(disk: string) returns (r: Result<Option<string>, Error>)
      ensures r.Err? <==> exists v, w, i, j :: At(v, i, disk) && At(w, j, disk) && !(v == w && i == j)
      ensures Exclusive(lists) ==> r.Ok?
      ensures r.Ok? && r.value.Some? ==> HeldBy(lists, r.value.value, disk)
      ensures r.Ok? && r.value.None? ==> forall vm :: vm in lists ==> !HeldBy(lists, vm, disk)
    {
      var owner: Option<string> := None;
      ghost var at := 0;
      var todo := lists.Keys;
      while todo != {}
        invariant todo <= lists.Keys
        invariant owner.Some? ==> At(owner.value, at, disk) && owner.value !in todo
        invariant forall v, j :: v !in todo && At(v, j, disk) ==> owner == Some(v) && at == j
        decreases todo
      {
        var vm :| vm in todo;
        todo := todo - {vm};
        var slots := lists[vm];
        for i := 0 to |slots|
          invariant owner.Some? ==> At(owner.value, at, disk) && owner.value !in todo && (owner.value == vm ==> at < i)
          invariant forall v, j :: v !in todo && At(v, j, disk) && (v == vm ==> j < i) ==> owner == Some(v) && at == j
        {
          if slots[i].None? {
            continue;
          }
          if slots[i].value == disk {
            assert At(vm, i, disk);
            if owner.Some? {
              return Err(UsedByTwo);
            }
            owner, at := Some(vm), i;
          }
        }
      }
      if owner.None? {
        forall vm | vm in lists
          ensures !HeldBy(lists, vm, disk)
        {
          if j :| 0 <= j < |lists[vm]| && lists[vm][j] == Some(disk) {
            assert At(vm, j, disk);
          }
        }
      }
      return Ok(owner);
    }

    predicate At(vm: string, i: int, disk: string)
      reads this
    {
      vm in lists && 0 <= i < |lists[vm]| && lists[vm][i] == Some(disk)
    }

    /** lockDisks: the mutexes taken, in order. The call never returns, here `stuck`, when it
        comes to one that it has taken already. */
    method LockDisks(vm: string) returns (taken: seq<string>, stuck: bool)
      requires vm in lists
      ensures forall i, j :: 0 <= i < j < |taken| ==> taken[i] != taken[j]
      ensures stuck <==> exists i, j, d :: i < j && At(vm, i, d) && At(vm, j, d)
      ensures !stuck ==> forall d :: d in taken <==> HeldBy(lists, vm, d)
      ensures Exclusive(lists) ==> !stuck
    {
      taken := [];
      var slots := lists[vm];
      for i := 0 to |slots|
        invariant forall d :: d in taken <==> Some(d) in slots[..i]
        invariant forall p, q :: 0 <= p < q < |taken| ==> taken[p] != taken[q]
        invariant forall p, q, d :: p < q < i ==> !(At(vm, p, d) && At(vm, q, d))
      {
        assert slots[..i + 1] == slots[..i] + [slots[i]];
        if slots[i].None? {
          continue;
        }
        assert At(vm, i, slots[i].value);
        if slots[i].value in taken {
          var p :| 0 <= p < i && slots[..i][p] == slots[i];
          assert At(vm, p, slots[i].value);
          return taken, true;
        }
        assert forall p :: 0 <= p < i ==> slots[..i][p] == slots[p];
        taken := taken + [slots[i].value];
      }
      assert slots[..|slots|] == slots;
      return taken, false;
    }
  }

  /** For arbitrary id strings, and whether the call succeeds or fails half-way, attaching
      keeps every disk in at most one place. */
  lemma AttachKeepsExclusive(r: Registry, lists: map<string, Slots>, vm: string, ids: seq<string>)
    requires Exclusive(lists) && vm in lists
    requires r.lists == lists && r.ValidFor(vm, ids)
    ensures Exclusive(lists[vm := Filled(r.Resolved(ids))])
  {
    var kept := r.Resolved(ids);
    var after := lists[vm := Filled(kept)];
    forall i, j | 0 <= i < j < |kept|
      ensures kept[i] != kept[j]
    {
      assert r.Passes(vm, ids, j) && ids[j] == kept[j] && kept[i] == ids[i] && ids[i] in ids[..j];
    }
    forall other, i, j | other in lists && other != vm && 0 <= i < |lists[other]| && 0 <= j < |kept|
      ensures lists[other][i] != Some(kept[j])
    {
      assert r.Passes(vm, ids, j) && kept[j] == ids[j];
    }
  }

  /** The disk list holds canonical ids, and the parser is stable on them. */
  predicate CanonicalKeys(r: Registry)
    reads r
  {
    forall id :: id in r.disks ==> r.parse(id) == Some(id)
  }

  /** After validation the whole list is attached exactly when every id was sent in its
      canonical form. Any other spelling passes validation and then cuts the list short. */
  lemma AllOrNothingExactlyForCanonicalIds(r: Registry, vm: string, ids: seq<string>)
    requires CanonicalKeys(r) && r.ValidFor(vm, ids)
    ensures r.Resolved(ids) == ids <==> forall i :: 0 <= i < |ids| ==> r.parse(ids[i]) == Some(ids[i])
  {
    assert forall i :: 0 <= i < |ids| ==> r.Passes(vm, ids, i);
    var kept := r.Resolved(ids);
    if |kept| < |ids| {
      assert r.Passes(vm, ids, |kept|);
      assert r.parse(ids[|kept|]) != Some(ids[|kept|]);
    } else {
      assert forall i :: 0 <= i < |ids| ==> ids[i] in kept;
    }
  }

  /** Each VM has its own lock, so two calls can both validate before either attaches. They
      leave disks exclusive exactly when no id is resolved by both. */
  lemma OverlappingAttachExactly(r: Registry, a: string, b: string, xs: seq<string>, ys: seq<string>)
    requires Exclusive(r.lists) && a in r.lists && b in r.lists && a != b
    requires r.ValidFor(a, xs) && r.ValidFor(b, ys)
    ensures Exclusive(r.lists[a := Filled(r.Resolved(xs))][b := Filled(r.Resolved(ys))]) <==>
            forall id: string :: id in r.Resolved(xs) ==> id !in r.Resolved(ys)
  {
    var mid := r.lists[a := Filled(r.Resolved(xs))];
    var after := mid[b := Filled(r.Resolved(ys))];
    AttachKeepsExclusive(r, r.lists, a, xs);
    AttachKeepsExclusive(r, r.lists, b, ys);
    if id: string :| id in r.Resolved(xs) && id in r.Resolved(ys) {
      var i :| 0 <= i < |r.Resolved(xs)| && r.Resolved(xs)[i] == id;
      var j :| 0 <= j < |r.Resolved(ys)| && r.Resolved(ys)[j] == id;
      assert after[a][i] == Some(id) && after[b][j] == Some(id);
    } else {
      BothKept(r.lists, a, b, r.Resolved(xs), r.Resolved(ys));
    }
  }

  lemma BothKept(lists: map<string, Slots>, a: string, b: string, xs: seq<string>, ys: seq<string>)
    requires a in lists && b in lists && a != b
    requires Exclusive(lists[a := Filled(xs)]) && Exclusive(lists[b := Filled(ys)])
    requires forall id :: id in xs ==> id !in ys
    ensures Exclusive(lists[a := Filled(xs)][b := Filled(ys)])
  {
    var first, second := lists[a := Filled(xs)], lists[b := Filled(ys)];
    var after: map<string, Slots> := first[b := Filled(ys)];
    forall v: string, w: string, i: int, j: int | v in after && w in after && 0 <= i < |after[v]| && 0 <= j < |after[w]|
      ensures after[v][i].Some? && after[v][i] == after[w][j] ==> v == w && i == j
    {
      if v != b && w != b {
        assert after[v] == first[v] && after[w] == first[w];
      } else if v != a && w != a {
        assert after[v] == second[v] && after[w] == second[w];
      } else if v == a {
        assert after[v][i] == Some(xs[i]) && after[w][j] == Some(ys[j]) && xs[i] in xs;
      } else {
        assert after[w][j] == Some(xs[j]) && after[v][i] == Some(ys[i]) && xs[j] in xs;
      }
    }
  }

  /** The input: one disk sent to both calls in the form in which it is listed. Sent in any
      other form it is resolved by neither, and nothing happens to it. */
  lemma OverlappingAttachBreaksExclusive(r: Registry, a: string, b: string, disk: string)
    requires Exclusive(r.lists) && a in r.lists && b in r.lists && a != b
    requires r.ValidFor(a, [disk]) && r.ValidFor(b, [disk])
    ensures !Exclusive(r.lists[a := Filled(r.Resolved([disk]))][b := Filled(r.Resolved([disk]))]) <==> disk in r.disks
  {
    OverlappingAttachExactly(r, a, b, [disk], [disk]);
    if disk in r.disks {
      r.ResolvedIs([disk], 1);
      assert disk in r.Resolved([disk]);
    } else {
      r.ResolvedIs([disk], 0);
    }
  }
}
