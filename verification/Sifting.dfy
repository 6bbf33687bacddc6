/** What a loop with `continue` keeps of a list: the elements that pass, in their order. */
module Sifting {
  /** `at` are the places in `from` that `kept` was taken from. */
  ghost predicate PickedAt<T(!new)>(from: seq<T>, kept: seq<T>, passes: T -> bool, at: seq<nat>) {
    && |at| == |kept|
    && (forall i :: 0 <= i < |at| ==> at[i] < |from| && kept[i] == from[at[i]] && passes(kept[i]))
    && (forall i, j :: 0 <= i < j < |at| ==> at[i] < at[j])
    && (forall j :: 0 <= j < |from| && passes(from[j]) ==> j in at)
  }

  /** Every element that passes, as often as it occurs, in order, and nothing else. */
  ghost predicate Sifted<T(!new)>(from: seq<T>, kept: seq<T>, passes: T -> bool) {
    exists at :: PickedAt(from, kept, passes, at)
  }

  lemma SiftedEmpty<T(!new)>(passes: T -> bool)
    ensures Sifted<T>([], [], passes)
  {
    assert PickedAt<T>([], [], passes, []);
  }

  lemma SiftedSnoc<T(!new)>(from: seq<T>, kept: seq<T>, passes: T -> bool, last: T)
    requires Sifted(from, kept, passes)
    ensures Sifted(from + [last], kept + if passes(last) then [last] else [], passes)
  {
    var at :| PickedAt(from, kept, passes, at);
    if passes(last) {
      LastPicked(from, kept, passes, last, at);
    } else {
      LastPassedOver(from, kept, passes, last, at);
      assert kept + [] == kept;
    }
  }

  lemma LastPicked<T(!new)>(from: seq<T>, kept: seq<T>, passes: T -> bool, last: T, at: seq<nat>)
    requires PickedAt(from, kept, passes, at) && passes(last)
    ensures Sifted(from + [last], kept + [last], passes)
  {
    var all, picked := from + [last], kept + [last];
    var more: seq<nat> := at + [|from| as nat];
    forall i | 0 <= i < |more|
      ensures more[i] < |all| && picked[i] == all[more[i]] && passes(picked[i])
    {
      if i < |at| {
        assert more[i] == at[i] && picked[i] == kept[i] && all[at[i]] == from[at[i]];
      }
    }
    forall j | 0 <= j < |all| && passes(all[j])
      ensures j in more
    {
      if j < |from| {
        assert all[j] == from[j] && j in at;
      } else {
        assert more[|at|] == j;
      }
    }
    assert PickedAt(all, picked, passes, more);
  }

  lemma LastPassedOver<T(!new)>(from: seq<T>, kept: seq<T>, passes: T -> bool, last: T, at: seq<nat>)
    requires PickedAt(from, kept, passes, at) && !passes(last)
    ensures Sifted(from + [last], kept, passes)
  {
    var all := from + [last];
    forall i | 0 <= i < |at|
      ensures at[i] < |all| && kept[i] == all[at[i]] && passes(kept[i])
    {
      assert all[at[i]] == from[at[i]];
    }
    forall j | 0 <= j < |all| && passes(all[j])
      ensures j in at
    {
      assert all[j] == from[j];
    }
    assert PickedAt(all, kept, passes, at);
  }

  lemma SiftedCons<T(!new)>(first: T, from: seq<T>, kept: seq<T>, passes: T -> bool)
    requires Sifted(from, kept, passes)
    ensures Sifted([first] + from, (if passes(first) then [first] else []) + kept, passes)
  {
    var at :| PickedAt(from, kept, passes, at);
    var next: seq<nat> := seq(|at|, i requires 0 <= i < |at| => at[i] + 1);
    if passes(first) {
      FirstPicked(first, from, kept, passes, at, next);
    } else {
      FirstPassedOver(first, from, kept, passes, at, next);
      assert [] + kept == kept;
    }
  }

  lemma FirstPicked<T(!new)>(first: T, from: seq<T>, kept: seq<T>, passes: T -> bool, at: seq<nat>, next: seq<nat>)
    requires PickedAt(from, kept, passes, at) && passes(first)
    requires |next| == |at| && forall i :: 0 <= i < |at| ==> next[i] == at[i] + 1
    ensures Sifted([first] + from, [first] + kept, passes)
  {
    var all, picked := [first] + from, [first] + kept;
    var more: seq<nat> := [0 as nat] + next;
    forall i | 0 <= i < |more|
      ensures more[i] < |all| && picked[i] == all[more[i]] && passes(picked[i])
    {
      if i > 0 {
        assert more[i] == at[i - 1] + 1 && picked[i] == kept[i - 1];
      }
    }
    forall j | 0 <= j < |all| && passes(all[j])
      ensures j in more
    {
      if j == 0 {
        assert more[0] == 0;
      } else {
        var i :| 0 <= i < |at| && at[i] == j - 1;
        assert more[i + 1] == j;
      }
    }
    assert PickedAt(all, picked, passes, more);
  }

  lemma FirstPassedOver<T(!new)>(first: T, from: seq<T>, kept: seq<T>, passes: T -> bool, at: seq<nat>,
                                 next: seq<nat>)
    requires PickedAt(from, kept, passes, at) && !passes(first)
    requires |next| == |at| && forall i :: 0 <= i < |at| ==> next[i] == at[i] + 1
    ensures Sifted([first] + from, kept, passes)
  {
    var all := [first] + from;
    forall j | 0 <= j < |all| && passes(all[j])
      ensures j in next
    {
      var i :| 0 <= i < |at| && at[i] == j - 1;
      assert next[i] == j;
    }
    assert PickedAt(all, kept, passes, next);
  }
}
