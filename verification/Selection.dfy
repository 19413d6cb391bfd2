/** Picking the items of a sequence whose flag is set. */
module Selection {
  /** The items whose flag is set, in order. */
  function Selected<A>(items: seq<A>, flags: seq<bool>): seq<A>
    requires |flags| <= |items|
  {
    if flags == [] then []
    else
      var n := |flags| - 1;
      Selected(items, flags[..n]) + (if flags[n] then [items[n]] else [])
  }

  function Rejects(flags: seq<bool>): nat {
    if flags == [] then 0
    else Rejects(flags[..|flags| - 1]) + (if flags[|flags| - 1] then 0 else 1)
  }

  lemma {:induction false} SelectedMore<A>(items: seq<A>, flags: seq<bool>, item: A, flag: bool)
    requires |flags| == |items|
    ensures Selected(items + [item], flags + [flag]) == Selected(items, flags) + (if flag then [item] else [])
  {
    assert (flags + [flag])[..|flags|] == flags;
    SelectedPrefix(items + [item], items, flags);
  }

  /** Only the items that have flags matter. */
  lemma {:induction false} SelectedPrefix<A>(items: seq<A>, items': seq<A>, flags: seq<bool>)
    requires |flags| <= |items| && |flags| <= |items'|
    requires items[..|flags|] == items'[..|flags|]
    ensures Selected(items, flags) == Selected(items', flags)
    decreases |flags|
  {
    if flags != [] {
      var n := |flags| - 1;
      assert items[..n] == items[..|flags|][..n];
      assert items'[..n] == items'[..|flags|][..n];
      assert items[n] == items[..|flags|][n] && items'[n] == items'[..|flags|][n];
      SelectedPrefix(items, items', flags[..n]);
    }
  }

  lemma {:induction false} SelectedFlag<A>(items: seq<A>, flags: seq<bool>, flag: bool)
    requires |flags| < |items|
    ensures Selected(items, flags + [flag]) == Selected(items, flags) + (if flag then [items[|flags|]] else [])
    ensures Rejects(flags + [flag]) == Rejects(flags) + (if flag then 0 else 1)
  {
    assert (flags + [flag])[..|flags|] == flags;
  }

  lemma {:induction false} SelectedOrRejected<A>(items: seq<A>, flags: seq<bool>)
    requires |flags| <= |items|
    ensures |Selected(items, flags)| + Rejects(flags) == |flags|
  {
    if flags != [] {
      SelectedOrRejected(items, flags[..|flags| - 1]);
    }
  }
}
