/** The release obligations of teardown, as sequences of native calls. Maps
    are walked in an unspecified order (the source iterates hash maps), so each
    release sequence is stated for an arbitrary enumeration of the keys. */
module Releases {
  import opened Native

  /** `order` lists every element of `s` exactly once. */
  ghost predicate IsOrdering(order: seq<string>, s: set<string>)
  {
    && (forall i, j :: 0 <= i < j < |order| ==> order[i] != order[j])
    && (forall x :: x in order <==> x in s)
  }

  lemma {:induction false} OrderingLength(order: seq<string>, s: set<string>)
    requires IsOrdering(order, s)
    ensures |order| == |s|
    decreases |order|
  {
    if order != [] {
      var last := order[|order| - 1];
      var init := order[..|order| - 1];
      assert order == init + [last];
      assert IsOrdering(init, s - {last});
      OrderingLength(init, s - {last});
    }
  }

  lemma OrderingAppend(order: seq<string>, s: set<string>, x: string)
    requires IsOrdering(order, s) && x !in s
    ensures IsOrdering(order + [x], s + {x})
  {
  }

  /** Releases of the kernels named by `order`, one per name, in that order. */
  function KernelReleases(kernels: map<string, Handle>, order: seq<string>): (calls: seq<Call>)
    requires forall n :: n in order ==> n in kernels
    decreases |order|
  {
    if order == [] then []
    else KernelReleases(kernels, order[..|order| - 1]) + [ReleaseKernel(kernels[order[|order| - 1]])]
  }

  /** The i-th release is that of the i-th kernel of the walk. */
  lemma {:induction false} KernelReleasesAt(kernels: map<string, Handle>, order: seq<string>)
    requires forall n :: n in order ==> n in kernels
    ensures |KernelReleases(kernels, order)| == |order|
    ensures forall i :: 0 <= i < |order| ==> KernelReleases(kernels, order)[i] == ReleaseKernel(kernels[order[i]])
    decreases |order|
  {
    if order != [] {
      KernelReleasesAt(kernels, order[..|order| - 1]);
    }
  }

  /** Walking all cached kernels releases each cached kernel once and
      releases nothing else. */
  lemma EachCachedKernelReleased(kernels: map<string, Handle>, order: seq<string>)
    requires IsOrdering(order, kernels.Keys)
    ensures |KernelReleases(kernels, order)| == |kernels|
    ensures forall n :: n in kernels ==> ReleaseKernel(kernels[n]) in KernelReleases(kernels, order)
    ensures forall c :: c in KernelReleases(kernels, order) ==> c.ReleaseKernel? && c.kernel in kernels.Values
  {
    OrderingLength(order, kernels.Keys);
    KernelReleasesAt(kernels, order);
    var calls := KernelReleases(kernels, order);
    forall n | n in kernels
      ensures ReleaseKernel(kernels[n]) in calls
    {
      var i :| 0 <= i < |order| && order[i] == n;
      assert calls[i] == ReleaseKernel(kernels[n]);
    }
    forall c | c in calls
      ensures c.ReleaseKernel? && c.kernel in kernels.Values
    {
      var i :| 0 <= i < |calls| && calls[i] == c;
      assert order[i] in kernels;
    }
  }

  /** Freeing one program entry: its program first, then its kernels. */
  function EntryReleases(program: Handle, kernels: map<string, Handle>, order: seq<string>): seq<Call>
    requires forall n :: n in order ==> n in kernels
  {
    [ReleaseProgram(program)] + KernelReleases(kernels, order)
  }

  /** Freeing an entry releases its program and every kernel it cached, and
      nothing else. */
  lemma EntryReleasesCover(program: Handle, kernels: map<string, Handle>, order: seq<string>)
    requires IsOrdering(order, kernels.Keys)
    ensures |EntryReleases(program, kernels, order)| == 1 + |kernels|
    ensures EntryReleases(program, kernels, order)[0] == ReleaseProgram(program)
    ensures forall n :: n in kernels ==> ReleaseKernel(kernels[n]) in EntryReleases(program, kernels, order)
    ensures forall c :: c in EntryReleases(program, kernels, order) ==>
              c == ReleaseProgram(program) || (c.ReleaseKernel? && c.kernel in kernels.Values)
  {
    EachCachedKernelReleased(kernels, order);
  }

  /** A program entry as teardown finds it: program pointer and the pointers of
      its cached kernels by name. */
  datatype EntrySnapshot = EntrySnapshot(program: Handle, kernels: map<string, Handle>)

  /** `orders[i]` enumerates the kernels of the entry named `names[i]`. */
  ghost predicate Fits(entries: map<string, EntrySnapshot>, names: seq<string>, orders: seq<seq<string>>)
    decreases |names|
  {
    && |orders| == |names|
    && (names != [] ==>
          var k := |names| - 1;
          && Fits(entries, names[..k], orders[..k])
          && names[k] in entries
          && IsOrdering(orders[k], entries[names[k]].kernels.Keys))
  }

  /** Freeing the entries named by `names`, in that order. */
  function Teardown(entries: map<string, EntrySnapshot>, names: seq<string>, orders: seq<seq<string>>): (calls: seq<Call>)
    requires Fits(entries, names, orders)
    decreases |names|
  {
    if names == [] then []
    else
      var k := |names| - 1;
      var e := entries[names[k]];
      assert forall n :: n in orders[k] ==> n in e.kernels;
      Teardown(entries, names[..k], orders[..k]) + EntryReleases(e.program, e.kernels, orders[k])
  }

  /** Walking one more entry appends its releases to a trace that already
      holds `prefix` followed by the releases so far. */
  lemma TeardownAppend(prefix: seq<Call>, entries: map<string, EntrySnapshot>, names: seq<string>, orders: seq<seq<string>>,
                       name: string, order: seq<string>)
    requires Fits(entries, names, orders)
    requires name in entries && IsOrdering(order, entries[name].kernels.Keys)
    ensures Fits(entries, names + [name], orders + [order])
    ensures prefix + Teardown(entries, names + [name], orders + [order])
            == prefix + Teardown(entries, names, orders) + EntryReleases(entries[name].program, entries[name].kernels, order)
  {
    assert (names + [name])[..|names|] == names;
    assert (orders + [order])[..|names|] == orders;
  }

  /** Teardown releases the program of every entry it walks and every kernel
      cached in them. */
  lemma {:induction false} TeardownReleasesEverything(entries: map<string, EntrySnapshot>, names: seq<string>, orders: seq<seq<string>>)
    requires Fits(entries, names, orders)
    ensures forall n :: n in names ==> n in entries
    ensures forall n :: n in names ==> ReleaseProgram(entries[n].program) in Teardown(entries, names, orders)
    ensures forall n, m :: n in names && m in entries[n].kernels ==>
              ReleaseKernel(entries[n].kernels[m]) in Teardown(entries, names, orders)
    decreases |names|
  {
    if names != [] {
      var k := |names| - 1;
      var e := entries[names[k]];
      assert Fits(entries, names[..k], orders[..k]);
      TeardownReleasesEverything(entries, names[..k], orders[..k]);
      var calls := Teardown(entries, names, orders);
      var tail := EntryReleases(e.program, e.kernels, orders[k]);
      assert calls == Teardown(entries, names[..k], orders[..k]) + tail;
      EntryReleasesCover(e.program, e.kernels, orders[k]);
      forall n | n in names
        ensures ReleaseProgram(entries[n].program) in calls
        ensures forall m :: m in entries[n].kernels ==> ReleaseKernel(entries[n].kernels[m]) in calls
      {
        if n != names[k] {
          assert n in names[..k] by {
            var i :| 0 <= i < |names| && names[i] == n;
            assert names[..k][i] == n;
          }
        }
      }
    }
  }

  /** Teardown releases nothing but the programs of the entries it walks and
      the kernels cached in them. */
  lemma {:induction false} TeardownReleasesNothingElse(entries: map<string, EntrySnapshot>, names: seq<string>, orders: seq<seq<string>>)
    requires Fits(entries, names, orders)
    ensures forall c :: c in Teardown(entries, names, orders) ==>
              || (c.ReleaseProgram? && exists n :: n in names && n in entries && c.program == entries[n].program)
              || (c.ReleaseKernel? && exists n :: n in names && n in entries && c.kernel in entries[n].kernels.Values)
    decreases |names|
  {
    if names != [] {
      var k := |names| - 1;
      var last := names[k];
      var e := entries[last];
      assert Fits(entries, names[..k], orders[..k]);
      TeardownReleasesNothingElse(entries, names[..k], orders[..k]);
      EntryReleasesCover(e.program, e.kernels, orders[k]);
      var init := Teardown(entries, names[..k], orders[..k]);
      var tail := EntryReleases(e.program, e.kernels, orders[k]);
      assert Teardown(entries, names, orders) == init + tail;
      assert last in names;
      forall n | n in names[..k]
        ensures n in names
      {
        var i :| 0 <= i < k && names[..k][i] == n;
        assert names[i] == n;
      }
    }
  }
}
