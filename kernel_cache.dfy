/** The per-(program entry, entry-point name) state machine behind kernel
    lookup: a name starts Unresolved (in neither the kernel map nor the
    invalid-name set), and the first lookup that reaches native kernel creation
    moves it to Resolved (creation succeeded, the kernel is cached) or Invalid
    (creation failed, the name is negatively cached). Nothing moves it again
    until the program entry is replaced. */
module KernelCache {
  import opened Wrappers

  datatype KernelState<K> = Unresolved | Resolved(kernel: K) | Invalid

  /** The invariant of a program entry: no name is both cached and invalid. */
  predicate Disjoint<K>(kernels: map<string, K>, invalid: set<string>)
  {
    kernels.Keys !! invalid
  }

  /** Where `name` stands in an entry with the given kernel map and invalid
      set. The invalid set is consulted first, as the lookup does. */
  function StateOf<K>(kernels: map<string, K>, invalid: set<string>, name: string): KernelState<K>
  {
    if name in invalid then Invalid
    else if name in kernels then Resolved(kernels[name])
    else Unresolved
  }

  /** What a lookup returns once the name stands in state `s`. */
  function Found<K>(s: KernelState<K>): Option<K>
  {
    if s.Resolved? then Some(s.kernel) else None
  }

  /** Whether a lookup in state `s` calls native kernel creation. */
  predicate Attempts<K>(s: KernelState<K>)
  {
    s.Unresolved?
  }

  /** One lookup of a name whose program entry exists. `created` is what
      native creation yields if it is called: Some(kernel) on success, None on
      any error status. */
  function Step<K>(s: KernelState<K>, created: Option<K>): (t: KernelState<K>)
    // a cached kernel and a negatively cached name are never looked up again
    ensures !Attempts(s) ==> t == s
    // one attempt settles the name for good, and the lookup returns its result
    ensures Attempts(s) ==> !Attempts(t) && Found(t) == created
  {
    match s
    case Unresolved => if created.Some? then Resolved(created.value) else Invalid
    case _ => s
  }

  /** The results of a series of lookups of one name against one unchanged
      program entry; `created[i]` is what native creation would yield on the
      i-th lookup. */
  function Returns<K>(s: KernelState<K>, created: seq<Option<K>>): (rs: seq<Option<K>>)
    ensures |rs| == |created|
    decreases |created|
  {
    if created == [] then []
    else
      var t := Step(s, created[0]);
      [Found(t)] + Returns(t, created[1..])
  }

  /** How many of those lookups call native kernel creation. */
  function AttemptCount<K>(s: KernelState<K>, created: seq<Option<K>>): nat
    decreases |created|
  {
    if created == [] then 0
    else (if Attempts(s) then 1 else 0) + AttemptCount(Step(s, created[0]), created[1..])
  }

  /** Once a name is resolved or invalid, no further lookup creates a kernel
      and every lookup returns the same answer. */
  lemma {:induction false} SettledLookupsRepeat<K>(s: KernelState<K>, created: seq<Option<K>>)
    requires !Attempts(s)
    ensures AttemptCount(s, created) == 0
    ensures forall i :: 0 <= i < |created| ==> Returns(s, created)[i] == Found(s)
    decreases |created|
  {
    if created != [] {
      SettledLookupsRepeat(s, created[1..]);
    }
  }

  /** Native kernel creation is attempted at most once per name, and exactly
      once when the name starts unresolved and is looked up at all. */
  lemma {:induction false} CreationAttemptedAtMostOnce<K>(s: KernelState<K>, created: seq<Option<K>>)
    ensures AttemptCount(s, created) <= 1
    ensures AttemptCount(s, created) == 1 <==> Attempts(s) && created != []
  {
    if created != [] {
      SettledLookupsRepeat(Step(s, created[0]), created[1..]);
    }
  }

  /** Every lookup in a series returns what the first one returned: the same
      cached kernel after a success (memoization), null after a failure
      (negative caching). */
  lemma {:induction false} LookupsAgree<K>(s: KernelState<K>, created: seq<Option<K>>)
    ensures forall i :: 0 <= i < |created| ==> Returns(s, created)[i] == Found(Step(s, created[0]))
  {
    if created != [] {
      var t := Step(s, created[0]);
      SettledLookupsRepeat(t, created[1..]);
      forall i | 0 <= i < |created|
        ensures Returns(s, created)[i] == Found(t)
      {
        if i > 0 {
          assert Returns(s, created)[i] == Returns(t, created[1..])[i - 1];
        }
      }
    }
  }
}
