/** Reveal-on-scroll: the IntersectionObserver callback that adds `in-view` to an
    element the first time it intersects the viewport and then stops observing it.

    The host decides when an element intersects (threshold 0.15, window root);
    here it only supplies the entries, in the order it delivers them. */
module Reveal {

  /** One observer entry: its target and whether the target now intersects. */
  datatype Entry<E> = Entry(target: E, isIntersecting: bool)

  /** The elements still observed, and the elements that carry `in-view`. */
  datatype Tracker<E> = Tracker(observed: set<E>, revealed: set<E>)

  /** Every registered element is either still observed or already revealed,
      never both. */
  predicate Consistent<E>(t: Tracker<E>, elements: set<E>) {
    t.observed !! t.revealed && t.observed + t.revealed == elements
  }

  /** The host delivers entries only for targets observed when it queued them. */
  predicate Deliverable<E>(t: Tracker<E>, entries: seq<Entry<E>>) {
    forall i :: 0 <= i < |entries| ==> entries[i].target in t.observed
  }

  /** The targets of the intersecting entries of a batch. */
  function Hits<E>(entries: seq<Entry<E>>): set<E> {
    set i | 0 <= i < |entries| && entries[i].isIntersecting :: entries[i].target
  }

  /** Registration: every `.animate-on-scroll` element is observed, none revealed. */
  function Start<E>(elements: set<E>): (t: Tracker<E>)
    ensures Consistent(t, elements) && t.revealed == {}
  {
    Tracker(elements, {})
  }

  /** One entry of the callback: an intersecting target is revealed and
      unobserved; any other entry changes nothing. */
  function OnEntry<E>(t: Tracker<E>, e: Entry<E>): (r: Tracker<E>)
    ensures e.isIntersecting ==> e.target in r.revealed && e.target !in r.observed
    ensures !e.isIntersecting ==> r == t
    ensures r.revealed - {e.target} == t.revealed - {e.target}
    ensures r.observed - {e.target} == t.observed - {e.target}
  {
    if e.isIntersecting then
      Tracker(t.observed - {e.target}, t.revealed + {e.target})
    else
      t
  }

  /** The callback over one batch of entries, in delivery order. */
  function OnEntries<E>(t: Tracker<E>, entries: seq<Entry<E>>): (r: Tracker<E>)
    ensures r.revealed == t.revealed + Hits(entries)
    ensures r.observed == t.observed - Hits(entries)
    decreases |entries|
  {
    if entries == [] then t
    else
      HitsCons(entries);
      OnEntries(OnEntry(t, entries[0]), entries[1..])
  }

  lemma HitsCons<E>(entries: seq<Entry<E>>)
    requires entries != []
    ensures Hits(entries) ==
      (if entries[0].isIntersecting then {entries[0].target} else {}) + Hits(entries[1..])
  {
    var rest := entries[1..];
    forall x | x in Hits(rest) ensures x in Hits(entries) {
      var i :| 0 <= i < |rest| && rest[i].isIntersecting && rest[i].target == x;
      assert entries[i + 1] == rest[i];
    }
  }

  /** The revealed set only grows and the observed set only shrinks. */
  lemma RevealedOnlyGrows<E>(t: Tracker<E>, entries: seq<Entry<E>>)
    ensures t.revealed <= OnEntries(t, entries).revealed
    ensures OnEntries(t, entries).observed <= t.observed
  {
  }

  /** A batch of non-intersecting entries leaves both sets unchanged. */
  lemma NonIntersectingIgnored<E>(t: Tracker<E>, entries: seq<Entry<E>>)
    requires forall i :: 0 <= i < |entries| ==> !entries[i].isIntersecting
    ensures OnEntries(t, entries) == t
  {
    assert Hits(entries) == {};
  }

  /** A batch the host can deliver keeps every element either observed or
      revealed, never both. */
  lemma CallbackKeepsConsistent<E>(t: Tracker<E>, elements: set<E>, entries: seq<Entry<E>>)
    requires Consistent(t, elements) && Deliverable(t, entries)
    ensures Consistent(OnEntries(t, entries), elements)
  {
    assert Hits(entries) <= t.observed;
  }

  /** Reveal-once: a revealed element is no longer observed, so no later batch
      names it, and it stays revealed and unobserved whatever the batch holds. */
  lemma RevealIsFinal<E>(t: Tracker<E>, elements: set<E>, entries: seq<Entry<E>>, x: E)
    requires Consistent(t, elements) && Deliverable(t, entries) && x in t.revealed
    ensures forall i :: 0 <= i < |entries| ==> entries[i].target != x
    ensures x in OnEntries(t, entries).revealed && x !in OnEntries(t, entries).observed
  {
  }

  /** The outcome of a batch depends only on which targets intersect, not on the
      order in which the host delivers the entries. */
  lemma DeliveryOrderIrrelevant<E>(t: Tracker<E>, a: seq<Entry<E>>, b: seq<Entry<E>>)
    requires multiset(a) == multiset(b)
    ensures OnEntries(t, a) == OnEntries(t, b)
  {
    forall x | x in Hits(a) ensures x in Hits(b) {
      var i :| 0 <= i < |a| && a[i].isIntersecting && a[i].target == x;
      assert a[i] in multiset(b);
    }
    forall x | x in Hits(b) ensures x in Hits(a) {
      var i :| 0 <= i < |b| && b[i].isIntersecting && b[i].target == x;
      assert b[i] in multiset(a);
    }
  }

  /** Successive callback batches over the page's lifetime. */
  function Run<E>(t: Tracker<E>, batches: seq<seq<Entry<E>>>): Tracker<E>
    decreases |batches|
  {
    if batches == [] then t else Run(OnEntries(t, batches[0]), batches[1..])
  }

  /** Each batch names only targets observed when the host queued it. */
  predicate HostRun<E>(t: Tracker<E>, batches: seq<seq<Entry<E>>>)
    decreases |batches|
  {
    batches == [] || (Deliverable(t, batches[0]) && HostRun(OnEntries(t, batches[0]), batches[1..]))
  }

  /** Over any run the host can produce, the partition into observed and
      revealed holds and a revealed element stays revealed and unobserved. */
  lemma {:induction false} RunKeepsRevealed<E>(t: Tracker<E>, elements: set<E>,
                                               batches: seq<seq<Entry<E>>>, x: E)
    requires Consistent(t, elements) && HostRun(t, batches) && x in t.revealed
    ensures Consistent(Run(t, batches), elements)
    ensures x in Run(t, batches).revealed && x !in Run(t, batches).observed
    decreases |batches|
  {
    if batches != [] {
      CallbackKeepsConsistent(t, elements, batches[0]);
      RunKeepsRevealed(OnEntries(t, batches[0]), elements, batches[1..], x);
    }
  }

  /** An element that once intersects is revealed for good after that batch. */
  lemma {:induction false} FirstHitRevealsForGood<E>(elements: set<E>,
                                                     batches: seq<seq<Entry<E>>>, k: int, i: int)
    requires HostRun(Start(elements), batches)
    requires 0 <= k < |batches| && 0 <= i < |batches[k]| && batches[k][i].isIntersecting
    ensures batches[k][i].target in Run(Start(elements), batches).revealed
  {
    var x := batches[k][i].target;
    var t := Run(Start(elements), batches[..k]);
    RunSplit(Start(elements), elements, batches, k);
    assert x in Hits(batches[k]);
    RunKeepsRevealed(OnEntries(t, batches[k]), elements, batches[k + 1..], x);
  }

  lemma {:induction false} RunSplit<E>(t: Tracker<E>, elements: set<E>,
                                       batches: seq<seq<Entry<E>>>, k: int)
    requires Consistent(t, elements) && HostRun(t, batches) && 0 <= k < |batches|
    ensures var mid := Run(t, batches[..k]);
      && Consistent(mid, elements)
      && Deliverable(mid, batches[k])
      && Consistent(OnEntries(mid, batches[k]), elements)
      && HostRun(OnEntries(mid, batches[k]), batches[k + 1..])
      && Run(t, batches) == Run(OnEntries(mid, batches[k]), batches[k + 1..])
    decreases k
  {
    CallbackKeepsConsistent(t, elements, batches[0]);
    if k > 0 {
      assert batches[1..][..k - 1] == batches[..k][1..];
      assert batches[1..][k - 1 + 1..] == batches[k + 1..];
      RunSplit(OnEntries(t, batches[0]), elements, batches[1..], k - 1);
    }
  }
}
