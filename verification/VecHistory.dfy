/** Weight histories: values indexed by the ledger at which they were set.

    The crate that implements them (warpdrive_shared::vec_history) is not part of
    this model. `Pushed` is the contract assumed of it: every registry property
    below holds for any push that meets it, whatever it prunes. `Push` is one such
    implementation, so the contract can be met. */
module VecHistory {
  const HISTORY_CUTOFF := 200

  datatype Entry = Entry(ledger: nat, value: nat)

  type History = seq<Entry>

  // The last entry at or before block b, else 0.
  function LookupAt(h: History, b: nat): nat {
    if h == [] then 0
    else if h[|h| - 1].ledger <= b then h[|h| - 1].value
    else LookupAt(h[..|h| - 1], b)
  }

  function Latest(h: History): nat {
    if h == [] then 0 else h[|h| - 1].value
  }

  ghost predicate Ordered(h: History, now: nat) {
    && (forall i, j :: 0 <= i < j < |h| ==> h[i].ledger < h[j].ledger)
    && (forall i :: 0 <= i < |h| ==> h[i].ledger <= now)
  }

  // Is block b still answered exactly at ledger `now`?
  predicate Retained(now: nat, b: nat) {
    now <= b + HISTORY_CUTOFF
  }

  ghost predicate Pushed(h: History, now: nat, value: int, h': History) {
    && Ordered(h', now)
    && Latest(h') == value
    && forall b: nat :: b < now && Retained(now, b) ==> LookupAt(h', b) == LookupAt(h, b)
  }

  lemma LatestIsLookup(h: History, now: nat, b: nat)
    requires Ordered(h, now) && now <= b
    ensures LookupAt(h, b) == Latest(h)
  {
  }

  lemma {:induction false} LookupBefore(h: History, e: Entry, b: nat)
    requires b < e.ledger
    ensures LookupAt(h + [e], b) == LookupAt(h, b)
  {
    assert (h + [e])[..|h|] == h;
  }

  // Dropping a prefix that ends before the entry answering for `b` changes nothing at b.
  lemma {:induction false} DropPrefix(h: History, n: nat, b: nat)
    requires n < |h| && h[n].ledger <= b
    ensures LookupAt(h[n..], b) == LookupAt(h, b)
  {
    if |h| > n + 1 && b < h[|h| - 1].ledger {
      DropPrefix(h[..|h| - 1], n, b);
      assert h[..|h| - 1][n..] == h[n..][..|h[n..]| - 1];
    }
  }

  // Writing an entry in place of one at the same ledger changes nothing before it.
  lemma {:induction false} Overwritten(h: History, kept: History, e: Entry, b: nat)
    requires b < e.ledger
    requires h == kept || (h != [] && h == kept + [h[|h| - 1]] && h[|h| - 1].ledger == e.ledger)
    ensures LookupAt(kept + [e], b) == LookupAt(h, b)
  {
    LookupBefore(kept, e, b);
    if h != kept {
      LookupBefore(kept, h[|h| - 1], b);
    }
  }

  lemma {:induction false} OrderedTail(h: History, kept: History, now: nat, value: nat, n: nat)
    requires Ordered(h, now) && kept <= h && n <= |kept|
    requires kept != [] ==> kept[|kept| - 1].ledger < now
    ensures Ordered((kept + [Entry(now, value)])[n..], now)
  {
    var full := kept + [Entry(now, value)];
    forall i, j | 0 <= i < j < |full| ensures full[i].ledger < full[j].ledger {
      assert full[i] == h[i];
      assert j < |kept| ==> full[j] == h[j];
      assert i < |kept| - 1 ==> h[i].ledger < h[|kept| - 1].ledger;
    }
  }

  // What the push below leaves, for any prefix it drops.
  lemma {:induction false} PrunedPush(h: History, kept: History, now: nat, value: nat, n: nat)
    requires Ordered(h, now) && n <= |kept|
    requires h == kept || (h != [] && h == kept + [h[|h| - 1]] && h[|h| - 1].ledger == now)
    requires kept != [] ==> kept[|kept| - 1].ledger < now
    requires n > 0 ==> (kept + [Entry(now, value)])[n].ledger + HISTORY_CUTOFF <= now
    ensures Pushed(h, now, value, (kept + [Entry(now, value)])[n..])
  {
    var full := kept + [Entry(now, value)];
    OrderedTail(h, kept, now, value, n);
    forall b: nat | b < now && Retained(now, b)
      ensures LookupAt(full[n..], b) == LookupAt(h, b)
    {
      Overwritten(h, kept, Entry(now, value), b);
      if n > 0 {
        DropPrefix(full, n, b);
      }
    }
  }

  // Same-ledger pushes overwrite; entries older than the one answering for the
  // cutoff block are dropped.
  method Push(h: History, now: nat, value: nat) returns (h': History)
    requires Ordered(h, now)
    ensures Pushed(h, now, value, h')
  {
    var kept := if h != [] && h[|h| - 1].ledger == now then h[..|h| - 1] else h;
    assert h == kept || h == kept + [h[|h| - 1]];
    var full := kept + [Entry(now, value)];
    var n := 0;
    while n + 1 < |full| && full[n + 1].ledger + HISTORY_CUTOFF <= now
      invariant n < |full|
      invariant n > 0 ==> full[n].ledger + HISTORY_CUTOFF <= now
    {
      n := n + 1;
    }
    PrunedPush(h, kept, now, value, n);
    h' := full[n..];
  }
}
