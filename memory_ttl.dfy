/**
 * The time-bound memory store: entries carry an expiry time; reading drops
 * the expired ones for good. The clock is an explicit `now` parameter.
 */
module MemoryTtl {

  datatype Entry = Entry(content: string, reason: string, expiresAt: real)

  /** The entries still alive at `now`, in insertion order. */
  function Unexpired(entries: seq<Entry>, now: real): seq<Entry>
    decreases |entries|
  {
    if entries == [] then []
    else (if entries[0].expiresAt > now then [entries[0]] else []) + Unexpired(entries[1..], now)
  }

  /** An entry survives exactly when it was stored and expires after `now`. */
  lemma {:induction false} UnexpiredMembers(entries: seq<Entry>, now: real, e: Entry)
    ensures e in Unexpired(entries, now) <==> e in entries && e.expiresAt > now
    decreases |entries|
  {
    if entries != [] {
      UnexpiredMembers(entries[1..], now, e);
      assert e in entries <==> e == entries[0] || e in entries[1..] by {
        assert entries == [entries[0]] + entries[1..];
      }
    }
  }

  /** Filtering distributes over concatenation, so surviving entries keep their relative order. */
  lemma {:induction false} UnexpiredConcat(a: seq<Entry>, b: seq<Entry>, now: real)
    ensures Unexpired(a + b, now) == Unexpired(a, now) + Unexpired(b, now)
    decreases |a|
  {
    if a == [] {
      assert a + b == b;
    } else {
      assert (a + b)[1..] == a[1..] + b;
      UnexpiredConcat(a[1..], b, now);
    }
  }

  /** Reading at a later time after reading at an earlier one is reading at the later time; in particular two reads at the same time agree. */
  lemma {:induction false} UnexpiredLater(entries: seq<Entry>, t1: real, t2: real)
    requires t1 <= t2
    ensures Unexpired(Unexpired(entries, t1), t2) == Unexpired(entries, t2)
    decreases |entries|
  {
    if entries != [] {
      UnexpiredLater(entries[1..], t1, t2);
      var head := if entries[0].expiresAt > t1 then [entries[0]] else [];
      UnexpiredConcat(head, Unexpired(entries[1..], t1), t2);
    }
  }

  /** A freshly written entry with a positive time-to-live is visible at the time of writing. */
  lemma FreshEntryVisible(entries: seq<Entry>, e: Entry, now: real)
    requires e.expiresAt > now
    ensures Unexpired(entries + [e], now) == Unexpired(entries, now) + [e]
  {
    UnexpiredConcat(entries, [e], now);
  }

  class MemoryStore {
    var store: seq<Entry>

    constructor ()
      ensures store == []
    {
      store := [];
    }

    method Write(content: string, reason: string, ttlSeconds: int, now: real)
      modifies this
      ensures store == old(store) + [Entry(content, reason, now + ttlSeconds as real)]
    {
      var expiresAt := now + ttlSeconds as real;
      store := store + [Entry(content, reason, expiresAt)];
    }

    method Read(now: real) returns (live: seq<Entry>)
      modifies this
      ensures store == Unexpired(old(store), now)
      ensures live == store
      ensures forall k :: 0 <= k < |live| ==> live[k].expiresAt > now
    {
      store := Unexpired(store, now);
      live := store;
      forall k | 0 <= k < |live| ensures live[k].expiresAt > now {
        UnexpiredMembers(old(store), now, live[k]);
      }
    }

    method Clear()
      modifies this
      ensures store == []
    {
      store := [];
    }
  }
}
