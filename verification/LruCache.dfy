/** The cache as the crate keeps it: a map from secrets to entries carrying a use stamp and a mint
    stamp, with eviction by smallest use stamp. Every operation is proved to be the corresponding
    operation of the recency list. */
module LruCache {
  import opened Common
  import opened RecencyList

  datatype Entry<S> = Entry(value: S, lastUsed: nat, minted: nat)

  ghost predicate Matches<S>(entries: map<Secret, Entry<S>>, slot: Slot<S>) {
    && slot.secret in entries
    && entries[slot.secret].value == slot.value
    && entries[slot.secret].minted == slot.minted
  }

  /** The stamped map `entries` is the list `slots`: same secrets, values and mint stamps, and use
      stamps that strictly decrease along the list. */
  ghost predicate Represents<S>(entries: map<Secret, Entry<S>>, slots: seq<Slot<S>>) {
    && (forall i :: 0 <= i < |slots| ==> Matches(entries, slots[i]))
    && (forall k :: k in entries ==> Holds(slots, k))
    && (forall i, j :: 0 <= i < j < |slots| ==>
          entries[slots[j].secret].lastUsed < entries[slots[i].secret].lastUsed)
  }

  lemma RepresentsDistinct<S>(entries: map<Secret, Entry<S>>, slots: seq<Slot<S>>)
    requires Represents(entries, slots)
    ensures Distinct(slots)
  {
    forall i, j | 0 <= i < j < |slots|
      ensures slots[i].secret != slots[j].secret
    {
      assert entries[slots[j].secret].lastUsed < entries[slots[i].secret].lastUsed;
    }
  }

  lemma RepresentsDropLast<S>(entries: map<Secret, Entry<S>>, slots: seq<Slot<S>>)
    requires Represents(entries, slots) && slots != []
    ensures Represents(entries - {slots[|slots| - 1].secret}, slots[..|slots| - 1])
  {
    RepresentsDistinct(entries, slots);
    var n := |slots| - 1;
    forall k | k in entries - {slots[n].secret}
      ensures Holds(slots[..n], k)
    {
      var i := IndexOf(slots, k);
      assert slots[..n][i].secret == k;
    }
  }

  lemma {:induction false} SizeAgrees<S>(entries: map<Secret, Entry<S>>, slots: seq<Slot<S>>)
    requires Represents(entries, slots)
    ensures |entries| == |slots|
    decreases |slots|
  {
    if slots == [] {
      assert entries == map[];
    } else {
      var last := slots[|slots| - 1].secret;
      RepresentsDropLast(entries, slots);
      SizeAgrees(entries - {last}, slots[..|slots| - 1]);
      assert entries.Keys == (entries - {last}).Keys + {last};
    }
  }

  predicate IsOldest<S>(entries: map<Secret, Entry<S>>, oldest: Secret)
    requires oldest in entries
  {
    forall k :: k in entries ==> entries[oldest].lastUsed <= entries[k].lastUsed
  }

  /** The last slot is the one entry with the smallest use stamp. */
  lemma LastIsOldest<S>(entries: map<Secret, Entry<S>>, slots: seq<Slot<S>>)
    requires Represents(entries, slots) && |entries| > 0
    ensures |slots| == |entries| && slots[|slots| - 1].secret in entries
    ensures forall k :: k in entries && k != slots[|slots| - 1].secret ==>
              entries[slots[|slots| - 1].secret].lastUsed < entries[k].lastUsed
    ensures |entries - {slots[|slots| - 1].secret}| == |entries| - 1
  {
    SizeAgrees(entries, slots);
    var last := slots[|slots| - 1].secret;
    assert Matches(entries, slots[|slots| - 1]);
    assert entries.Keys == (entries - {last}).Keys + {last};
    forall k | k in entries && k != last
      ensures entries[last].lastUsed < entries[k].lastUsed
    {
      var i := IndexOf(slots, k);
    }
  }

  lemma OldestIsLast<S>(entries: map<Secret, Entry<S>>, slots: seq<Slot<S>>, oldest: Secret)
    requires Represents(entries, slots) && oldest in entries && IsOldest(entries, oldest)
    ensures slots != [] && oldest == slots[|slots| - 1].secret
  {
    LastIsOldest(entries, slots);
    assert entries[oldest].lastUsed <= entries[slots[|slots| - 1].secret].lastUsed;
  }

  lemma SameLast<S>(entries: map<Secret, Entry<S>>, a: seq<Slot<S>>, b: seq<Slot<S>>)
    requires Represents(entries, a) && Represents(entries, b) && |entries| > 0
    ensures |a| == |b| > 0 && a[|a| - 1] == b[|b| - 1]
  {
    LastIsOldest(entries, a);
    LastIsOldest(entries, b);
    assert Matches(entries, a[|a| - 1]) && Matches(entries, b[|b| - 1]);
  }

  /** The list is determined by the stamped map: the order the stamps induce is the only one. */
  lemma {:induction false} RepresentationUnique<S>(entries: map<Secret, Entry<S>>, a: seq<Slot<S>>, b: seq<Slot<S>>)
    requires Represents(entries, a) && Represents(entries, b)
    ensures a == b
    decreases |a|
  {
    hide Represents;
    SizeAgrees(entries, a);
    SizeAgrees(entries, b);
    if a != [] {
      var n := |a| - 1;
      SameLast(entries, a, b);
      var older := entries - {a[n].secret};
      assert a[..n] == b[..n] by {
        assert Represents(older, a[..n]) by { RepresentsDropLast(entries, a); }
        assert Represents(older, b[..n]) by { RepresentsDropLast(entries, b); }
        RepresentationUnique(older, a[..n], b[..n]);
      }
      assert a == a[..n] + [a[n]];
      assert b == b[..n] + [b[n]];
    }
  }

  lemma RepresentsWithout<S>(entries: map<Secret, Entry<S>>, slots: seq<Slot<S>>, secret: Secret)
    requires Represents(entries, slots)
    ensures Represents(entries - {secret}, Without(slots, secret))
  {
    RepresentsDistinct(entries, slots);
    var r := Without(slots, secret);
    WithoutDistinct(slots, secret);
    forall k | k in entries - {secret}
      ensures Holds(r, k)
    {
      WithoutKeeps(slots, secret, k);
    }
    forall k | 0 <= k < |r|
      ensures Matches(entries - {secret}, r[k])
    {
      assert r[k].secret != secret;
      var i := if Holds(slots, secret) && k >= IndexOf(slots, secret) then k + 1 else k;
      assert r[k] == slots[i] && Matches(entries, slots[i]);
    }
  }

  /** Putting an entry with a later use stamp than every other in front of the list. */
  lemma RepresentsFront<S>(entries: map<Secret, Entry<S>>, slots: seq<Slot<S>>, secret: Secret, entry: Entry<S>)
    requires Represents(entries, slots) && secret !in entries
    requires forall k :: k in entries ==> entries[k].lastUsed < entry.lastUsed
    ensures Represents(entries[secret := entry], [Slot(secret, entry.value, entry.minted)] + slots)
  {
    var e := entries[secret := entry];
    var r := [Slot(secret, entry.value, entry.minted)] + slots;
    forall i | 0 <= i < |r|
      ensures Matches(e, r[i])
    {
      if i > 0 {
        assert r[i] == slots[i - 1] && Matches(entries, slots[i - 1]);
      }
    }
    forall k | k in e
      ensures Holds(r, k)
    {
      if k == secret {
        assert r[0].secret == k;
      } else {
        var i := IndexOf(slots, k);
        assert r[i + 1].secret == k;
      }
    }
  }

  /** Storing an entry stamped later than every other moves its secret to the front. */
  lemma RepresentsStore<S>(entries: map<Secret, Entry<S>>, slots: seq<Slot<S>>, secret: Secret, entry: Entry<S>)
    requires Represents(entries, slots)
    requires forall k :: k in entries ==> entries[k].lastUsed < entry.lastUsed
    ensures Represents(entries[secret := entry],
                       [Slot(secret, entry.value, entry.minted)] + Without(slots, secret))
  {
    RepresentsWithout(entries, slots, secret);
    RepresentsFront(entries - {secret}, Without(slots, secret), secret, entry);
    assert entries[secret := entry] == (entries - {secret})[secret := entry];
  }

  lemma RoomForOne<S>(c: Cache<S>)
    requires WellFormed(c)
    ensures 1 <= c.capacity
  {
  }

  class Lru<S> {
    var capacity: nat
    var clock: nat
    var entries: map<Secret, Entry<S>>
    /** The list this cache is; kept by every method and tied to the fields by Valid. */
    ghost var model: Cache<S>

    ghost predicate Valid()
      reads this
    {
      && WellFormed(model)
      && model.capacity == capacity
      && model.clock == clock
      && Represents(entries, model.slots)
      && forall k :: k in entries ==> entries[k].lastUsed <= clock
    }

    constructor (size: nat)
      ensures Valid()
      ensures model == Cache(AtLeastOne(size), 0, []) && capacity == if size == 0 then 1 else size
    {
      capacity, clock, entries := if size < 1 then 1 else size, 0, map[];
      model := Cache(AtLeastOne(size), 0, []);
    }

    method Tick() returns (now: nat)
      modifies this`clock
      ensures now == clock == old(clock) + 1
    {
      clock := clock + 1;
      now := clock;
    }

    /** In a valid cache the map and the list hold the same secrets and agree on them. */
    lemma Agreement(secret: Secret)
      requires Valid()
      ensures secret in entries <==> Has(model, secret)
      ensures secret in entries ==> Matches(entries, SlotOf(model, secret))
    {
      if Has(model, secret) {
        assert Matches(entries, model.slots[IndexOf(model.slots, secret)]);
      }
    }

    method Get(secret: Secret) returns (found: Option<(S, nat)>)
      requires Valid()
      modifies this
      ensures Valid()
      ensures model == Touch(old(model), secret) && clock == old(clock) + 1
      ensures Has(old(model), secret) ==> model.slots != [] && model.slots[0].secret == secret
      ensures InOrderOf(model.slots, old(model).slots, secret)
      ensures found == if Has(old(model), secret)
                       then Some((SlotOf(old(model), secret).value, SlotOf(old(model), secret).minted))
                       else None
    {
      Agreement(secret);
      TouchKeepsWellFormed(model, secret);
      TouchMovesToFront(model, secret);
      var now := Tick();
      if secret !in entries {
        model := Touch(model, secret);
        return None;
      }
      var entry := entries[secret].(lastUsed := now);
      RepresentsStore(entries, model.slots, secret, entry);
      entries := entries[secret := entry];
      model := Touch(model, secret);
      return Some((entry.value, entry.minted));
    }

    method MintedAfter(secret: Secret, minted: nat) returns (found: Option<S>)
      requires Valid()
      modifies this
      ensures Valid()
      ensures model == Touch(old(model), secret)
      ensures Has(old(model), secret) ==> model.slots != [] && model.slots[0].secret == secret
      ensures InOrderOf(model.slots, old(model).slots, secret)
      ensures found == if Has(old(model), secret) && SlotOf(old(model), secret).minted > minted
                       then Some(SlotOf(old(model), secret).value) else None
    {
      var hit := Get(secret);
      match hit
      case None => return None;
      case Some((value, stamp)) => return if stamp > minted then Some(value) else None;
    }

    method EvictOldest()
      requires Valid() && |entries| > 0
      modifies this`entries, this`model
      ensures Valid() && |entries| == |old(entries)| - 1
      ensures old(model).slots != []
      ensures model == old(model).(slots := Cut(old(model).slots, |old(model).slots| - 1))
    {
      hide Represents, WellFormed;
      LastIsOldest(entries, model.slots);
      RepresentsDropLast(entries, model.slots);
      ghost var last := model.slots[|model.slots| - 1].secret;
      assert IsOldest(entries, last);
      var oldest :| oldest in entries && IsOldest(entries, oldest);
      OldestIsLast(entries, model.slots, oldest);
      CutKeepsWellFormed(model, |model.slots| - 1);
      entries := entries - {oldest};
      model := model.(slots := Cut(model.slots, |model.slots| - 1));
    }

    /** Evicts the entry with the smallest use stamp while there are more than `len`: what is left
        is the front of the list. */
    method TrimTo(len: nat)
      requires Valid()
      modifies this`entries, this`model
      ensures Valid()
      ensures model == old(model).(slots := Cut(old(model).slots, len))
    {
      hide Represents, WellFormed;
      SizeAgrees(entries, model.slots);
      while |entries| > len
        invariant Valid() && |entries| == |model.slots| <= |old(model).slots|
        invariant model == old(model).(slots := Cut(old(model).slots, |model.slots|))
        invariant |model.slots| == |old(model).slots| || |model.slots| >= len
      {
        EvictOldest();
      }
    }

    /** Stores a freshly stamped entry, in a cache that has room for it. */
    method StoreFresh(secret: Secret, value: S)
      requires Valid()
      modifies this
      ensures capacity == old(capacity) && clock == old(clock) + 1 && model == old(model)
      ensures Represents(entries, [Slot(secret, value, clock)] + Without(model.slots, secret))
      ensures forall k :: k in entries ==> entries[k].lastUsed <= clock
    {
      var now := Tick();
      var entry := Entry(value, now, now);
      RepresentsStore(entries, model.slots, secret, entry);
      hide Represents, WellFormed;
      entries := entries[secret := entry];
    }

    method Insert(secret: Secret, value: S)
      requires Valid()
      modifies this
      ensures Valid()
      ensures model == Put(old(model), secret, value)
      ensures model.slots != [] && model.slots[0] == Slot(secret, value, clock) && clock == old(clock) + 1
      ensures InOrderOf(model.slots, old(model).slots, secret)
    {
      hide Represents, WellFormed, Without, Holds, Cut, Put, InOrderOf, Matches;
      RoomForOne(model);
      PutGoesInFront(model, secret, value);
      Agreement(secret);
      PutKeepsWellFormed(model, secret, value);
      PutAfterCut(model, secret, value);
      if secret !in entries {
        TrimTo(capacity - 1);
      }
      StoreFresh(secret, value);
      model := Put(old(model), secret, value);
    }

    method Forget(secret: Secret)
      requires Valid()
      modifies this`entries, this`model
      ensures Valid()
      ensures model == Drop(old(model), secret)
      ensures !Has(model, secret) && InOrderOf(model.slots, old(model).slots, secret)
    {
      WithoutOrder(model.slots, secret);
      RepresentsWithout(entries, model.slots, secret);
      DropKeepsWellFormed(model, secret);
      entries := entries - {secret};
      model := Drop(model, secret);
    }

    method Clear()
      requires Valid()
      modifies this`entries, this`model
      ensures Valid()
      ensures model == Wipe(old(model))
    {
      entries := map[];
      model := Wipe(model);
    }

    method SetCapacity(size: nat)
      requires Valid()
      modifies this`capacity, this`entries, this`model
      ensures Valid()
      ensures model == Resize(old(model), size) && capacity == if size == 0 then 1 else size
      ensures model.slots <= old(model).slots
    {
      var wanted := if size < 1 then 1 else size;
      // The trim does not read the capacity, so the field is written once the list fits it.
      TrimTo(wanted);
      capacity := wanted;
      model := model.(capacity := wanted);
    }
  }
}
