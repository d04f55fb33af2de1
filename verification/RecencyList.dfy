/** The recency list a session cache is meant to be: slots ordered by last use, the most recent
    first, never more than `capacity` of them. The stamped map of module LruCache is proved to be
    this list, and module SessionProtocol builds on it. */
module RecencyList {

  datatype Secret = Secret(text: string)

  datatype Slot<S> = Slot(secret: Secret, value: S, minted: nat)

  /** `clock` is the logical clock that stamps uses and mints. */
  datatype Cache<S> = Cache(capacity: nat, clock: nat, slots: seq<Slot<S>>)

  predicate Distinct<S>(slots: seq<Slot<S>>) {
    forall i, j :: 0 <= i < j < |slots| ==> slots[i].secret != slots[j].secret
  }

  predicate WellFormed<S>(c: Cache<S>) {
    && 1 <= c.capacity
    && |c.slots| <= c.capacity
    && Distinct(c.slots)
    && forall i :: 0 <= i < |c.slots| ==> 1 <= c.slots[i].minted <= c.clock
  }

  predicate Holds<S>(slots: seq<Slot<S>>, secret: Secret) {
    exists i :: 0 <= i < |slots| && slots[i].secret == secret
  }

  predicate Has<S>(c: Cache<S>, secret: Secret) {
    Holds(c.slots, secret)
  }

  function Scan<S>(slots: seq<Slot<S>>, secret: Secret, from: nat): (i: nat)
    requires from <= |slots|
    requires exists j :: from <= j < |slots| && slots[j].secret == secret
    ensures from <= i < |slots| && slots[i].secret == secret
    decreases |slots| - from
  {
    if slots[from].secret == secret then from else Scan(slots, secret, from + 1)
  }

  /** The position of a secret that is in the list. */
  function IndexOf<S>(slots: seq<Slot<S>>, secret: Secret): (i: nat)
    requires Holds(slots, secret)
    ensures i < |slots| && slots[i].secret == secret
  {
    Scan(slots, secret, 0)
  }

  function SlotOf<S>(c: Cache<S>, secret: Secret): (s: Slot<S>)
    requires Has(c, secret)
    ensures s.secret == secret && s in c.slots
  {
    c.slots[IndexOf(c.slots, secret)]
  }

  function RemoveAt<S>(slots: seq<Slot<S>>, i: nat): (r: seq<Slot<S>>)
    requires i < |slots|
    ensures |r| == |slots| - 1
    ensures forall k :: 0 <= k < |r| ==> r[k] == slots[if k < i then k else k + 1]
  {
    slots[..i] + slots[i + 1..]
  }

  function Without<S>(slots: seq<Slot<S>>, secret: Secret): (r: seq<Slot<S>>)
    ensures |slots| - 1 <= |r| <= |slots|
  {
    if Holds(slots, secret) then RemoveAt(slots, IndexOf(slots, secret)) else slots
  }

  function Cut<S>(slots: seq<Slot<S>>, len: nat): seq<Slot<S>> {
    if |slots| <= len then slots else slots[..len]
  }

  /** A lookup: one tick, and a hit moves its slot to the front. */
  function Touch<S>(c: Cache<S>, secret: Secret): Cache<S> {
    c.(clock := c.clock + 1,
       slots := if Has(c, secret) then [SlotOf(c, secret)] + Without(c.slots, secret) else c.slots)
  }

  /** A mint: the new slot goes to the front, cutting the list first when the secret is new. */
  function Put<S>(c: Cache<S>, secret: Secret, value: S): Cache<S>
    requires 1 <= c.capacity
  {
    var rest := if Has(c, secret) then Without(c.slots, secret) else Cut(c.slots, c.capacity - 1);
    c.(clock := c.clock + 1, slots := [Slot(secret, value, c.clock + 1)] + rest)
  }

  function Drop<S>(c: Cache<S>, secret: Secret): Cache<S> {
    c.(slots := Without(c.slots, secret))
  }

  function Wipe<S>(c: Cache<S>): Cache<S> {
    c.(slots := [])
  }

  function AtLeastOne(n: nat): nat {
    if n < 1 then 1 else n
  }

  function Resize<S>(c: Cache<S>, capacity: nat): Cache<S> {
    c.(capacity := AtLeastOne(capacity), slots := Cut(c.slots, AtLeastOne(capacity)))
  }

  lemma WithoutDistinct<S>(slots: seq<Slot<S>>, secret: Secret)
    requires Distinct(slots)
    ensures Distinct(Without(slots, secret))
    ensures !Holds(Without(slots, secret), secret)
  {
  }

  lemma WithoutKeeps<S>(slots: seq<Slot<S>>, secret: Secret, other: Secret)
    requires other != secret
    ensures Holds(Without(slots, secret), other) == Holds(slots, other)
  {
    if Holds(slots, secret) {
      var i := IndexOf(slots, secret);
      var r := RemoveAt(slots, i);
      if Holds(slots, other) {
        var j := IndexOf(slots, other);
        assert r[if j < i then j else j - 1].secret == other;
      }
      if Holds(r, other) {
        var j := IndexOf(r, other);
        assert slots[if j < i then j else j + 1].secret == other;
      }
    }
  }

  /** In a list of distinct secrets, the slot found for a secret is the only one it has. */
  lemma FoundIsOnly<S>(c: Cache<S>, secret: Secret, i: nat)
    requires Distinct(c.slots) && i < |c.slots| && c.slots[i].secret == secret
    ensures Has(c, secret) && SlotOf(c, secret) == c.slots[i]
  {
    assert Has(c, secret);
    var j := IndexOf(c.slots, secret);
    assert j < i || i < j || i == j;
  }

  lemma TouchKeepsWellFormed<S>(c: Cache<S>, secret: Secret)
    requires WellFormed(c)
    ensures WellFormed(Touch(c, secret))
  {
    if Has(c, secret) {
      WithoutDistinct(c.slots, secret);
      var w := Without(c.slots, secret);
      var t := Touch(c, secret);
      assert forall k :: 1 <= k < |t.slots| ==> t.slots[k] == w[k - 1];
      assert t.slots[0] == c.slots[IndexOf(c.slots, secret)];
      assert forall k :: 0 <= k < |w| ==> w[k].secret != secret;
    }
  }

  lemma PutKeepsWellFormed<S>(c: Cache<S>, secret: Secret, value: S)
    requires WellFormed(c)
    ensures WellFormed(Put(c, secret, value))
  {
    WithoutDistinct(c.slots, secret);
    var rest := if Has(c, secret) then Without(c.slots, secret) else Cut(c.slots, c.capacity - 1);
    var p := Put(c, secret, value);
    assert forall k :: 1 <= k < |p.slots| ==> p.slots[k] == rest[k - 1];
    assert forall k :: 0 <= k < |rest| ==> rest[k].secret != secret;
  }

  lemma CutKeepsWellFormed<S>(c: Cache<S>, len: nat)
    requires WellFormed(c)
    ensures WellFormed(c.(slots := Cut(c.slots, len)))
  {
  }

  lemma DropKeepsWellFormed<S>(c: Cache<S>, secret: Secret)
    requires WellFormed(c)
    ensures WellFormed(Drop(c, secret)) && !Has(Drop(c, secret), secret)
  {
    WithoutDistinct(c.slots, secret);
  }

  lemma FrontBySecret<S>(first: Slot<S>, rest: seq<Slot<S>>, other: Secret)
    ensures Holds([first] + rest, other) == (first.secret == other || Holds(rest, other))
  {
    var t := [first] + rest;
    if Holds(t, other) && first.secret != other {
      assert rest[IndexOf(t, other) - 1].secret == other;
    }
    if Holds(rest, other) {
      assert t[IndexOf(rest, other) + 1].secret == other;
    }
    if first.secret == other {
      assert t[0].secret == other;
    }
  }

  /** A lookup changes no slot. */
  lemma TouchBySecret<S>(c: Cache<S>, secret: Secret, other: Secret)
    requires WellFormed(c)
    ensures Has(Touch(c, secret), other) == Has(c, other)
    ensures Has(c, other) ==> SlotOf(Touch(c, secret), other) == SlotOf(c, other)
  {
    if Has(c, secret) {
      TouchKeepsWellFormed(c, secret);
      assert Distinct(c.slots) && Distinct(Touch(c, secret).slots);
      hide WellFormed, Distinct;
      var t := Touch(c, secret);
      FrontBySecret(SlotOf(c, secret), Without(c.slots, secret), other);
      if other != secret {
        WithoutKeeps(c.slots, secret, other);
        if Has(c, other) {
          var i, j := IndexOf(c.slots, secret), IndexOf(c.slots, other);
          FoundIsOnly(t, other, if j < i then j + 1 else j);
        }
      } else {
        FoundIsOnly(t, secret, 0);
      }
    }
  }

  /** A mint is a front insertion into the list once it has been cut to make room. */
  lemma PutAfterCut<S>(c: Cache<S>, secret: Secret, value: S)
    requires 1 <= c.capacity
    ensures var room := if Has(c, secret) then c.slots else Cut(c.slots, c.capacity - 1);
            Put(c, secret, value) ==
              c.(clock := c.clock + 1, slots := [Slot(secret, value, c.clock + 1)] + Without(room, secret))
  {
    if !Has(c, secret) {
      var cut := Cut(c.slots, c.capacity - 1);
      assert forall i :: 0 <= i < |cut| ==> cut[i] == c.slots[i];
      assert !Holds(cut, secret);
    }
  }

  /** A mint stores its own slot, stamped with the new clock, and changes no other slot it keeps. */
  lemma PutBySecret<S>(c: Cache<S>, secret: Secret, value: S, other: Secret)
    requires WellFormed(c)
    ensures Has(Put(c, secret, value), secret)
    ensures SlotOf(Put(c, secret, value), secret) == Slot(secret, value, c.clock + 1)
    ensures other != secret && Has(Put(c, secret, value), other) ==>
              Has(c, other) && SlotOf(Put(c, secret, value), other) == SlotOf(c, other)
  {
    PutKeepsWellFormed(c, secret, value);
    var p := Put(c, secret, value);
    assert Distinct(c.slots) && Distinct(p.slots);
    hide WellFormed, Distinct;
    FoundIsOnly(p, secret, 0);
    if other != secret && Has(p, other) {
      var k := IndexOf(p.slots, other) - 1;
      var i := if Has(c, secret) && k >= IndexOf(c.slots, secret) then k + 1 else k;
      assert p.slots[k + 1] == c.slots[i];
      FoundIsOnly(c, other, i);
    }
  }

  lemma DropBySecret<S>(c: Cache<S>, secret: Secret, other: Secret)
    requires WellFormed(c)
    ensures Has(Drop(c, secret), other) == (Has(c, other) && other != secret)
    ensures Has(Drop(c, secret), other) ==> SlotOf(Drop(c, secret), other) == SlotOf(c, other)
  {
    DropKeepsWellFormed(c, secret);
    if other != secret {
      WithoutKeeps(c.slots, secret, other);
      if Has(c, secret) && Has(c, other) {
        var i := IndexOf(c.slots, secret);
        var j := IndexOf(c.slots, other);
        var k := if j < i then j else j - 1;
        FoundIsOnly(Drop(c, secret), other, k);
      }
    }
  }

  /** A full cache whose least recently used secret is `other`: the next new secret evicts it. */
  predicate NextToGo<S>(c: Cache<S>, other: Secret) {
    |c.slots| > 0 && |c.slots| == c.capacity && c.slots[|c.slots| - 1].secret == other
  }

  /** A mint of a new secret removes the last of a full list and nothing else. */
  lemma PutEvicts<S>(c: Cache<S>, secret: Secret, value: S, other: Secret)
    requires WellFormed(c) && !Has(c, secret) && Has(c, other)
    ensures Has(Put(c, secret, value), other) <==> !NextToGo(c, other)
  {
    var n, i := |c.slots|, IndexOf(c.slots, other);
    var cut := Cut(c.slots, c.capacity - 1);
    FrontBySecret(Slot(secret, value, c.clock + 1), cut, other);
    assert Holds(cut, other) <==> i < |cut| by {
      if i < |cut| { assert cut[i].secret == other; }
      if Holds(cut, other) { FoundIsOnly(c, other, IndexOf(cut, other)); }
    }
    FoundIsOnly(c, other, i);
  }

  /** A new capacity keeps exactly the secrets whose place in the list is within it. */
  lemma ResizeBySecret<S>(c: Cache<S>, capacity: nat, other: Secret)
    requires WellFormed(c)
    ensures WellFormed(Resize(c, capacity))
    ensures Has(Resize(c, capacity), other) <==> Has(c, other) && IndexOf(c.slots, other) < AtLeastOne(capacity)
    ensures Has(Resize(c, capacity), other) ==> SlotOf(Resize(c, capacity), other) == SlotOf(c, other)
  {
    var r := Resize(c, capacity);
    if Has(r, other) {
      FoundIsOnly(c, other, IndexOf(r.slots, other));
    }
    if Has(c, other) && IndexOf(c.slots, other) < AtLeastOne(capacity) {
      assert r.slots[IndexOf(c.slots, other)].secret == other;
    }
  }

  // ----- The order of use -----

  /** `x` was used more recently than `y`. */
  predicate Before<S>(slots: seq<Slot<S>>, x: Secret, y: Secret) {
    exists i, j :: 0 <= i < j < |slots| && slots[i].secret == x && slots[j].secret == y
  }

  /** What `after` holds besides `secret` stands in the order it had in `before`. */
  ghost predicate InOrderOf<S>(after: seq<Slot<S>>, before: seq<Slot<S>>, secret: Secret) {
    forall x, y :: x != secret && y != secret && Before(after, x, y) ==> Before(before, x, y)
  }

  lemma WithoutOrder<S>(slots: seq<Slot<S>>, secret: Secret)
    ensures InOrderOf(Without(slots, secret), slots, secret)
  {
    if Holds(slots, secret) {
      var p, r := IndexOf(slots, secret), Without(slots, secret);
      forall x, y | Before(r, x, y) ensures Before(slots, x, y) {
        var i, j :| 0 <= i < j < |r| && r[i].secret == x && r[j].secret == y;
        assert slots[if i < p then i else i + 1].secret == x && slots[if j < p then j else j + 1].secret == y;
      }
    }
  }

  lemma CutOrder<S>(slots: seq<Slot<S>>, len: nat, secret: Secret)
    ensures InOrderOf(Cut(slots, len), slots, secret)
  {
    var r := Cut(slots, len);
    forall x, y | Before(r, x, y) ensures Before(slots, x, y) {
      var i, j :| 0 <= i < j < |r| && r[i].secret == x && r[j].secret == y;
      assert slots[i].secret == x && slots[j].secret == y;
    }
  }

  lemma FrontOrder<S>(first: Slot<S>, rest: seq<Slot<S>>, slots: seq<Slot<S>>)
    requires InOrderOf(rest, slots, first.secret)
    ensures InOrderOf([first] + rest, slots, first.secret)
  {
    var r := [first] + rest;
    forall x, y | x != first.secret && y != first.secret && Before(r, x, y) ensures Before(rest, x, y) {
      var i, j :| 0 <= i < j < |r| && r[i].secret == x && r[j].secret == y;
      assert rest[i - 1].secret == x && rest[j - 1].secret == y;
    }
  }

  /** A lookup that hits makes its secret the most recently used and leaves the others in order. */
  lemma TouchMovesToFront<S>(c: Cache<S>, secret: Secret)
    ensures Has(c, secret) ==> Touch(c, secret).slots != [] && Touch(c, secret).slots[0].secret == secret
    ensures InOrderOf(Touch(c, secret).slots, c.slots, secret)
    ensures !Has(c, secret) ==> Touch(c, secret).slots == c.slots
  {
    if Has(c, secret) {
      WithoutOrder(c.slots, secret);
      FrontOrder(SlotOf(c, secret), Without(c.slots, secret), c.slots);
    }
  }

  /** A mint makes its secret the most recently used and leaves the others it keeps in order. */
  lemma PutGoesInFront<S>(c: Cache<S>, secret: Secret, value: S)
    requires 1 <= c.capacity
    ensures Put(c, secret, value).slots != [] && Put(c, secret, value).slots[0].secret == secret
    ensures InOrderOf(Put(c, secret, value).slots, c.slots, secret)
  {
    WithoutOrder(c.slots, secret);
    CutOrder(c.slots, c.capacity - 1, secret);
    var rest := if Has(c, secret) then Without(c.slots, secret) else Cut(c.slots, c.capacity - 1);
    FrontOrder(Slot(secret, value, c.clock + 1), rest, c.slots);
  }

  /** A run of mints. */
  function PutAll<S>(c: Cache<S>, mints: seq<(Secret, S)>): Cache<S>
    requires 1 <= c.capacity
    decreases |mints|
  {
    if mints == [] then c else PutAll(Put(c, mints[0].0, mints[0].1), mints[1..])
  }

  /** A mint of another secret moves a secret back by one place at most, and drops it only from the
      last place. */
  lemma PutMovesBack<S>(c: Cache<S>, secret: Secret, value: S, other: Secret)
    requires WellFormed(c) && Has(c, other) && other != secret && IndexOf(c.slots, other) + 1 < c.capacity
    ensures Has(Put(c, secret, value), other)
    ensures IndexOf(Put(c, secret, value).slots, other) <= IndexOf(c.slots, other) + 1
  {
    PutKeepsWellFormed(c, secret, value);
    var k := PutPlace(c, secret, value, IndexOf(c.slots, other));
    OnlyIndex(Put(c, secret, value), other, k);
  }

  lemma PutPlace<S>(c: Cache<S>, secret: Secret, value: S, i: nat) returns (k: nat)
    requires i < |c.slots| && c.slots[i].secret != secret && i + 1 < c.capacity
    ensures k <= i + 1 && k < |Put(c, secret, value).slots| && Put(c, secret, value).slots[k] == c.slots[i]
  {
    k := i + 1;
    if Has(c, secret) && IndexOf(c.slots, secret) < i { k := i; }
  }

  lemma OnlyIndex<S>(c: Cache<S>, secret: Secret, k: nat)
    requires WellFormed(c) && k < |c.slots| && c.slots[k].secret == secret
    ensures Has(c, secret) && IndexOf(c.slots, secret) == k
  {
    assert Has(c, secret);
    var j := IndexOf(c.slots, secret);
    assert j < k || k < j || j == k;
  }

  lemma {:induction false} StaysWithin<S>(c: Cache<S>, mints: seq<(Secret, S)>, secret: Secret)
    requires WellFormed(c) && Has(c, secret) && IndexOf(c.slots, secret) + |mints| < c.capacity
    requires forall i :: 0 <= i < |mints| ==> mints[i].0 != secret
    ensures Has(PutAll(c, mints), secret)
    decreases |mints|
  {
    if mints != [] {
      PutMovesBack(c, mints[0].0, mints[0].1, secret);
      PutKeepsWellFormed(c, mints[0].0, mints[0].1);
      StaysWithin(Put(c, mints[0].0, mints[0].1), mints[1..], secret);
    }
  }

  /** A secret just looked up survives any run of other secrets' mints shorter than the capacity. */
  lemma JustUsedSurvives<S>(c: Cache<S>, secret: Secret, mints: seq<(Secret, S)>)
    requires WellFormed(c) && Has(c, secret) && |mints| < c.capacity
    requires forall i :: 0 <= i < |mints| ==> mints[i].0 != secret
    ensures Has(PutAll(Touch(c, secret), mints), secret)
  {
    TouchKeepsWellFormed(c, secret);
    OnlyIndex(Touch(c, secret), secret, 0);
    StaysWithin(Touch(c, secret), mints, secret);
  }
}
