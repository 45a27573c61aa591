/** Permission profiles: JSON trees ordered by cover, with the code's intersection and merge. */
module Permissions {
  import opened Text

  /** A JSON value. `Scalar` stands for booleans, numbers and strings, told apart by an abstract code. */
  datatype Value = Null | Scalar(code: int) | Items(items: seq<Value>) | Fields(fields: map<string, Value>)

  type Profile = map<string, Value>

  /** Whether `container` grants everything `candidate` asks for. */
  predicate Covers(container: Value, candidate: Value) {
    match candidate
    case Fields(asked) =>
      container.Fields? && forall k | k in asked :: k in container.fields && Covers(container.fields[k], asked[k])
    case Items(asked) =>
      && container.Items?
      && forall v | v in asked :: exists i | 0 <= i < |container.items| :: Covers(container.items[i], v)
    case Null => container == candidate
    case Scalar(_) => container == candidate
  }

  // ---- Cover is a preorder -------------------------------------------------------------------

  lemma {:induction false} CoversReflexive(a: Value)
    ensures Covers(a, a)
  {
    match a
    case Fields(m) =>
      forall k | k in m ensures Covers(m[k], m[k]) { CoversReflexive(m[k]); }
    case Items(s) =>
      forall v | v in s ensures exists i | 0 <= i < |s| :: Covers(s[i], v) {
        CoversReflexive(v);
      }
    case Null =>
    case Scalar(_) =>
  }

  lemma {:induction false} CoversTransitive(a: Value, b: Value, c: Value)
    requires Covers(a, b) && Covers(b, c)
    ensures Covers(a, c)
    decreases c
  {
    match c
    case Fields(m) =>
      forall k | k in m ensures k in a.fields && Covers(a.fields[k], m[k]) {
        CoversTransitive(a.fields[k], b.fields[k], m[k]);
      }
    case Items(s) =>
      forall v | v in s ensures exists i | 0 <= i < |a.items| :: Covers(a.items[i], v) {
        var j :| 0 <= j < |b.items| && Covers(b.items[j], v);
        assert b.items[j] in b.items;
        var i :| 0 <= i < |a.items| && Covers(a.items[i], b.items[j]);
        CoversTransitive(a.items[i], b.items[j], v);
      }
    case Null =>
    case Scalar(_) =>
  }

  // ---- Intersection --------------------------------------------------------------------------

  predicate Empty(v: Value) {
    v == Null || v == Fields(map[]) || v == Items([])
  }

  /**
   * What is both requested and granted; each granted list item keeps its overlap with the first requested item it
   * overlaps.
   */
  function Intersect(requested: Value, granted: Value): Value
    decreases granted, 0
  {
    if requested.Fields? && granted.Fields? then
      Fields(map k | k in granted.fields && k in requested.fields
                     && !Empty(Intersect(requested.fields[k], granted.fields[k]))
                   :: Intersect(requested.fields[k], granted.fields[k]))
    else if requested.Items? && granted.Items? then
      Items(Picked(requested.items, granted.items))
    else if requested == granted then granted
    else Null
  }

  function Picked(requested: seq<Value>, granted: seq<Value>): seq<Value>
    decreases granted, 0
  {
    if granted == [] then []
    else
      var overlap := FirstOverlap(requested, granted[|granted| - 1], 0);
      Picked(requested, granted[..|granted| - 1]) + if Empty(overlap) then [] else [overlap]
  }

  /** The overlap of `item` with the first requested item from `at` on that it overlaps; `Null` when there is none. */
  function FirstOverlap(requested: seq<Value>, item: Value, at: nat): (r: Value)
    ensures !Empty(r) ==> exists i: nat ::
              && at <= i < |requested| && r == Intersect(requested[i], item)
              && forall h: nat :: at <= h < i ==> Empty(Intersect(requested[h], item))
    ensures Empty(r) ==> r == Null && forall h: nat :: at <= h < |requested| ==> Empty(Intersect(requested[h], item))
    decreases item, 1, |requested| - at
  {
    if at >= |requested| then Null
    else if !Empty(Intersect(requested[at], item)) then Intersect(requested[at], item)
    else FirstOverlap(requested, item, at + 1)
  }

  /** The greatest profile below both: like the intersection, but with every overlap of two list items. */
  function Meet(a: Value, b: Value): Value
    decreases b, 0
  {
    if a.Fields? && b.Fields? then
      Fields(map k | k in b.fields && k in a.fields && !Empty(Meet(a.fields[k], b.fields[k]))
                   :: Meet(a.fields[k], b.fields[k]))
    else if a.Items? && b.Items? then Items(MeetItems(a.items, b.items))
    else if a == b then b
    else Null
  }

  function MeetItems(a: seq<Value>, b: seq<Value>): seq<Value>
    decreases b, 0
  {
    if b == [] then [] else MeetItems(a, b[..|b| - 1]) + Overlaps(a, b[|b| - 1], 0)
  }

  function Overlaps(a: seq<Value>, item: Value, at: nat): seq<Value>
    decreases item, 1, |a| - at
  {
    if at >= |a| then []
    else (if Empty(Meet(a[at], item)) then [] else [Meet(a[at], item)]) + Overlaps(a, item, at + 1)
  }

  /** No null and no empty list or object anywhere. */
  predicate Solid(p: Value) {
    match p
    case Null => false
    case Scalar(_) => true
    case Items(s) => s != [] && forall v | v in s :: Solid(v)
    case Fields(m) => m != map[] && forall k | k in m :: Solid(m[k])
  }

  /** Where a picked list item comes from. */
  lemma {:induction false} PickedFrom(requested: seq<Value>, granted: seq<Value>, v: Value)
    requires v in Picked(requested, granted)
    ensures !Empty(v)
    ensures exists i: nat, j: nat :: i < |requested| && j < |granted| && v == Intersect(requested[i], granted[j])
    decreases |granted|
  {
    hide Intersect;
    var n := |granted| - 1;
    if v in Picked(requested, granted[..n]) {
      PickedFrom(requested, granted[..n], v);
      var i: nat, j: nat :| i < |requested| && j < n && v == Intersect(requested[i], granted[..n][j]);
      assert granted[..n][j] == granted[j];
    }
  }

  /** Every granted item that overlaps anything keeps an overlap with the first requested item it overlaps. */
  lemma {:induction false} PickedHas(requested: seq<Value>, granted: seq<Value>, j: nat)
    requires j < |granted| && !Empty(FirstOverlap(requested, granted[j], 0))
    ensures FirstOverlap(requested, granted[j], 0) in Picked(requested, granted)
    decreases |granted|
  {
    hide Intersect;
    var n := |granted| - 1;
    if j < n {
      PickedHas(requested, granted[..n], j);
    }
  }

  /** The overlaps stand in the order of the granted items, each found without regard to the others. */
  lemma {:induction false} PickedInOrder(requested: seq<Value>, a: seq<Value>, b: seq<Value>)
    ensures Picked(requested, a + b) == Picked(requested, a) + Picked(requested, b)
    decreases |b|
  {
    hide FirstOverlap, Empty;
    if b == [] {
      assert a + b == a;
    } else {
      assert (a + b)[..|a + b| - 1] == a + b[..|b| - 1];
      PickedInOrder(requested, a, b[..|b| - 1]);
    }
  }

  lemma {:induction false} OverlapsHas(a: seq<Value>, item: Value, at: nat, v: Value)
    ensures v in Overlaps(a, item, at) <==> !Empty(v) && exists i: nat :: at <= i < |a| && v == Meet(a[i], item)
    decreases |a| - at
  {
    hide Meet, Empty;
    if at < |a| {
      OverlapsHas(a, item, at + 1, v);
      var first := Meet(a[at], item);
      var rest := Overlaps(a, item, at + 1);
      assert v in Overlaps(a, item, at) <==> (!Empty(first) && v == first) || v in rest;
    }
  }

  lemma {:induction false} MeetItemsHas(a: seq<Value>, b: seq<Value>, v: Value)
    ensures v in MeetItems(a, b) <==>
            !Empty(v) && exists i: nat, j: nat :: i < |a| && j < |b| && v == Meet(a[i], b[j])
    decreases |b|
  {
    hide Meet, Overlaps, Empty;
    if b != [] {
      var n := |b| - 1;
      MeetItemsHas(a, b[..n], v);
      OverlapsHas(a, b[n], 0, v);
      if v in MeetItems(a, b[..n]) {
        var i: nat, j: nat :| i < |a| && j < n && v == Meet(a[i], b[..n][j]);
        assert v == Meet(a[i], b[j]);
      } else if v in Overlaps(a, b[n], 0) {
        var i: nat :| i < |a| && v == Meet(a[i], b[n]);
      } else if !Empty(v) {
        forall i: nat, j: nat | i < |a| && j < |b| ensures v != Meet(a[i], b[j]) {
          assert j < n ==> b[..n][j] == b[j];
        }
      }
    }
  }

  /** The intersection is sound: whatever it grants was both requested and granted, and it has no empty part. */
  lemma {:induction false} IntersectSound(requested: Value, granted: Value)
    ensures var r := Intersect(requested, granted);
            && (r != Null ==> Covers(requested, r) && Covers(granted, r))
            && (!Empty(r) ==> Solid(r))
    decreases granted
  {
    var r := Intersect(requested, granted);
    if requested.Fields? && granted.Fields? {
      forall k | k in r.fields
        ensures Covers(requested.fields[k], r.fields[k]) && Covers(granted.fields[k], r.fields[k]) && Solid(r.fields[k])
      {
        IntersectSound(requested.fields[k], granted.fields[k]);
      }
    } else if requested.Items? && granted.Items? {
      forall v | v in r.items
        ensures (exists i | 0 <= i < |requested.items| :: Covers(requested.items[i], v))
        ensures (exists j | 0 <= j < |granted.items| :: Covers(granted.items[j], v))
        ensures Solid(v)
      {
        PickedFrom(requested.items, granted.items, v);
        var i: nat, j: nat :| i < |requested.items| && j < |granted.items|
                              && v == Intersect(requested.items[i], granted.items[j]);
        IntersectSound(requested.items[i], granted.items[j]);
      }
    } else if requested == granted {
      CoversReflexive(granted);
    }
  }

  lemma {:induction false} MeetBelow(a: Value, b: Value)
    ensures var r := Meet(a, b);
            && (r != Null ==> Covers(a, r) && Covers(b, r))
            && (!Empty(r) ==> Solid(r))
    decreases b
  {
    var r := Meet(a, b);
    if a.Fields? && b.Fields? {
      forall k | k in r.fields
        ensures Covers(a.fields[k], r.fields[k]) && Covers(b.fields[k], r.fields[k]) && Solid(r.fields[k])
      {
        MeetBelow(a.fields[k], b.fields[k]);
      }
    } else if a.Items? && b.Items? {
      forall v | v in r.items
        ensures (exists i | 0 <= i < |a.items| :: Covers(a.items[i], v))
        ensures (exists j | 0 <= j < |b.items| :: Covers(b.items[j], v))
        ensures Solid(v)
      {
        MeetItemsHas(a.items, b.items, v);
        var i: nat, j: nat :| i < |a.items| && j < |b.items| && v == Meet(a.items[i], b.items[j]);
        MeetBelow(a.items[i], b.items[j]);
      }
    } else if a == b {
      CoversReflexive(b);
    }
  }

  lemma SomeField(m: Profile)
    ensures m != map[] ==> exists k :: k in m
  {
    assert (forall k :: k !in m) ==> m == map[];
  }

  lemma SolidNeedsSolid(c: Value, p: Value)
    requires Solid(p) && Covers(c, p)
    ensures !Empty(c)
  {
    if p.Items? {
      assert p.items[0] in p.items;
    } else if p.Fields? {
      SomeField(p.fields);
      var k :| k in p.fields;
    }
  }

  /** The meet is the greatest lower bound: it covers every solid profile that both cover. */
  lemma {:induction false} MeetGreatest(a: Value, b: Value, p: Value)
    requires Solid(p) && Covers(a, p) && Covers(b, p)
    ensures Covers(Meet(a, b), p)
    decreases p
  {
    match p
    case Fields(m) =>
      forall k | k in m ensures k in Meet(a, b).fields && Covers(Meet(a, b).fields[k], m[k]) {
        MeetGreatest(a.fields[k], b.fields[k], m[k]);
        SolidNeedsSolid(Meet(a.fields[k], b.fields[k]), m[k]);
      }
    case Items(s) =>
      var all := Meet(a, b).items;
      forall v | v in s ensures exists h | 0 <= h < |all| :: Covers(all[h], v) {
        var i :| 0 <= i < |a.items| && Covers(a.items[i], v);
        var j :| 0 <= j < |b.items| && Covers(b.items[j], v);
        MeetGreatest(a.items[i], b.items[j], v);
        SolidNeedsSolid(Meet(a.items[i], b.items[j]), v);
        MeetItemsHas(a.items, b.items, Meet(a.items[i], b.items[j]));
        var h :| 0 <= h < |all| && all[h] == Meet(a.items[i], b.items[j]);
      }
    case Scalar(_) =>
  }

  /** The intersection loses nothing: it covers every solid profile that both inputs cover. */
  ghost predicate CoversShared(v: Value, requested: Value, granted: Value) {
    forall p :: Solid(p) && Covers(requested, p) && Covers(granted, p) ==> Covers(v, p)
  }

  ghost predicate Maximal(requested: Value, granted: Value) {
    CoversShared(Intersect(requested, granted), requested, granted)
  }

  /** The intersection is maximal exactly when it covers the meet, which keeps all overlaps and not just the first. */
  lemma MaximalIffCoversMeet(requested: Value, granted: Value)
    ensures Maximal(requested, granted) <==>
            Empty(Meet(requested, granted)) || Covers(Intersect(requested, granted), Meet(requested, granted))
  {
    var meet, r := Meet(requested, granted), Intersect(requested, granted);
    MeetBelow(requested, granted);
    if Empty(meet) || Covers(r, meet) {
      forall p | Solid(p) && Covers(requested, p) && Covers(granted, p) ensures Covers(r, p) {
        MeetGreatest(requested, granted, p);
        SolidNeedsSolid(meet, p);
        CoversTransitive(r, meet, p);
      }
    }
  }

  /**
   * Shared fields are enough one by one; in lists every overlap of a requested with a granted item must be covered by
   * the first overlap of some granted item.
   */
  predicate Enough(requested: Value, granted: Value)
    decreases granted
  {
    if requested.Fields? && granted.Fields? then
      forall k | k in granted.fields && k in requested.fields :: Enough(requested.fields[k], granted.fields[k])
    else if requested.Items? && granted.Items? then
      forall g | g in granted.items :: forall i | 0 <= i < |requested.items| ::
        Empty(Meet(requested.items[i], g)) || Outdone(requested.items, granted.items, Meet(requested.items[i], g))
    else true
  }

  /** The first overlap of some granted item covers `v`. */
  predicate Outdone(requested: seq<Value>, granted: seq<Value>, v: Value) {
    exists j | 0 <= j < |granted| :: Covers(FirstOverlap(requested, granted[j], 0), v)
  }

  lemma {:induction false} EnoughCoversMeet(requested: Value, granted: Value)
    ensures Enough(requested, granted) <==>
            Empty(Meet(requested, granted)) || Covers(Intersect(requested, granted), Meet(requested, granted))
    decreases granted
  {
    if requested.Fields? && granted.Fields? {
      forall k | k in granted.fields && k in requested.fields
        ensures Enough(requested.fields[k], granted.fields[k]) <==>
                Empty(Meet(requested.fields[k], granted.fields[k]))
                || (!Empty(Intersect(requested.fields[k], granted.fields[k]))
                    && Covers(Intersect(requested.fields[k], granted.fields[k]),
                              Meet(requested.fields[k], granted.fields[k])))
      {
        EnoughCoversMeet(requested.fields[k], granted.fields[k]);
        OverlapSolid(Intersect(requested.fields[k], granted.fields[k]), requested.fields[k], granted.fields[k]);
      }
      FieldsEnough(requested, granted);
    } else if requested.Items? && granted.Items? {
      ItemsEnough(requested.items, granted.items);
    } else {
      CoversReflexive(granted);
    }
  }

  lemma OverlapSolid(c: Value, a: Value, b: Value)
    ensures !Empty(Meet(a, b)) && Covers(c, Meet(a, b)) ==> !Empty(c)
  {
    MeetBelow(a, b);
    if !Empty(Meet(a, b)) && Covers(c, Meet(a, b)) {
      SolidNeedsSolid(c, Meet(a, b));
    }
  }

  lemma CoversFields(c: Profile, m: Profile)
    ensures Covers(Fields(c), Fields(m)) <==> forall k | k in m :: k in c && Covers(c[k], m[k])
  {
  }

  lemma CoversItems(c: seq<Value>, s: seq<Value>)
    ensures Covers(Items(c), Items(s)) <==> forall v | v in s :: exists h | 0 <= h < |c| :: Covers(c[h], v)
  {
  }

  /** The fields of a meet and of an intersection are the shared ones with something in common. */
  lemma SharedFields(a: Value, b: Value)
    requires a.Fields? && b.Fields?
    ensures var meet, r := Meet(a, b), Intersect(a, b);
            && meet.Fields? && r.Fields?
            && (forall k :: k in meet.fields <==>
                  k in b.fields && k in a.fields && !Empty(Meet(a.fields[k], b.fields[k])))
            && (forall k :: k in meet.fields ==> meet.fields[k] == Meet(a.fields[k], b.fields[k]))
            && (forall k :: k in r.fields <==>
                  k in b.fields && k in a.fields && !Empty(Intersect(a.fields[k], b.fields[k])))
            && (forall k :: k in r.fields ==> r.fields[k] == Intersect(a.fields[k], b.fields[k]))
  {
  }

  lemma FieldsEnough(a: Value, b: Value)
    requires a.Fields? && b.Fields?
    ensures (Empty(Meet(a, b)) || Covers(Intersect(a, b), Meet(a, b))) <==>
            forall k | k in b.fields && k in a.fields ::
              Empty(Meet(a.fields[k], b.fields[k]))
              || (!Empty(Intersect(a.fields[k], b.fields[k]))
                  && Covers(Intersect(a.fields[k], b.fields[k]), Meet(a.fields[k], b.fields[k])))
  {
    hide Empty, Meet, Intersect, Covers;
    SharedFields(a, b);
    var meet, r := Meet(a, b).fields, Intersect(a, b).fields;
    EmptyFields(meet);
    SomeField(meet);
    CoversFields(r, meet);
    if Empty(Meet(a, b)) || Covers(Intersect(a, b), Meet(a, b)) {
      forall k | k in b.fields && k in a.fields
        ensures Empty(Meet(a.fields[k], b.fields[k]))
                || (!Empty(Intersect(a.fields[k], b.fields[k]))
                    && Covers(Intersect(a.fields[k], b.fields[k]), Meet(a.fields[k], b.fields[k])))
      {
        assert !Empty(Meet(a.fields[k], b.fields[k])) ==> k in meet;
      }
    }
  }

  lemma EmptyFields(m: Profile)
    ensures Empty(Fields(m)) <==> m == map[]
  {
  }

  lemma EmptyItems(s: seq<Value>)
    ensures Empty(Items(s)) <==> s == []
  {
  }

  lemma ItemsEnough(a: seq<Value>, b: seq<Value>)
    ensures Enough(Items(a), Items(b)) <==>
            Empty(Meet(Items(a), Items(b))) || Covers(Intersect(Items(a), Items(b)), Meet(Items(a), Items(b)))
  {
    hide Intersect, Covers, Picked, MeetItems, Empty, Outdone;
    var meet, r := MeetItems(a, b), Picked(a, b);
    EmptyItems(meet);
    ListIntersect(a, b);
    CoversItems(r, meet);
    if Enough(Items(a), Items(b)) {
      forall v | v in meet ensures exists h | 0 <= h < |r| :: Covers(r[h], v) {
        MeetItemsHas(a, b, v);
        var i: nat, j: nat :| i < |a| && j < |b| && v == Meet(a[i], b[j]);
        assert b[j] in b;
        OutdoneIsPicked(a, b, a[i], b[j]);
      }
    } else {
      var g, i: nat :| g in b && i < |a| && !Empty(Meet(a[i], g)) && !Outdone(a, b, Meet(a[i], g));
      var j: nat :| j < |b| && b[j] == g;
      MeetItemsHas(a, b, Meet(a[i], b[j]));
      OutdoneIsPicked(a, b, a[i], b[j]);
      assert meet != [];
    }
  }

  lemma ListIntersect(a: seq<Value>, b: seq<Value>)
    ensures Intersect(Items(a), Items(b)) == Items(Picked(a, b))
  {
  }

  /** The picked items that cover an overlap are the first overlaps that do. */
  lemma OutdoneIsPicked(a: seq<Value>, b: seq<Value>, x: Value, y: Value)
    requires !Empty(Meet(x, y))
    ensures Outdone(a, b, Meet(x, y)) <==> exists h | 0 <= h < |Picked(a, b)| :: Covers(Picked(a, b)[h], Meet(x, y))
  {
    hide Intersect, Meet, Covers, Empty, Picked;
    var v, r := Meet(x, y), Picked(a, b);
    if Outdone(a, b, v) {
      var j: nat :| j < |b| && Covers(FirstOverlap(a, b[j], 0), v);
      OverlapSolid(FirstOverlap(a, b[j], 0), x, y);
      PickedHas(a, b, j);
      var h :| 0 <= h < |r| && r[h] == FirstOverlap(a, b[j], 0);
      assert Covers(r[h], v);
    } else if exists h | 0 <= h < |r| :: Covers(r[h], v) {
      var h :| 0 <= h < |r| && Covers(r[h], v);
      PickedFirst(a, b, r[h]);
      assert false;
    }
  }

  /** Every picked item is the first overlap of a granted item. */
  lemma {:induction false} PickedFirst(requested: seq<Value>, granted: seq<Value>, v: Value)
    requires v in Picked(requested, granted)
    ensures exists j: nat :: j < |granted| && v == FirstOverlap(requested, granted[j], 0)
    decreases |granted|
  {
    hide FirstOverlap, Empty;
    var n := |granted| - 1;
    if v in Picked(requested, granted[..n]) {
      PickedFirst(requested, granted[..n], v);
      var j: nat :| j < n && v == FirstOverlap(requested, granted[..n][j], 0);
      assert granted[..n][j] == granted[j];
    }
  }

  /**
   * The intersection loses nothing exactly when its inputs are enough: then, and only then, it covers every solid
   * profile that both cover.
   */
  lemma MaximalIffEnough(requested: Value, granted: Value)
    ensures Maximal(requested, granted) <==> Enough(requested, granted)
  {
    hide Maximal, Enough, Covers, Meet, Intersect;
    EnoughCoversMeet(requested, granted);
    MaximalIffCoversMeet(requested, granted);
  }

  /** Every list holds only scalars, as the read and write path lists do. */
  predicate ScalarLists(v: Value) {
    match v
    case Items(s) => forall x | x in s :: x.Null? || x.Scalar?
    case Fields(m) => forall k | k in m :: ScalarLists(m[k])
    case Null => true
    case Scalar(_) => true
  }

  lemma {:induction false} ScalarListsEnough(requested: Value, granted: Value)
    requires ScalarLists(requested) && ScalarLists(granted)
    ensures Enough(requested, granted)
    decreases granted
  {
    if requested.Fields? && granted.Fields? {
      forall k | k in granted.fields && k in requested.fields ensures Enough(requested.fields[k], granted.fields[k]) {
        ScalarListsEnough(requested.fields[k], granted.fields[k]);
      }
    } else if requested.Items? && granted.Items? {
      forall g, i | g in granted.items && 0 <= i < |requested.items|
        ensures Empty(Meet(requested.items[i], g))
                || Outdone(requested.items, granted.items, Meet(requested.items[i], g))
      {
        var j: nat :| j < |granted.items| && granted.items[j] == g;
        assert requested.items[i] in requested.items;
        var first := FirstOverlap(requested.items, g, 0);
        if !Empty(Meet(requested.items[i], g)) {
          var h: nat :| h < |requested.items| && first == Intersect(requested.items[h], g);
          assert requested.items[h] in requested.items;
          assert Covers(FirstOverlap(requested.items, granted.items[j], 0), g);
        }
      }
    }
  }

  /** With scalar lists the intersection is maximal. */
  lemma ScalarIntersectIsMaximal(requested: Value, granted: Value)
    requires ScalarLists(requested) && ScalarLists(granted)
    ensures Maximal(requested, granted)
  {
    hide Maximal, Enough, ScalarLists;
    ScalarListsEnough(requested, granted);
    MaximalIffEnough(requested, granted);
  }

  /**
   * With objects in lists it is not: an item that asks for more than an earlier one keeps only what it shares with the
   * earlier one, even when request and grant are the same profile.
   */
  lemma FirstOverlapLoses(k: string, l: string, x: int, y: int)
    requires k != l
    ensures var few, many := Fields(map[k := Scalar(x)]), Fields(map[k := Scalar(x), l := Scalar(y)]);
            var profile := Items([few, many]);
            && Intersect(profile, profile) == Items([few, few])
            && !Covers(Intersect(profile, profile), profile) && !Maximal(profile, profile)
  {
    hide Intersect, Covers, Solid, FirstOverlap, Picked;
    var few, many := Fields(map[k := Scalar(x)]), Fields(map[k := Scalar(x), l := Scalar(y)]);
    var profile := Items([few, many]);
    FewOfMany(k, l, x, y);
    ListKeepsFirst(few, many);
    assert !Covers(Items([few, few]), profile) by { ListMissesSecond(few, many); }
    assert Solid(profile) && Covers(profile, profile) by {
      PairIsSolid(few, many);
      CoversReflexive(profile);
    }
  }

  lemma FewOfMany(k: string, l: string, x: int, y: int)
    requires k != l
    ensures var few, many := Fields(map[k := Scalar(x)]), Fields(map[k := Scalar(x), l := Scalar(y)]);
            && Intersect(few, few) == few && Intersect(few, many) == few
            && !Covers(few, many) && Solid(few) && Solid(many)
  {
    var few, many := Fields(map[k := Scalar(x)]), Fields(map[k := Scalar(x), l := Scalar(y)]);
    assert k in few.fields && l !in few.fields && l in many.fields;
    assert Intersect(Scalar(x), Scalar(x)) == Scalar(x);
    assert Intersect(few, few).fields == few.fields;
    assert Intersect(few, many).fields == few.fields;
  }

  lemma ListKeepsFirst(few: Value, many: Value)
    requires Intersect(few, few) == few && Intersect(few, many) == few && !Empty(few)
    ensures Intersect(Items([few, many]), Items([few, many])) == Items([few, few])
  {
    hide Covers, Empty;
    var list := [few, many];
    assert FirstOverlap(list, few, 0) == few && FirstOverlap(list, many, 0) == few;
    assert list[..1] == [few] && [few][..0] == [];
    assert Picked(list, [few]) == [] + [few];
    assert Picked(list, list) == [few, few];
  }

  lemma ListMissesSecond(few: Value, many: Value)
    requires !Covers(few, many)
    ensures !Covers(Items([few, few]), Items([few, many]))
  {
    assert many in [few, many];
  }

  lemma PairIsSolid(few: Value, many: Value)
    requires Solid(few) && Solid(many)
    ensures Solid(Items([few, many]))
  {
  }

  /** Profiles that are not objects count as empty ones. */
  function CopyProfile(v: Value): Profile {
    if v.Fields? then v.fields else map[]
  }

  function IntersectProfiles(requested: Value, granted: Value): Profile {
    Intersect(Fields(CopyProfile(requested)), Fields(CopyProfile(granted))).fields
  }

  /** What the store records of a grant: its overlap with the request if there is one. */
  function RecordedGrant(requested: Option<Value>, granted: Value): Profile {
    if requested.Some? then IntersectProfiles(requested.value, granted) else CopyProfile(granted)
  }

  /** It never exceeds the request, nor what was granted; with no request it is all that was granted. */
  lemma RecordedGrantIsRequested(requested: Option<Value>, granted: Value)
    ensures var r, g := Fields(RecordedGrant(requested, granted)), Fields(CopyProfile(granted));
            && Covers(g, r)
            && (requested.Some? ==> Covers(Fields(CopyProfile(requested.value)), r))
            && (requested.None? ==> Covers(r, g))
  {
    if requested.Some? {
      IntersectSound(Fields(CopyProfile(requested.value)), Fields(CopyProfile(granted)));
    } else {
      CoversReflexive(Fields(CopyProfile(granted)));
    }
  }

  /** The object itself, or an empty one. */
  function AsObject(v: Value): Value {
    if v.Fields? then v else Fields(map[])
  }

  /**
   * The intersection of two profiles covers every solid profile that both cover exactly when the two are enough;
   * values that are not objects count as empty ones.
   */
  lemma ProfilesIntersectMaximally(requested: Value, granted: Value)
    ensures CoversShared(Fields(IntersectProfiles(requested, granted)), AsObject(requested), AsObject(granted)) <==>
            Enough(AsObject(requested), AsObject(granted))
  {
    hide Enough, CoversShared;
    MaximalIffEnough(AsObject(requested), AsObject(granted));
  }

  /** The same of what is recorded for a request; without a request it covers all that was granted. */
  lemma RecordedGrantIsMaximal(requested: Option<Value>, granted: Value)
    ensures requested.Some? ==>
              var r, g := AsObject(requested.value), AsObject(granted);
              CoversShared(Fields(RecordedGrant(requested, granted)), r, g) <==> Enough(r, g)
    ensures requested.None? ==> Fields(RecordedGrant(requested, granted)) == AsObject(granted)
  {
    hide Enough, CoversShared, IntersectProfiles;
    if requested.Some? {
      ProfilesIntersectMaximally(requested.value, granted);
    }
  }

  /** A grant that covers the request, both with scalar lists, is recorded as one that covers the request. */
  lemma GrantAnswersRequest(request: Value, granted: Value)
    requires request.Fields? && Solid(request) && Covers(granted, request)
    requires ScalarLists(request) && ScalarLists(granted)
    ensures Covers(Fields(RecordedGrant(Some(request), granted)), request)
  {
    hide Enough, Solid, ScalarLists, RecordedGrant;
    CoversReflexive(request);
    ScalarListsEnough(request, granted);
    RecordedGrantIsMaximal(Some(request), granted);
  }

  /** The permissions a profile holds, one by one: what stands at the end of a path of keys. */
  datatype Held = AnObject | AList | Listed(item: Value) | Just(v: Value)

  predicate Holds(p: Value, path: seq<string>, h: Held) {
    if path != [] then p.Fields? && path[0] in p.fields && Holds(p.fields[path[0]], path[1..], h)
    else
      match h
      case AnObject => p.Fields?
      case AList => p.Items?
      case Listed(x) => p.Items? && x in p.items
      case Just(x) => p == x && !p.Fields? && !p.Items?
  }

  ghost predicate HoldsAll(container: Value, candidate: Value) {
    forall path, h :: Holds(candidate, path, h) ==> Holds(container, path, h)
  }

  /** A profile covers one with scalar lists exactly when it holds each of its permissions. */
  lemma {:induction false} CoversIffHoldsAll(container: Value, candidate: Value)
    requires ScalarLists(candidate)
    ensures Covers(container, candidate) <==> HoldsAll(container, candidate)
    decreases candidate
  {
    if Covers(container, candidate) {
      forall path, h | Holds(candidate, path, h) ensures Holds(container, path, h) {
        CoverHolds(container, candidate, path, h);
      }
    }
    if HoldsAll(container, candidate) {
      match candidate
      case Fields(asked) =>
        assert Holds(candidate, [], AnObject) && Holds(container, [], AnObject);
        forall k | k in asked ensures k in container.fields && Covers(container.fields[k], asked[k]) {
          FieldHolds(container, candidate, k);
          CoversIffHoldsAll(container.fields[k], asked[k]);
        }
      case Items(asked) =>
        assert Holds(candidate, [], AList) && Holds(container, [], AList);
        forall v | v in asked ensures exists i | 0 <= i < |container.items| :: Covers(container.items[i], v) {
          assert Holds(candidate, [], Listed(v)) && Holds(container, [], Listed(v));
          var i: nat :| i < |container.items| && container.items[i] == v;
          CoversReflexive(v);
        }
        assert Covers(container, candidate);
      case Null => assert Holds(candidate, [], Just(candidate)) && Holds(container, [], Just(candidate));
      case Scalar(_) => assert Holds(candidate, [], Just(candidate)) && Holds(container, [], Just(candidate));
    }
  }

  lemma {:induction false} CoverHolds(container: Value, candidate: Value, path: seq<string>, h: Held)
    requires ScalarLists(candidate) && Covers(container, candidate) && Holds(candidate, path, h)
    ensures Holds(container, path, h)
    decreases |path|
  {
    if path != [] {
      CoverHolds(container.fields[path[0]], candidate.fields[path[0]], path[1..], h);
    }
  }

  lemma FieldHolds(container: Value, candidate: Value, k: string)
    requires candidate.Fields? && k in candidate.fields && container.Fields?
    requires HoldsAll(container, candidate)
    ensures k in container.fields && HoldsAll(container.fields[k], candidate.fields[k])
  {
    var x := candidate.fields[k];
    var own := if x.Fields? then AnObject else if x.Items? then AList else Just(x);
    assert [k][1..] == [];
    assert Holds(x, [], own) && Holds(candidate, [k], own);
    forall path, h | Holds(x, path, h) ensures Holds(container.fields[k], path, h) {
      assert ([k] + path)[1..] == path;
      assert Holds(candidate, [k] + path, h);
    }
  }

  // ---- Merge ---------------------------------------------------------------------------------

  function Extend(current: seq<Value>, more: seq<Value>): seq<Value> {
    if more == [] then current
    else
      var longer := Extend(current, more[..|more| - 1]);
      if more[|more| - 1] in longer then longer else longer + [more[|more| - 1]]
  }

  /** Objects are joined field by field, lists are extended by what they lack, and otherwise the first value stays. */
  function Joined(x: Value, y: Value): Value
    decreases y
  {
    if x.Fields? && y.Fields? then
      Fields(map k | k in x.fields.Keys + y.fields.Keys ::
        if k !in y.fields then x.fields[k]
        else if k !in x.fields then y.fields[k]
        else Joined(x.fields[k], y.fields[k]))
    else if x.Items? && y.Items? then Items(Extend(x.items, y.items))
    else x
  }

  function Merge(a: Profile, b: Profile): Profile {
    Joined(Fields(a), Fields(b)).fields
  }

  function MergeAll(profiles: seq<Profile>): Profile {
    if profiles == [] then map[] else Merge(MergeAll(profiles[..|profiles| - 1]), profiles[|profiles| - 1])
  }

  lemma {:induction false} ExtendHas(current: seq<Value>, more: seq<Value>)
    ensures forall v :: v in Extend(current, more) <==> v in current || v in more
    ensures current <= Extend(current, more)
    decreases |more|
  {
    if more != [] {
      ExtendHas(current, more[..|more| - 1]);
      assert more == more[..|more| - 1] + [more[|more| - 1]];
    }
  }

  /** What a list is extended by was not in it, and comes once. */
  lemma {:induction false} ExtendOnce(current: seq<Value>, more: seq<Value>)
    ensures var all := Extend(current, more);
            |current| <= |all| && forall i :: |current| <= i < |all| ==> all[i] in more && all[i] !in all[..i]
    decreases |more|
  {
    if more != [] {
      var n := |more| - 1;
      var longer := Extend(current, more[..n]);
      ExtendOnce(current, more[..n]);
      forall i | |current| <= i < |longer| ensures (longer + [more[n]])[..i] == longer[..i] {
      }
      assert (longer + [more[n]])[..|longer|] == longer;
    }
  }

  lemma {:induction false} ExtendBySubset(current: seq<Value>, more: seq<Value>)
    requires forall v :: v in more ==> v in current
    ensures Extend(current, more) == current
    decreases |more|
  {
    if more != [] {
      ExtendBySubset(current, more[..|more| - 1]);
    }
  }

  lemma {:induction false} ExtendAssociates(a: seq<Value>, b: seq<Value>, c: seq<Value>)
    ensures Extend(Extend(a, b), c) == Extend(a, Extend(b, c))
    decreases |c|
  {
    if c != [] {
      var front, last := c[..|c| - 1], c[|c| - 1];
      ExtendAssociates(a, b, front);
      var inner := Extend(b, front);
      ExtendHas(a, inner);
      if last !in inner {
        assert (inner + [last])[..|inner|] == inner;
      }
    }
  }

  /** A merge covers what came first. */
  lemma {:induction false} MergeCoversFirst(x: Value, y: Value)
    ensures Covers(Joined(x, y), x)
    decreases y
  {
    if x.Fields? && y.Fields? {
      forall k | k in x.fields ensures k in Joined(x, y).fields && Covers(Joined(x, y).fields[k], x.fields[k]) {
        if k in y.fields {
          MergeCoversFirst(x.fields[k], y.fields[k]);
        } else {
          CoversReflexive(x.fields[k]);
        }
      }
    } else if x.Items? && y.Items? {
      ExtendHas(x.items, y.items);
      var all := Extend(x.items, y.items);
      forall v | v in x.items ensures exists h | 0 <= h < |all| :: Covers(all[h], v) {
        CoversReflexive(v);
        var h :| 0 <= h < |all| && all[h] == v;
      }
    } else {
      CoversReflexive(x);
    }
  }

  /** Shared keys do not disagree: two objects, two lists, or the same value. */
  predicate Agree(x: Value, y: Value)
    decreases y
  {
    if x.Fields? && y.Fields? then
      forall k | k in x.fields && k in y.fields :: Agree(x.fields[k], y.fields[k])
    else (x.Items? && y.Items?) || x == y
  }

  /** A merge covers what came second exactly when the two do not disagree. */
  lemma {:induction false} MergeCoversSecond(x: Value, y: Value)
    ensures Covers(Joined(x, y), y) <==> Agree(x, y)
    decreases y
  {
    if x.Fields? && y.Fields? {
      var all := Joined(x, y).fields;
      forall k | k in y.fields
        ensures k in all && (Covers(all[k], y.fields[k]) <==> k !in x.fields || Agree(x.fields[k], y.fields[k]))
      {
        if k in x.fields {
          MergeCoversSecond(x.fields[k], y.fields[k]);
        } else {
          CoversReflexive(y.fields[k]);
        }
      }
    } else if x.Items? && y.Items? {
      ExtendHas(x.items, y.items);
      var all := Extend(x.items, y.items);
      forall v | v in y.items ensures exists h | 0 <= h < |all| :: Covers(all[h], v) {
        CoversReflexive(v);
        var h :| 0 <= h < |all| && all[h] == v;
      }
    } else if x == y {
      CoversReflexive(x);
    }
  }

  lemma {:induction false} MergeIdempotent(x: Value)
    ensures Joined(x, x) == x
  {
    if x.Fields? {
      forall k | k in x.fields ensures Joined(x.fields[k], x.fields[k]) == x.fields[k] {
        MergeIdempotent(x.fields[k]);
      }
    } else if x.Items? {
      ExtendBySubset(x.items, x.items);
    }
  }

  /** `z` brings nothing that `x` would take up: no new key and no new list item, wherever both are of one kind. */
  predicate Absorbs(x: Value, z: Value)
    decreases z
  {
    if x.Fields? && z.Fields? then forall k | k in z.fields :: k in x.fields && Absorbs(x.fields[k], z.fields[k])
    else if x.Items? && z.Items? then forall v | v in z.items :: v in x.items
    else true
  }

  lemma {:induction false} AbsorbedIffUnchanged(x: Value, z: Value)
    ensures Absorbs(x, z) <==> Joined(x, z) == x
    decreases z
  {
    if x.Fields? && z.Fields? {
      var all := Joined(x, z).fields;
      forall k | k in z.fields && k in x.fields
        ensures Absorbs(x.fields[k], z.fields[k]) <==> all[k] == x.fields[k]
      {
        AbsorbedIffUnchanged(x.fields[k], z.fields[k]);
      }
      assert all.Keys == x.fields.Keys + z.fields.Keys;
      if Absorbs(x, z) {
        assert all == x.fields;
      } else {
        var k :| k in z.fields && !(k in x.fields && Absorbs(x.fields[k], z.fields[k]));
        assert k in all;
      }
    } else if x.Items? && z.Items? {
      ExtendHas(x.items, z.items);
      if Absorbs(x, z) {
        ExtendBySubset(x.items, z.items);
      }
    }
  }

  /**
   * When grouping does not matter: a first value that a middle one of another kind keeps from growing has nothing to
   * gain.
   */
  predicate Regroups(x: Value, y: Value, z: Value)
    decreases z
  {
    if x.Fields? && y.Fields? then
      z.Fields? ==> forall k | k in x.fields && k in y.fields && k in z.fields ::
        Regroups(x.fields[k], y.fields[k], z.fields[k])
    else if x.Items? && y.Items? then true
    else Absorbs(x, z)
  }

  /** Merging is associative, list order included, exactly when the values regroup. */
  lemma {:induction false} MergeAssociates(x: Value, y: Value, z: Value)
    ensures Joined(Joined(x, y), z) == Joined(x, Joined(y, z)) <==> Regroups(x, y, z)
    decreases z
  {
    if x.Fields? && y.Fields? && z.Fields? {
      var left, right := Joined(Joined(x, y), z).fields, Joined(x, Joined(y, z)).fields;
      assert left.Keys == right.Keys;
      forall k | k in left
        ensures left[k] == right[k] <==>
                (k in x.fields && k in y.fields && k in z.fields ==> Regroups(x.fields[k], y.fields[k], z.fields[k]))
      {
        if k in x.fields && k in y.fields && k in z.fields {
          MergeAssociates(x.fields[k], y.fields[k], z.fields[k]);
        }
      }
      assert left == right <==> forall k :: k in left ==> left[k] == right[k];
    } else if x.Items? && y.Items? && z.Items? {
      ExtendAssociates(x.items, y.items, z.items);
    } else {
      AbsorbedIffUnchanged(x, z);
    }
  }

  datatype Kind = Leaf | ListKind | ObjectKind

  function KindOf(v: Value): Kind {
    match v
    case Items(_) => ListKind
    case Fields(_) => ObjectKind
    case Null => Leaf
    case Scalar(_) => Leaf
  }

  /** Shared keys have the same kind, recursively. */
  predicate SameKinds(x: Value, y: Value)
    decreases y
  {
    KindOf(x) == KindOf(y) &&
    (x.Fields? && y.Fields? ==>
      forall k | k in x.fields && k in y.fields :: SameKinds(x.fields[k], y.fields[k]))
  }

  lemma {:induction false} SameKindsRegroup(x: Value, y: Value, z: Value)
    requires SameKinds(x, y) && SameKinds(y, z)
    ensures Regroups(x, y, z) && Joined(Joined(x, y), z) == Joined(x, Joined(y, z))
    decreases z
  {
    if x.Fields? && y.Fields? && z.Fields? {
      forall k | k in x.fields && k in y.fields && k in z.fields
        ensures Regroups(x.fields[k], y.fields[k], z.fields[k])
      {
        SameKindsRegroup(x.fields[k], y.fields[k], z.fields[k]);
      }
    }
    MergeAssociates(x, y, z);
  }

  // ---- Which of many grants a check honours --------------------------------------------------

  lemma {:induction false} CoverAgrees(w: Value, y: Value)
    requires Covers(w, y)
    ensures Agree(w, y)
    decreases y
  {
    if w.Fields? && y.Fields? {
      forall k | k in w.fields && k in y.fields ensures Agree(w.fields[k], y.fields[k]) {
        CoverAgrees(w.fields[k], y.fields[k]);
      }
    }
  }

  lemma {:induction false} DisagreementStays(x: Value, y: Value, z: Value)
    requires !Agree(x, y)
    ensures !Agree(Joined(x, z), y)
    decreases y
  {
    if x.Fields? && y.Fields? {
      var k :| k in x.fields && k in y.fields && !Agree(x.fields[k], y.fields[k]);
      if z.Fields? && k in z.fields {
        DisagreementStays(x.fields[k], y.fields[k], z.fields[k]);
      }
      assert k in Joined(x, z).fields;
    }
  }

  /** What a prefix of the grants covers, or disagrees with, stays so under the rest. */
  lemma {:induction false} LaterGrants(profiles: seq<Profile>, i: nat, y: Value)
    requires i <= |profiles|
    ensures Covers(Fields(MergeAll(profiles[..i])), y) ==> Covers(Fields(MergeAll(profiles)), y)
    ensures !Agree(Fields(MergeAll(profiles[..i])), y) ==> !Agree(Fields(MergeAll(profiles)), y)
    decreases |profiles|
  {
    hide Covers, Agree, Joined;
    if i == |profiles| {
      assert profiles[..i] == profiles;
    } else {
      var n := |profiles| - 1;
      var before, last := Fields(MergeAll(profiles[..n])), Fields(profiles[n]);
      assert profiles[..n][..i] == profiles[..i];
      LaterGrants(profiles[..n], i, y);
      MergeCoversFirst(before, last);
      if Covers(before, y) {
        CoversTransitive(Joined(before, last), before, y);
      }
      if !Agree(before, y) {
        DisagreementStays(before, y, last);
      }
    }
  }

  /**
   * A stored grant is honoured by the merged profile exactly when it does not disagree with the merge of the grants
   * before it: what comes later can neither help nor hurt it.
   */
  lemma {:induction false} GrantHonoured(profiles: seq<Profile>, i: nat)
    requires i < |profiles|
    ensures Covers(Fields(MergeAll(profiles)), Fields(profiles[i])) <==>
            Agree(Fields(MergeAll(profiles[..i])), Fields(profiles[i]))
  {
    var before, y := Fields(MergeAll(profiles[..i])), Fields(profiles[i]);
    assert profiles[..i + 1][..i] == profiles[..i];
    MergeCoversSecond(before, y);
    LaterGrants(profiles, i + 1, y);
    LaterGrants(profiles, i, y);
    if Covers(Fields(MergeAll(profiles)), y) {
      CoverAgrees(Fields(MergeAll(profiles)), y);
    }
  }
}
