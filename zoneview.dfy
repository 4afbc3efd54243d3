/**
 * The view the board derives from the task list: per zone, the tasks in that
 * zone ordered by creation time (`getTasksInZone`), and the cards `render`
 * puts into each zone element, zone by zone in the fixed order.
 */
module ZoneView {
  import opened Vocab
  import opened Tasks

  /** `tasks.filter(t => t.zone === z)`. */
  function InZone(s: seq<Task>, z: Zone): (r: seq<Task>)
    ensures |r| <= |s|
    ensures forall i :: 0 <= i < |r| ==> r[i].zone == z
  {
    if s == [] then [] else (if s[0].zone == z then [s[0]] else []) + InZone(s[1..], z)
  }

  lemma {:induction false} InZoneMembers(s: seq<Task>, z: Zone, t: Task)
    ensures t in InZone(s, z) <==> t in s && t.zone == z
  {
    if s != [] {
      InZoneMembers(s[1..], z, t);
      assert s == [s[0]] + s[1..];
    }
  }

  /** The comparator `sortByCreatedAt`: negative when `a` goes first. */
  function CompareByCreatedAt(a: Task, b: Task): int {
    a.createdAt - b.createdAt
  }

  /** The comparator orders tasks by creation time: negative, zero or positive as `a` is earlier, as early or later. */
  lemma CompareByCreatedAtSign(a: Task, b: Task)
    ensures CompareByCreatedAt(a, b) < 0 <==> a.createdAt < b.createdAt
    ensures CompareByCreatedAt(a, b) == 0 <==> a.createdAt == b.createdAt
    ensures CompareByCreatedAt(a, b) == -CompareByCreatedAt(b, a)
  {
  }

  predicate SortedByCreatedAt(s: seq<Task>) {
    forall i, j :: 0 <= i < j < |s| ==> CompareByCreatedAt(s[i], s[j]) <= 0
  }

  /** The tasks created at instant `k`, in list order: the ties a stable sort must keep in order. */
  function CreatedAt(s: seq<Task>, k: int): seq<Task> {
    if s == [] then [] else (if s[0].createdAt == k then [s[0]] else []) + CreatedAt(s[1..], k)
  }

  lemma {:induction false} CreatedAtMembers(s: seq<Task>, k: int, t: Task)
    ensures t in CreatedAt(s, k) <==> t in s && t.createdAt == k
  {
    if s != [] {
      CreatedAtMembers(s[1..], k, t);
      assert s == [s[0]] + s[1..];
    }
  }

  /** `r` orders every group of equally timed tasks as `s` does. */
  ghost predicate SameTies(r: seq<Task>, s: seq<Task>) {
    forall k :: CreatedAt(r, k) == CreatedAt(s, k)
  }

  /** Puts `x` into `s` ahead of the first task created no earlier than it. */
  function Insert(x: Task, s: seq<Task>): (r: seq<Task>)
    ensures multiset(r) == multiset(s) + multiset{x}
  {
    if s == [] || CompareByCreatedAt(x, s[0]) <= 0 then [x] + s
    else
      assert s == [s[0]] + s[1..];
      [s[0]] + Insert(x, s[1..])
  }

  /** Inserting a task no earlier than a bound into tasks no earlier than it keeps every task above the bound. */
  lemma {:induction false} InsertBound(x: Task, s: seq<Task>, lo: int)
    requires lo <= x.createdAt && forall i :: 0 <= i < |s| ==> lo <= s[i].createdAt
    ensures forall i :: 0 <= i < |Insert(x, s)| ==> lo <= Insert(x, s)[i].createdAt
  {
    if s != [] && CompareByCreatedAt(x, s[0]) > 0 {
      InsertBound(x, s[1..], lo);
    }
  }

  lemma {:induction false} InsertSorted(x: Task, s: seq<Task>)
    requires SortedByCreatedAt(s)
    ensures SortedByCreatedAt(Insert(x, s))
  {
    if s != [] && CompareByCreatedAt(x, s[0]) > 0 {
      InsertSorted(x, s[1..]);
      InsertBound(x, s[1..], s[0].createdAt);
      var rest := Insert(x, s[1..]);
      var r := [s[0]] + rest;
      forall i, j | 0 <= i < j < |r| ensures CompareByCreatedAt(r[i], r[j]) <= 0 {
        if i > 0 {
          assert r[i] == rest[i - 1] && r[j] == rest[j - 1];
        }
      }
    }
  }

  /** `x` lands after nothing created at its own instant, so ties keep their order. */
  lemma {:induction false} InsertTies(x: Task, s: seq<Task>, k: int)
    ensures CreatedAt(Insert(x, s), k) == (if x.createdAt == k then [x] else []) + CreatedAt(s, k)
  {
    if s != [] && CompareByCreatedAt(x, s[0]) > 0 {
      InsertTies(x, s[1..], k);
      var rest := Insert(x, s[1..]);
      var r := [s[0]] + rest;
      assert r[0] == s[0] && r[1..] == rest;
      var c := CreatedAt(s[1..], k);
      if x.createdAt == k {
        assert CreatedAt(r, k) == [x] + c;
      } else if s[0].createdAt == k {
        assert CreatedAt(r, k) == [s[0]] + c;
      } else {
        assert CreatedAt(r, k) == c;
      }
    } else {
      assert ([x] + s)[1..] == s;
    }
  }

  /** A stable ascending sort on `createdAt` (an insertion sort). */
  function SortByCreatedAt(s: seq<Task>): (r: seq<Task>)
    ensures SortedByCreatedAt(r)
    ensures multiset(r) == multiset(s)
  {
    if s == [] then []
    else
      assert s == [s[0]] + s[1..];
      InsertSorted(s[0], SortByCreatedAt(s[1..]));
      Insert(s[0], SortByCreatedAt(s[1..]))
  }

  /** The sort is stable: equally timed tasks keep their relative order. */
  lemma {:induction false} SortKeepsTies(s: seq<Task>)
    ensures SameTies(SortByCreatedAt(s), s)
  {
    if s != [] {
      SortKeepsTies(s[1..]);
      forall k ensures CreatedAt(SortByCreatedAt(s), k) == CreatedAt(s, k) {
        InsertTies(s[0], SortByCreatedAt(s[1..]), k);
      }
    }
  }

  lemma HeadHasTies(s: seq<Task>)
    ensures s != [] ==> CreatedAt(s, s[0].createdAt) != []
  {
  }

  lemma SortedHeadIsEarliest(s: seq<Task>, t: Task)
    requires SortedByCreatedAt(s) && t in s
    ensures s[0].createdAt <= t.createdAt
  {
    var j :| 0 <= j < |s| && s[j] == t;
    if j > 0 {
      assert CompareByCreatedAt(s[0], s[j]) <= 0;
    }
  }

  /**
   * Sortedness and kept ties determine the order completely: any stable sort
   * of the zone's tasks (the engine's `Array.prototype.sort` included) yields
   * the same sequence as this one.
   */
  lemma {:induction false} StableSortUnique(r1: seq<Task>, r2: seq<Task>)
    requires SortedByCreatedAt(r1) && SortedByCreatedAt(r2)
    requires SameTies(r1, r2)
    ensures r1 == r2
    decreases |r1| + |r2|
  {
    if r1 == [] && r2 == [] {
    } else if r1 == [] || r2 == [] {
      HeadHasTies(r1);
      HeadHasTies(r2);
      assert false;
    } else {
      var k1, k2 := r1[0].createdAt, r2[0].createdAt;
      assert CreatedAt(r1, k1) == CreatedAt(r2, k1);
      assert CreatedAt(r1, k2) == CreatedAt(r2, k2);
      CreatedAtMembers(r1, k1, r1[0]);
      CreatedAtMembers(r2, k1, r1[0]);
      SortedHeadIsEarliest(r2, r1[0]);
      CreatedAtMembers(r2, k2, r2[0]);
      CreatedAtMembers(r1, k2, r2[0]);
      SortedHeadIsEarliest(r1, r2[0]);
      assert k1 == k2;
      var t1, t2 := CreatedAt(r1[1..], k1), CreatedAt(r2[1..], k1);
      assert CreatedAt(r1, k1) == [r1[0]] + t1;
      assert CreatedAt(r2, k1) == [r2[0]] + t2;
      assert r1[0] == r2[0] && t1 == t2 by {
        assert ([r1[0]] + t1)[0] == r1[0] && ([r1[0]] + t1)[1..] == t1;
        assert ([r2[0]] + t2)[0] == r2[0] && ([r2[0]] + t2)[1..] == t2;
      }
      forall k ensures CreatedAt(r1[1..], k) == CreatedAt(r2[1..], k) {
        if k != k1 {
          assert CreatedAt(r1, k) == CreatedAt(r1[1..], k);
          assert CreatedAt(r2, k) == CreatedAt(r2[1..], k);
          assert CreatedAt(r1, k) == CreatedAt(r2, k);
        }
      }
      StableSortUnique(r1[1..], r2[1..]);
      assert r1 == [r1[0]] + r1[1..];
      assert r2 == [r2[0]] + r2[1..];
    }
  }

  /** `getTasksInZone(z)`. */
  function GetTasksInZone(tasks: seq<Task>, z: Zone): (r: seq<Task>)
    ensures SortedByCreatedAt(r) && multiset(r) == multiset(InZone(tasks, z))
  {
    SortByCreatedAt(InZone(tasks, z))
  }

  /**
   * A zone lists exactly the tasks in that zone, each as often as in the list,
   * ascending by creation time with equally timed tasks in list order; and this
   * is the only sequence with those properties.
   */
  lemma GetTasksInZoneSpec(tasks: seq<Task>, z: Zone, other: seq<Task>)
    ensures var r := GetTasksInZone(tasks, z);
      && multiset(r) == multiset(InZone(tasks, z))
      && (forall t :: t in r <==> t in tasks && t.zone == z)
      && SortedByCreatedAt(r)
      && SameTies(r, InZone(tasks, z))
    ensures SortedByCreatedAt(other) && SameTies(other, InZone(tasks, z)) ==>
      other == GetTasksInZone(tasks, z)
  {
    var r := GetTasksInZone(tasks, z);
    forall t ensures t in r <==> t in tasks && t.zone == z {
      assert t in r <==> t in multiset(r);
      InZoneMembers(tasks, z, t);
    }
    SortKeepsTies(InZone(tasks, z));
    if SortedByCreatedAt(other) && SameTies(other, InZone(tasks, z)) {
      StableSortUnique(other, r);
    }
  }

  /** A zone holds each task of that zone as often as the list does, and no other task. */
  lemma {:induction false} InZoneCount(s: seq<Task>, z: Zone, t: Task)
    ensures multiset(InZone(s, z))[t] == if t.zone == z then multiset(s)[t] else 0
  {
    if s != [] {
      InZoneCount(s[1..], z, t);
      assert s == [s[0]] + s[1..];
    }
  }

  /** Every task of the list shows in exactly one zone: the zones partition the list. */
  lemma ZonesPartition(s: seq<Task>)
    ensures multiset(s) == multiset(InZone(s, Unassigned)) + multiset(InZone(s, Do))
      + multiset(InZone(s, Schedule)) + multiset(InZone(s, Delegate)) + multiset(InZone(s, Eliminate))
  {
    var all := multiset(InZone(s, Unassigned)) + multiset(InZone(s, Do))
      + multiset(InZone(s, Schedule)) + multiset(InZone(s, Delegate)) + multiset(InZone(s, Eliminate));
    forall t ensures all[t] == multiset(s)[t] {
      InZoneCount(s, Unassigned, t);
      InZoneCount(s, Do, t);
      InZoneCount(s, Schedule, t);
      InZoneCount(s, Delegate, t);
      InZoneCount(s, Eliminate, t);
      assert all[t] == multiset(InZone(s, Unassigned))[t] + multiset(InZone(s, Do))[t]
        + multiset(InZone(s, Schedule))[t] + multiset(InZone(s, Delegate))[t]
        + multiset(InZone(s, Eliminate))[t];
    }
    assert all == multiset(s);
  }

  /** The same for the sorted zone views `render` shows. */
  lemma EveryTaskShownOnce(s: seq<Task>)
    ensures multiset(s) == multiset(GetTasksInZone(s, Unassigned)) + multiset(GetTasksInZone(s, Do))
      + multiset(GetTasksInZone(s, Schedule)) + multiset(GetTasksInZone(s, Delegate))
      + multiset(GetTasksInZone(s, Eliminate))
  {
    ZonesPartition(s);
  }

  /** What `renderTask` shows of a task. */
  datatype Card = Card(id: string, text: string, completed: bool, badge: TagMeta)

  /** The cards one zone element receives. */
  datatype ZoneCards = ZoneCards(zone: Zone, cards: seq<Card>)

  function CardOf(t: Task): (c: Card)
    ensures c.id == t.id && c.text == t.text && c.completed == t.completed
    ensures c.badge == Meta(t.tag)
  {
    Card(t.id, t.text, t.completed, BadgeOrLight(TagName(t.tag)))
  }

  function CardsOf(s: seq<Task>): (r: seq<Card>)
    ensures |r| == |s|
    ensures forall i :: 0 <= i < |s| ==> r[i] == CardOf(s[i])
  {
    if s == [] then [] else [CardOf(s[0])] + CardsOf(s[1..])
  }

  /** Zones listed strictly in the order of ZONES, so each at most once. */
  predicate InZoneOrder(zs: seq<Zone>) {
    forall i, j :: 0 <= i < j < |zs| ==> ZoneIndex(zs[i]) < ZoneIndex(zs[j])
  }

  /** ZONES itself is in that order. */
  lemma ZonesInOrder()
    ensures InZoneOrder(Zones)
  {
  }

  /** Putting the head of an ordered list in front of zones taken from its tail keeps the order. */
  lemma OrderedCons(zs: seq<Zone>, rest: seq<Zone>)
    requires zs != [] && forall z :: z in rest ==> z in zs[1..]
    ensures InZoneOrder(zs) && InZoneOrder(rest) ==> InZoneOrder([zs[0]] + rest)
  {
    if InZoneOrder(zs) && InZoneOrder(rest) {
      var r := [zs[0]] + rest;
      forall i, j | 0 <= i < j < |r| ensures ZoneIndex(r[i]) < ZoneIndex(r[j]) {
        assert r[j] == rest[j - 1];
        if i == 0 {
          assert rest[j - 1] in zs[1..];
          var k :| 0 <= k < |zs[1..]| && zs[1..][k] == rest[j - 1];
          assert zs[k + 1] == r[j];
        } else {
          assert r[i] == rest[i - 1];
        }
      }
    }
  }

  /** The zones of `zs` that have an element in the page, in order. */
  function Present(zs: seq<Zone>, present: set<Zone>): (r: seq<Zone>)
    ensures forall z :: z in r <==> z in zs && z in present
    ensures InZoneOrder(zs) ==> InZoneOrder(r)
  {
    if zs == [] then []
    else
      var rest := Present(zs[1..], present);
      assert InZoneOrder(zs) ==> InZoneOrder(zs[1..]);
      assert zs == [zs[0]] + zs[1..];
      OrderedCons(zs, rest);
      if zs[0] in present then [zs[0]] + rest else rest
  }

  /**
   * `render()` for the zone elements present in the page: each zone in the
   * fixed order, skipping zones without an element, with its tasks' cards.
   */
  function Render(tasks: seq<Task>, present: set<Zone>): (r: seq<ZoneCards>)
    ensures forall i, j :: 0 <= i < j < |r| ==> ZoneIndex(r[i].zone) < ZoneIndex(r[j].zone)
    ensures forall i :: 0 <= i < |r| ==> r[i].zone in present
  {
    ZonesInOrder();
    RenderZones(tasks, Present(Zones, present))
  }

  function RenderZones(tasks: seq<Task>, zs: seq<Zone>): (r: seq<ZoneCards>)
    ensures |r| == |zs|
    ensures forall i :: 0 <= i < |zs| ==> r[i] == ZoneCards(zs[i], CardsOf(GetTasksInZone(tasks, zs[i])))
  {
    if zs == [] then [] else [ZoneCards(zs[0], CardsOf(GetTasksInZone(tasks, zs[0])))] + RenderZones(tasks, zs[1..])
  }

  /** Every zone element present in the page is filled, in the fixed order, and no other zone is. */
  lemma RenderFillsPresentZones(tasks: seq<Task>, present: set<Zone>, z: Zone)
    ensures z in present <==> exists i :: 0 <= i < |Render(tasks, present)| && Render(tasks, present)[i].zone == z
  {
    var zs := Present(Zones, present);
    var r := Render(tasks, present);
    if z in present {
      assert z in zs by {
        assert z == Zones[ZoneIndex(z)];
      }
      var i :| 0 <= i < |zs| && zs[i] == z;
      RenderZonesZones(tasks, zs);
      assert r[i].zone == z;
    }
  }

  function ZoneIndex(z: Zone): (i: nat)
    ensures i < |Zones| && Zones[i] == z
  {
    match z
    case Unassigned => 0
    case Do => 1
    case Schedule => 2
    case Delegate => 3
    case Eliminate => 4
  }

  lemma {:induction false} PresentKeepsAll(zs: seq<Zone>, present: set<Zone>)
    requires forall i :: 0 <= i < |zs| ==> zs[i] in present
    ensures Present(zs, present) == zs
  {
    if zs != [] {
      PresentKeepsAll(zs[1..], present);
    }
  }

  /** With every zone element present the page shows all five zones, in the fixed order. */
  lemma RenderAllZones(tasks: seq<Task>, present: set<Zone>)
    requires forall z: Zone :: z in present
    ensures var r := Render(tasks, present);
      |r| == |Zones| && forall i :: 0 <= i < |r| ==> r[i].zone == Zones[i]
  {
    PresentKeepsAll(Zones, present);
    RenderZonesZones(tasks, Zones);
  }

  /** Each drawn zone element is filled for the zone it stands for. */
  lemma RenderZonesZones(tasks: seq<Task>, zs: seq<Zone>)
    ensures |RenderZones(tasks, zs)| == |zs|
    ensures forall i :: 0 <= i < |zs| ==> RenderZones(tasks, zs)[i].zone == zs[i]
  {
  }
}
