/** The kiosk menu of an office: the services a visitor can queue for,
    grouped under their categories. Services keep the order of the
    office's assignment table; categories keep the table order of the
    category list (display order, then name); empty categories are dropped
    and services without a known category are listed apart. */
module KioskMenu {
  import opened Common
  import opened OfficeHours
  import opened QueueData

  datatype ServiceItem = ServiceItem(id: string, title: string, icon: string)
  datatype CategoryGroup = CategoryGroup(title: string, services: seq<ServiceItem>)

  datatype Menu =
    | MenuError
    | MenuClosed(scheduleMissing: bool)
    | Listing(categories: seq<CategoryGroup>, noCategory: seq<ServiceItem>)

  /** The services of the office's active assignment rows, in table order
      (a service assigned twice is listed twice). */
  function ActiveIds(assignments: seq<Assignment>, office: string): (ids: seq<string>)
    ensures forall id :: id in ids <==> exists a :: a in assignments && a.office == office && a.activeInOffice && a.service == id
  {
    if assignments == [] then []
    else
      var last := assignments[|assignments| - 1];
      assert forall a :: a in assignments <==> a in assignments[..|assignments| - 1] || a == last;
      ActiveIds(assignments[..|assignments| - 1], office)
        + (if last.office == office && last.activeInOffice then [last.service] else [])
  }

  /** The list follows the table: the ids of two consecutive stretches of
      rows are the ids of the first followed by those of the second, so
      every active row contributes its service once, in its own place. */
  lemma {:induction false} ActiveIdsFollowTable(first: seq<Assignment>, second: seq<Assignment>, office: string)
    ensures ActiveIds(first + second, office) == ActiveIds(first, office) + ActiveIds(second, office)
    decreases |second|
  {
    if second != [] {
      var init := second[..|second| - 1];
      var last := second[|second| - 1];
      assert (first + second)[..|first + second| - 1] == first + init;
      assert (first + second)[|first + second| - 1] == last;
      ActiveIdsFollowTable(first, init, office);
    } else {
      assert first + second == first;
    }
  }

  /** One row contributes its service exactly when it is this office's active row. */
  lemma ActiveIdsOfOneRow(a: Assignment, office: string)
    ensures ActiveIds([a], office) == if a.office == office && a.activeInOffice then [a.service] else []
  {
    assert [a][..0] == [];
  }

  /** A service the kiosk offers: it exists, is enabled and takes walk-ins. */
  predicate Offered(dir: Directory, id: string)
  {
    id in dir.services && dir.services[id].enabled && dir.services[id].liveQueueEnabled
  }

  function ItemOf(dir: Directory, id: string): ServiceItem
    requires id in dir.services
  {
    ServiceItem(id, dir.services[id].serviceName, dir.services[id].icon)
  }

  /** A category a service can be shown under: set, and present in the category table. */
  predicate KnownCategory(dir: Directory, cat: string)
  {
    cat != "" && exists i :: 0 <= i < |dir.categories| && dir.categories[i].name == cat
  }

  /** The offered services of `ids` in category `cat`, in order. */
  function InCategory(dir: Directory, ids: seq<string>, cat: string): seq<ServiceItem>
  {
    if ids == [] then []
    else
      var id := ids[|ids| - 1];
      InCategory(dir, ids[..|ids| - 1], cat)
        + (if Offered(dir, id) && dir.services[id].category == cat then [ItemOf(dir, id)] else [])
  }

  /** The offered services of `ids` whose category is not a known one, in order. */
  function Uncategorized(dir: Directory, ids: seq<string>): seq<ServiceItem>
  {
    if ids == [] then []
    else
      var id := ids[|ids| - 1];
      Uncategorized(dir, ids[..|ids| - 1])
        + (if Offered(dir, id) && !KnownCategory(dir, dir.services[id].category) then [ItemOf(dir, id)] else [])
  }

  /** The non-empty groups for the categories `cats`, in their order. */
  function Groups(dir: Directory, ids: seq<string>, cats: seq<CategoryRec>): (gs: seq<CategoryGroup>)
    ensures forall g :: g in gs ==> g.services != []
  {
    if cats == [] then []
    else
      var c := cats[|cats| - 1];
      var members := InCategory(dir, ids, c.name);
      Groups(dir, ids, cats[..|cats| - 1])
        + (if c.name != "" && members != [] then [CategoryGroup(c.title, members)] else [])
  }

  /** `get_kiosk_services`. */
  method GetKioskServices(dir: Directory, env: Environment, office: string) returns (menu: Menu)
    requires env.systemZone in env.clock
    ensures office == "" || office !in dir.offices <==> menu == MenuError
    ensures menu.MenuClosed? <==>
              office != "" && office in dir.offices
              && !(ScheduleOf(dir, dir.offices[office]) != ""
                   && OfficeOpen(ScheduleOf(dir, dir.offices[office]), dir.offices[office].timezone,
                                 dir.schedules, env.clock, env.systemZone))
    ensures menu.MenuClosed? ==> (menu.scheduleMissing <==> ScheduleOf(dir, dir.offices[office]) == "")
    ensures menu.Listing? ==>
              var ids := ActiveIds(dir.assignments, office);
              menu.categories == Groups(dir, ids, dir.categories)
              && menu.noCategory == Uncategorized(dir, ids)
  {
    if office == "" || office !in dir.offices {
      return MenuError;
    }
    var officeDoc := dir.offices[office];
    var scheduleName := ScheduleOf(dir, officeDoc);
    if scheduleName == "" {
      return MenuClosed(true);
    }
    var open := IsOfficeOpen(scheduleName, officeDoc.timezone, dir.schedules, env.clock, env.systemZone);
    if !open {
      return MenuClosed(false);
    }

    var ids := ActiveIds(dir.assignments, office);
    var buckets, noCategory := Bucket(dir, ids);
    var groups := CollectGroups(dir, ids, buckets);
    return Listing(groups, noCategory);
  }

  /** The loop over the assigned services: each offered one goes to the
      bucket of its category when that is in the table, to the ungrouped
      list otherwise. */
  method Bucket(dir: Directory, ids: seq<string>)
    returns (buckets: map<string, seq<ServiceItem>>, noCategory: seq<ServiceItem>)
    ensures buckets.Keys == CategoryNames(dir.categories) - {""}
    ensures forall c :: c in buckets ==> buckets[c] == InCategory(dir, ids, c)
    ensures noCategory == Uncategorized(dir, ids)
  {
    buckets := map c | c in CategoryNames(dir.categories) - {""} :: [];
    noCategory := [];
    var i := 0;
    while i < |ids|
      invariant 0 <= i <= |ids|
      invariant buckets.Keys == CategoryNames(dir.categories) - {""}
      invariant forall c :: c in buckets ==> buckets[c] == InCategory(dir, ids[..i], c)
      invariant noCategory == Uncategorized(dir, ids[..i])
    {
      var id := ids[i];
      var before, beforeNo := buckets, noCategory;
      if id in dir.services && dir.services[id].enabled && dir.services[id].liveQueueEnabled {
        var item := ServiceItem(id, dir.services[id].serviceName, dir.services[id].icon);
        var cat := dir.services[id].category;
        if cat != "" && cat in buckets {
          buckets := buckets[cat := buckets[cat] + [item]];
        } else {
          noCategory := noCategory + [item];
        }
      }
      BucketStep(dir, ids, i, before, beforeNo, buckets, noCategory);
      i := i + 1;
    }
    assert ids[..|ids|] == ids;
  }

  /** One turn of the bucketing loop keeps its invariant. */
  lemma BucketStep(dir: Directory, ids: seq<string>, i: nat,
                   before: map<string, seq<ServiceItem>>, beforeNo: seq<ServiceItem>,
                   after: map<string, seq<ServiceItem>>, afterNo: seq<ServiceItem>)
    requires i < |ids|
    requires before.Keys == CategoryNames(dir.categories) - {""}
    requires forall c :: c in before ==> before[c] == InCategory(dir, ids[..i], c)
    requires beforeNo == Uncategorized(dir, ids[..i])
    requires var id := ids[i];
             if Offered(dir, id) && dir.services[id].category != "" && dir.services[id].category in before then
               after == before[dir.services[id].category := before[dir.services[id].category] + [ItemOf(dir, id)]]
               && afterNo == beforeNo
             else if Offered(dir, id) then after == before && afterNo == beforeNo + [ItemOf(dir, id)]
             else after == before && afterNo == beforeNo
    ensures after.Keys == CategoryNames(dir.categories) - {""}
    ensures forall c :: c in after ==> after[c] == InCategory(dir, ids[..i + 1], c)
    ensures afterNo == Uncategorized(dir, ids[..i + 1])
  {
    FilterStep(dir, ids, i);
    var id := ids[i];
    if Offered(dir, id) {
      var cat := dir.services[id].category;
      assert KnownCategory(dir, cat) <==> cat != "" && cat in before;
    }
  }

  /** Extending the prefix of `ids` by one id extends each filter by at most that id's item. */
  lemma FilterStep(dir: Directory, ids: seq<string>, i: nat)
    requires i < |ids|
    ensures forall c :: InCategory(dir, ids[..i + 1], c) == InCategory(dir, ids[..i], c)
              + (if Offered(dir, ids[i]) && dir.services[ids[i]].category == c then [ItemOf(dir, ids[i])] else [])
    ensures Uncategorized(dir, ids[..i + 1]) == Uncategorized(dir, ids[..i])
              + (if Offered(dir, ids[i]) && !KnownCategory(dir, dir.services[ids[i]].category) then [ItemOf(dir, ids[i])] else [])
  {
    assert ids[..i + 1][..i] == ids[..i];
  }

  /** The loop over the category table: a category with services becomes a group. */
  method CollectGroups(dir: Directory, ids: seq<string>, buckets: map<string, seq<ServiceItem>>)
    returns (groups: seq<CategoryGroup>)
    requires buckets.Keys == CategoryNames(dir.categories) - {""}
    requires forall c :: c in buckets ==> buckets[c] == InCategory(dir, ids, c)
    ensures groups == Groups(dir, ids, dir.categories)
  {
    groups := [];
    var k := 0;
    while k < |dir.categories|
      invariant 0 <= k <= |dir.categories|
      invariant groups == Groups(dir, ids, dir.categories[..k])
    {
      var c := dir.categories[k];
      assert dir.categories[..k + 1][..k] == dir.categories[..k];
      assert c.name != "" ==> c.name in buckets;
      if c.name != "" && buckets[c.name] != [] {
        groups := groups + [CategoryGroup(c.title, buckets[c.name])];
      }
      k := k + 1;
    }
    assert dir.categories[..|dir.categories|] == dir.categories;
  }

  /** The names in the category table. */
  function CategoryNames(cats: seq<CategoryRec>): (names: set<string>)
    ensures forall n :: n in names <==> exists i :: 0 <= i < |cats| && cats[i].name == n
  {
    set i | 0 <= i < |cats| :: cats[i].name
  }

  // ---------------------------------------------------------------------
  // What the menu lists

  /** Everything listed without a category is an offered service of an
      active assignment of this office, whose category is unset or unknown. */
  lemma {:induction false} UncategorizedSound(dir: Directory, ids: seq<string>, item: ServiceItem)
    requires item in Uncategorized(dir, ids)
    ensures item.id in ids && Offered(dir, item.id) && item == ItemOf(dir, item.id)
            && !KnownCategory(dir, dir.services[item.id].category)
  {
    var id := ids[|ids| - 1];
    if item in Uncategorized(dir, ids[..|ids| - 1]) {
      UncategorizedSound(dir, ids[..|ids| - 1], item);
    }
  }

  /** Everything listed under a category is an offered service of an active
      assignment of this office, whose category is that one. */
  lemma {:induction false} InCategorySound(dir: Directory, ids: seq<string>, cat: string, item: ServiceItem)
    requires item in InCategory(dir, ids, cat)
    ensures item.id in ids && Offered(dir, item.id) && item == ItemOf(dir, item.id)
            && dir.services[item.id].category == cat
  {
    if item in InCategory(dir, ids[..|ids| - 1], cat) {
      InCategorySound(dir, ids[..|ids| - 1], cat, item);
    }
  }

  /** Every offered service of the office is listed: under its category when
      that is known, apart otherwise. */
  lemma {:induction false} OfferedServicesListed(dir: Directory, ids: seq<string>, id: string)
    requires id in ids && Offered(dir, id)
    ensures KnownCategory(dir, dir.services[id].category) ==> ItemOf(dir, id) in InCategory(dir, ids, dir.services[id].category)
    ensures !KnownCategory(dir, dir.services[id].category) ==> ItemOf(dir, id) in Uncategorized(dir, ids)
  {
    if ids[|ids| - 1] != id {
      assert id in ids[..|ids| - 1] by {
        var i :| 0 <= i < |ids| && ids[i] == id;
        assert ids[..|ids| - 1][i] == id;
      }
      OfferedServicesListed(dir, ids[..|ids| - 1], id);
    }
  }

  /** The number of offered services among `ids` (with repetitions). */
  function OfferedCount(dir: Directory, ids: seq<string>): nat
  {
    if ids == [] then 0
    else OfferedCount(dir, ids[..|ids| - 1]) + (if Offered(dir, ids[|ids| - 1]) then 1 else 0)
  }

  /** The number of services listed under the categories `cats`. */
  function ListedUnder(dir: Directory, ids: seq<string>, cats: seq<CategoryRec>): nat
  {
    if cats == [] then 0
    else
      var c := cats[|cats| - 1];
      ListedUnder(dir, ids, cats[..|cats| - 1]) + (if c.name != "" then |InCategory(dir, ids, c.name)| else 0)
  }

  predicate DistinctNames(cats: seq<CategoryRec>)
  {
    forall i, j :: 0 <= i < j < |cats| ==> cats[i].name != cats[j].name
  }

  /** One more id adds one to the categories count exactly when it is an
      offered service whose category is one of `cats` (names distinct). */
  lemma {:induction false} ListedUnderStep(dir: Directory, ids: seq<string>, id: string, cats: seq<CategoryRec>)
    requires DistinctNames(cats)
    ensures ListedUnder(dir, ids + [id], cats)
            == ListedUnder(dir, ids, cats)
               + (if Offered(dir, id) && dir.services[id].category != ""
                     && exists i :: 0 <= i < |cats| && cats[i].name == dir.services[id].category then 1 else 0)
  {
    assert (ids + [id])[..|ids + [id]| - 1] == ids;
    if cats != [] {
      var front := cats[..|cats| - 1];
      assert DistinctNames(front);
      ListedUnderStep(dir, ids, id, front);
      var c := cats[|cats| - 1];
      if Offered(dir, id) && dir.services[id].category != "" {
        var cat := dir.services[id].category;
        if cat == c.name {
          assert !exists i :: 0 <= i < |front| && front[i].name == cat;
        } else {
          assert (exists i :: 0 <= i < |cats| && cats[i].name == cat) <==> (exists i :: 0 <= i < |front| && front[i].name == cat) by {
            if exists i :: 0 <= i < |cats| && cats[i].name == cat {
              var i :| 0 <= i < |cats| && cats[i].name == cat;
              assert i < |front| && front[i].name == cat;
            }
          }
        }
      }
    }
  }

  /** When category names are distinct, the menu lists every offered service
      exactly once: the grouped and the ungrouped counts add up. */
  lemma {:induction false} MenuCountsEveryService(dir: Directory, ids: seq<string>)
    requires DistinctNames(dir.categories)
    ensures ListedUnder(dir, ids, dir.categories) + |Uncategorized(dir, ids)| == OfferedCount(dir, ids)
  {
    if ids != [] {
      var front := ids[..|ids| - 1];
      var id := ids[|ids| - 1];
      MenuCountsEveryService(dir, front);
      assert front + [id] == ids;
      ListedUnderStep(dir, front, id, dir.categories);
    } else {
      ListedUnderEmpty(dir, dir.categories);
    }
  }

  lemma {:induction false} ListedUnderEmpty(dir: Directory, cats: seq<CategoryRec>)
    ensures ListedUnder(dir, [], cats) == 0
  {
    if cats != [] {
      ListedUnderEmpty(dir, cats[..|cats| - 1]);
    }
  }

  /** The groups appear in the order of the category table, each with that category's title. */
  lemma {:induction false} GroupsFollowTable(dir: Directory, ids: seq<string>, cats: seq<CategoryRec>, g: CategoryGroup)
    requires g in Groups(dir, ids, cats)
    ensures exists i :: 0 <= i < |cats| && cats[i].title == g.title && cats[i].name != ""
                        && g.services == InCategory(dir, ids, cats[i].name)
  {
    var front := cats[..|cats| - 1];
    if g in Groups(dir, ids, front) {
      GroupsFollowTable(dir, ids, front, g);
      var i :| 0 <= i < |front| && front[i].title == g.title && front[i].name != ""
               && g.services == InCategory(dir, ids, front[i].name);
      assert cats[i] == front[i];
    } else {
      assert cats[|cats| - 1].title == g.title;
    }
  }
}
