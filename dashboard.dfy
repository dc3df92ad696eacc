/** `public/js/dashboard.js`: the stat cards above the equipment table. The list the
    page receives is the `data` array of the equipment index, one element per row. */
module Dashboard {
  import opened EquipmentModel
  import Seqs

  /** The five numbers the page writes into its stat cards. */
  datatype StatCards = StatCards(total: nat, available: nat, inUse: nat, maintenance: nat, retired: nat)

  /** The number of listed rows whose status is exactly `s`. */
  function StatusCount(items: seq<Equipment>, s: string): nat {
    Seqs.Count(items, (i: Equipment) => i.fields.status == s)
  }

  /** The statuses that occur in `items`. */
  function StatusesIn(items: seq<Equipment>): set<string> {
    set i | 0 <= i < |items| :: items[i].fields.status
  }

  /** Appending one row adds one to the count of its own status and nothing elsewhere. */
  lemma StatusCountSnoc(a: seq<Equipment>, x: Equipment, s: string)
    ensures StatusCount(a + [x], s) == StatusCount(a, s) + (if x.fields.status == s then 1 else 0)
  {
    Seqs.CountAppend(a, [x], (i: Equipment) => i.fields.status == s);
  }

  /** A status that does not occur has count 0. */
  lemma AbsentStatusCount(a: seq<Equipment>, s: string)
    requires s !in StatusesIn(a)
    ensures StatusCount(a, s) == 0
  {
    assert forall i :: 0 <= i < |a| ==> a[i].fields.status != s;
  }

  /** The four keys the counter object starts with. */
  const Displayed: set<string> := {"Available", "In Use", "Under Maintenance", "Retired"}

  /** The counter object after a pass over `prefix`: the four displayed keys and every
      status seen, each holding the number of rows of that status. */
  predicate Tallies(counts: map<string, nat>, prefix: seq<Equipment>) {
    && counts.Keys == Displayed + StatusesIn(prefix)
    && forall s :: s in counts ==> counts[s] == StatusCount(prefix, s)
  }

  /** `counts[status] = (counts[status] || 0) + 1` */
  function Bump(counts: map<string, nat>, status: string): map<string, nat> {
    counts[status := (if status in counts then counts[status] else 0) + 1]
  }

  /** The counter object starts as the tally of no rows. */
  lemma InitialTallies()
    ensures Tallies(map["Available" := 0, "In Use" := 0, "Under Maintenance" := 0, "Retired" := 0], [])
  {
  }

  /** Appending one row adds its status to the statuses seen. */
  lemma StatusesSnoc(a: seq<Equipment>, x: Equipment)
    ensures StatusesIn(a + [x]) == StatusesIn(a) + {x.fields.status}
  {
    var b := a + [x];
    assert b[|a|] == x;
    forall st | st in StatusesIn(b) ensures st in StatusesIn(a) + {x.fields.status} {
      var i :| 0 <= i < |b| && b[i].fields.status == st;
      if i < |a| {
        assert b[i] == a[i];
      }
    }
    forall st | st in StatusesIn(a) ensures st in StatusesIn(b) {
      var i :| 0 <= i < |a| && a[i].fields.status == st;
      assert b[i] == a[i];
    }
  }

  /** Bumping a row's status extends the tally by that row. */
  lemma BumpTallies(counts: map<string, nat>, a: seq<Equipment>, x: Equipment, b: seq<Equipment>)
    requires Tallies(counts, a) && b == a + [x]
    ensures Tallies(Bump(counts, x.fields.status), b)
  {
    var st := x.fields.status;
    var next := Bump(counts, st);
    if st !in counts {
      AbsentStatusCount(a, st);
    }
    StatusesSnoc(a, x);
    forall s | s in next ensures next[s] == StatusCount(a + [x], s) {
      StatusCountSnoc(a, x, s);
    }
  }

  /** A finished tally holds the four displayed keys. */
  lemma TalliesHoldDisplayed(counts: map<string, nat>, items: seq<Equipment>)
    requires Tallies(counts, items)
    ensures "Available" in counts && "In Use" in counts && "Under Maintenance" in counts && "Retired" in counts
  {
  }

  /** Bumping the next row's status extends the tally of a prefix by one row. */
  lemma BumpPrefix(counts: map<string, nat>, items: seq<Equipment>, k: nat)
    requires k < |items| && Tallies(counts, items[..k])
    ensures Tallies(Bump(counts, items[k].fields.status), items[..k + 1])
  {
    Seqs.PrefixSnoc(items, k);
    BumpTallies(counts, items[..k], items[k], items[..k + 1]);
  }

  /** `items.forEach(…)`: one pass adds 1 under each item's own status, creating the
      key for a status it has not seen. */
  method CountStatuses(items: seq<Equipment>) returns (counts: map<string, nat>)
    ensures Tallies(counts, items)
  {
    counts := map["Available" := 0, "In Use" := 0, "Under Maintenance" := 0, "Retired" := 0];
    InitialTallies();
    for k := 0 to |items|
      invariant Tallies(counts, items[..k])
    {
      BumpPrefix(counts, items, k);
      counts := Bump(counts, items[k].fields.status);
    }
    assert items[..|items|] == items;
  }

  /** `renderStats(items)`: the counter object starts with the four displayed statuses at
      0 and is bumped once per item; the cards show the item count and the four
      displayed counters. */
  method RenderStats(items: seq<Equipment>) returns (counts: map<string, nat>, cards: StatCards)
    ensures counts.Keys == Displayed + StatusesIn(items)
    ensures forall s :: s in counts ==> counts[s] == StatusCount(items, s)
    ensures cards.total == |items|
    ensures cards.available == StatusCount(items, "Available")
    ensures cards.inUse == StatusCount(items, "In Use")
    ensures cards.maintenance == StatusCount(items, "Under Maintenance")
    ensures cards.retired == StatusCount(items, "Retired")
  {
    counts := CountStatuses(items);
    TalliesHoldDisplayed(counts, items);
    cards := StatCards(|items|, counts["Available"], counts["In Use"],
                       counts["Under Maintenance"], counts["Retired"]);
  }

  /** What the four status cards add up to. */
  function DisplayedSum(items: seq<Equipment>): nat {
    StatusCount(items, "Available") + StatusCount(items, "In Use")
    + StatusCount(items, "Under Maintenance") + StatusCount(items, "Retired")
  }

  /** A status outside the four is counted under its own key but shown nowhere, so the
      four cards add up to at most the total. */
  lemma {:induction false} DisplayedAtMostTotal(items: seq<Equipment>)
    ensures DisplayedSum(items) <= |items|
  {
    if items != [] {
      DisplayedAtMostTotal(items[1..]);
    }
  }

  /** A row of an unknown status is what makes the cards fall short of the total: when
      every listed row carries one of the four statuses the table allows, they add up
      to it exactly. */
  lemma {:induction false} DisplayedIsTotalForStoredRows(items: seq<Equipment>)
    requires forall i :: 0 <= i < |items| ==> items[i].fields.status in Statuses
    ensures DisplayedSum(items) == |items|
  {
    if items != [] {
      DisplayedIsTotalForStoredRows(items[1..]);
    }
  }

  /** The cards depend on which rows are listed, not on the order they come in. */
  lemma StatsIgnoreOrder(a: seq<Equipment>, b: seq<Equipment>, s: string)
    requires multiset(a) == multiset(b)
    ensures StatusCount(a, s) == StatusCount(b, s)
  {
    Seqs.CountPermutation(a, b, (i: Equipment) => i.fields.status == s);
  }
}
