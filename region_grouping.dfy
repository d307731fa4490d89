/**
 * `agruparYTraducir` of the summary page: the per-region scores returned by
 * the API are grouped into six macro-regions (named in Spanish), averaged
 * per group and rounded to two decimals. Labels outside the table are
 * dropped; groups come out in the order in which the scan first reaches them.
 */
module RegionGrouping {
  import opened Wrappers
  import opened Rounding

  /** `REGION_MAPPING`: eleven API labels onto six macro-regions. */
  const RegionMapping: map<string, string> := map[
    "Western Europe" := "Europa",
    "Central and Eastern Europe" := "Europa",
    "Commonwealth of Independent States" := "Europa",
    "North America" := "Norteamérica",
    "Oceania" := "Oceanía",
    "Latin America and Caribbean" := "Latinoamérica",
    "East Asia" := "Asia",
    "Southeast Asia" := "Asia",
    "South Asia" := "Asia",
    "Middle East and North Africa" := "África y M. Oriente",
    "Sub-Saharan Africa" := "África y M. Oriente"
  ]

  /** The six macro-regions. */
  const MacroRegions: set<string> :=
    {"Europa", "Norteamérica", "Oceanía", "Latinoamérica", "Asia", "África y M. Oriente"}

  /** The fallback name the loop gives an unmapped label, and then skips. */
  const Others := "Otros"

  /** One group's running total and number of members. */
  datatype Tally = Tally(sum: real, count: nat)

  /** `REGION_MAPPING[raw]`: the macro-region of an API label, if the table has one. */
  function RegionOf(raw: string): Option<string> {
    if raw in RegionMapping then Some(RegionMapping[raw]) else None
  }

  /** A label's macro-region is one of the six, never the fallback name. */
  lemma RegionNamed(raw: string)
    ensures RegionOf(raw).Some? ==> RegionOf(raw).value in MacroRegions
    ensures RegionOf(raw) != Some(Others)
  {
  }

  /** The six macro-region names are distinct. */
  lemma MacroRegionCount()
    ensures |MacroRegions| == 6
  {
  }

  /** Every macro-region is the target of some label of the table, and nothing else is. */
  lemma MappingTargets()
    ensures RegionMapping.Values == MacroRegions
  {
    assert RegionMapping["Western Europe"] == "Europa";
    assert RegionMapping["North America"] == "Norteamérica";
    assert RegionMapping["Oceania"] == "Oceanía";
    assert RegionMapping["Latin America and Caribbean"] == "Latinoamérica";
    assert RegionMapping["East Asia"] == "Asia";
    assert RegionMapping["Sub-Saharan Africa"] == "África y M. Oriente";
  }

  /** The lookups of the scan: `REGION_MAPPING[l]` for every label `l`, in input order. */
  function Regions(labels: seq<string>): seq<Option<string>> {
    seq(|labels|, i requires 0 <= i < |labels| => RegionOf(labels[i]))
  }

  /** Some lookup of the scan yields `g`. */
  predicate Reaches(rs: seq<Option<string>>, g: string) {
    Some(g) in rs
  }

  /** The macro-regions the scan meets, one per mapped label, in scan order. */
  function Translated(rs: seq<Option<string>>): (gs: seq<string>)
    ensures |gs| <= |rs|
  {
    if rs == [] then []
    else
      var prev := Translated(rs[..|rs| - 1]);
      match rs[|rs| - 1]
      case Some(g) => prev + [g]
      case None => prev
  }

  /** A macro-region is in the scan's stream exactly when some lookup yields it. */
  lemma {:induction false} TranslatedMembers(rs: seq<Option<string>>, g: string)
    ensures g in Translated(rs) <==> Reaches(rs, g)
  {
    if rs != [] {
      var n := |rs| - 1;
      TranslatedMembers(rs[..n], g);
      assert rs == rs[..n] + [rs[n]];
    }
  }

  /** No element occurs twice in `xs`. */
  predicate Distinct(xs: seq<string>) {
    forall i, j :: 0 <= i < j < |xs| ==> xs[i] != xs[j]
  }

  /** `xs` without repetitions, each element kept where it first occurs. */
  function FirstOccurrences(xs: seq<string>): (ys: seq<string>)
    ensures |ys| <= |xs|
    ensures forall x :: x in ys <==> x in xs
    ensures Distinct(ys)
  {
    if xs == [] then []
    else
      var init := xs[..|xs| - 1];
      var last := xs[|xs| - 1];
      assert xs == init + [last];
      var prev := FirstOccurrences(init);
      if last in prev then prev else prev + [last]
  }

  /** The group names of a scan, in `Object.keys` order: each where the scan first meets it. */
  function GroupsOf(rs: seq<Option<string>>): seq<string> {
    FirstOccurrences(Translated(rs))
  }

  /** The group names `agruparYTraducir` returns for `labels`. */
  function GroupOrder(labels: seq<string>): seq<string> {
    GroupsOf(Regions(labels))
  }

  /** How many lookups yield `g`. */
  function CountOf(rs: seq<Option<string>>, g: string): (n: nat)
    ensures n > 0 <==> Reaches(rs, g)
  {
    if rs == [] then 0
    else
      var last := |rs| - 1;
      assert rs == rs[..last] + [rs[last]];
      CountOf(rs[..last], g) + (if rs[last] == Some(g) then 1 else 0)
  }

  /** The sum of `values[i]` over the indices `i` whose lookup yields `g`. */
  function SumOf(rs: seq<Option<string>>, values: seq<real>, g: string): (s: real)
    requires |rs| <= |values|
    ensures !Reaches(rs, g) ==> s == 0.0
  {
    if rs == [] then 0.0
    else
      var last := |rs| - 1;
      assert rs == rs[..last] + [rs[last]];
      SumOf(rs[..last], values, g) + (if rs[last] == Some(g) then values[last] else 0.0)
  }

  /** The unrounded average of group `g`. */
  function Average(rs: seq<Option<string>>, values: seq<real>, g: string): real
    requires |rs| <= |values|
    requires Reaches(rs, g)
  {
    SumOf(rs, values, g) / CountOf(rs, g) as real
  }

  /** The first index whose lookup yields `g`. */
  function FirstReach(rs: seq<Option<string>>, g: string): (i: nat)
    requires Reaches(rs, g)
    ensures i < |rs| && rs[i] == Some(g)
    ensures forall k :: 0 <= k < i ==> rs[k] != Some(g)
  {
    var last := |rs| - 1;
    var init := rs[..last];
    assert rs == init + [rs[last]];
    assert forall k :: 0 <= k < last ==> init[k] == rs[k];
    if Reaches(init, g) then FirstReach(init, g) else last
  }

  /** `xs` with its element at index `i` removed. */
  function Without<T>(xs: seq<T>, i: nat): (ys: seq<T>)
    requires i < |xs|
    ensures |ys| == |xs| - 1
  {
    xs[..i] + xs[i + 1..]
  }

  /** A group is output exactly when some input label maps to it. */
  lemma GroupMembers(labels: seq<string>, g: string)
    ensures g in GroupOrder(labels) <==> exists i :: 0 <= i < |labels| && RegionOf(labels[i]) == Some(g)
  {
    var rs := Regions(labels);
    TranslatedMembers(rs, g);
    if g in GroupOrder(labels) {
      var i :| 0 <= i < |rs| && rs[i] == Some(g);
      assert RegionOf(labels[i]) == Some(g);
    }
    if i :| 0 <= i < |labels| && RegionOf(labels[i]) == Some(g) {
      assert rs[i] == Some(g);
    }
  }

  /** A repetition-free sequence drawn from `s` is no longer than `s` has elements. */
  lemma {:induction false} DistinctWithin(xs: seq<string>, s: set<string>)
    requires Distinct(xs)
    requires forall x :: x in xs ==> x in s
    ensures |xs| <= |s|
  {
    if xs != [] {
      var n := |xs| - 1;
      var init := xs[..n];
      assert forall x :: x in init ==> x in s - {xs[n]} by {
        forall x | x in init ensures x in s - {xs[n]} {
          var k :| 0 <= k < n && init[k] == x;
          assert xs[k] == x;
        }
      }
      DistinctWithin(init, s - {xs[n]});
    }
  }

  /**
   * The output names are pairwise distinct macro-regions, so there are at
   * most six of them, and never more than there are input labels.
   */
  lemma GroupOrderBounds(labels: seq<string>)
    ensures Distinct(GroupOrder(labels))
    ensures forall g :: g in GroupOrder(labels) ==> g in MacroRegions
    ensures |GroupOrder(labels)| <= |labels|
    ensures |GroupOrder(labels)| <= 6
  {
    var rs := Regions(labels);
    forall g | g in GroupOrder(labels)
      ensures g in MacroRegions
    {
      TranslatedMembers(rs, g);
      var i :| 0 <= i < |rs| && rs[i] == Some(g);
      RegionNamed(labels[i]);
    }
    MacroRegionCount();
    DistinctWithin(GroupOrder(labels), MacroRegions);
  }

  /**
   * Groups come out in the order in which the scan first reaches them: an
   * earlier group's first label precedes a later group's first label.
   */
  lemma {:induction false} GroupsFollowScan(rs: seq<Option<string>>, a: nat, b: nat)
    requires a < b < |GroupsOf(rs)|
    ensures Reaches(rs, GroupsOf(rs)[a]) && Reaches(rs, GroupsOf(rs)[b])
    ensures FirstReach(rs, GroupsOf(rs)[a]) < FirstReach(rs, GroupsOf(rs)[b])
  {
    var order := GroupsOf(rs);
    TranslatedMembers(rs, order[a]);
    TranslatedMembers(rs, order[b]);
    var n := |rs| - 1;
    var init := rs[..n];
    var prev := GroupsOf(init);
    if b < |prev| && order[..|prev|] == prev {
      GroupsFollowScan(init, a, b);
      assert order[a] == prev[a] && order[b] == prev[b];
    } else {
      var r := rs[n].value;
      FirstOccurrencesSnoc(Translated(init), r);
      assert r !in prev && order == prev + [r] && b == |prev|;
      TranslatedMembers(init, r);
      TranslatedMembers(init, order[a]);
      assert order[a] == prev[a];
    }
  }

  /** Only the first `|rs|` values enter a sum. */
  lemma {:induction false} SumOfPrefix(rs: seq<Option<string>>, v1: seq<real>, v2: seq<real>, g: string)
    requires |rs| <= |v1| && |rs| <= |v2|
    requires forall k :: 0 <= k < |rs| ==> v1[k] == v2[k]
    ensures SumOf(rs, v1, g) == SumOf(rs, v2, g)
  {
    if rs != [] {
      SumOfPrefix(rs[..|rs| - 1], v1, v2, g);
    }
  }

  /** Removing entry `i` and then the last entry, in either order. */
  lemma WithoutInit<T>(xs: seq<T>, i: nat)
    requires i < |xs| - 1
    ensures Without(xs, i)[..|xs| - 2] == Without(xs[..|xs| - 1], i)
    ensures Without(xs, i)[|xs| - 2] == xs[|xs| - 1]
  {
  }

  /** Entries after the removed one move down by one place. */
  lemma WithoutAfter<T>(xs: seq<T>, i: nat, k: nat)
    requires i <= k < |xs| - 1
    ensures Without(xs, i)[k] == xs[k + 1]
  {
  }

  /** Dropping a lookup that found nothing leaves the stream of macro-regions as it was. */
  lemma {:induction false} UnmappedSkipped(rs: seq<Option<string>>, i: nat)
    requires i < |rs|
    requires rs[i].None?
    ensures Translated(Without(rs, i)) == Translated(rs)
  {
    var n := |rs| - 1;
    var w := Without(rs, i);
    if i == n {
      assert w == rs[..n];
    } else {
      UnmappedSkipped(rs[..n], i);
      WithoutInit(rs, i);
    }
  }

  /** Dropping a lookup that found nothing leaves every count as it was. */
  lemma {:induction false} UnmappedUncounted(rs: seq<Option<string>>, i: nat, g: string)
    requires i < |rs|
    requires rs[i].None?
    ensures CountOf(Without(rs, i), g) == CountOf(rs, g)
  {
    var n := |rs| - 1;
    var w := Without(rs, i);
    if i == n {
      assert w == rs[..n];
    } else {
      UnmappedUncounted(rs[..n], i, g);
      WithoutInit(rs, i);
    }
  }

  /** Dropping a lookup that found nothing, with its value, leaves every sum as it was. */
  lemma {:induction false} UnmappedUnsummed(rs: seq<Option<string>>, values: seq<real>, i: nat, g: string)
    requires i < |rs| <= |values|
    requires rs[i].None?
    ensures SumOf(Without(rs, i), Without(values, i), g) == SumOf(rs, values, g)
  {
    var n := |rs| - 1;
    var w := Without(rs, i);
    var vs := Without(values, i);
    if i == n {
      assert w == rs[..n];
      forall k | 0 <= k < n
        ensures vs[k] == values[k]
      {
      }
      SumOfPrefix(w, vs, values, g);
    } else {
      UnmappedUnsummed(rs[..n], values, i, g);
      WithoutInit(rs, i);
      WithoutAfter(values, i, n - 1);
    }
  }

  /** The lookups of the labels without label `i` are the lookups without lookup `i`. */
  lemma RegionsWithout(labels: seq<string>, i: nat)
    requires i < |labels|
    ensures Regions(Without(labels, i)) == Without(Regions(labels), i)
  {
    var w := Without(labels, i);
    var rs := Regions(labels);
    forall k | 0 <= k < |w|
      ensures Regions(w)[k] == Without(rs, i)[k]
    {
      if k < i {
        assert w[k] == labels[k];
      } else {
        WithoutAfter(labels, i, k);
        WithoutAfter(rs, i, k);
      }
    }
  }

  /**
   * A label outside the table contributes to no group: removing it (with
   * its value) changes neither the groups nor any count or sum.
   */
  lemma UnmappedLabelIgnored(labels: seq<string>, values: seq<real>, i: nat, g: string)
    requires i < |labels| <= |values|
    requires RegionOf(labels[i]).None?
    ensures GroupOrder(Without(labels, i)) == GroupOrder(labels)
    ensures CountOf(Regions(Without(labels, i)), g) == CountOf(Regions(labels), g)
    ensures SumOf(Regions(Without(labels, i)), Without(values, i), g) == SumOf(Regions(labels), values, g)
  {
    var rs := Regions(labels);
    RegionsWithout(labels, i);
    UnmappedSkipped(rs, i);
    UnmappedUncounted(rs, i, g);
    UnmappedUnsummed(rs, values, i, g);
  }

  /** `x` added to itself `c` times. */
  function Times(c: nat, x: real): real {
    if c == 0 then 0.0 else Times(c - 1, x) + x
  }

  /** Repeated addition is multiplication. */
  lemma {:induction false} TimesIsProduct(c: nat, x: real)
    ensures Times(c, x) == c as real * x
  {
    if c > 0 {
      TimesIsProduct(c - 1, x);
      assert (c - 1) as real * x + x == c as real * x;
    }
  }

  /** A sum of `count` values, each at least `lo`, is at least `count` times `lo`. */
  lemma {:induction false} SumAtLeast(rs: seq<Option<string>>, values: seq<real>, g: string, lo: real)
    requires |rs| <= |values|
    requires forall k :: 0 <= k < |rs| && rs[k] == Some(g) ==> lo <= values[k]
    ensures Times(CountOf(rs, g), lo) <= SumOf(rs, values, g)
  {
    if rs != [] {
      var n := |rs| - 1;
      var init := rs[..n];
      assert forall k :: 0 <= k < n ==> init[k] == rs[k];
      SumAtLeast(init, values, g, lo);
    }
  }

  /** A sum of `count` values, each at most `hi`, is at most `count` times `hi`. */
  lemma {:induction false} SumAtMost(rs: seq<Option<string>>, values: seq<real>, g: string, hi: real)
    requires |rs| <= |values|
    requires forall k :: 0 <= k < |rs| && rs[k] == Some(g) ==> values[k] <= hi
    ensures SumOf(rs, values, g) <= Times(CountOf(rs, g), hi)
  {
    if rs != [] {
      var n := |rs| - 1;
      var init := rs[..n];
      assert forall k :: 0 <= k < n ==> init[k] == rs[k];
      SumAtMost(init, values, g, hi);
    }
  }

  /** A sum lying between `n` times `lo` and `n` times `hi`, divided by `n > 0`, lies between `lo` and `hi`. */
  lemma QuotientBetween(s: real, n: nat, lo: real, hi: real)
    requires n > 0
    requires Times(n, lo) <= s <= Times(n, hi)
    ensures lo <= s / n as real <= hi
  {
    TimesIsProduct(n, lo);
    TimesIsProduct(n, hi);
    var c := n as real;
    var q := s / c;
    assert (q - lo) * c == s - lo * c;
    assert (hi - q) * c == hi * c - s;
  }

  /** A group's average lies between the least and the greatest of its members' values. */
  lemma AverageBetween(labels: seq<string>, values: seq<real>, g: string, lo: real, hi: real)
    requires |labels| <= |values|
    requires g in GroupOrder(labels)
    requires forall k :: 0 <= k < |labels| && RegionOf(labels[k]) == Some(g) ==> lo <= values[k] <= hi
    ensures Reaches(Regions(labels), g)
    ensures lo <= Average(Regions(labels), values, g) <= hi
  {
    var rs := Regions(labels);
    TranslatedMembers(rs, g);
    assert forall k :: 0 <= k < |rs| && rs[k] == Some(g) ==> lo <= values[k] <= hi;
    SumAtLeast(rs, values, g, lo);
    SumAtMost(rs, values, g, hi);
    QuotientBetween(SumOf(rs, values, g), CountOf(rs, g), lo, hi);
  }

  /** Extending the scanned prefix by one lookup: the stream of macro-regions. */
  lemma ScanStep(rs: seq<Option<string>>, i: nat)
    requires i < |rs|
    ensures Translated(rs[..i + 1]) ==
              match rs[i]
              case Some(g) => Translated(rs[..i]) + [g]
              case None => Translated(rs[..i])
  {
    assert rs[..i + 1][..i] == rs[..i];
  }

  /** Extending the scanned prefix by one lookup: the count and sum of group `g`. */
  lemma ScanStepAt(rs: seq<Option<string>>, values: seq<real>, i: nat, g: string)
    requires i < |rs| <= |values|
    ensures CountOf(rs[..i + 1], g) == CountOf(rs[..i], g) + (if rs[i] == Some(g) then 1 else 0)
    ensures SumOf(rs[..i + 1], values, g) == SumOf(rs[..i], values, g) + (if rs[i] == Some(g) then values[i] else 0.0)
  {
    assert rs[..i + 1][..i] == rs[..i];
  }

  /** Appending one element to the input of `FirstOccurrences`. */
  lemma FirstOccurrencesSnoc(xs: seq<string>, x: string)
    ensures FirstOccurrences(xs + [x]) ==
              if x in FirstOccurrences(xs) then FirstOccurrences(xs) else FirstOccurrences(xs) + [x]
  {
    assert (xs + [x])[..|xs|] == xs;
  }

  /**
   * `grupos` holds the tally of every group met in `scanned`, and only
   * those; a group not met has an empty tally.
   */
  ghost predicate Tallied(grupos: map<string, Tally>, scanned: seq<Option<string>>, values: seq<real>)
    requires |scanned| <= |values|
  {
    forall g ::
      && (g in grupos ==> grupos[g] == Tally(SumOf(scanned, values, g), CountOf(scanned, g)))
      && (g !in grupos ==> CountOf(scanned, g) == 0 && SumOf(scanned, values, g) == 0.0)
  }

  /** The tallies after adding `v` to group `g`, creating the group if it is new. */
  function AddTo(grupos: map<string, Tally>, g: string, v: real): (next: map<string, Tally>)
    ensures next.Keys == grupos.Keys + {g}
    ensures g in grupos ==> next[g] == Tally(grupos[g].sum + v, grupos[g].count + 1)
    ensures g !in grupos ==> next[g] == Tally(v, 1)
    ensures forall h :: h in grupos && h != g ==> next[h] == grupos[h]
  {
    var t := if g in grupos then grupos[g] else Tally(0.0, 0);
    grupos[g := Tally(t.sum + v, t.count + 1)]
  }

  /** A label of the table adds its value to its group's tally, and the tallies stay exact. */
  lemma TallyMapped(grupos: map<string, Tally>, rs: seq<Option<string>>, values: seq<real>, i: nat, g: string)
    requires i < |rs| <= |values|
    requires rs[i] == Some(g)
    requires Tallied(grupos, rs[..i], values)
    ensures Tallied(AddTo(grupos, g, values[i]), rs[..i + 1], values)
  {
    var next := AddTo(grupos, g, values[i]);
    forall h
      ensures h in next ==> next[h] == Tally(SumOf(rs[..i + 1], values, h), CountOf(rs[..i + 1], h))
      ensures h !in next ==> CountOf(rs[..i + 1], h) == 0 && SumOf(rs[..i + 1], values, h) == 0.0
    {
      ScanStepAt(rs, values, i, h);
    }
  }

  /** A label outside the table leaves the tallies as they are, and they stay exact. */
  lemma TallySkipped(grupos: map<string, Tally>, rs: seq<Option<string>>, values: seq<real>, i: nat)
    requires i < |rs| <= |values|
    requires rs[i].None?
    requires Tallied(grupos, rs[..i], values)
    ensures Tallied(grupos, rs[..i + 1], values)
  {
    forall h
      ensures h in grupos ==> grupos[h] == Tally(SumOf(rs[..i + 1], values, h), CountOf(rs[..i + 1], h))
      ensures h !in grupos ==> CountOf(rs[..i + 1], h) == 0 && SumOf(rs[..i + 1], values, h) == 0.0
    {
      ScanStepAt(rs, values, i, h);
    }
  }

  /**
   * One label of the scan: a lookup that finds `g` appends `g` to the group
   * names unless it is already there and adds the label's value to `g`'s
   * tally; a lookup that finds nothing changes neither. Either way the
   * names and tallies after the step are those of the longer prefix.
   */
  lemma ScanLabel(grupos: map<string, Tally>, order: seq<string>, rs: seq<Option<string>>, values: seq<real>, i: nat,
                  grupos': map<string, Tally>, order': seq<string>)
    requires i < |rs| <= |values|
    requires order == GroupsOf(rs[..i])
    requires forall g :: g in grupos <==> g in order
    requires Tallied(grupos, rs[..i], values)
    requires rs[i].Some? ==>
               && grupos' == AddTo(grupos, rs[i].value, values[i])
               && order' == (if rs[i].value in grupos then order else order + [rs[i].value])
    requires rs[i].None? ==> grupos' == grupos && order' == order
    ensures order' == GroupsOf(rs[..i + 1])
    ensures forall g :: g in grupos' <==> g in order'
    ensures Tallied(grupos', rs[..i + 1], values)
  {
    ScanStep(rs, i);
    match rs[i]
    case Some(g) =>
      FirstOccurrencesSnoc(Translated(rs[..i]), g);
      TallyMapped(grupos, rs, values, i, g);
    case None =>
      TallySkipped(grupos, rs, values, i);
  }

  /**
   * The `forEach` callback of `agruparYTraducir` for the label at `index`:
   * a label outside the table is skipped; otherwise its value is added to
   * its group's tally, and a group met for the first time becomes the last
   * key.
   */
  method AddLabel(grupos: map<string, Tally>, order: seq<string>, regionLabel: string, values: seq<real>, index: nat)
    returns (grupos': map<string, Tally>, order': seq<string>)
    requires index < |values|
    ensures RegionOf(regionLabel).Some? ==>
              && grupos' == AddTo(grupos, RegionOf(regionLabel).value, values[index])
              && order' == (if RegionOf(regionLabel).value in grupos then order else order + [RegionOf(regionLabel).value])
    ensures RegionOf(regionLabel).None? ==> grupos' == grupos && order' == order
  {
    grupos', order' := grupos, order;
    RegionNamed(regionLabel);
    var grupoEsp := RegionOf(regionLabel).GetOr(Others);
    if grupoEsp == Others {
      return;
    }
    var valor := values[index];
    if grupoEsp !in grupos' {
      order' := order' + [grupoEsp];
    }
    grupos' := AddTo(grupos', grupoEsp, valor);
  }

  /**
   * The `forEach` pass of `agruparYTraducir`: `grupos` maps each group met
   * so far to its tally, `order` is the order its keys were inserted in.
   */
  method TallyGroups(labels: seq<string>, values: seq<real>)
    returns (grupos: map<string, Tally>, order: seq<string>)
    requires |labels| <= |values|
    ensures order == GroupOrder(labels)
    ensures forall g :: g in grupos <==> g in order
    ensures Tallied(grupos, Regions(labels), values)
  {
    ghost var rs := Regions(labels);
    grupos := map[];
    order := [];
    var i := 0;
    while i < |labels|
      invariant 0 <= i <= |labels|
      invariant order == GroupsOf(rs[..i])
      invariant forall g :: g in grupos <==> g in order
      invariant Tallied(grupos, rs[..i], values)
    {
      ghost var before, orderBefore := grupos, order;
      grupos, order := AddLabel(grupos, order, labels[i], values, i);
      assert rs[i] == RegionOf(labels[i]);
      ScanLabel(before, orderBefore, rs, values, i, grupos, order);
      i := i + 1;
    }
    assert rs[..i] == rs;
  }

  /**
   * `agruparYTraducir(labels, values)`: the groups in the order the scan
   * meets them, each with its average rounded to two decimals.
   */
  method GroupAndTranslate(labels: seq<string>, values: seq<real>)
    returns (newLabels: seq<string>, newValues: seq<real>)
    requires |labels| <= |values|
    ensures newLabels == GroupOrder(labels)
    ensures |newValues| == |newLabels|
    ensures forall k :: 0 <= k < |newLabels| ==>
              && Reaches(Regions(labels), newLabels[k])
              && newValues[k] == Round2(Average(Regions(labels), values, newLabels[k]))
    ensures labels == [] ==> newLabels == [] && newValues == []
  {
    var grupos, order := TallyGroups(labels, values);
    forall g | g in grupos
      ensures grupos[g].count > 0
    {
      TranslatedMembers(Regions(labels), g);
    }
    newLabels := order;
    newValues := seq(|order|, k requires 0 <= k < |order| =>
                       Round2(grupos[order[k]].sum / grupos[order[k]].count as real));
  }
}
