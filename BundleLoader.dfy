/** Loading a bundle (a saved set of renderable displays) onto a display pane
    container (com.raytheon.viz.ui.BundleLoader): reconcile the number of panes
    with the number of displays, share map layers across the displays, order
    the displays through the first time matcher, pair each ordered display
    with a pane, then swap the displays into the panes.

    Platform calls whose effect is outside the modelled objects (dispose,
    instantiateResources, copyFrom, resetMultiload, synchronizeTimeMatching,
    setLoopProperties, refresh) are appended to an effects log. */
module Bundles {
  import opened Wrappers

  /** An AbstractTimeMatcher; only its identity matters here. */
  class TimeMatcher {
    constructor () { }
  }

  /** The LoopProperties of a bundle; only its identity matters here. */
  class LoopProperties {
    constructor () { }
  }

  /** A ResourcePair of a resource list; its resource data is compared through
      an injected equality. */
  class ResourcePair {
    const isMapLayer: bool

    constructor (isMapLayer: bool)
      ensures this.isMapLayer == isMapLayer
    {
      this.isMapLayer := isMapLayer;
    }
  }

  /** An IDescriptor: its resource list is edited in place. */
  class Descriptor {
    var resources: seq<ResourcePair>
    const timeMatcher: TimeMatcher?

    constructor (resources: seq<ResourcePair>, timeMatcher: TimeMatcher?)
      ensures this.resources == resources && this.timeMatcher == timeMatcher
    {
      this.resources := resources;
      this.timeMatcher := timeMatcher;
    }
  }

  /** An IRenderableDisplay with its descriptor. */
  class Display {
    const descriptor: Descriptor

    constructor (descriptor: Descriptor)
      ensures this.descriptor == descriptor
    {
      this.descriptor := descriptor;
    }
  }

  /** An IDisplayPane: the renderable display it shows, possibly none. */
  class Pane {
    var display: Display?

    constructor (display: Display?)
      ensures this.display == display
    {
      this.display := display;
    }
  }

  /** IDisplayPane.getDescriptor: the descriptor of the display the pane shows. */
  function DescriptorOf(d: Display?): Descriptor?
  {
    if d == null then null else d.descriptor
  }

  predicate DistinctPanes(ps: seq<Pane>)
  {
    forall i, j :: 0 <= i < j < |ps| ==> ps[i] != ps[j]
  }

  predicate DistinctDisplays(ds: seq<Display>)
  {
    forall i, j :: 0 <= i < j < |ds| ==> ds[i] != ds[j]
  }

  predicate DistinctDescriptors(ds: seq<Display>)
  {
    forall i, j :: 0 <= i < j < |ds| ==> ds[i].descriptor != ds[j].descriptor
  }

  // ---------------------------------------------------------------------------
  // The container

  /** The panes without p (IMultiPaneEditor.removePane). */
  function Without(ps: seq<Pane>, p: Pane): seq<Pane>
  {
    if ps == [] then [] else (if ps[0] == p then [] else [ps[0]]) + Without(ps[1..], p)
  }

  lemma {:induction false} WithoutMembers(ps: seq<Pane>, p: Pane)
    ensures forall q :: q in Without(ps, p) <==> q in ps && q != p
  {
    if ps != [] {
      WithoutMembers(ps[1..], p);
      assert ps == [ps[0]] + ps[1..];
    }
  }

  lemma {:induction false} WithoutDistinct(ps: seq<Pane>, p: Pane)
    requires DistinctPanes(ps)
    ensures DistinctPanes(Without(ps, p))
  {
    if ps != [] {
      var tail := ps[1..];
      forall i, j | 0 <= i < j < |tail| ensures tail[i] != tail[j] {
        assert tail[i] == ps[i + 1] && tail[j] == ps[j + 1];
      }
      WithoutDistinct(tail, p);
      WithoutMembers(tail, p);
      forall q | q in tail ensures q != ps[0] {
        var k :| 0 <= k < |tail| && tail[k] == q;
        assert ps[k + 1] == q;
      }
      if ps[0] != p {
        var w := Without(tail, p);
        var r := [ps[0]] + w;
        forall i, j | 0 <= i < j < |r| ensures r[i] != r[j] {
          assert r[j] == w[j - 1] && w[j - 1] in w;
          if i > 0 {
            assert r[i] == w[i - 1];
          }
        }
      }
    }
  }

  lemma {:induction false} WithoutAppend(a: seq<Pane>, b: seq<Pane>, p: Pane)
    ensures Without(a + b, p) == Without(a, p) + Without(b, p)
  {
    if a == [] {
      assert a + b == b;
    } else {
      var ab := a + b;
      assert ab[0] == a[0];
      assert ab[1..] == a[1..] + b;
      WithoutAppend(a[1..], b, p);
      var head := if a[0] == p then [] else [a[0]];
      assert Without(ab, p) == head + Without(a[1..] + b, p);
      assert Without(a, p) == head + Without(a[1..], p);
    }
  }

  lemma {:induction false} WithoutAbsent(ps: seq<Pane>, p: Pane)
    requires p !in ps
    ensures Without(ps, p) == ps
  {
    if ps != [] {
      assert ps[0] in ps;
      assert forall q :: q in ps[1..] ==> q in ps;
      WithoutAbsent(ps[1..], p);
    }
  }

  /** Removing a pane that occurs once takes out exactly that occurrence. */
  lemma WithoutOnce(a: seq<Pane>, p: Pane, b: seq<Pane>)
    requires p !in a && p !in b
    ensures Without(a + [p] + b, p) == a + b
  {
    assert Without([p], p) == [] by {
      assert [p][1..] == [];
    }
    calc {
      Without(a + [p] + b, p);
      { WithoutAppend(a + [p], b, p); }
      Without(a + [p], p) + Without(b, p);
      { WithoutAppend(a, [p], p); }
      Without(a, p) + Without([p], p) + Without(b, p);
      { WithoutAbsent(a, p); WithoutAbsent(b, p); }
      a + [] + b;
      { assert a + [] == a; }
      a + b;
    }
  }

  /** An IDisplayPaneContainer; isMultiPaneEditor tells whether it is an
      IMultiPaneEditor, which can add and remove panes. */
  class Container {
    var panes: seq<Pane>
    const isMultiPaneEditor: bool

    /** A container never holds the same pane twice. */
    ghost predicate Valid()
      reads this
    {
      DistinctPanes(panes)
    }

    constructor (panes: seq<Pane>, isMultiPaneEditor: bool)
      requires DistinctPanes(panes)
      ensures Valid() && this.panes == panes && this.isMultiPaneEditor == isMultiPaneEditor
    {
      this.panes := panes;
      this.isMultiPaneEditor := isMultiPaneEditor;
    }

    /** IMultiPaneEditor.removePane. */
    method RemovePane(p: Pane)
      requires Valid()
      modifies this
      ensures Valid()
      ensures panes == Without(old(panes), p)
    {
      WithoutDistinct(panes, p);
      panes := Without(panes, p);
    }

    /** IMultiPaneEditor.addPane: a new pane showing the display, at the end. */
    method AddPane(d: Display) returns (p: Pane)
      requires Valid()
      modifies this
      ensures Valid()
      ensures fresh(p) && p.display == d
      ensures panes == old(panes) + [p]
    {
      p := new Pane(d);
      panes := panes + [p];
    }
  }

  // ---------------------------------------------------------------------------
  // Map-layer sharing

  /** The map-layer pairs of a resource list, in order. */
  function MapLayers(rs: seq<ResourcePair>): (r: seq<ResourcePair>)
    ensures forall x :: x in r ==> x in rs && x.isMapLayer
    ensures forall x :: x in rs && x.isMapLayer ==> x in r
  {
    if rs == [] then []
    else
      var init := rs[..|rs| - 1];
      assert rs == init + [rs[|rs| - 1]];
      MapLayers(init) + (if rs[|rs| - 1].isMapLayer then [rs[|rs| - 1]] else [])
  }

  /** Walks the first display's resource list and collects its map layers. */
  method CollectMapLayers(first: seq<ResourcePair>) returns (maps: seq<ResourcePair>)
    ensures maps == MapLayers(first)
  {
    maps := [];
    var k := 0;
    while k < |first|
      invariant 0 <= k <= |first|
      invariant maps == MapLayers(first[..k])
    {
      assert first[..k + 1][..k] == first[..k];
      if first[k].isMapLayer {
        maps := maps + [first[k]];
      }
      k := k + 1;
    }
    assert first[..k] == first;
  }

  /** The pairs of a resource list that are not map layers, in order. */
  function OtherLayers(rs: seq<ResourcePair>): seq<ResourcePair>
  {
    if rs == [] then []
    else OtherLayers(rs[..|rs| - 1]) + (if rs[|rs| - 1].isMapLayer then [] else [rs[|rs| - 1]])
  }

  type SameData = (ResourcePair, ResourcePair) -> bool

  /** The first of the maps whose resource data equals rp's. */
  function FirstSame(rp: ResourcePair, maps: seq<ResourcePair>, same: SameData): (r: Option<ResourcePair>)
    ensures r.Some? ==> r.value in maps && same(rp, r.value)
    ensures r.Some? ==> exists k :: 0 <= k < |maps| && maps[k] == r.value &&
                                    forall m :: 0 <= m < k ==> !same(rp, maps[m])
    ensures r.None? <==> forall m :: 0 <= m < |maps| ==> !same(rp, maps[m])
  {
    if maps == [] then None
    else if same(rp, maps[0]) then Some(maps[0])
    else
      var r := FirstSame(rp, maps[1..], same);
      assert forall m :: 1 <= m < |maps| ==> maps[m] == maps[1..][m - 1];
      if r.Some? then
        var k :| 0 <= k < |maps[1..]| && maps[1..][k] == r.value && forall m :: 0 <= m < k ==> !same(rp, maps[1..][m]);
        assert maps[k + 1] == r.value;
        r
      else r
  }

  /** The pair of the first display that replaces rp, if any: only map layers are replaced. */
  function Match(rp: ResourcePair, maps: seq<ResourcePair>, same: SameData): Option<ResourcePair>
  {
    if rp.isMapLayer then FirstSame(rp, maps, same) else None
  }

  /** The pairs of a snapshot that stay, in order. */
  function Kept(snap: seq<ResourcePair>, maps: seq<ResourcePair>, same: SameData): seq<ResourcePair>
  {
    if snap == [] then []
    else
      var last := snap[|snap| - 1];
      Kept(snap[..|snap| - 1], maps, same) + (if Match(last, maps, same).None? then [last] else [])
  }

  /** The first display's pairs appended in place of the replaced ones, in order. */
  function Replacements(snap: seq<ResourcePair>, maps: seq<ResourcePair>, same: SameData): seq<ResourcePair>
  {
    if snap == [] then []
    else
      var last := snap[|snap| - 1];
      var m := Match(last, maps, same);
      Replacements(snap[..|snap| - 1], maps, same) + (if m.Some? then [m.value] else [])
  }

  /** A resource list after the sharing pass over a snapshot of it. */
  function Shared(snap: seq<ResourcePair>, maps: seq<ResourcePair>, same: SameData): seq<ResourcePair>
  {
    Kept(snap, maps, same) + Replacements(snap, maps, same)
  }

  lemma {:induction false} KeptMembers(snap: seq<ResourcePair>, maps: seq<ResourcePair>, same: SameData)
    ensures forall x :: x in Kept(snap, maps, same) ==> x in snap && Match(x, maps, same).None?
    ensures forall x :: x in snap && Match(x, maps, same).None? ==> x in Kept(snap, maps, same)
  {
    if snap != [] {
      KeptMembers(snap[..|snap| - 1], maps, same);
      assert snap == snap[..|snap| - 1] + [snap[|snap| - 1]];
    }
  }

  lemma {:induction false} ReplacementsMembers(snap: seq<ResourcePair>, maps: seq<ResourcePair>, same: SameData)
    ensures forall x :: x in Replacements(snap, maps, same) ==> x in maps
    ensures forall x :: x in snap && Match(x, maps, same).Some? ==>
                         Match(x, maps, same).value in Replacements(snap, maps, same)
  {
    if snap != [] {
      ReplacementsMembers(snap[..|snap| - 1], maps, same);
      assert snap == snap[..|snap| - 1] + [snap[|snap| - 1]];
    }
  }

  /** The pass neither grows nor shrinks a resource list. */
  lemma {:induction false} SharedLength(snap: seq<ResourcePair>, maps: seq<ResourcePair>, same: SameData)
    ensures |Shared(snap, maps, same)| == |snap|
  {
    if snap != [] {
      SharedLength(snap[..|snap| - 1], maps, same);
    }
  }

  lemma {:induction false} OtherLayersAppend(a: seq<ResourcePair>, b: seq<ResourcePair>)
    ensures OtherLayers(a + b) == OtherLayers(a) + OtherLayers(b)
  {
    if b == [] {
      assert a + b == a;
    } else {
      OtherLayersAppend(a, b[..|b| - 1]);
      assert (a + b)[..|a + b| - 1] == a + b[..|b| - 1];
    }
  }

  lemma {:induction false} KeptOtherLayers(snap: seq<ResourcePair>, maps: seq<ResourcePair>, same: SameData)
    ensures OtherLayers(Kept(snap, maps, same)) == OtherLayers(snap)
  {
    if snap != [] {
      var init, last := snap[..|snap| - 1], snap[|snap| - 1];
      KeptOtherLayers(init, maps, same);
      OtherLayersAppend(Kept(init, maps, same), if Match(last, maps, same).None? then [last] else []);
      assert OtherLayers([last]) == (if last.isMapLayer then [] else [last]) by {
        assert [last][..0] == [];
      }
    }
  }

  lemma {:induction false} NoOtherLayers(rs: seq<ResourcePair>)
    requires forall x :: x in rs ==> x.isMapLayer
    ensures OtherLayers(rs) == []
  {
    if rs != [] {
      assert rs[|rs| - 1] in rs;
      assert forall x :: x in rs[..|rs| - 1] ==> x in rs;
      NoOtherLayers(rs[..|rs| - 1]);
    }
  }

  /** The pairs that are not map layers keep their order and none is lost
      or added: the pass only touches map layers. */
  lemma SharedKeepsOtherLayers(snap: seq<ResourcePair>, first: seq<ResourcePair>, same: SameData)
    ensures OtherLayers(Shared(snap, MapLayers(first), same)) == OtherLayers(snap)
  {
    var maps := MapLayers(first);
    KeptOtherLayers(snap, maps, same);
    ReplacementsMembers(snap, maps, same);
    NoOtherLayers(Replacements(snap, maps, same));
    OtherLayersAppend(Kept(snap, maps, same), Replacements(snap, maps, same));
  }

  /** A map layer whose resource data equals that of one of the first
      display's map layers is traded for the first such layer, the very same
      object, which keeps the map properties of the panes in sync; every
      other pair stays; nothing else enters the list. */
  lemma SharedReplacesMatchedMaps(snap: seq<ResourcePair>, first: seq<ResourcePair>, same: SameData)
    ensures forall x :: x in snap && Match(x, MapLayers(first), same).Some? ==>
                          Match(x, MapLayers(first), same).value in Shared(snap, MapLayers(first), same)
                          && Match(x, MapLayers(first), same).value in first
                          && (x in Shared(snap, MapLayers(first), same) ==> x in first)
    ensures forall x :: x in snap && Match(x, MapLayers(first), same).None? ==>
                          x in Shared(snap, MapLayers(first), same)
    ensures forall x :: x in Shared(snap, MapLayers(first), same) ==>
                          (x in snap && Match(x, MapLayers(first), same).None?) || (x in first && x.isMapLayer)
  {
    var maps := MapLayers(first);
    KeptMembers(snap, maps, same);
    ReplacementsMembers(snap, maps, same);
    forall x | x in Shared(snap, maps, same)
      ensures (x in snap && Match(x, maps, same).None?) || (x in first && x.isMapLayer)
    {
      assert Shared(snap, maps, same) == Kept(snap, maps, same) + Replacements(snap, maps, same);
      if x in Replacements(snap, maps, same) {
        assert x in maps;
        assert x in first;
        assert x.isMapLayer;
      } else {
        assert x in Kept(snap, maps, same);
        assert x in snap;
      }
    }
  }

  /** Dropping the first occurrence of a pair (List.remove). */
  function RemoveOne(rs: seq<ResourcePair>, x: ResourcePair): seq<ResourcePair>
  {
    if rs == [] then []
    else if rs[0] == x then rs[1..]
    else [rs[0]] + RemoveOne(rs[1..], x)
  }

  lemma {:induction false} RemoveOneAfter(a: seq<ResourcePair>, x: ResourcePair, b: seq<ResourcePair>)
    requires x !in a
    ensures RemoveOne(a + [x] + b, x) == a + b
  {
    if a == [] {
      assert a + [x] + b == [x] + b;
    } else {
      assert a[0] in a;
      assert forall y :: y in a[1..] ==> y in a;
      RemoveOneAfter(a[1..], x, b);
      assert (a + [x] + b)[1..] == a[1..] + [x] + b;
    }
  }

  /** One step of the sharing pass over a snapshot: the pair at index k is
      either kept in place or removed and its replacement appended. */
  lemma ShareStep(snap: seq<ResourcePair>, k: nat, maps: seq<ResourcePair>, same: SameData)
    requires k < |snap|
    ensures Match(snap[k], maps, same).None? ==>
              Kept(snap[..k], maps, same) + snap[k..] + Replacements(snap[..k], maps, same) ==
              Kept(snap[..k + 1], maps, same) + snap[k + 1..] + Replacements(snap[..k + 1], maps, same)
    ensures Match(snap[k], maps, same).Some? ==>
              RemoveOne(Kept(snap[..k], maps, same) + snap[k..] + Replacements(snap[..k], maps, same), snap[k])
                + [Match(snap[k], maps, same).value] ==
              Kept(snap[..k + 1], maps, same) + snap[k + 1..] + Replacements(snap[..k + 1], maps, same)
  {
    var rp := snap[k];
    var kept, repl := Kept(snap[..k], maps, same), Replacements(snap[..k], maps, same);
    assert snap[..k + 1][..k] == snap[..k];
    assert snap[..k + 1][k] == rp;
    assert snap[k..] == [rp] + snap[k + 1..];
    if Match(rp, maps, same).Some? {
      KeptMembers(snap[..k], maps, same);
      assert kept + snap[k..] + repl == kept + [rp] + (snap[k + 1..] + repl);
      RemoveOneAfter(kept, rp, snap[k + 1..] + repl);
    }
  }

  // ---------------------------------------------------------------------------
  // Display order

  type LoadOrderFn = (TimeMatcher, seq<Display>) -> seq<Display>

  /** The lowest index whose descriptor has a time matcher. */
  function FirstTimed(ds: seq<Display>): (r: Option<nat>)
    ensures r.Some? ==> r.value < |ds| && ds[r.value].descriptor.timeMatcher != null
    ensures r.Some? ==> forall k :: 0 <= k < r.value ==> ds[k].descriptor.timeMatcher == null
    ensures r.None? <==> forall k :: 0 <= k < |ds| ==> ds[k].descriptor.timeMatcher == null
  {
    if ds == [] then None
    else if ds[0].descriptor.timeMatcher != null then Some(0)
    else
      var r := FirstTimed(ds[1..]);
      assert forall k :: 1 <= k < |ds| ==> ds[k] == ds[1..][k - 1];
      if r.Some? then Some(r.value + 1) else None
  }

  /** The order in which the displays are loaded: the one the first time
      matcher gives, or the bundle order when no display has a matcher. */
  function LoadOrder(ds: seq<Display>, order: LoadOrderFn): seq<Display>
  {
    match FirstTimed(ds)
    case None => ds
    case Some(k) => order(ds[k].descriptor.timeMatcher, ds)
  }

  /** synchronizeTimeMatching(source) on the descriptor of each display, in order. */
  function Synced(ordered: seq<Display>, source: Descriptor): seq<Effect>
  {
    seq(|ordered|, j requires 0 <= j < |ordered| => SynchronizeTimeMatching(ordered[j].descriptor, source))
  }

  function SyncEffects(ds: seq<Display>, order: LoadOrderFn): seq<Effect>
  {
    match FirstTimed(ds)
    case None => []
    case Some(k) => Synced(LoadOrder(ds, order), ds[k].descriptor)
  }

  // ---------------------------------------------------------------------------
  // Pairing displays with panes

  /** One planned load: a display into a pane. */
  datatype LoadItem = LoadItem(loadTo: Pane, loadFrom: Display)

  /** The last index at which the display object occurs. */
  function LastIndex(ds: seq<Display>, d: Display): (r: Option<nat>)
    ensures r.Some? ==> r.value < |ds| && ds[r.value] == d
    ensures r.Some? ==> forall k :: r.value < k < |ds| ==> ds[k] != d
    ensures r.None? <==> d !in ds
  {
    if ds == [] then None
    else if ds[|ds| - 1] == d then Some(|ds| - 1)
    else
      var r := LastIndex(ds[..|ds| - 1], d);
      assert ds == ds[..|ds| - 1] + [ds[|ds| - 1]];
      r
  }

  /** The item for one ordered display: into the pane at the display's index
      in the bundle, or null when the display is not in the bundle. */
  function ItemFor(d: Display, panes: seq<Pane>, ds: seq<Display>): Option<LoadItem>
    requires |panes| == |ds|
  {
    match LastIndex(ds, d)
    case None => None
    case Some(i) => Some(LoadItem(panes[i], ds[i]))
  }

  function Pairing(ordered: seq<Display>, panes: seq<Pane>, ds: seq<Display>): seq<Option<LoadItem>>
    requires |panes| == |ds|
  {
    seq(|ordered|, j requires 0 <= j < |ordered| => ItemFor(ordered[j], panes, ds))
  }

  /** The ordered list holds the same displays as the bundle, each once. */
  predicate IsReordering(ordered: seq<Display>, ds: seq<Display>)
  {
    && |ordered| == |ds|
    && DistinctDisplays(ordered)
    && (forall j :: 0 <= j < |ordered| ==> ordered[j] in ds)
    && (forall i :: 0 <= i < |ds| ==> ds[i] in ordered)
  }

  /** When the load order is a reordering of distinct bundle displays, every
      item is present, item j loads the j-th ordered display into the pane
      that had that display's index in the bundle, no pane gets two items and
      every pane gets one. */
  lemma PairingIsBijective(ordered: seq<Display>, panes: seq<Pane>, ds: seq<Display>)
    requires |panes| == |ds| && DistinctPanes(panes) && DistinctDisplays(ds)
    requires IsReordering(ordered, ds)
    ensures |Pairing(ordered, panes, ds)| == |panes|
    ensures forall j :: 0 <= j < |ordered| ==>
              exists i :: 0 <= i < |ds| && ds[i] == ordered[j] &&
                          Pairing(ordered, panes, ds)[j] == Some(LoadItem(panes[i], ordered[j]))
    ensures forall j1, j2 :: 0 <= j1 < j2 < |ordered| ==>
              Pairing(ordered, panes, ds)[j1].Some? && Pairing(ordered, panes, ds)[j2].Some? &&
              Pairing(ordered, panes, ds)[j1].value.loadTo != Pairing(ordered, panes, ds)[j2].value.loadTo
    ensures forall i :: 0 <= i < |panes| ==>
              exists j :: 0 <= j < |ordered| && Pairing(ordered, panes, ds)[j] == Some(LoadItem(panes[i], ds[i]))
  {
    var items := Pairing(ordered, panes, ds);
    forall j | 0 <= j < |ordered|
      ensures exists i :: 0 <= i < |ds| && ds[i] == ordered[j] && items[j] == Some(LoadItem(panes[i], ordered[j]))
    {
      var i := PairingAt(ordered, panes, ds, j);
    }
    forall j1, j2 | 0 <= j1 < j2 < |ordered|
      ensures items[j1].Some? && items[j2].Some? && items[j1].value.loadTo != items[j2].value.loadTo
    {
      var i1 := PairingAt(ordered, panes, ds, j1);
      var i2 := PairingAt(ordered, panes, ds, j2);
      assert ordered[j1] != ordered[j2];
    }
    forall i | 0 <= i < |panes|
      ensures exists j :: 0 <= j < |ordered| && items[j] == Some(LoadItem(panes[i], ds[i]))
    {
      var j :| 0 <= j < |ordered| && ordered[j] == ds[i];
      var r := PairingAt(ordered, panes, ds, j);
      assert r == i;
    }
  }

  /** Item j of the pairing for a reordering: the ordered display goes into
      the pane at the display's own index in the bundle. */
  lemma PairingAt(ordered: seq<Display>, panes: seq<Pane>, ds: seq<Display>, j: nat) returns (i: nat)
    requires |panes| == |ds| && DistinctDisplays(ds) && IsReordering(ordered, ds)
    requires j < |ordered|
    ensures i < |ds| && ds[i] == ordered[j]
    ensures Pairing(ordered, panes, ds)[j] == Some(LoadItem(panes[i], ordered[j]))
  {
    i := LastIndex(ds, ordered[j]).value;
  }

  /** The pairing goes by the display's index in the bundle, not by its
      position in the load order: with two displays loaded in reverse order,
      the first item loads the second display into the second pane. */
  lemma PairingFollowsBundleIndex(a: Display, b: Display, p: Pane, q: Pane)
    requires a != b
    ensures Pairing([b, a], [p, q], [a, b]) == [Some(LoadItem(q, b)), Some(LoadItem(p, a))]
  {
    assert [a, b][..1] == [a];
    assert LastIndex([a, b], b) == Some(1);
    assert LastIndex([a, b], a) == Some(0);
  }

  lemma PairingPanes(ordered: seq<Display>, panes: seq<Pane>, ds: seq<Display>)
    requires |panes| == |ds|
    ensures forall it :: it in Pairing(ordered, panes, ds) && it.Some? ==> it.value.loadTo in panes
  {
    forall it | it in Pairing(ordered, panes, ds) && it.Some? ensures it.value.loadTo in panes {
      var j :| 0 <= j < |ordered| && Pairing(ordered, panes, ds)[j] == it;
    }
  }

  /** Pairing several displays into one pane: when a display object occurs
      twice in the bundle, its last index wins and the earlier pane gets no item. */
  lemma PairingLastIndexWins(a: Display, p: Pane, q: Pane)
    ensures Pairing([a, a], [p, q], [a, a]) == [Some(LoadItem(q, a)), Some(LoadItem(q, a))]
  {
    assert LastIndex([a, a], a) == Some(1);
  }

  // ---------------------------------------------------------------------------
  // Running the items

  datatype Effect =
    | SynchronizeTimeMatching(target: Descriptor, source: Descriptor)
    | CopyFrom(dest: TimeMatcher, src: TimeMatcher)
    | ResetMultiload(matcher: TimeMatcher)
    | Dispose(display: Display)
    | InstantiateResources(descriptor: Descriptor)
    | SetLoopProperties(properties: LoopProperties)
    | Refresh

  datatype LoadError =
    | PaneCountMismatch(displays: nat, panes: nat)  // VizException "Unable to load ... displays onto container with ... panes"
    | OrderingSizeMismatch                          // VizException "Error ordering bundle displays ..."
    | NullPointer                                   // NullPointerException on the first item

  /** The old display is disposed when there was one and it is not the incoming one. */
  function Disposal(shown: Display?, incoming: Display): seq<Effect>
  {
    if shown != null && shown != incoming then [Dispose(shown)] else []
  }

  /** What a pane shows after an item has run on it. */
  function Swapped(shown: Display?, item: LoadItem): (r: Display?)
    ensures DescriptorOf(r) == item.loadFrom.descriptor
    ensures r == shown || r == item.loadFrom
  {
    if DescriptorOf(shown) == item.loadFrom.descriptor then shown else item.loadFrom
  }

  /** The effects of running one item on a pane that showed `shown`. */
  function ItemEffects(item: LoadItem, shown: Display?): seq<Effect>
  {
    (if DescriptorOf(shown) != item.loadFrom.descriptor then Disposal(shown, item.loadFrom) else [])
    + [InstantiateResources(item.loadFrom.descriptor)]
  }

  /** Before the first item runs, its pane's time matcher (when it has one)
      copies from the incoming display's matcher (when that has one) and is
      always reset. */
  function Prelude(item: LoadItem, shown: Display): seq<Effect>
  {
    var dest := shown.descriptor.timeMatcher;
    var src := item.loadFrom.descriptor.timeMatcher;
    if dest == null then []
    else (if src != null then [CopyFrom(dest, src)] else []) + [ResetMultiload(dest)]
  }

  /** The effects of the items after the first; absent items do nothing. */
  function WorkerEffects(items: seq<Option<LoadItem>>, shown: seq<Display?>): seq<Effect>
    requires |shown| == |items|
  {
    if items == [] then []
    else
      var n := |items| - 1;
      WorkerEffects(items[..n], shown[..n]) + (if items[n].Some? then ItemEffects(items[n].value, shown[n]) else [])
  }

  lemma WorkerEffectsStep(items: seq<Option<LoadItem>>, shown: seq<Display?>, i: nat)
    requires |shown| == |items| && 1 <= i < |items|
    ensures WorkerEffects(items[1..i + 1], shown[1..i + 1]) ==
              WorkerEffects(items[1..i], shown[1..i]) +
              (if items[i].Some? then ItemEffects(items[i].value, shown[i]) else [])
  {
    assert items[1..i + 1][..i - 1] == items[1..i];
    assert shown[1..i + 1][..i - 1] == shown[1..i];
  }

  /** The worker effects of a prefix grow by the next item's effects. */
  lemma WorkerEffectsPrefix(items: seq<Option<LoadItem>>, shown: seq<Display?>, i: nat)
    requires |shown| == |items| && i < |items|
    ensures WorkerEffects(items[..i + 1], shown[..i + 1]) ==
              WorkerEffects(items[..i], shown[..i]) +
              (if items[i].Some? then ItemEffects(items[i].value, shown[i]) else [])
  {
    assert items[..i + 1][..i] == items[..i];
    assert shown[..i + 1][..i] == shown[..i];
  }

  lemma DistinctWorkers(items: seq<Option<LoadItem>>)
    requires |items| > 0 && items[0].Some? && DistinctItemPanes(items)
    ensures DistinctItemPanes(items[1..])
    ensures items[0].value.loadTo !in PanesOf(items[1..])
  {
    var workers := items[1..];
    forall j1, j2 | 0 <= j1 < j2 < |workers| && workers[j1].Some? && workers[j2].Some?
      ensures workers[j1].value.loadTo != workers[j2].value.loadTo
    {
      assert workers[j1] == items[j1 + 1] && workers[j2] == items[j2 + 1];
    }
    forall it | it in workers && it.Some? ensures it.value.loadTo != items[0].value.loadTo {
      var j :| 0 <= j < |workers| && workers[j] == it;
      assert items[j + 1] == it;
    }
  }

  /** The effects of running all items, given what their panes showed before. */
  function RunEffects(items: seq<Option<LoadItem>>, shown: seq<Display?>): seq<Effect>
    requires |shown| == |items|
    requires items != [] ==> items[0].Some? && shown[0] != null
  {
    if items == [] then []
    else Prelude(items[0].value, shown[0]) + ItemEffects(items[0].value, shown[0]) + WorkerEffects(items[1..], shown[1..])
  }

  function PanesOf(items: seq<Option<LoadItem>>): set<Pane>
  {
    set it | it in items && it.Some? :: it.value.loadTo
  }

  /** What the panes of the items show, null for absent items. */
  function ShownBy(items: seq<Option<LoadItem>>): seq<Display?>
    reads PanesOf(items)
  {
    seq(|items|, j requires 0 <= j < |items| reads PanesOf(items) =>
      if items[j].Some? then items[j].value.loadTo.display else null)
  }

  predicate DistinctItemPanes(items: seq<Option<LoadItem>>)
  {
    forall j1, j2 :: 0 <= j1 < j2 < |items| && items[j1].Some? && items[j2].Some? ==>
      items[j1].value.loadTo != items[j2].value.loadTo
  }

  /** The descriptors the map-sharing pass may edit: those of every display but the first. */
  function FollowerDescriptors(ds: seq<Display>): set<Descriptor>
  {
    set i | 1 <= i < |ds| :: ds[i].descriptor
  }

  /** The fixed part of a Bundle: its displays and its loop properties. */
  datatype Bundle = Bundle(displays: seq<Display>, loopProperties: Option<LoopProperties>)

  /** A BundleLoader job for one bundle and one container. loadOrder stands for
      AbstractTimeMatcher.getDisplayLoadOrder and sameResourceData for
      ResourceData.equals; effects records the platform calls made. */
  class BundleLoader {
    const container: Container
    const bundle: Bundle
    const loadOrder: LoadOrderFn
    const sameResourceData: SameData
    var effects: seq<Effect>

    constructor (container: Container, bundle: Bundle, loadOrder: LoadOrderFn, sameResourceData: SameData)
      ensures this.container == container && this.bundle == bundle
      ensures this.loadOrder == loadOrder && this.sameResourceData == sameResourceData
      ensures effects == []
    {
      this.container := container;
      this.bundle := bundle;
      this.loadOrder := loadOrder;
      this.sameResourceData := sameResourceData;
      effects := [];
    }

    /** Makes the container have one pane per display when it is a
        multi-pane editor; reports whether the counts now agree. */
    method EnsureOneToOne() returns (ok: bool)
      requires container.Valid()
      modifies container
      ensures container.Valid()
      ensures ok <==> |container.panes| == |bundle.displays|
      ensures ok <==> container.isMultiPaneEditor || |old(container.panes)| == |bundle.displays|
      ensures !container.isMultiPaneEditor ==> container.panes == old(container.panes)
      ensures container.isMultiPaneEditor && |old(container.panes)| < |bundle.displays| ==>
                && |container.panes| == |bundle.displays|
                && forall i :: 0 <= i < |container.panes| ==>
                     fresh(container.panes[i]) && container.panes[i].display == bundle.displays[i]
      ensures container.isMultiPaneEditor && |bundle.displays| <= |old(container.panes)| ==>
                container.panes == old(container.panes)[..|bundle.displays|]
      ensures forall p :: p in container.panes ==> p in old(container.panes) || fresh(p)
    {
      var cPanes := container.panes;
      var ds := bundle.displays;
      if container.isMultiPaneEditor {
        if |cPanes| < |ds| {
          // remove every pane, the last first
          var i := |cPanes| - 1;
          while i > -1
            invariant -1 <= i < |cPanes|
            invariant container.Valid()
            invariant container.panes == cPanes[..i + 1]
          {
            assert cPanes[..i + 1] == cPanes[..i] + [cPanes[i]] + [];
            assert cPanes[i] !in cPanes[..i];
            WithoutOnce(cPanes[..i], cPanes[i], []);
            container.RemovePane(cPanes[i]);
            i := i - 1;
          }
          // then one new pane per display, in bundle order
          i := 0;
          while i < |ds|
            invariant 0 <= i <= |ds|
            invariant container.Valid()
            invariant |container.panes| == i
            invariant forall k :: 0 <= k < i ==> fresh(container.panes[k]) && container.panes[k].display == ds[k]
          {
            var p := container.AddPane(ds[i]);
            i := i + 1;
          }
        } else {
          // remove the panes beyond the number of displays
          var i := |ds|;
          while i < |cPanes|
            invariant |ds| <= i <= |cPanes|
            invariant container.Valid()
            invariant container.panes == cPanes[..|ds|] + cPanes[i..]
            invariant DistinctPanes(cPanes)
          {
            assert cPanes[..|ds|] + cPanes[i..] == cPanes[..|ds|] + [cPanes[i]] + cPanes[i + 1..];
            assert cPanes[i] !in cPanes[..|ds|] && cPanes[i] !in cPanes[i + 1..];
            WithoutOnce(cPanes[..|ds|], cPanes[i], cPanes[i + 1..]);
            container.RemovePane(cPanes[i]);
            i := i + 1;
          }
        }
      }
      ok := |container.panes| == |ds|;
    }

    /** The first map layer of the first display whose resource data equals rp's. */
    method FindOriginal(rp: ResourcePair, maps: seq<ResourcePair>) returns (o: Option<ResourcePair>)
      ensures o == FirstSame(rp, maps, sameResourceData)
    {
      var m := 0;
      while m < |maps|
        invariant 0 <= m <= |maps|
        invariant forall k :: 0 <= k < m ==> !sameResourceData(rp, maps[k])
        invariant FirstSame(rp, maps, sameResourceData) == FirstSame(rp, maps[m..], sameResourceData)
      {
        if sameResourceData(rp, maps[m]) {
          return Some(maps[m]);
        }
        assert maps[m..][1..] == maps[m + 1..];
        m := m + 1;
      }
      return None;
    }

    /** The sharing pass over one follower display's resource list,
        iterating a snapshot of the list. */
    method ShareWithFirst(desc: Descriptor, maps: seq<ResourcePair>)
      modifies desc
      ensures desc.resources == Shared(old(desc.resources), maps, sameResourceData)
    {
      var snap := desc.resources;
      var k := 0;
      while k < |snap|
        invariant 0 <= k <= |snap|
        invariant desc.resources == Kept(snap[..k], maps, sameResourceData) + snap[k..] +
                                    Replacements(snap[..k], maps, sameResourceData)
      {
        var rp := snap[k];
        ShareStep(snap, k, maps, sameResourceData);
        if rp.isMapLayer {
          var original := FindOriginal(rp, maps);
          if original.Some? {
            desc.resources := RemoveOne(desc.resources, rp) + [original.value];
          }
        }
        k := k + 1;
      }
      assert snap[..k] == snap;
    }

    /** With as many panes as displays and more than one of each: every
        follower display trades its map layers that match one of the first
        display's map layers for that layer of the first display. */
    method ShareMapLayers()
      requires |bundle.displays| > 0
      modifies FollowerDescriptors(bundle.displays)
      ensures DistinctDescriptors(bundle.displays) ==>
                bundle.displays[0].descriptor.resources == old(bundle.displays[0].descriptor.resources)
      ensures DistinctDescriptors(bundle.displays) ==>
                forall i :: 1 <= i < |bundle.displays| ==>
                  bundle.displays[i].descriptor.resources ==
                    Shared(old(bundle.displays[i].descriptor.resources),
                           MapLayers(old(bundle.displays[0].descriptor.resources)), sameResourceData)
    {
      var ds := bundle.displays;
      var first := ds[0].descriptor.resources;
      var mapsOnFirst := CollectMapLayers(first);
      var i := 1;
      while i < |ds|
        invariant 1 <= i <= |ds|
        invariant DistinctDescriptors(ds) ==> ds[0].descriptor.resources == first
        invariant DistinctDescriptors(ds) ==>
                    forall m :: 1 <= m < i ==>
                      ds[m].descriptor.resources == Shared(old(ds[m].descriptor.resources), mapsOnFirst, sameResourceData)
        invariant DistinctDescriptors(ds) ==>
                    forall m :: i <= m < |ds| ==> ds[m].descriptor.resources == old(ds[m].descriptor.resources)
      {
        ShareWithFirst(ds[i].descriptor, mapsOnFirst);
        i := i + 1;
      }
    }

    /** Orders the displays through the first display that has a time
        matcher, and synchronizes every display's time matching with that
        display's descriptor. */
    method OrderDisplays() returns (ordered: seq<Display>)
      modifies this`effects
      ensures ordered == LoadOrder(bundle.displays, loadOrder)
      ensures effects == old(effects) + SyncEffects(bundle.displays, loadOrder)
    {
      var ds := bundle.displays;
      ordered := ds;
      var i := 0;
      while i < |ds|
        invariant 0 <= i <= |ds|
        invariant forall k :: 0 <= k < i ==> ds[k].descriptor.timeMatcher == null
        invariant ordered == ds && effects == old(effects)
      {
        var desc := ds[i].descriptor;
        if desc.timeMatcher != null {
          assert FirstTimed(ds) == Some(i);
          ordered := loadOrder(desc.timeMatcher, ordered);
          var j := 0;
          while j < |ordered|
            invariant 0 <= j <= |ordered|
            invariant effects == old(effects) + Synced(ordered[..j], desc)
          {
            assert Synced(ordered[..j + 1], desc) == Synced(ordered[..j], desc) + [SynchronizeTimeMatching(ordered[j].descriptor, desc)];
            effects := effects + [SynchronizeTimeMatching(ordered[j].descriptor, desc)];
            j := j + 1;
          }
          assert ordered[..j] == ordered;
          return;
        }
        i := i + 1;
      }
    }

    /** Plans the loads: one item per pane, item j for the j-th display in
        load order, or an error. */
    method GetLoadItems() returns (r: Result<seq<Option<LoadItem>>, LoadError>)
      requires container.Valid()
      modifies this`effects, container, FollowerDescriptors(bundle.displays)
      ensures container.Valid()
      ensures forall p :: p in container.panes ==> p in old(container.panes) || fresh(p)
      ensures r.Failure? && r.error.PaneCountMismatch? <==>
                |old(container.panes)| != |bundle.displays| && !container.isMultiPaneEditor
      ensures r.Failure? && r.error.PaneCountMismatch? ==>
                && r.error == PaneCountMismatch(|bundle.displays|, |container.panes|)
                && container.panes == old(container.panes) && effects == old(effects)
      ensures !(r.Failure? && r.error.PaneCountMismatch?) ==>
                && |container.panes| == |bundle.displays|
                && effects == old(effects) + SyncEffects(bundle.displays, loadOrder)
      ensures r.Failure? ==> r.error != NullPointer
      ensures r == Failure(OrderingSizeMismatch) <==>
                && (|old(container.panes)| == |bundle.displays| || container.isMultiPaneEditor)
                && |LoadOrder(bundle.displays, loadOrder)| != |bundle.displays|
      ensures r.Success? ==> r.value == Pairing(LoadOrder(bundle.displays, loadOrder), container.panes, bundle.displays)
      ensures !(|old(container.panes)| == |bundle.displays| > 1) ==>
                forall i :: 0 <= i < |bundle.displays| ==>
                  bundle.displays[i].descriptor.resources == old(bundle.displays[i].descriptor.resources)
      ensures |old(container.panes)| == |bundle.displays| > 1 && DistinctDescriptors(bundle.displays) ==>
                && bundle.displays[0].descriptor.resources == old(bundle.displays[0].descriptor.resources)
                && forall i :: 1 <= i < |bundle.displays| ==>
                     bundle.displays[i].descriptor.resources ==
                       Shared(old(bundle.displays[i].descriptor.resources),
                              MapLayers(old(bundle.displays[0].descriptor.resources)), sameResourceData)
    {
      var containerPanes := container.panes;
      var bundleDisplays := bundle.displays;
      if |containerPanes| != |bundleDisplays| {
        var success := EnsureOneToOne();
        containerPanes := container.panes;
        if !success {
          return Failure(PaneCountMismatch(|bundleDisplays|, |containerPanes|));
        }
      } else if |containerPanes| > 1 {
        ShareMapLayers();
      }
      var numPanes := |containerPanes|;
      var orderedDisplays := OrderDisplays();
      if |orderedDisplays| != numPanes {
        return Failure(OrderingSizeMismatch);
      }
      var items := PairDisplays(orderedDisplays, containerPanes, bundleDisplays);
      return Success(items);
    }

    /** Loads the display onto the pane; the old display is disposed when
        there was one and it is another object. */
    method Load(loadTo: Pane, loadFrom: Display)
      modifies this`effects, loadTo
      ensures loadTo.display == loadFrom
      ensures effects == old(effects) + Disposal(old(loadTo.display), loadFrom)
    {
      var oldDisplay := loadTo.display;
      loadTo.display := loadFrom;
      if oldDisplay != null && oldDisplay != loadFrom {
        effects := effects + [Dispose(oldDisplay)];
      }
    }

    /** InstantiationTask.run: swap the display in unless the pane already has
        its descriptor, then force-instantiate the pane's resources. */
    method RunItem(item: LoadItem)
      modifies this`effects, item.loadTo
      ensures DescriptorOf(item.loadTo.display) == item.loadFrom.descriptor
      ensures item.loadTo.display == Swapped(old(item.loadTo.display), item)
      ensures effects == old(effects) + ItemEffects(item, old(item.loadTo.display))
    {
      var loadTo := item.loadTo;
      var loadFrom := item.loadFrom;
      if DescriptorOf(loadTo.display) != loadFrom.descriptor {
        Load(loadTo, loadFrom);
      }
      effects := effects + [InstantiateResources(DescriptorOf(loadTo.display))];
    }

    /** The loop of loadBundleToContainer: the first item runs after its time
        matcher is prepared, then every other item runs once (here one after
        the other); an absent worker item does nothing. */
    method RunItems(items: seq<Option<LoadItem>>) returns (r: Outcome<LoadError>)
      modifies this`effects, PanesOf(items)
      ensures r.Fail? <==> |items| > 0 && (items[0].None? || old(items[0].value.loadTo.display) == null)
      ensures r.Fail? ==> r.error == NullPointer && effects == old(effects)
      ensures r.Fail? ==> forall p :: p in PanesOf(items) ==> p.display == old(p.display)
      ensures old(effects) <= effects
      ensures r.Pass? && DistinctItemPanes(items) ==>
                effects == old(effects) + RunEffects(items, old(ShownBy(items)))
      ensures r.Pass? && DistinctItemPanes(items) ==>
                forall j :: 0 <= j < |items| && items[j].Some? ==>
                  items[j].value.loadTo.display == Swapped(old(items[j].value.loadTo.display), items[j].value)
      ensures r.Pass? && DistinctItemPanes(items) ==>
                forall j :: 0 <= j < |items| && items[j].Some? ==>
                  DescriptorOf(items[j].value.loadTo.display) == items[j].value.loadFrom.descriptor
    {
      if |items| == 0 {
        return Pass;
      }
      if items[0].None? {
        return Fail(NullPointer);
      }
      if items[0].value.loadTo.display == null {
        return Fail(NullPointer);
      }
      RunFromAnchor(items);
      r := Pass;
    }

    /** The items once the first one is known to be present and its pane to
        show a display: the prelude, the first item, then the others. */
    method RunFromAnchor(items: seq<Option<LoadItem>>)
      requires |items| > 0 && items[0].Some? && items[0].value.loadTo.display != null
      modifies this`effects, PanesOf(items)
      ensures old(effects) <= effects
      ensures DistinctItemPanes(items) ==>
                effects == old(effects) + RunEffects(items, old(ShownBy(items)))
      ensures DistinctItemPanes(items) ==>
                forall j :: 0 <= j < |items| && items[j].Some? ==>
                  items[j].value.loadTo.display == Swapped(old(items[j].value.loadTo.display), items[j].value)
    {
      var anchor := items[0].value;
      var shown := anchor.loadTo.display;
      ghost var before := ShownBy(items);
      var workers := items[1..];
      assert ShownBy(workers) == before[1..];
      assert forall it :: it in workers ==> it in items;
      PrepareAnchor(anchor, shown);
      assert items[0] in items;
      RunItem(anchor);
      ghost var anchorShows := anchor.loadTo.display;
      ghost var distinct := DistinctItemPanes(items);
      if distinct {
        DistinctWorkers(items);
        assert ShownBy(workers) == before[1..];
      }
      RunWorkers(workers);
      if distinct {
        assert anchor.loadTo.display == anchorShows;
        assert RunEffects(items, before) ==
                 Prelude(anchor, shown) + ItemEffects(anchor, shown) + WorkerEffects(workers, before[1..]);
        Regroup(old(effects), Prelude(anchor, shown), ItemEffects(anchor, shown));
        Regroup(old(effects), Prelude(anchor, shown) + ItemEffects(anchor, shown), WorkerEffects(workers, before[1..]));
        forall j | 0 <= j < |items| && items[j].Some?
          ensures items[j].value.loadTo.display == Swapped(before[j], items[j].value)
        {
          if j > 0 {
            assert items[j] == workers[j - 1];
          }
        }
      }
    }

    /** Prepares the first item's pane: its time matcher, when it has one,
        copies the incoming matcher, when that has one, and resets its multiload. */
    method PrepareAnchor(anchor: LoadItem, shown: Display)
      modifies this`effects
      ensures effects == old(effects) + Prelude(anchor, shown)
    {
      var destTimeMatcher := shown.descriptor.timeMatcher;
      if destTimeMatcher != null {
        var srcTimeMatcher := anchor.loadFrom.descriptor.timeMatcher;
        if srcTimeMatcher != null {
          effects := effects + [CopyFrom(destTimeMatcher, srcTimeMatcher)];
        }
        effects := effects + [ResetMultiload(destTimeMatcher)];
      }
    }

    /** The items after the first, one after the other. */
    method RunWorkers(workers: seq<Option<LoadItem>>)
      modifies this`effects, PanesOf(workers)
      ensures old(effects) <= effects
      ensures DistinctItemPanes(workers) ==> effects == old(effects) + WorkerEffects(workers, old(ShownBy(workers)))
      ensures DistinctItemPanes(workers) ==>
                forall j :: 0 <= j < |workers| && workers[j].Some? ==>
                  workers[j].value.loadTo.display == Swapped(old(workers[j].value.loadTo.display), workers[j].value)
    {
      ghost var before := ShownBy(workers);
      ghost var distinct := DistinctItemPanes(workers);
      var i := 0;
      while i < |workers|
        invariant 0 <= i <= |workers|
        invariant old(effects) <= effects
        invariant distinct ==> effects == old(effects) + WorkerEffects(workers[..i], before[..i])
        invariant distinct ==>
                    forall j :: 0 <= j < |workers| && workers[j].Some? ==>
                      workers[j].value.loadTo.display == if j < i then Swapped(before[j], workers[j].value) else before[j]
      {
        WorkerEffectsPrefix(workers, before, i);
        ghost var step := if workers[i].Some? then ItemEffects(workers[i].value, before[i]) else [];
        Regroup(old(effects), WorkerEffects(workers[..i], before[..i]), step);
        RunWorker(workers, i);
        i := i + 1;
      }
      assert workers[..i] == workers && before[..i] == before;
    }

    /** One pass of the worker loop: item i, when present, runs; with
        distinct panes no other item's pane changes what it shows. */
    method RunWorker(workers: seq<Option<LoadItem>>, i: nat)
      requires i < |workers|
      modifies this`effects, PanesOf(workers)
      ensures effects == old(effects) +
                (if workers[i].Some? then ItemEffects(workers[i].value, old(workers[i].value.loadTo.display)) else [])
      ensures DistinctItemPanes(workers) ==>
                forall j :: 0 <= j < |workers| && workers[j].Some? ==>
                  workers[j].value.loadTo.display ==
                    if j == i then Swapped(old(workers[j].value.loadTo.display), workers[j].value)
                    else old(workers[j].value.loadTo.display)
    {
      if workers[i].Some? {
        assert workers[i] in workers;
        RunItem(workers[i].value);
      }
    }

    /** Plans the items and runs them. */
    method LoadBundleToContainer() returns (r: Outcome<LoadError>)
      requires container.Valid()
      modifies this`effects, container, FollowerDescriptors(bundle.displays), set p | p in container.panes
      ensures container.Valid()
      ensures r == Fail(PaneCountMismatch(|bundle.displays|, |container.panes|)) <==>
                |old(container.panes)| != |bundle.displays| && !container.isMultiPaneEditor
      ensures r == Fail(OrderingSizeMismatch) <==>
                && (|old(container.panes)| == |bundle.displays| || container.isMultiPaneEditor)
                && |LoadOrder(bundle.displays, loadOrder)| != |bundle.displays|
      ensures old(effects) <= effects
      ensures r.Pass? || r == Fail(NullPointer) ==> |container.panes| == |bundle.displays|
      ensures r == Fail(NullPointer) ==>
                var items := Pairing(LoadOrder(bundle.displays, loadOrder), container.panes, bundle.displays);
                |items| > 0 && (items[0].None? || items[0].value.loadTo.display == null)
      ensures r.Pass? ==>
                var items := Pairing(LoadOrder(bundle.displays, loadOrder), container.panes, bundle.displays);
                DistinctItemPanes(items) ==>
                  forall j :: 0 <= j < |items| && items[j].Some? ==>
                    DescriptorOf(items[j].value.loadTo.display) == items[j].value.loadFrom.descriptor
    {
      var planned := GetLoadItems();
      if planned.Failure? {
        return Fail(planned.error);
      }
      r := RunPlanned(planned.value);
    }

    /** The planned items, paired with the container's panes, run. */
    method RunPlanned(items: seq<Option<LoadItem>>) returns (r: Outcome<LoadError>)
      requires |container.panes| == |bundle.displays|
      requires items == Pairing(LoadOrder(bundle.displays, loadOrder), container.panes, bundle.displays)
      modifies this`effects, set p | p in container.panes
      ensures old(effects) <= effects
      ensures r.Fail? ==> r.error == NullPointer && |items| > 0 && (items[0].None? || items[0].value.loadTo.display == null)
      ensures r.Pass? && DistinctItemPanes(items) ==>
                forall j :: 0 <= j < |items| && items[j].Some? ==>
                  DescriptorOf(items[j].value.loadTo.display) == items[j].value.loadFrom.descriptor
    {
      PairingPanes(LoadOrder(bundle.displays, loadOrder), container.panes, bundle.displays);
      r := RunItems(items);
      if r.Fail? {
        assert items[0].Some? ==> items[0] in items;
      }
    }

    /** The body of run(monitor): load, set the bundle's loop properties when
        it has some, then refresh the container. */
    method Run() returns (r: Outcome<LoadError>)
      requires container.Valid()
      modifies this`effects, container, FollowerDescriptors(bundle.displays), set p | p in container.panes
      ensures container.Valid()
      ensures r == Fail(PaneCountMismatch(|bundle.displays|, |container.panes|)) <==>
                |old(container.panes)| != |bundle.displays| && !container.isMultiPaneEditor
      ensures r == Fail(OrderingSizeMismatch) <==>
                && (|old(container.panes)| == |bundle.displays| || container.isMultiPaneEditor)
                && |LoadOrder(bundle.displays, loadOrder)| != |bundle.displays|
      ensures r.Pass? ==>
                && |effects| >= |old(effects)| + |Finish(bundle)|
                && effects[..|old(effects)|] == old(effects)
                && effects[|effects| - |Finish(bundle)|..] == Finish(bundle)
    {
      r := LoadBundleToContainer();
      if r.Fail? {
        return;
      }
      ghost var loaded := effects;
      FinishLoad();
      ExtendedLog(old(effects), loaded, Finish(bundle));
    }

    /** After a successful load: the bundle's loop properties, when it has
        them, go to the container, which is then refreshed. */
    method FinishLoad()
      modifies this`effects
      ensures effects == old(effects) + Finish(bundle)
    {
      if bundle.loopProperties.Some? {
        effects := effects + [SetLoopProperties(bundle.loopProperties.value)];
      }
      effects := effects + [Refresh];
    }
  }

  /** A log that extends a earlier one and then gets a tail still starts
      with the earlier log and ends with that tail. */
  lemma ExtendedLog(start: seq<Effect>, mid: seq<Effect>, tail: seq<Effect>)
    requires start <= mid
    ensures |mid + tail| >= |start| + |tail|
    ensures (mid + tail)[..|start|] == start
    ensures (mid + tail)[|mid + tail| - |tail|..] == tail
  {
  }

  /** The calls made on the container after a successful load. */
  function Finish(b: Bundle): seq<Effect>
  {
    (if b.loopProperties.Some? then [SetLoopProperties(b.loopProperties.value)] else []) + [Refresh]
  }

  /** Pairs each display of the load order with a pane: item j gets the pane
      at the index the display has in the bundle (the last such index). */
  method PairDisplays(ordered: seq<Display>, panes: seq<Pane>, ds: seq<Display>) returns (items: seq<Option<LoadItem>>)
    requires |ordered| == |panes| == |ds|
    ensures items == Pairing(ordered, panes, ds)
  {
    var numPanes := |panes|;
    var arr := new Option<LoadItem>[numPanes](_ => None);
    var j := 0;
    while j < |ordered|
      invariant 0 <= j <= |ordered|
      invariant forall k :: 0 <= k < j ==> arr[k] == ItemFor(ordered[k], panes, ds)
      invariant forall k :: j <= k < numPanes ==> arr[k] == None
    {
      var display := ordered[j];
      var i := 0;
      while i < numPanes
        invariant 0 <= i <= numPanes
        invariant forall k :: 0 <= k < j ==> arr[k] == ItemFor(ordered[k], panes, ds)
        invariant forall k :: j < k < numPanes ==> arr[k] == None
        invariant arr[j] == ItemFor(display, panes[..i], ds[..i])
      {
        assert ds[..i + 1][..i] == ds[..i];
        if display == ds[i] {
          arr[j] := Some(LoadItem(panes[i], ds[i]));
        }
        i := i + 1;
      }
      assert panes[..i] == panes && ds[..i] == ds;
      j := j + 1;
    }
    items := arr[..];
  }
}
