/**
 The selection logic of the restaurant directory (app.py): the area toggle and
 the partition it selects, the option lists of the three sidebar facets, the
 guarded filter pipeline, the two card columns, the CSS class of a tag, the
 text of a card's map search and the centre and zoom of the map.
 */
module Restaurants {
  import opened Ordering
  import opened Sequences

  datatype Option<T> = None | Some(value: T)

  /** One entry of the bundled dataset, reduced to the fields the selection
      logic reads. `address` is `None` when the entry has no "address" key. */
  datatype Restaurant = Restaurant(
    name: string,
    area: string,
    region: string,
    country: string,
    tags: seq<string>,
    nearestStation: string,
    address: Option<string>)

  /** The values chosen in the three sidebar multiselects. */
  datatype Selection = Selection(regions: seq<string>, countries: seq<string>, tags: seq<string>)

  // ---------------------------------------------------------------------------
  // Tag -> CSS class
  // ---------------------------------------------------------------------------

  const DefaultTagClass: string := "tag-default"

  const TagClassMap: map<string, string> := map[
    "大使館職員御用達" := "tag-embassy",
    "大阪関西万博出店" := "tag-expo",
    "アフター万博" := "tag-expo",
    "ハラール対応" := "tag-halal",
    "ベジタリアンメニューあり" := "tag-vege",
    "予約必須" := "tag-reserve",
    "家族経営" := "tag-family",
    "ワインセレクションあり" := "tag-wine",
    "クラフトビール専門" := "tag-beer",
    "テラス席あり" := "tag-terrace",
    "テイクアウト可" := "tag-takeout"
  ]

  /** `tag_class(t)`: the class of a listed tag, "tag-default" for any other tag. */
  function TagClass(t: string): (c: string)
    ensures c == DefaultTagClass <==> t !in TagClassMap
    ensures t in TagClassMap ==> c == TagClassMap[t]
  {
    if t in TagClassMap then TagClassMap[t] else DefaultTagClass
  }

  /** The two Expo tags are the only listed tags that share a class. */
  lemma TagClassSharedOnlyByExpo(t1: string, t2: string)
    requires t1 in TagClassMap && t2 in TagClassMap && t1 != t2
    requires TagClass(t1) == TagClass(t2)
    ensures TagClass(t1) == "tag-expo"
    ensures {t1, t2} == {"大阪関西万博出店", "アフター万博"}
  {
  }

  // ---------------------------------------------------------------------------
  // Area toggle and partition
  // ---------------------------------------------------------------------------

  const Kanto: string := "関東"
  const Kansai: string := "関西"
  const KantoLabel: string := "関東（東京）"
  const KansaiLabel: string := "関西（大阪）"

  /** The toggle's options, the keys of AREA_CENTERS in their order. */
  const AreaLabels: seq<string> := [KantoLabel, KansaiLabel]

  /** `area_key`: "関東" when the chosen toggle option contains "関東", otherwise "関西". */
  function AreaKey(choice: string): (key: string)
    ensures key == Kanto || key == Kansai
    ensures key == Kanto <==> Contains(choice, Kanto)
  {
    if Contains(choice, Kanto) then Kanto else Kansai
  }

  /** The two toggle options select the two different areas. */
  lemma AreaLabelKeys()
    ensures AreaKey(KantoLabel) == Kanto
    ensures AreaKey(KansaiLabel) == Kansai
  {
  }

  /** `area_restaurants`: the records whose area is the chosen area's key. */
  function AreaRestaurants(all: seq<Restaurant>, choice: string): (rs: seq<Restaurant>)
    ensures forall r :: r in rs <==> r in all && r.area == AreaKey(choice)
  {
    Filter(all, (r: Restaurant) => r.area == AreaKey(choice))
  }

  /** The toggle partitions the dataset: the two options share no record, and a
      record of either area is shown under exactly one of them, in dataset order. */
  lemma AreaPartition(all: seq<Restaurant>)
    ensures forall r :: r in AreaRestaurants(all, KantoLabel) ==> r !in AreaRestaurants(all, KansaiLabel)
    ensures forall r :: r in all && (r.area == Kanto || r.area == Kansai) ==>
      r in AreaRestaurants(all, KantoLabel) || r in AreaRestaurants(all, KansaiLabel)
    ensures IsSubsequence(AreaRestaurants(all, KantoLabel), all)
    ensures IsSubsequence(AreaRestaurants(all, KansaiLabel), all)
  {
    AreaLabelKeys();
    FilterIsSubsequence(all, (r: Restaurant) => r.area == AreaKey(KantoLabel));
    FilterIsSubsequence(all, (r: Restaurant) => r.area == AreaKey(KansaiLabel));
  }

  // ---------------------------------------------------------------------------
  // Facet options
  // ---------------------------------------------------------------------------

  function Regions(rs: seq<Restaurant>): seq<string>
  {
    seq(|rs|, i requires 0 <= i < |rs| => rs[i].region)
  }

  function Countries(rs: seq<Restaurant>): seq<string>
  {
    seq(|rs|, i requires 0 <= i < |rs| => rs[i].country)
  }

  /** Every tag of every record, record by record. */
  function Tags(rs: seq<Restaurant>): (ts: seq<string>)
    ensures forall t :: t in ts <==> exists r :: r in rs && t in r.tags
  {
    if |rs| == 0 then []
    else
      var rest := Tags(rs[1..]);
      assert forall r :: r in rs <==> r == rs[0] || r in rs[1..];
      rs[0].tags + rest
  }

  /** `_num_cuisines = len(set(r['country'] for r in ALL_RESTAURANTS))`, the
      number shown in the header, counted on the sorted distinct countries. */
  function CuisineCount(all: seq<Restaurant>): (n: nat)
    ensures n == |set r | r in all :: r.country|
  {
    var countries := Countries(all);
    var listing := SortedSet(countries);
    DistinctCount(listing);
    assert (set x | x in listing) == (set r | r in all :: r.country) by {
      forall r | r in all ensures r.country in countries {
        var i :| 0 <= i < |all| && all[i] == r;
        assert countries[i] == r.country;
      }
    }
    |listing|
  }

  /** `all_regions = sorted(set(r["region"] for r in area_restaurants))` */
  function AllRegions(area: seq<Restaurant>): (options: seq<string>)
    ensures StrictlySorted(options)
    ensures forall x :: x in options <==> exists r :: r in area && r.region == x
  {
    var regions := Regions(area);
    assert forall r :: r in area ==> r.region in regions by {
      forall r | r in area ensures r.region in regions {
        var i :| 0 <= i < |area| && area[i] == r;
        assert regions[i] == r.region;
      }
    }
    SortedSet(regions)
  }

  /** `country_pool`: the area records of the selected regions, or all of them
      when no region is selected. */
  function CountryPool(area: seq<Restaurant>, selectedRegions: seq<string>): (pool: seq<Restaurant>)
    ensures forall r :: r in pool <==> r in area && (|selectedRegions| == 0 || r.region in selectedRegions)
  {
    if |selectedRegions| > 0 then Filter(area, (r: Restaurant) => r.region in selectedRegions) else area
  }

  /** `all_countries = sorted(set(r["country"] for r in country_pool))` */
  function AllCountries(area: seq<Restaurant>, selectedRegions: seq<string>): (options: seq<string>)
    ensures StrictlySorted(options)
    ensures forall x :: x in options <==>
      exists r :: r in area && (|selectedRegions| == 0 || r.region in selectedRegions) && r.country == x
  {
    var pool := CountryPool(area, selectedRegions);
    var countries := Countries(pool);
    assert forall r :: r in pool ==> r.country in countries by {
      forall r | r in pool ensures r.country in countries {
        var i :| 0 <= i < |pool| && pool[i] == r;
        assert countries[i] == r.country;
      }
    }
    SortedSet(countries)
  }

  /** `all_tags = sorted(set(tag for r in area_restaurants for tag in r["tags"]))` */
  function AllTags(area: seq<Restaurant>): (options: seq<string>)
    ensures StrictlySorted(options)
    ensures forall t :: t in options <==> exists r :: r in area && t in r.tags
  {
    SortedSet(Tags(area))
  }

  // ---------------------------------------------------------------------------
  // Filter pipeline
  // ---------------------------------------------------------------------------

  /** `any(t in r["tags"] for t in selected_tags)`: the selected tags are tried
      in order until one is found among the record's tags. */
  predicate HasAnyTag(r: Restaurant, selectedTags: seq<string>)
    ensures HasAnyTag(r, selectedTags) <==> exists t :: t in selectedTags && t in r.tags
  {
    if |selectedTags| == 0 then false
    else
      assert forall t :: t in selectedTags <==> t == selectedTags[0] || t in selectedTags[1..];
      selectedTags[0] in r.tags || HasAnyTag(r, selectedTags[1..])
  }

  /** The three facets joined by AND, each an OR over its selected values and
      switched off when nothing is selected in it. */
  predicate Matches(sel: Selection, r: Restaurant)
    ensures Matches(sel, r) <==> ByTag(ByCountry(ByRegion([r], sel), sel), sel) == [r]
  {
    && (|sel.regions| == 0 || r.region in sel.regions)
    && (|sel.countries| == 0 || r.country in sel.countries)
    && (|sel.tags| == 0 || HasAnyTag(r, sel.tags))
  }

  /** `if selected_regions: filtered = [r for r in filtered if r["region"] in selected_regions]` */
  function ByRegion(rs: seq<Restaurant>, sel: Selection): (kept: seq<Restaurant>)
    ensures |kept| <= |rs|
    ensures forall r :: r in kept <==> r in rs && (|sel.regions| == 0 || r.region in sel.regions)
    ensures |sel.regions| == 0 ==> kept == rs
  {
    if |sel.regions| > 0 then Filter(rs, (r: Restaurant) => r.region in sel.regions) else rs
  }

  /** `if selected_countries: filtered = [r for r in filtered if r["country"] in selected_countries]` */
  function ByCountry(rs: seq<Restaurant>, sel: Selection): (kept: seq<Restaurant>)
    ensures |kept| <= |rs|
    ensures forall r :: r in kept <==> r in rs && (|sel.countries| == 0 || r.country in sel.countries)
    ensures |sel.countries| == 0 ==> kept == rs
  {
    if |sel.countries| > 0 then Filter(rs, (r: Restaurant) => r.country in sel.countries) else rs
  }

  /** `if selected_tags: filtered = [r for r in filtered if any(t in r["tags"] for t in selected_tags)]` */
  function ByTag(rs: seq<Restaurant>, sel: Selection): (kept: seq<Restaurant>)
    ensures |kept| <= |rs|
    ensures forall r :: r in kept <==> r in rs && (|sel.tags| == 0 || HasAnyTag(r, sel.tags))
    ensures |sel.tags| == 0 ==> kept == rs
  {
    if |sel.tags| > 0 then Filter(rs, (r: Restaurant) => HasAnyTag(r, sel.tags)) else rs
  }

  /** `filtered`: the three guarded comprehensions run one after the other. */
  function ApplyFilters(area: seq<Restaurant>, sel: Selection): (filtered: seq<Restaurant>)
    ensures |filtered| <= |area|
    ensures forall r :: r in filtered <==> r in area && Matches(sel, r)
  {
    ByTag(ByCountry(ByRegion(area, sel), sel), sel)
  }

  /** Each guarded stage is the comprehension over its own facet test, the
      identity when the facet is off. */
  lemma StageAsFilter(rs: seq<Restaurant>, sel: Selection)
    ensures ByRegion(rs, sel) == Filter(rs, (r: Restaurant) => |sel.regions| == 0 || r.region in sel.regions)
    ensures ByCountry(rs, sel) == Filter(rs, (r: Restaurant) => |sel.countries| == 0 || r.country in sel.countries)
    ensures ByTag(rs, sel) == Filter(rs, (r: Restaurant) => |sel.tags| == 0 || HasAnyTag(r, sel.tags))
  {
    if |sel.regions| > 0 {
      FilterAgree(rs, (r: Restaurant) => r.region in sel.regions, (r: Restaurant) => |sel.regions| == 0 || r.region in sel.regions);
    } else {
      FilterAll(rs, (r: Restaurant) => |sel.regions| == 0 || r.region in sel.regions);
    }
    if |sel.countries| > 0 {
      FilterAgree(rs, (r: Restaurant) => r.country in sel.countries, (r: Restaurant) => |sel.countries| == 0 || r.country in sel.countries);
    } else {
      FilterAll(rs, (r: Restaurant) => |sel.countries| == 0 || r.country in sel.countries);
    }
    if |sel.tags| > 0 {
      FilterAgree(rs, (r: Restaurant) => HasAnyTag(r, sel.tags), (r: Restaurant) => |sel.tags| == 0 || HasAnyTag(r, sel.tags));
    } else {
      FilterAll(rs, (r: Restaurant) => |sel.tags| == 0 || HasAnyTag(r, sel.tags));
    }
  }

  /** The pipeline is a single comprehension over the combined test. */
  lemma {:induction false} PipelineIsOneFilter(area: seq<Restaurant>, sel: Selection)
    ensures ApplyFilters(area, sel) == Filter(area, (r: Restaurant) => Matches(sel, r))
  {
    var pr := (r: Restaurant) => |sel.regions| == 0 || r.region in sel.regions;
    var pc := (r: Restaurant) => |sel.countries| == 0 || r.country in sel.countries;
    var pt := (r: Restaurant) => |sel.tags| == 0 || HasAnyTag(r, sel.tags);
    var prc := (r: Restaurant) => pr(r) && pc(r);
    StageAsFilter(area, sel);
    var afterRegion := Filter(area, pr);
    StageAsFilter(afterRegion, sel);
    FilterFilter(area, pr, pc, prc);
    var afterCountry := Filter(area, prc);
    StageAsFilter(afterCountry, sel);
    FilterFilter(area, prc, pt, (r: Restaurant) => Matches(sel, r));
  }

  /** With no facet selected the whole area is shown, in dataset order. */
  lemma NoSelectionShowsArea(area: seq<Restaurant>)
    ensures ApplyFilters(area, Selection([], [], [])) == area
  {
  }

  /** `filtered` keeps exactly the positions of the area list whose record
      passes every active facet, in their original order. */
  lemma FilteredPositions(area: seq<Restaurant>, sel: Selection) returns (idx: seq<nat>)
    ensures Embedding(idx, ApplyFilters(area, sel), area)
    ensures forall k :: 0 <= k < |area| ==> (k in idx <==> Matches(sel, area[k]))
  {
    PipelineIsOneFilter(area, sel);
    idx := FilterPositions(area, (r: Restaurant) => Matches(sel, r));
  }

  lemma FilteredIsSubsequence(area: seq<Restaurant>, sel: Selection)
    ensures IsSubsequence(ApplyFilters(area, sel), area)
  {
    var idx := FilteredPositions(area, sel);
  }

  /** Region and country combine by AND: if no record of the selected regions
      has a selected country, nothing is shown. */
  lemma DisjointRegionAndCountryShowNothing(area: seq<Restaurant>, sel: Selection)
    requires |sel.regions| > 0 && |sel.countries| > 0
    requires forall r :: r in area && r.region in sel.regions ==> r.country !in sel.countries
    ensures ApplyFilters(area, sel) == []
  {
    PipelineIsOneFilter(area, sel);
    FilterNone(area, (r: Restaurant) => Matches(sel, r));
  }

  // ---------------------------------------------------------------------------
  // Card columns
  // ---------------------------------------------------------------------------

  /** `left = filtered[::2]`, `right = filtered[1::2]` */
  function CardColumns(filtered: seq<Restaurant>): (columns: (seq<Restaurant>, seq<Restaurant>))
    ensures |columns.0| == (|filtered| + 1) / 2 && |columns.1| == |filtered| / 2
    ensures forall i :: 0 <= i < |columns.0| ==> columns.0[i] == filtered[2 * i]
    ensures forall i :: 0 <= i < |columns.1| ==> columns.1[i] == filtered[2 * i + 1]
    ensures Interleave(columns.0, columns.1) == filtered
  {
    InterleaveSplit(filtered);
    (EvenIndexed(filtered), OddIndexed(filtered))
  }

  // ---------------------------------------------------------------------------
  // Map search query
  // ---------------------------------------------------------------------------

  /** `r.get('address', r['nearest_station'] + '駅')` */
  function Place(r: Restaurant): (place: string)
    ensures r.address.Some? ==> place == r.address.value
    ensures r.address.None? ==>
      && |place| == |r.nearestStation| + 1
      && place[..|r.nearestStation|] == r.nearestStation
      && place[|r.nearestStation|] == '駅'
  {
    match r.address
    case Some(a) => a
    case None => r.nearestStation + "駅"
  }

  /** The search text handed to the URL encoder: name, a space, then the place. */
  function MapQuery(r: Restaurant): (query: string)
    ensures |query| == |r.name| + 1 + |Place(r)|
    ensures query[..|r.name|] == r.name
    ensures query[|r.name|] == ' '
    ensures query[|r.name| + 1..] == Place(r)
  {
    r.name + " " + Place(r)
  }

  /** Cuts a text at its first space. */
  function SplitAtSpace(s: string): (parts: (string, string))
    ensures ' ' !in parts.0
  {
    if |s| == 0 then ("", "")
    else if s[0] == ' ' then ("", s[1..])
    else
      var rest := SplitAtSpace(s[1..]);
      ([s[0]] + rest.0, rest.1)
  }

  /** For a name without spaces the query splits back into name and place. */
  lemma {:induction false} MapQueryRoundTrip(name: string, place: string)
    requires ' ' !in name
    ensures SplitAtSpace(name + " " + place) == (name, place)
    decreases |name|
  {
    if |name| > 0 {
      MapQueryRoundTrip(name[1..], place);
      assert (name + " " + place)[1..] == name[1..] + " " + place;
      assert name == [name[0]] + name[1..];
    } else {
      assert (name + " " + place)[1..] == place;
    }
  }

  lemma MapQueryParts(r: Restaurant)
    requires ' ' !in r.name
    ensures SplitAtSpace(MapQuery(r)).0 == r.name
    ensures r.address.Some? ==> SplitAtSpace(MapQuery(r)).1 == r.address.value
    ensures r.address.None? ==> SplitAtSpace(MapQuery(r)).1 == r.nearestStation + "駅"
  {
    MapQueryRoundTrip(r.name, Place(r));
  }

  // ---------------------------------------------------------------------------
  // Map centre and zoom
  // ---------------------------------------------------------------------------

  datatype Coordinate = Coordinate(lat: real, lng: real)

  datatype MapView = MapView(center: Coordinate, zoom: int)

  const AreaCenters: map<string, Coordinate> := map[
    KantoLabel := Coordinate(35.6812, 139.7671),
    KansaiLabel := Coordinate(34.7024, 135.4959)
  ]

  /** Python truthiness of an optional float: `None` and `0.0` (equally `-0.0`)
      are false, every other value is true. */
  predicate Truthy(v: Option<real>)
    ensures Truthy(v) <==> v !in {None, Some(0.0)}
  {
    v.Some? && v.value != 0.0
  }

  /** `if user_lat and user_lng`: centre on the user at zoom 14, otherwise on the
      chosen area's centre at zoom 12. */
  function ChooseView(choice: string, userLat: Option<real>, userLng: Option<real>): (view: MapView)
    requires choice in AreaCenters
    ensures view.zoom == 14 || view.zoom == 12
    ensures view.zoom == 14 <==> Truthy(userLat) && Truthy(userLng)
    ensures view.zoom == 14 ==> view.center == Coordinate(userLat.value, userLng.value)
    ensures view.zoom == 12 ==> view.center == AreaCenters[choice]
  {
    if Truthy(userLat) && Truthy(userLng) then MapView(Coordinate(userLat.value, userLng.value), 14)
    else MapView(AreaCenters[choice], 12)
  }

  /** Every toggle option has a centre, so the lookup never fails. */
  lemma AreaLabelsHaveCenters()
    ensures forall choice :: choice in AreaLabels ==> choice in AreaCenters
    ensures AreaCenters.Keys == set choice | choice in AreaLabels
  {
  }

  // ---------------------------------------------------------------------------
  // One render pass
  // ---------------------------------------------------------------------------

  /** Everything a render pass computes from the dataset, the toggle, the three
      selections and the user coordinate held in the session. */
  datatype Page = Page(
    areaKey: string,
    area: seq<Restaurant>,
    regionOptions: seq<string>,
    countryOptions: seq<string>,
    tagOptions: seq<string>,
    filtered: seq<Restaurant>,
    left: seq<Restaurant>,
    right: seq<Restaurant>,
    view: MapView)

  function Render(all: seq<Restaurant>, choice: string, sel: Selection,
                  userLat: Option<real>, userLng: Option<real>): (page: Page)
    requires choice in AreaLabels
    ensures page.areaKey == AreaKey(choice)
    ensures page.area == AreaRestaurants(all, choice)
    ensures page.regionOptions == AllRegions(page.area)
    ensures page.countryOptions == AllCountries(page.area, sel.regions)
    ensures page.tagOptions == AllTags(page.area)
    ensures page.filtered == ApplyFilters(page.area, sel)
    ensures page.filtered == Filter(all, (r: Restaurant) => r.area == AreaKey(choice) && Matches(sel, r))
    ensures IsSubsequence(page.filtered, all)
    ensures (page.left, page.right) == CardColumns(page.filtered)
    ensures page.view == ChooseView(choice, userLat, userLng)
    ensures forall r :: r in page.filtered ==> r in all && r.area == page.areaKey && Matches(sel, r)
    ensures forall r :: r in all && r.area == page.areaKey && Matches(sel, r) ==> r in page.filtered
    ensures Interleave(page.left, page.right) == page.filtered
    ensures |page.left| - |page.right| in {0, 1}
  {
    AreaLabelsHaveCenters();
    var area := AreaRestaurants(all, choice);
    var filtered := ApplyFilters(area, sel);
    AreaThenFilters(all, choice, sel);
    FilterIsSubsequence(all, (r: Restaurant) => r.area == AreaKey(choice) && Matches(sel, r));
    var columns := CardColumns(filtered);
    Page(AreaKey(choice), area, AllRegions(area), AllCountries(area, sel.regions), AllTags(area),
         filtered, columns.0, columns.1, ChooseView(choice, userLat, userLng))
  }

  /** Area partition followed by the facet filters is one comprehension over
      the dataset: same area and every active facet passed, in dataset order. */
  lemma AreaThenFilters(all: seq<Restaurant>, choice: string, sel: Selection)
    ensures ApplyFilters(AreaRestaurants(all, choice), sel)
         == Filter(all, (r: Restaurant) => r.area == AreaKey(choice) && Matches(sel, r))
  {
    PipelineIsOneFilter(AreaRestaurants(all, choice), sel);
    FilterFilter(all, (r: Restaurant) => r.area == AreaKey(choice), (r: Restaurant) => Matches(sel, r),
                 (r: Restaurant) => r.area == AreaKey(choice) && Matches(sel, r));
  }

  /** End to end: choosing 関東（東京） with no facet selected shows every Kanto
      record of the dataset, in dataset order, and only those. */
  lemma KantoWithoutFacetsShowsAllKanto(all: seq<Restaurant>, userLat: Option<real>, userLng: Option<real>)
    ensures Render(all, KantoLabel, Selection([], [], []), userLat, userLng).filtered
         == Filter(all, (r: Restaurant) => r.area == Kanto)
    ensures forall r :: r in all && r.area == Kanto <==>
      r in Render(all, KantoLabel, Selection([], [], []), userLat, userLng).filtered
  {
    AreaLabelKeys();
    var page := Render(all, KantoLabel, Selection([], [], []), userLat, userLng);
    FilterAgree(all, (r: Restaurant) => r.area == AreaKey(KantoLabel) && Matches(Selection([], [], []), r),
                (r: Restaurant) => r.area == Kanto);
  }
}
