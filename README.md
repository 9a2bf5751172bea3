# World restaurant directory: selection logic

A Dafny model of the non-presentational core of a Streamlit restaurant
directory (`app.py`). A user picks one of two areas (関東（東京） or
関西（大阪）), narrows the area's restaurants by cultural region, country and
feature tags, and sees the result as map markers and as cards in two columns,
each card linking to a map search. The model covers what one render pass
computes from the dataset and the user's choices:

- the area key chosen by the toggle and the area partition of the dataset;
- the option lists of the three sidebar facets (`sorted(set(...))`), with the
  country options narrowed by the selected regions;
- the three guarded, order-preserving filter comprehensions;
- the stride-2 split of the result into the two card columns;
- the CSS class of a tag, the map-search text of a card, and the map's centre
  and zoom;
- the cuisine count shown in the header.

Everything is pure: datatypes, functions and lemmas, as the source is list
comprehensions, `sorted(set(...))`, slicing and a dictionary lookup.

Files:

- `ordering.dfy` (module `Ordering`): Python's `<` on `str` (lexicographic by
  code point) and `sorted(set(xs))` as `SortedSet`, proved strictly sorted,
  element-exact and unique.
- `sequences.dfy` (module `Sequences`): the filtering comprehension `Filter`,
  order-preserving subsequences, the slices `s[::2]` / `s[1::2]`, and
  substring containment.
- `restaurants.dfy` (module `Restaurants`): the records, the selection and
  every operation of `app.py` listed above, composed in `Render`.

Strings are `seq<char>`; Dafny compares `char`s by code point, as Python
compares `str`s. Records are reduced to the fields the selection logic reads.

## Model

| member | source | states |
|---|---|---|
| `Restaurants.TagClass` | app.py:45-60 | the class is "tag-default" exactly when the tag is not one of the eleven listed tags; a listed tag gets its table entry |
| `Restaurants.TagClassSharedOnlyByExpo` | app.py:45-57 | two different listed tags share a class only when they are the two Expo tags, which share "tag-expo" |
| `Restaurants.AreaKey` | app.py:137 | the area key is "関東" or "関西", and it is "関東" exactly when the chosen label contains "関東" as a substring |
| `Restaurants.AreaLabelKeys` | app.py:37-40 | the toggle option 関東（東京） selects area "関東" and 関西（大阪） selects "関西" |
| `Restaurants.AreaRestaurants` | app.py:138 | a record is in the area list exactly when it is in the dataset and its area equals the area key |
| `Restaurants.AreaPartition` | app.py:130-138 | the two toggle options share no record, every record of either area appears under one of them, and each area list is an order-preserving subsequence of the dataset |
| `Restaurants.AreaLabelsHaveCenters` | app.py:37-40 | the toggle's options are exactly the keys of the area-centre table, so the centre lookup cannot fail |
| `Restaurants.CuisineCount` | app.py:74 | the header's count equals the number of distinct countries in the dataset |
| `Restaurants.Tags` | app.py:219 | a tag is produced exactly when some record of the list carries it |
| `Restaurants.AllRegions` | app.py:207 | the region options are strictly sorted and are exactly the regions occurring in the area |
| `Restaurants.CountryPool` | app.py:210-213 | the pool holds the area records whose region is selected, or all area records when no region is selected |
| `Restaurants.AllCountries` | app.py:214 | the country options are strictly sorted and are exactly the countries of area records whose region is selected (all area records when none is) |
| `Restaurants.AllTags` | app.py:219 | the tag options are strictly sorted and are exactly the tags carried by some area record |
| `Restaurants.ApplyFilters` | app.py:230-236 | a record is shown exactly when it is in the area and passes every active facet (region in the selected regions, country in the selected countries, some selected tag among its tags), and never more records than the area has |
| `Restaurants.ByRegion` | app.py:231-232 | the region stage keeps exactly the records whose region is selected, and returns its input when no region is selected |
| `Restaurants.ByCountry` | app.py:233-234 | the country stage keeps exactly the records whose country is selected, and returns its input when no country is selected |
| `Restaurants.ByTag` | app.py:235-236 | the tag stage keeps exactly the records carrying some selected tag, and returns its input when no tag is selected |
| `Restaurants.HasAnyTag` | app.py:236 | trying the selected tags in order finds one exactly when some selected tag is among the record's tags |
| `Restaurants.Matches` | app.py:230-236 | a record passes the AND of the three facets exactly when the three stages, run on that record alone, keep it |
| `Restaurants.StageAsFilter` | app.py:231-236 | each guarded stage equals the comprehension over its facet test, which is the identity when nothing is selected in that facet |
| `Restaurants.PipelineIsOneFilter` | app.py:230-236 | the three stages in sequence equal one comprehension over the AND of the three facet tests |
| `Restaurants.NoSelectionShowsArea` | app.py:230-236 | with no region, country or tag selected the result is the area list itself, in the same order |
| `Restaurants.FilteredPositions` | app.py:230-236 | the result is exactly the area records at the positions whose record passes every active facet, in increasing position order, duplicates kept |
| `Restaurants.FilteredIsSubsequence` | app.py:230-236 | the result is an order-preserving subsequence of the area list |
| `Restaurants.DisjointRegionAndCountryShowNothing` | app.py:231-234 | when no area record of the selected regions has a selected country, the result is empty (region AND country) |
| `Restaurants.CardColumns` | app.py:355-356 | the left column holds the elements at even positions, ceil(n/2) of them; the right the odd ones, floor(n/2); alternating them rebuilds the result |
| `Restaurants.Place` | app.py:333 | the place is the address when there is one, otherwise the nearest station followed by "駅" |
| `Restaurants.MapQuery` | app.py:333 | for every name, the search text is the name, then one space, then the place, and nothing else |
| `Restaurants.MapQueryRoundTrip` | app.py:333 | for a name without spaces, cutting the search text at its first space gives back the name and the place |
| `Restaurants.MapQueryParts` | app.py:333 | for a name without spaces the search text splits into the name and the address, or the name and station + "駅" when there is no address |
| `Restaurants.Truthy` | app.py:251 | an optional coordinate is true for Python exactly when it is neither `None` nor `0.0` |
| `Restaurants.ChooseView` | app.py:250-256 | zoom is 14 centred on the user exactly when both user coordinates are truthy (present and non-zero); otherwise zoom 12 on the chosen area's centre |
| `Restaurants.Render` | app.py:137-356 | a render pass uses the chosen option's area key and area list, computes the three option lists from that area, shows exactly the dataset records of that area passing every active facet, in dataset order, splits them into the two card columns, and centres the map as the user coordinate dictates |
| `Restaurants.AreaThenFilters` | app.py:137-138 | the area partition followed by the facet filters equals one comprehension over the dataset testing area and facets together |
| `Restaurants.KantoWithoutFacetsShowsAllKanto` | app.py:137-138 | choosing 関東（東京） with no facet selected shows exactly the dataset's Kanto records, in dataset order |
| `Ordering.Below` | app.py:207 | Python's `<` on strings holds exactly when the first is a proper prefix of the second, or has the smaller code point at the first position where they differ |
| `Ordering.SortedSet` | app.py:207 | `sorted(set(xs))` is strictly increasing and holds exactly the strings of `xs` |
| `Ordering.StrictlySortedUnique` | app.py:207 | two strictly sorted lists with the same strings are equal, so the option list is the only sorted, duplicate-free listing of its strings |
| `Ordering.DistinctCount` | app.py:74 | a strictly sorted list is as long as its set of strings is large |
| `Ordering.BelowTransitive` | app.py:207 | Python's string order is transitive |
| `Ordering.BelowTotal` | app.py:207 | any two different strings are ordered one way or the other |
| `Ordering.BelowAsymmetric` | app.py:207 | no two strings are each below the other |
| `Sequences.Filter` | app.py:232 | the comprehension keeps exactly the elements satisfying the condition and is no longer than its input |
| `Sequences.FilterPositions` | app.py:232 | the comprehension keeps exactly the positions whose element satisfies the condition, in increasing order |
| `Sequences.FilterFilter` | app.py:232-234 | two comprehensions in a row equal one over the conjunction of their conditions |
| `Sequences.FilterAll` | app.py:231-236 | a comprehension whose condition holds everywhere returns its input unchanged (used by StageAsFilter for a facet with nothing selected) |
| `Sequences.FilterNone` | app.py:231-236 | a comprehension whose condition fails everywhere returns the empty list (used by DisjointRegionAndCountryShowNothing) |
| `Sequences.EvenIndexed` | app.py:355 | `s[::2]` has (n+1)/2 elements, the i-th being `s[2i]` |
| `Sequences.OddIndexed` | app.py:356 | `s[1::2]` has n/2 elements, the i-th being `s[2i+1]` |
| `Sequences.InterleaveSplit` | app.py:355-356 | alternating `s[::2]` and `s[1::2]` gives `s` back |
| `Sequences.Contains` | app.py:137 | the substring test holds exactly when the piece occurs in the string at some position |

## Left out

- Page configuration, CSS and font injection, header HTML, sidebar widgets and the reset button's `st.rerun` (app.py:13-25, 75-125, 203-225): user-interface plumbing. The sidebar selections are parameters (`Selection`).
- Loading the JSON dataset and the stylesheet (app.py:23-32): file I/O. The dataset is a parameter.
- Record fields the selection logic does not read (latitude, longitude, walk minutes, description, image URL): they only feed rendering.
- The browser geolocation script, its `postMessage` listener and the URL redirect (app.py:143-189): asynchronous cross-frame browser code.
- Reading `user_lat` / `user_lng` from the query string with `float()` under a blanket `try/except` (app.py:192-198): float parsing and exception swallowing. The user coordinate is a pair of optional `real` parameters.
- The haversine distance and its kilometre formatting (app.py:274-287): floating-point trigonometry.
- Folium map and marker construction and `st_folium` (app.py:258-307): a third-party rendering library. Only the centre and zoom passed to it are modelled.
- Percent-encoding by `quote_plus` and the HTML card and popup templates (app.py:288-295, 327-353): library calls and string templating. Only the search text handed to the encoder is modelled.
- Session-state writes (app.py:65-69, 135): state held by the framework.
- Restaurants.Place: an "address" key present with a JSON `null` value would be rendered by Python as the text "None"; the model treats an address as either absent or a string.
- Restaurants.MapQueryRoundTrip: the round trip is stated only for names without a space, since a name containing one cannot be recovered from the search text.
- Restaurants.ChooseView: the coordinates are opaque `real` values. Only their Python truthiness is modelled (`None` and `0.0` are false), not floating-point precision. A NaN coordinate (from a hand-edited `user_lat`) is true in Python but cannot be written as a `real`, so the model does not cover it.
