/**
 * The yacht list page: merging filter changes into the URL query, the
 * filter handlers, the builder toggle and the card image fallback.
 */
module YachtList {
  import opened Wrappers
  import opened QueryString
  import YachtsApi

  /** An update as `Object.entries(newParams)` lists it: key and value pairs. */
  type Update = seq<(string, string)>

  /** A record has each key once. */
  predicate DistinctKeys(updates: Update) {
    forall i, j :: 0 <= i < j < |updates| ==> updates[i].0 != updates[j].0
  }

  function UpdatedKeys(updates: Update): set<string> {
    set i | 0 <= i < |updates| :: updates[i].0
  }

  /** One entry of the update: a non-empty value is set, an empty one deletes the key. */
  function Step(q: Query, key: string, value: string): Query {
    if value != "" then q[key := value] else q - {key}
  }

  /**
   * The query after applying every entry in turn. Each key with a non-empty
   * value is set to it, each key with an empty value is gone, and every other
   * key keeps its presence and value.
   */
  function Merge(q: Query, updates: Update): (r: Query)
    requires DistinctKeys(updates)
    ensures forall i :: 0 <= i < |updates| && updates[i].1 != "" ==> updates[i].0 in r && r[updates[i].0] == updates[i].1
    ensures forall i :: 0 <= i < |updates| && updates[i].1 == "" ==> updates[i].0 !in r
    ensures forall k :: k !in UpdatedKeys(updates) ==> (k in r <==> k in q) && (k in q ==> r[k] == q[k])
    decreases |updates|
  {
    if updates == [] then q
    else
      assert forall i :: 1 <= i < |updates| ==> updates[1..][i - 1] == updates[i];
      Merge(Step(q, updates[0].0, updates[0].1), updates[1..])
  }

  /** `updateSearchParams`: copies the current query and sets or deletes each entry in turn; the result is the query navigated to. */
  method UpdateSearchParams(current: Query, newParams: Update) returns (params: Query)
    requires DistinctKeys(newParams)
    ensures params == Merge(current, newParams)
  {
    params := current;
    var i := 0;
    while i < |newParams|
      invariant 0 <= i <= |newParams|
      invariant DistinctKeys(newParams[i..])
      invariant Merge(params, newParams[i..]) == Merge(current, newParams)
    {
      var (key, value) := newParams[i];
      assert newParams[i..][1..] == newParams[i + 1..];
      if value != "" {
        params := params[key := value];
      } else {
        params := params - {key};
      }
      i := i + 1;
    }
  }

  /** Applying the same update a second time changes nothing. */
  lemma MergeIdempotent(q: Query, updates: Update)
    requires DistinctKeys(updates)
    ensures Merge(Merge(q, updates), updates) == Merge(q, updates)
  {
    var once := Merge(q, updates);
    var twice := Merge(once, updates);
    forall k ensures (k in twice <==> k in once) && (k in once ==> twice[k] == once[k]) {
      if k in UpdatedKeys(updates) {
        var i :| 0 <= i < |updates| && updates[i].0 == k;
      }
    }
  }

  /** The inputs whose change resets the page: the name search, the two length bounds and the sort order. */
  datatype Filter = Search | MinLength | MaxLength | SortBy

  function FilterKey(f: Filter): string {
    match f
    case Search => "search"
    case MinLength => "minLength"
    case MaxLength => "maxLength"
    case SortBy => "sortBy"
  }

  /** The update a search, length or sort change submits: the new value, and page 1. */
  function FilterChanged(q: Query, f: Filter, value: string): (r: Query)
    ensures "page" in r && r["page"] == "1"
  {
    var updates := [(FilterKey(f), value), ("page", "1")];
    assert updates[1].0 == "page" && updates[1].1 == "1";
    Merge(q, updates)
  }

  /** A filter change sets (or clears) its own key, sends the list back to page 1, and leaves every other key alone. */
  lemma FilterChangeResetsPage(q: Query, f: Filter, value: string)
    ensures var r := FilterChanged(q, f, value);
      && "page" in r && r["page"] == "1"
      && (value != "" ==> FilterKey(f) in r && r[FilterKey(f)] == value)
      && (value == "" ==> FilterKey(f) !in r)
      && forall k :: k != "page" && k != FilterKey(f) ==> (k in r <==> k in q) && (k in q ==> r[k] == q[k])
  {
    var updates := [(FilterKey(f), value), ("page", "1")];
    assert updates[1].0 == "page" && updates[1].1 == "1";
    assert forall k :: k in UpdatedKeys(updates) ==> k == FilterKey(f) || k == "page";
  }

  /** `handlePageChange`: the update a page button submits, given the page number as text. */
  function PageChanged(q: Query, pageText: string): (r: Query)
    ensures pageText != "" ==> "page" in r && r["page"] == pageText
    ensures pageText == "" ==> "page" !in r
  {
    Merge(q, [("page", pageText)])
  }

  /** Moving to another page sets only `page`: every filter and the sort stay as they were. */
  lemma PageChangeKeepsFilters(q: Query, pageText: string)
    requires pageText != ""
    ensures PageChanged(q, pageText) == q["page" := pageText]
  {
    var updates := [("page", pageText)];
    assert updates[0].0 == "page" && updates[0].1 == pageText;
    assert UpdatedKeys(updates) == {"page"};
  }

  /** The builder filter as the page reads it: `searchParams.get('builder') || ''`. */
  function CurrentBuilder(q: Query): (b: string)
    ensures b != "" <==> "builder" in q && q["builder"] != ""
    ensures b != "" ==> b == q["builder"]
  {
    GetOr(q, "builder", "")
  }

  /** Choosing the builder already chosen clears it; any other choice becomes the builder. `undefined` is written `""`: both are falsy. */
  function ToggledBuilder(current: string, selected: string): (b: string)
    ensures b == "" || b == selected
    ensures b == "" <==> selected == current || selected == ""
  {
    if selected == current then "" else selected
  }

  /** The builder popover's `onSelect`. It does not touch the page. */
  function BuilderSelected(q: Query, selected: string): (r: Query)
    ensures CurrentBuilder(r) == ToggledBuilder(CurrentBuilder(q), selected)
  {
    var updates := [("builder", ToggledBuilder(CurrentBuilder(q), selected))];
    assert updates[0].0 == "builder";
    Merge(q, updates)
  }

  /** Selecting the current builder clears the parameter; selecting another sets it; nothing else changes. */
  lemma BuilderToggle(q: Query, selected: string)
    ensures var r := BuilderSelected(q, selected);
      && (selected == CurrentBuilder(q) ==> "builder" !in r)
      && (selected != CurrentBuilder(q) && selected != "" ==> "builder" in r && r["builder"] == selected)
      && forall k :: k != "builder" ==> (k in r <==> k in q) && (k in q ==> r[k] == q[k])
  {
    var updates := [("builder", ToggledBuilder(CurrentBuilder(q), selected))];
    assert updates[0].0 == "builder";
    assert UpdatedKeys(updates) == {"builder"};
  }

  /** With no builder chosen, choosing one and then choosing it again restores the query. */
  lemma SelectBuilderTwice(q: Query, b: string)
    requires "builder" !in q && b != ""
    ensures BuilderSelected(BuilderSelected(q, b), b) == q
  {
    BuilderToggle(q, b);
    var once := BuilderSelected(q, b);
    assert CurrentBuilder(q) == "";
    assert CurrentBuilder(once) == b;
    BuilderToggle(once, b);
  }

  /** The image shown when a yacht has no usable first picture. */
  const Placeholder: string := "/placeholder.svg"

  /** `yacht_pictures && yacht_pictures.length > 0 && yacht_pictures[0] || placeholder`. */
  function FirstImage(pictures: Option<seq<string>>): (src: string)
    ensures src != ""
    ensures pictures.Some? && |pictures.value| > 0 && pictures.value[0] != "" ==> src == pictures.value[0]
    ensures !(pictures.Some? && |pictures.value| > 0 && pictures.value[0] != "") ==> src == Placeholder
  {
    if pictures.Some? && |pictures.value| > 0 && pictures.value[0] != "" then pictures.value[0] else Placeholder
  }

  /** The card's image source: the first picture unless it has failed to load. */
  function CardImage(pictures: Option<seq<string>>, brokenImages: seq<string>): (src: string)
    ensures src == Placeholder || (src == FirstImage(pictures) && src !in brokenImages)
    ensures FirstImage(pictures) in brokenImages ==> src == Placeholder
    ensures FirstImage(pictures) !in brokenImages ==> src == FirstImage(pictures)
  {
    var first := FirstImage(pictures);
    if first in brokenImages then Placeholder else first
  }

  /**
   * The image's `onError`: records the first picture as broken, unless it is
   * the placeholder. The placeholder never enters the list, earlier entries
   * stay, at most the failed picture is added, and the card shows the
   * placeholder from then on while every card with another first picture
   * shows what it showed before.
   */
  function ImageFailed(brokenImages: seq<string>, pictures: Option<seq<string>>): (next: seq<string>)
    ensures Placeholder in next ==> Placeholder in brokenImages
    ensures |next| >= |brokenImages| && next[..|brokenImages|] == brokenImages
    ensures |next| <= |brokenImages| + 1 && (|next| > |brokenImages| ==> next[|brokenImages|] == FirstImage(pictures))
    ensures CardImage(pictures, next) == Placeholder
    ensures forall p :: FirstImage(p) != FirstImage(pictures) ==> CardImage(p, next) == CardImage(p, brokenImages)
  {
    var first := FirstImage(pictures);
    if first != Placeholder then brokenImages + [first] else brokenImages
  }

  /** The values the sort select offers. */
  const SortOptions: seq<string> := ["length_m.desc", "length_m.asc", "year_built.desc", "year_built.asc", "max_speed_kn.desc", "volume_gt.desc"]

  /** The sort the listing endpoint applies: the page forwards its own query to it unchanged. */
  function AppliedSort(q: Query): (o: YachtsApi.SortOrder)
    ensures o.field in YachtsApi.AllowedSortFields
  {
    YachtsApi.ResolveSort(GetOr(q, "sortBy", YachtsApi.DefaultSort))
  }

  /** The option the sort select shows, as written: `sortBy || 'year_built.desc'`. */
  function ShownSortAsWritten(q: Query): (s: string)
    ensures s != ""
    ensures "sortBy" in q && q["sortBy"] != "" ==> s == q["sortBy"]
  {
    GetOr(q, "sortBy", "year_built.desc")
  }

  /**
   * With no `sortBy` in the URL (the first visit, or after Reset Filters) the
   * select shows "Year (Newest First)" while the list is sorted by length,
   * longest first.
   */
  lemma ShownSortDisagreesWhenUnset(q: Query)
    requires "sortBy" !in q
    ensures ShownSortAsWritten(q) in SortOptions
    ensures YachtsApi.ResolveSort(ShownSortAsWritten(q)) == YachtsApi.SortOrder("year_built", false)
    ensures AppliedSort(q) == YachtsApi.SortOrder("length_m", false)
  {
    assert ShownSortAsWritten(q) == "year_built" + "." + YachtsApi.DirectionText(false);
    YachtsApi.SortRoundTrip("year_built", false);
    YachtsApi.DefaultSortIsLengthDescending();
  }

  /** The option the select shows, defaulting as the endpoint does. */
  function ShownSort(q: Query): (s: string)
    ensures s != ""
    ensures "sortBy" in q && q["sortBy"] != "" ==> s == q["sortBy"]
  {
    GetOr(q, "sortBy", YachtsApi.DefaultSort)
  }

  /**
   * The select's option is the sort the list has: with no `sortBy` it shows
   * "Length (High to Low)", which is the endpoint's default, and any option
   * chosen from the select is applied as that option's field and direction.
   */
  lemma ShownSortMatchesApplied(q: Query)
    requires ShownSort(q) in SortOptions
    ensures var parts := ["length_m", "year_built", "max_speed_kn", "volume_gt"];
      exists f, asc :: f in parts && ShownSort(q) == f + "." + YachtsApi.DirectionText(asc) &&
        AppliedSort(q) == YachtsApi.SortOrder(f, asc)
  {
    var shown := ShownSort(q);
    var i :| 0 <= i < |SortOptions| && SortOptions[i] == shown;
    var fields := ["length_m", "length_m", "year_built", "year_built", "max_speed_kn", "volume_gt"];
    var dirs := [false, true, false, true, false, false];
    assert shown == fields[i] + "." + YachtsApi.DirectionText(dirs[i]);
    YachtsApi.SortRoundTrip(fields[i], dirs[i]);
  }
}
