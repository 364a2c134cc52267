/** Filtering, sorting and paging a directory's assets (`lib.rs` of `oxy-fs`, `page_assets`). */
module Paging {
  import opened Wrappers
  import opened Machine
  import opened Sorting
  import opened Comparison

  const DEFAULT_PAGE_SIZE: nat := 250
  const MAX_PAGE_SIZE: nat := 1000

  datatype Kind = Raw | Jpeg | Heif | Png | Tiff | Webp

  datatype PickLabel = Rejected | Pending | Accepted

  datatype Asset = Asset(
    path: string,
    name: string,
    kind: Kind,
    sizeBytes: nat,
    modifiedAtMs: nat,
    rating: Option<nat>,
    colorLabel: Option<string>,
    pickLabel: Option<PickLabel>)

  datatype SortKey = ByName | ByModified | BySize | ByKind

  datatype Direction = Ascending | Descending

  datatype Query = Query(
    search: Option<string>,
    kind: Option<Kind>,
    minimumRating: Option<nat>,
    colorLabels: seq<string>,
    pickLabels: seq<string>,
    sort: SortKey,
    direction: Direction,
    pageSize: Option<nat>)

  datatype Page = Page(items: seq<Asset>, nextCursor: Option<nat>, total: nat)

  // ---- Text ----

  function LowerChar(c: char): char {
    if 'A' <= c <= 'Z' then c + 32 as char else c
  }

  function AsciiLower(s: string): (lower: string)
    ensures |lower| == |s|
  {
    if s == [] then []
    else [LowerChar(s[0])] + AsciiLower(s[1..])
  }

  predicate EqIgnoreAsciiCase(a: string, b: string) { AsciiLower(a) == AsciiLower(b) }

  predicate Contains(s: string, needle: string) {
    needle <= s || (s != [] && Contains(s[1..], needle))
  }

  function PickName(pick: PickLabel): string {
    match pick
    case Rejected => "rejected"
    case Pending => "pending"
    case Accepted => "accepted"
  }

  /** The `Debug` text of a kind, which is what kinds are sorted by. */
  function DebugName(kind: Kind): string {
    match kind
    case Raw => "Raw"
    case Jpeg => "Jpeg"
    case Heif => "Heif"
    case Png => "Png"
    case Tiff => "Tiff"
    case Webp => "Webp"
  }

  // ---- Filters ----

  /** The value is one of the labels, whatever the case. */
  predicate AnyOf(value: string, labels: seq<string>) {
    exists i :: 0 <= i < |labels| && EqIgnoreAsciiCase(value, labels[i])
  }

  /** The filters of a query; `lower` is Unicode lower-casing. */
  predicate Matches(lower: string -> string, query: Query, asset: Asset) {
    && (query.kind.Some? ==> asset.kind == query.kind.value)
    && (query.search.Some? ==> Contains(lower(asset.name), lower(query.search.value)))
    && (query.minimumRating.Some? ==>
          (if asset.rating.Some? then asset.rating.value else 0) >= query.minimumRating.value)
    && (query.colorLabels != [] ==>
          asset.colorLabel.Some?
          && AnyOf(asset.colorLabel.value, query.colorLabels))
    && (query.pickLabels != [] ==>
          asset.pickLabel.Some?
          && AnyOf(PickName(asset.pickLabel.value), query.pickLabels))
  }

  function Filtered(lower: string -> string, query: Query, assets: seq<Asset>): (kept: seq<Asset>)
    ensures |kept| <= |assets|
  {
    if assets == [] then []
    else
      var last := assets[|assets| - 1];
      Filtered(lower, query, assets[..|assets| - 1]) + if Matches(lower, query, last) then [last] else []
  }

  /** `labels.iter().any(|label| value.eq_ignore_ascii_case(label))` */
  method AnyLabel(value: string, labels: seq<string>) returns (any: bool)
    ensures any <==> AnyOf(value, labels)
  {
    for i := 0 to |labels|
      invariant forall j :: 0 <= j < i ==> !EqIgnoreAsciiCase(value, labels[j])
    {
      if EqIgnoreAsciiCase(value, labels[i]) {
        return true;
      }
    }
    return false;
  }

  method Passes(lower: string -> string, query: Query, needle: Option<string>, asset: Asset) returns (passes: bool)
    requires needle == if query.search.Some? then Some(lower(query.search.value)) else None
    ensures passes <==> Matches(lower, query, asset)
  {
    if query.kind.Some? && query.kind.value != asset.kind {
      return false;
    }
    if needle.Some? && !Contains(lower(asset.name), needle.value) {
      return false;
    }
    if query.minimumRating.Some? && (if asset.rating.Some? then asset.rating.value else 0) < query.minimumRating.value {
      return false;
    }
    if query.colorLabels != [] {
      if asset.colorLabel.None? {
        return false;
      }
      var any := AnyLabel(asset.colorLabel.value, query.colorLabels);
      if !any {
        return false;
      }
    }
    if query.pickLabels != [] {
      if asset.pickLabel.None? {
        return false;
      }
      var any := AnyLabel(PickName(asset.pickLabel.value), query.pickLabels);
      if !any {
        return false;
      }
    }
    return true;
  }

  // ---- Order ----

  function CompareKeys(a: Asset, b: Asset, sort: SortKey): Ordering {
    match sort
    case ByName => CompareStrings(AsciiLower(a.name), AsciiLower(b.name))
    case ByModified => CompareNat(a.modifiedAtMs, b.modifiedAtMs)
    case BySize => CompareNat(a.sizeBytes, b.sizeBytes)
    case ByKind => CompareStrings(DebugName(a.kind), DebugName(b.kind))
  }

  function CompareAssets(a: Asset, b: Asset, sort: SortKey): Ordering {
    CompareKeys(a, b, sort).Then(CompareStrings(a.name, b.name))
  }

  function Leq(sort: SortKey): (Asset, Asset) -> bool {
    (a, b) => CompareAssets(a, b, sort) != Greater
  }

  /** A name with its sort key, computed once. */
  datatype Keyed = Keyed(key: string, asset: Asset)

  function KeyedLeq(): (Keyed, Keyed) -> bool {
    (a: Keyed, b: Keyed) =>
      CompareStrings(a.key, b.key).Then(CompareStrings(a.asset.name, b.asset.name)) != Greater
  }

  lemma KeysFlip(a: Asset, b: Asset, sort: SortKey)
    ensures CompareKeys(b, a, sort) == CompareKeys(a, b, sort).Reverse()
  {
    StringsFlip(AsciiLower(a.name), AsciiLower(b.name));
    StringsFlip(DebugName(a.kind), DebugName(b.kind));
  }

  lemma KeysChain(a: Asset, b: Asset, c: Asset, sort: SortKey)
    requires CompareKeys(a, b, sort) != Greater && CompareKeys(b, c, sort) != Greater
    ensures CompareKeys(a, c, sort) != Greater
    ensures CompareKeys(a, b, sort) == Less || CompareKeys(b, c, sort) == Less ==> CompareKeys(a, c, sort) == Less
  {
    match sort
    case ByName => StringsChain(AsciiLower(a.name), AsciiLower(b.name), AsciiLower(c.name));
    case ByKind => StringsChain(DebugName(a.kind), DebugName(b.kind), DebugName(c.kind));
    case ByModified =>
    case BySize =>
  }

  /** `compare_assets` is a total preorder that ties only assets of one name. */
  lemma AssetsAreOrdered(sort: SortKey)
    ensures Total(Leq(sort)) && Transitive(Leq(sort))
    ensures forall a, b :: Leq(sort)(a, b) && Leq(sort)(b, a) ==> a.name == b.name
  {
    forall a: Asset, b: Asset
      ensures Leq(sort)(a, b) || Leq(sort)(b, a)
      ensures Leq(sort)(a, b) && Leq(sort)(b, a) ==> a.name == b.name
    {
      KeysFlip(a, b, sort);
      StringsFlip(a.name, b.name);
    }
    forall a: Asset, b: Asset, c: Asset | Leq(sort)(a, b) && Leq(sort)(b, c)
      ensures Leq(sort)(a, c)
    {
      KeysChain(a, b, c, sort);
      if CompareKeys(a, c, sort) == Equal {
        StringsChain(a.name, b.name, c.name);
      }
    }
  }

  function KindRank(kind: Kind): nat {
    match kind
    case Heif => 0
    case Jpeg => 1
    case Png => 2
    case Raw => 3
    case Tiff => 4
    case Webp => 5
  }

  lemma KindsAreAlphabetical(a: Kind, b: Kind)
    ensures CompareStrings(DebugName(a), DebugName(b)) == CompareNat(KindRank(a), KindRank(b))
  {
    StringsFlip(DebugName(a), DebugName(b));
    assert DebugName(a)[0] < DebugName(b)[0] <==> KindRank(a) < KindRank(b);
    assert DebugName(a)[0] == DebugName(b)[0] <==> a == b;
  }

  /** Sizes and times ascend, kinds go by the alphabet, names by their lower-case form; the exact name breaks ties. */
  lemma WhatTheOrderMeans(a: Asset, b: Asset, sort: SortKey)
    ensures var names := CompareStrings(a.name, b.name);
      Leq(sort)(a, b) <==>
      match sort
      case BySize => a.sizeBytes < b.sizeBytes || (a.sizeBytes == b.sizeBytes && names != Greater)
      case ByModified => a.modifiedAtMs < b.modifiedAtMs || (a.modifiedAtMs == b.modifiedAtMs && names != Greater)
      case ByKind => KindRank(a.kind) < KindRank(b.kind) || (a.kind == b.kind && names != Greater)
      case ByName =>
        var lower := CompareStrings(AsciiLower(a.name), AsciiLower(b.name));
        lower == Less || (EqIgnoreAsciiCase(a.name, b.name) && names != Greater)
  {
    KindsAreAlphabetical(a.kind, b.kind);
    StringsFlip(AsciiLower(a.name), AsciiLower(b.name));
    hide DebugName;
  }

  // ---- What the filters mean ----

  /** Colors within one query are alternatives. */
  lemma ColorsAreAlternatives(lower: string -> string, query: Query, asset: Asset, one: seq<string>, other: seq<string>)
    requires one != [] && other != []
    ensures Matches(lower, query.(colorLabels := one + other), asset) <==>
      Matches(lower, query.(colorLabels := one), asset) || Matches(lower, query.(colorLabels := other), asset)
  {
    if asset.colorLabel.Some? {
      AnyOfJoined(asset.colorLabel.value, one, other);
    }
    hide AnyOf;
  }

  /** So are flags. */
  lemma FlagsAreAlternatives(lower: string -> string, query: Query, asset: Asset, one: seq<string>, other: seq<string>)
    requires one != [] && other != []
    ensures Matches(lower, query.(pickLabels := one + other), asset) <==>
      Matches(lower, query.(pickLabels := one), asset) || Matches(lower, query.(pickLabels := other), asset)
  {
    if asset.pickLabel.Some? {
      AnyOfJoined(PickName(asset.pickLabel.value), one, other);
    }
    hide AnyOf;
  }

  lemma AnyOfJoined(value: string, one: seq<string>, other: seq<string>)
    ensures AnyOf(value, one + other) <==> AnyOf(value, one) || AnyOf(value, other)
  {
    var both := one + other;
    if i :| 0 <= i < |one| && EqIgnoreAsciiCase(value, one[i]) {
      assert both[i] == one[i];
    }
    if i :| 0 <= i < |other| && EqIgnoreAsciiCase(value, other[i]) {
      assert both[|one| + i] == other[i];
    }
  }

  // Each filter by itself, in terms of the asset.

  /** The same letter, or the two cases of one ASCII letter. */
  predicate SameLetter(a: char, b: char) {
    a == b || ('A' <= a <= 'Z' && b as int == a as int + 32) || ('A' <= b <= 'Z' && a as int == b as int + 32)
  }

  predicate SameText(a: string, b: string) {
    |a| == |b| && forall i :: 0 <= i < |a| ==> SameLetter(a[i], b[i])
  }

  lemma {:induction false} IgnoringCase(a: string, b: string)
    ensures EqIgnoreAsciiCase(a, b) <==> SameText(a, b)
  {
    if a != [] && b != [] {
      IgnoringCase(a[1..], b[1..]);
      LowerHeads(a, b);
      assert SameText(a, b) <==> SameLetter(a[0], b[0]) && SameText(a[1..], b[1..]) by {
        assert forall i :: 0 < i < |a| ==> a[i] == a[1..][i - 1];
        assert forall i :: 0 < i < |b| ==> b[i] == b[1..][i - 1];
      }
    }
  }

  lemma LowerHeads(a: string, b: string)
    requires a != [] && b != []
    ensures AsciiLower(a) == AsciiLower(b) <==> SameLetter(a[0], b[0]) && AsciiLower(a[1..]) == AsciiLower(b[1..])
  {
    LowerLetters(a[0], b[0]);
    hide LowerChar;
    hide SameLetter;
    var x, y := AsciiLower(a), AsciiLower(b);
    assert x[0] == LowerChar(a[0]) && y[0] == LowerChar(b[0]);
    assert x[1..] == AsciiLower(a[1..]) && y[1..] == AsciiLower(b[1..]);
    hide AsciiLower;
    assert x == [x[0]] + x[1..] && y == [y[0]] + y[1..];
  }

  lemma LowerLetters(a: char, b: char)
    ensures LowerChar(a) == LowerChar(b) <==> SameLetter(a, b)
  {
  }

  predicate OccursAt(s: string, needle: string, i: nat) {
    i + |needle| <= |s| && s[i..i + |needle|] == needle
  }

  lemma {:induction false} ContainsIsOccurrence(s: string, needle: string)
    ensures Contains(s, needle) <==> exists i :: OccursAt(s, needle, i)
  {
    if needle <= s {
      assert OccursAt(s, needle, 0);
    } else if s != [] {
      ContainsIsOccurrence(s[1..], needle);
      forall i: nat | OccursAt(s[1..], needle, i)
        ensures OccursAt(s, needle, i + 1)
      {
        assert s[1..][i..i + |needle|] == s[i + 1..i + 1 + |needle|];
      }
      assert !OccursAt(s, needle, 0);
      forall i: nat | OccursAt(s, needle, i)
        ensures i > 0 && OccursAt(s[1..], needle, i - 1)
      {
        if i > 0 {
          assert s[1..][i - 1..i - 1 + |needle|] == s[i..i + |needle|];
        }
      }
    } else {
      assert forall i :: OccursAt(s, needle, i) ==> i == 0 && needle == [];
    }
  }

  lemma KindFilter(lower: string -> string, query: Query, asset: Asset, kind: Kind)
    requires Unset(query)
    ensures Matches(lower, query.(kind := Some(kind)), asset) <==> asset.kind == kind
  {
  }

  /** The text occurs somewhere in the name, both in lower case. */
  lemma SearchFilter(lower: string -> string, query: Query, asset: Asset, text: string)
    requires Unset(query)
    ensures Matches(lower, query.(search := Some(text)), asset) <==>
      exists i :: OccursAt(lower(asset.name), lower(text), i)
  {
    ContainsIsOccurrence(lower(asset.name), lower(text));
  }

  /** Rated at least so; an asset without a rating passes a minimum of zero only. */
  lemma RatingFilter(lower: string -> string, query: Query, asset: Asset, minimum: nat)
    requires Unset(query)
    ensures Matches(lower, query.(minimumRating := Some(minimum)), asset) <==>
      minimum == 0 || (asset.rating.Some? && asset.rating.value >= minimum)
  {
  }

  lemma ColorFilter(lower: string -> string, query: Query, asset: Asset, color: string)
    requires Unset(query)
    ensures Matches(lower, query.(colorLabels := [color]), asset) <==>
      asset.colorLabel.Some? && SameText(asset.colorLabel.value, color)
  {
    if asset.colorLabel.Some? {
      IgnoringCase(asset.colorLabel.value, color);
      assert AnyOf(asset.colorLabel.value, [color]) <==> EqIgnoreAsciiCase(asset.colorLabel.value, [color][0]);
    }
  }

  lemma FlagFilter(lower: string -> string, query: Query, asset: Asset, flag: string)
    requires Unset(query)
    ensures Matches(lower, query.(pickLabels := [flag]), asset) <==>
      || (asset.pickLabel == Some(Rejected) && SameText("rejected", flag))
      || (asset.pickLabel == Some(Pending) && SameText("pending", flag))
      || (asset.pickLabel == Some(Accepted) && SameText("accepted", flag))
  {
    if asset.pickLabel.Some? {
      IgnoringCase(PickName(asset.pickLabel.value), flag);
      assert AnyOf(PickName(asset.pickLabel.value), [flag]) <==>
        EqIgnoreAsciiCase(PickName(asset.pickLabel.value), [flag][0]);
    }
    hide SameText;
    hide EqIgnoreAsciiCase;
    hide AnyOf;
  }

  /** A query passes what each of its filters passes alone. */
  lemma FiltersCombine(lower: string -> string, query: Query, asset: Asset)
    ensures var none := query.(kind := None, search := None, minimumRating := None, colorLabels := [], pickLabels := []);
      Matches(lower, query, asset) <==>
        && Matches(lower, none.(kind := query.kind), asset)
        && Matches(lower, none.(search := query.search), asset)
        && Matches(lower, none.(minimumRating := query.minimumRating), asset)
        && Matches(lower, none.(colorLabels := query.colorLabels), asset)
        && Matches(lower, none.(pickLabels := query.pickLabels), asset)
  {
    hide AnyOf;
    hide Contains;
  }

  predicate Unset(query: Query) {
    && query.kind.None? && query.search.None? && query.minimumRating.None?
    && query.colorLabels == [] && query.pickLabels == []
  }

  /** Unset filters let everything pass; an unrated asset fails every minimum above zero, an unlabelled one every label. */
  lemma UnsetAndMissing(lower: string -> string, query: Query, asset: Asset)
    ensures Unset(query) ==> Matches(lower, query, asset)
    ensures asset.rating.None? && query.minimumRating.Some? && Matches(lower, query, asset) ==>
      query.minimumRating.value == 0
    ensures asset.colorLabel.None? && Matches(lower, query, asset) ==> query.colorLabels == []
    ensures asset.pickLabel.None? && Matches(lower, query, asset) ==> query.pickLabels == []
  {
  }

  /**
   The two calls of `sort_unstable_by`, known only by what they promise: the
   elements they were given, in order, ties anyhow.
   */
  datatype Sorts = Sorts(keyed: seq<Keyed> -> seq<Keyed>, plain: (seq<Asset>, SortKey) -> seq<Asset>) {
    ghost predicate Promise() {
      && (forall s :: Arranges(keyed(s), s, KeyedLeq()))
      && (forall s, sort :: Arranges(plain(s, sort), s, Leq(sort)))
    }
  }

  lemma KeyedIsOrdered()
    ensures Total(KeyedLeq()) && Transitive(KeyedLeq())
  {
    forall a: Keyed, b: Keyed
      ensures KeyedLeq()(a, b) || KeyedLeq()(b, a)
    {
      StringsFlip(a.key, b.key);
      StringsFlip(a.asset.name, b.asset.name);
    }
    forall a: Keyed, b: Keyed, c: Keyed | KeyedLeq()(a, b) && KeyedLeq()(b, c)
      ensures KeyedLeq()(a, c)
    {
      StringsChain(a.key, b.key, c.key);
      if CompareStrings(a.key, c.key) == Equal {
        StringsChain(a.asset.name, b.asset.name, c.asset.name);
      }
    }
  }

  lemma SortArranges<T(!new)>(s: seq<T>, leq: (T, T) -> bool)
    requires Total(leq) && Transitive(leq)
    ensures Arranges(StableSort(s, leq), s, leq)
  {
    var any := (a: T, b: T) => true;
    SortPermutes(s, leq);
    SortIsStable(s, leq, any);
    var r := StableSort(s, leq);
    forall i, j | 0 <= i < j < |r|
      ensures leq(r[i], r[j])
    {
      assert Before(leq, any, r[i], r[j]);
    }
  }

  /** Both comparators are total orders, so the promise can be kept, by a stable sort for one. */
  lemma ThePromiseCanBeKept()
    ensures Sorts(s => StableSort(s, KeyedLeq()), (s, sort) => StableSort(s, Leq(sort))).Promise()
  {
    KeyedIsOrdered();
    forall s: seq<Keyed>
      ensures Arranges(StableSort(s, KeyedLeq()), s, KeyedLeq())
    {
      SortArranges(s, KeyedLeq());
    }
    forall s: seq<Asset>, sort: SortKey
      ensures Arranges(StableSort(s, Leq(sort)), s, Leq(sort))
    {
      AssetsAreOrdered(sort);
      SortArranges(s, Leq(sort));
    }
  }

  function WithKey(): Asset -> Keyed { (a: Asset) => Keyed(AsciiLower(a.name), a) }

  function WithoutKey(): Keyed -> Asset { (k: Keyed) => k.asset }

  function Ascended(sorts: Sorts, items: seq<Asset>, sort: SortKey): seq<Asset> {
    if sort.ByName? then Map(WithoutKey(), sorts.keyed(Map(WithKey(), items))) else sorts.plain(items, sort)
  }

  function Reversed<T>(s: seq<T>): (r: seq<T>)
    ensures |r| == |s| && forall i :: 0 <= i < |s| ==> r[i] == s[|s| - 1 - i]
  {
    if s == [] then [] else Reversed(s[1..]) + [s[0]]
  }

  /** The whole result, before it is cut into pages. */
  function Listing(sorts: Sorts, lower: string -> string, query: Query, assets: seq<Asset>): seq<Asset> {
    var items := Ascended(sorts, Filtered(lower, query, assets), query.sort);
    if query.direction.Descending? then Reversed(items) else items
  }

  /** The order a query asks for. */
  function Wanted(query: Query): (Asset, Asset) -> bool {
    if query.direction.Descending? then (a, b) => Leq(query.sort)(b, a) else Leq(query.sort)
  }

  // ---- Pages ----

  function PageSize(query: Query): (size: nat)
    ensures 1 <= size <= MAX_PAGE_SIZE
    ensures query.pageSize.None? ==> size == 250
    ensures query.pageSize.Some? && 1 <= query.pageSize.value <= 1000 ==> size == query.pageSize.value
    ensures query.pageSize == Some(0) ==> size == 1
    ensures query.pageSize.Some? && query.pageSize.value > 1000 ==> size == 1000
  {
    var size := if query.pageSize.Some? then query.pageSize.value else DEFAULT_PAGE_SIZE;
    if size < 1 then 1 else if size > MAX_PAGE_SIZE then MAX_PAGE_SIZE else size
  }

  function Cut(items: seq<Asset>, pageSize: nat, offset: nat): Page {
    var sum := SaturatingAdd(offset, pageSize);
    var end := if sum < |items| then sum else |items|;
    Page(
      if offset < |items| && offset <= end then items[offset..end] else [],
      if end < |items| then Some(end) else None,
      |items|)
  }

  method PageAssets(sorts: Sorts, lower: string -> string, assets: seq<Asset>, query: Query, offset: nat)
    returns (page: Page)
    requires |assets| <= USIZE_MAX && offset <= USIZE_MAX && sorts.Promise()
    ensures page == Cut(Listing(sorts, lower, query, assets), PageSize(query), offset)
  {
    var needle := if query.search.Some? then Some(lower(query.search.value)) else None;
    var items: seq<Asset> := [];
    for i := 0 to |assets|
      invariant items == Filtered(lower, query, assets[..i])
    {
      assert assets[..i + 1][..i] == assets[..i];
      var passes := Passes(lower, query, needle, assets[i]);
      if !passes {
        continue;
      }
      items := items + [assets[i]];
    }
    assert assets[..|assets|] == assets;
    if query.sort.ByName? {
      var keyed := Map(WithKey(), items);
      keyed := sorts.keyed(keyed);
      items := Map(WithoutKey(), keyed);
    } else {
      items := sorts.plain(items, query.sort);
    }
    if query.direction.Descending? {
      items := Reversed(items);
    }
    var total := |items|;
    var pageSize := PageSize(query);
    var sum := SaturatingAdd(offset, pageSize);
    var end := if sum < total then sum else total;
    var pageItems := [];
    if offset < total {
      pageItems := items[offset..end];
    }
    page := Page(pageItems, if end < total then Some(end) else None, total);
  }

  // ---- What a listing is ----

  /** An asset is listed as often as it was scanned if it passes the filters, and never otherwise. */
  lemma {:induction false} FilteredCounts(lower: string -> string, query: Query, assets: seq<Asset>, asset: Asset)
    ensures multiset(Filtered(lower, query, assets))[asset]
      == if Matches(lower, query, asset) then multiset(assets)[asset] else 0
  {
    hide Matches;
    if assets != [] {
      var init, last := assets[..|assets| - 1], assets[|assets| - 1];
      FilteredCounts(lower, query, init, asset);
      assert assets == init + [last];
    }
  }

  /** Sorting by precomputed keys agrees with `compare_assets`. */
  lemma KeyedSortAgrees(sorts: Sorts, items: seq<Asset>)
    requires sorts.Promise()
    ensures Arranges(Ascended(sorts, items, ByName), items, Leq(ByName))
  {
    var given := Map(WithKey(), items);
    var sorted := sorts.keyed(given);
    var result := Map(WithoutKey(), sorted);
    assert Arranges(sorted, given, KeyedLeq());
    SameElements(sorted, given);
    forall i, j | 0 <= i < j < |result|
      ensures Leq(ByName)(result[i], result[j])
    {
      assert KeyedLeq()(sorted[i], sorted[j]);
      assert sorted[i] in given && sorted[j] in given;
    }
    MapPermutes(WithoutKey(), sorted, given);
    assert Map(WithoutKey(), given) == items;
  }

  lemma AscendedArranges(sorts: Sorts, items: seq<Asset>, sort: SortKey)
    requires sorts.Promise()
    ensures Arranges(Ascended(sorts, items, sort), items, Leq(sort))
  {
    if sort.ByName? {
      KeyedSortAgrees(sorts, items);
    }
  }

  lemma {:induction false} ReversedPermutes<T>(s: seq<T>)
    ensures multiset(Reversed(s)) == multiset(s)
  {
    if s != [] {
      ReversedPermutes(s[1..]);
      assert s == [s[0]] + s[1..];
    }
  }

  /** The listing holds the filtered assets, each once, in the order asked for. */
  lemma ListingArranges(sorts: Sorts, lower: string -> string, query: Query, assets: seq<Asset>)
    requires sorts.Promise()
    ensures Arranges(Listing(sorts, lower, query, assets), Filtered(lower, query, assets), Wanted(query))
  {
    var items := Ascended(sorts, Filtered(lower, query, assets), query.sort);
    AscendedArranges(sorts, Filtered(lower, query, assets), query.sort);
    if query.direction.Descending? {
      ReversedPermutes(items);
      var listing := Reversed(items);
      forall i, j | 0 <= i < j < |listing|
        ensures Wanted(query)(listing[i], listing[j])
      {
        assert Leq(query.sort)(items[|items| - 1 - j], items[|items| - 1 - i]);
      }
    }
  }

  /** The descending listing is the ascending one backwards. */
  lemma DescendingIsBackwards(sorts: Sorts, lower: string -> string, query: Query, assets: seq<Asset>, i: nat)
    requires i < |Listing(sorts, lower, query.(direction := Ascending), assets)|
    ensures var up, down := Listing(sorts, lower, query.(direction := Ascending), assets),
                            Listing(sorts, lower, query.(direction := Descending), assets);
      |down| == |up| && down[i] == up[|up| - 1 - i]
  {
    FilteredIgnoresDirection(lower, query, assets);
    hide Filtered;
    hide Ascended;
    hide Reversed;
  }

  lemma {:induction false} FilteredIgnoresDirection(lower: string -> string, query: Query, assets: seq<Asset>)
    ensures Filtered(lower, query.(direction := Ascending), assets) == Filtered(lower, query.(direction := Descending), assets)
  {
    if assets != [] {
      FilteredIgnoresDirection(lower, query, assets[..|assets| - 1]);
    }
  }

  ghost predicate DistinctNames(assets: seq<Asset>) {
    forall i, j :: 0 <= i < j < |assets| ==> assets[i].name != assets[j].name
  }

  lemma {:induction false} FilteredMembers(lower: string -> string, query: Query, assets: seq<Asset>)
    ensures forall a :: a in Filtered(lower, query, assets) ==> a in assets
  {
    hide Matches;
    if assets != [] {
      FilteredMembers(lower, query, assets[..|assets| - 1]);
    }
  }

  lemma NamesTellApart(assets: seq<Asset>, a: Asset, b: Asset)
    requires DistinctNames(assets) && a in assets && b in assets && a.name == b.name
    ensures a == b
  {
    var i :| 0 <= i < |assets| && assets[i] == a;
    var j :| 0 <= j < |assets| && assets[j] == b;
    assert i == j;
  }

  lemma FilteredOfPermuted(lower: string -> string, query: Query, assets: seq<Asset>, others: seq<Asset>)
    requires multiset(assets) == multiset(others)
    ensures multiset(Filtered(lower, query, assets)) == multiset(Filtered(lower, query, others))
  {
    var a, b := multiset(Filtered(lower, query, assets)), multiset(Filtered(lower, query, others));
    forall asset
      ensures a[asset] == b[asset]
    {
      FilteredCounts(lower, query, assets, asset);
      FilteredCounts(lower, query, others, asset);
    }
  }

  /**
   With distinct names the listing is fixed by the set of assets and the query:
   neither the scan's order nor the sort's treatment of ties shows.
   */
  lemma ListingIsUnique(
      sorts: Sorts, others: Sorts, lower: string -> string, query: Query, assets: seq<Asset>, rescanned: seq<Asset>)
    requires sorts.Promise() && others.Promise()
    requires DistinctNames(assets) && multiset(assets) == multiset(rescanned)
    ensures Listing(sorts, lower, query, assets) == Listing(others, lower, query, rescanned)
  {
    var a, b := Listing(sorts, lower, query, assets), Listing(others, lower, query, rescanned);
    ListingArranges(sorts, lower, query, assets);
    ListingArranges(others, lower, query, rescanned);
    FilteredOfPermuted(lower, query, assets, rescanned);
    AssetsAreOrdered(query.sort);
    FilteredMembers(lower, query, assets);
    SameElements(a, Filtered(lower, query, assets));
    forall x, y | x in a && y in a && Wanted(query)(x, y) && Wanted(query)(y, x)
      ensures x == y
    {
      NamesTellApart(assets, x, y);
    }
    ArrangementIsUnique(a, b, Wanted(query));
  }

  /** Without filters everything scanned is listed. */
  lemma UnfilteredListsEverything(sorts: Sorts, lower: string -> string, query: Query, assets: seq<Asset>)
    requires sorts.Promise() && Unset(query)
    ensures multiset(Listing(sorts, lower, query, assets)) == multiset(assets)
  {
    ListingArranges(sorts, lower, query, assets);
    forall asset
      ensures multiset(Filtered(lower, query, assets))[asset] == multiset(assets)[asset]
    {
      UnsetAndMissing(lower, query, asset);
      FilteredCounts(lower, query, assets, asset);
    }
  }

  // ---- Following the cursor ----

  /** The pages a caller sees who starts at `offset` and follows `next_cursor`. */
  function Follow(items: seq<Asset>, pageSize: nat, offset: nat): (pages: seq<Page>)
    requires pageSize > 0 && |items| <= USIZE_MAX && offset <= USIZE_MAX
    decreases if offset <= |items| then |items| - offset else 0
  {
    var page := Cut(items, pageSize, offset);
    [page] + if page.nextCursor.Some? then Follow(items, pageSize, page.nextCursor.value) else []
  }

  function Joined(pages: seq<Page>): seq<Asset> {
    if pages == [] then [] else pages[0].items + Joined(pages[1..])
  }

  /** An offset at or behind the end gives an empty last page. */
  lemma PastTheEnd(items: seq<Asset>, pageSize: nat, offset: nat)
    requires |items| <= offset <= USIZE_MAX && |items| <= USIZE_MAX
    ensures Cut(items, pageSize, offset) == Page([], None, |items|)
  {
  }

  /**
   From any cursor a caller may send, following `next_cursor` ends, and the pages joined are
   the rest of the listing, or nothing behind its end; every page tells the same total.
   */
  lemma {:induction false} PagesJoin(items: seq<Asset>, pageSize: nat, offset: nat)
    requires pageSize > 0 && |items| <= USIZE_MAX && offset <= USIZE_MAX
    ensures Joined(Follow(items, pageSize, offset)) == if offset <= |items| then items[offset..] else []
    ensures forall page :: page in Follow(items, pageSize, offset) ==> page.total == |items| && |page.items| <= pageSize
    decreases if offset <= |items| then |items| - offset else 0
  {
    var page := Cut(items, pageSize, offset);
    if offset >= |items| {
      PastTheEnd(items, pageSize, offset);
      assert Follow(items, pageSize, offset)[1..] == [];
    } else if page.nextCursor.Some? {
      var end := page.nextCursor.value;
      PagesJoin(items, pageSize, end);
      assert Follow(items, pageSize, offset)[1..] == Follow(items, pageSize, end);
      assert items[offset..] == items[offset..end] + items[end..];
    } else {
      assert Follow(items, pageSize, offset)[1..] == [];
    }
  }

  /** Only the last page may be short, and only it has no cursor. */
  lemma {:induction false} PagesAreFull(items: seq<Asset>, pageSize: nat, offset: nat, i: nat)
    requires pageSize > 0 && offset <= |items| <= USIZE_MAX && i < |Follow(items, pageSize, offset)|
    ensures var pages := Follow(items, pageSize, offset);
      && (pages[i].nextCursor.Some? <==> i + 1 < |pages|)
      && (i + 1 < |pages| ==> |pages[i].items| == pageSize)
      && (i + 1 == |pages| && offset < |items| ==> pages[i].items != [])
    decreases |items| - offset
  {
    var page := Cut(items, pageSize, offset);
    if page.nextCursor.Some? {
      var end := page.nextCursor.value;
      assert Follow(items, pageSize, offset)[1..] == Follow(items, pageSize, end);
      if i > 0 {
        PagesAreFull(items, pageSize, end, i - 1);
      }
    }
  }

  /**
   The pages from cursor 0 on hold exactly the assets that pass the filters,
   each as often as it was scanned, in the order asked for.
   */
  lemma PagesAreTheListing(sorts: Sorts, lower: string -> string, query: Query, assets: seq<Asset>, asset: Asset)
    requires sorts.Promise() && |assets| <= USIZE_MAX
    ensures |Listing(sorts, lower, query, assets)| <= USIZE_MAX
    ensures var all := Joined(Follow(Listing(sorts, lower, query, assets), PageSize(query), 0));
      && Pairwise(all, Wanted(query))
      && multiset(all)[asset] == if Matches(lower, query, asset) then multiset(assets)[asset] else 0
  {
    hide Matches;
    var items := Listing(sorts, lower, query, assets);
    ListingArranges(sorts, lower, query, assets);
    SameElements(items, Filtered(lower, query, assets));
    FilteredCounts(lower, query, assets, asset);
    PagesJoin(items, PageSize(query), 0);
    assert items[0..] == items;
  }
}
