/** The discovery page's filters: how they are read from query parameters and printed back. */
module DiscoveryQuery {
  import opened Decimal
  import opened FrontendBookings
  import opened Wrappers

  /** A query parameter that occurs once or several times; one that is absent has no entry. */
  datatype Param = One(value: string) | Many(values: seq<string>)

  type Params = map<string, Param>

  datatype Filters = Filters(
    q: Option<string>,
    buildingId: Option<string>,
    resourceType: Option<string>,
    minCapacity: Option<nat>,
    amenity: Option<string>,
    date: Option<string>,
    startTime: Option<string>,
    endTime: Option<string>,
    sort: Option<string>,
    page: Option<nat>)

  const MAX_SAFE_INTEGER := 9007199254740991
  const RESOURCE_TYPES := {"room", "laboratory", "equipment"}
  const RESOURCE_SORTS := {"name_asc", "capacity_asc", "capacity_desc"}

  // ------------------------------------------------------------------- text

  function TrimStart(s: string): string {
    if s != "" && IsWhiteSpace(s[0]) then TrimStart(s[1..]) else s
  }

  function TrimEnd(s: string): string {
    if s != "" && IsWhiteSpace(s[|s| - 1]) then TrimEnd(s[..|s| - 1]) else s
  }

  function Trim(s: string): string {
    TrimEnd(TrimStart(s))
  }

  predicate IsAscii(s: string) {
    forall i :: 0 <= i < |s| ==> s[i] as int < 128
  }

  /** A text that `trim` leaves alone. */
  predicate Edged(s: string) {
    s != "" && !IsWhiteSpace(s[0]) && !IsWhiteSpace(s[|s| - 1])
  }

  /** What is relied on of `toLowerCase`: ASCII keeps its length, nothing becomes blank, and twice is once. */
  ghost predicate IsLowerCasing(lower: string -> string) {
    (forall s :: lower(lower(s)) == lower(s))
    && (forall s :: Edged(s) ==> Edged(lower(s)))
    && (forall s :: IsAscii(s) ==> IsAscii(lower(s)) && |lower(s)| == |s|)
  }

  function LowerChar(c: char): string {
    if 'A' <= c <= 'Z' then [(c as int + 32) as char]
    else if c == '\U{0130}' then "i\U{0307}"
    else [c]
  }

  /** Lower-casing of ASCII and of the one character that becomes two, a capital I with a dot. */
  function Lower(s: string): string {
    if s == "" then "" else LowerChar(s[0]) + Lower(s[1..])
  }

  predicate IsHex(c: char) {
    IsDigit(c) || 'a' <= c <= 'f' || 'A' <= c <= 'F'
  }

  predicate IsUuid(s: string) {
    |s| == 36
    && forall i :: 0 <= i < 36 ==> if i == 8 || i == 13 || i == 18 || i == 23 then s[i] == '-' else IsHex(s[i])
  }

  // ---------------------------------------------------------------- parsing

  function Single(params: Params, key: string): Option<string> {
    if key in params && params[key].One? then Some(params[key].value) else None
  }

  function BoundedText(value: Option<string>, maxLength: nat): Option<string> {
    if value.Some? && Trim(value.value) != "" && Utf16Length(Trim(value.value)) <= maxLength then
      Some(Trim(value.value))
    else
      None
  }

  function BoundedInteger(value: Option<string>, minimum: nat, maximum: nat): Option<nat> {
    if value.Some? && value.value != "" && AllDigits(value.value) && minimum <= Value(value.value) <= maximum
    then Some(Value(value.value))
    else None
  }

  predicate IsInterval(date: Option<string>, startTime: Option<string>, endTime: Option<string>) {
    date.Some? && startTime.Some? && endTime.Some? && IntervalAccepted(date.value, startTime.value, endTime.value)
  }

  function KeepIf(value: Option<string>, keep: bool): Option<string> {
    if keep then value else None
  }

  function LowerOption(value: Option<string>, lower: string -> string): Option<string> {
    if value.Some? then Some(lower(value.value)) else None
  }

  /** The filters that parameters stand for; `lower` is `toLowerCase`. */
  function Normalized(params: Params, lower: string -> string): Filters {
    var buildingId, resourceType, sort := Single(params, "buildingId"), Single(params, "type"), Single(params, "sort");
    var date, startTime, endTime := Single(params, "date"), Single(params, "startTime"), Single(params, "endTime");
    var interval := IsInterval(date, startTime, endTime);
    Filters(
      BoundedText(Single(params, "q"), 120),
      KeepIf(buildingId, buildingId.Some? && IsUuid(buildingId.value)),
      KeepIf(resourceType, resourceType.Some? && resourceType.value in RESOURCE_TYPES),
      BoundedInteger(Single(params, "minCapacity"), 1, 10000),
      LowerOption(BoundedText(Single(params, "amenity"), 50), lower),
      KeepIf(date, interval), KeepIf(startTime, interval), KeepIf(endTime, interval),
      KeepIf(sort, sort.Some? && sort.value in RESOURCE_SORTS),
      BoundedInteger(Single(params, "page"), 1, MAX_SAFE_INTEGER))
  }

  /** `normalizeDiscoveryFilters`: an empty object, filled property by property. */
  method NormalizeDiscoveryFilters(params: Params, lower: string -> string) returns (filters: Filters)
    ensures filters == Normalized(params, lower)
    ensures IsLowerCasing(lower) ==> Canonical(filters, lower)
  {
    filters := Filters(None, None, None, None, None, None, None, None, None, None);
    var q := BoundedText(Single(params, "q"), 120);
    var buildingId := Single(params, "buildingId");
    var resourceType := Single(params, "type");
    var amenity := LowerOption(BoundedText(Single(params, "amenity"), 50), lower);
    var sort := Single(params, "sort");
    var date := Single(params, "date");
    var startTime := Single(params, "startTime");
    var endTime := Single(params, "endTime");
    if q.Some? { filters := filters.(q := q); }
    if buildingId.Some? && IsUuid(buildingId.value) { filters := filters.(buildingId := buildingId); }
    if resourceType.Some? && resourceType.value in RESOURCE_TYPES { filters := filters.(resourceType := resourceType); }
    filters := filters.(minCapacity := BoundedInteger(Single(params, "minCapacity"), 1, 10000));
    if amenity.Some? { filters := filters.(amenity := amenity); }
    if IsInterval(date, startTime, endTime) {
      filters := filters.(date := date, startTime := startTime, endTime := endTime);
    }
    if sort.Some? && sort.value in RESOURCE_SORTS { filters := filters.(sort := sort); }
    filters := filters.(page := BoundedInteger(Single(params, "page"), 1, MAX_SAFE_INTEGER));
    if IsLowerCasing(lower) {
      NormalizedCanonical(params, lower);
    }
  }

  // --------------------------------------------------------------- printing

  /** A text that is there and not empty. */
  predicate Truthy(s: Option<string>) {
    s.Some? && s.value != ""
  }

  /** The value printed for a key, if any. */
  function PrintedValue(f: Filters, key: string): Option<string> {
    var interval := Truthy(f.date) && Truthy(f.startTime) && Truthy(f.endTime);
    match key
    case "q" => KeepIf(f.q, Truthy(f.q))
    case "buildingId" => KeepIf(f.buildingId, Truthy(f.buildingId))
    case "type" => KeepIf(f.resourceType, Truthy(f.resourceType))
    case "minCapacity" => if f.minCapacity.Some? then Some(Print(f.minCapacity.value)) else None
    case "amenity" => KeepIf(f.amenity, Truthy(f.amenity))
    case "date" => KeepIf(f.date, interval)
    case "startTime" => KeepIf(f.startTime, interval)
    case "endTime" => KeepIf(f.endTime, interval)
    case "sort" => KeepIf(f.sort, Truthy(f.sort) && f.sort.value != "name_asc")
    case "page" => if f.page.Some? && f.page.value > 1 then Some(Print(f.page.value)) else None
    case _ => None
  }

  /** The parameters printed for some of the keys. */
  function PrintedAmong(f: Filters, keys: set<string>): map<string, string> {
    map key | key in keys && PrintedValue(f, key).Some? :: PrintedValue(f, key).value
  }

  const KEYS := {"q", "buildingId", "type", "minCapacity", "amenity", "date", "startTime", "endTime", "sort", "page"}

  /** The parameters printed for filters. */
  function Printed(f: Filters): map<string, string> {
    PrintedAmong(f, KEYS)
  }

  lemma PrintKey(f: Filters, keys: set<string>, key: string)
    ensures PrintedAmong(f, keys + {key})
         == if PrintedValue(f, key).Some? then PrintedAmong(f, keys)[key := PrintedValue(f, key).value]
            else if key in keys then PrintedAmong(f, keys) - {key} else PrintedAmong(f, keys)
  {
  }

  /** `discoverySearchParams` with at most a page override. */
  method DiscoverySearchParams(filters: Filters, page: Option<nat>) returns (params: map<string, string>)
    ensures params == Printed(if page.Some? then filters.(page := page) else filters)
  {
    var merged := if page.Some? then filters.(page := page) else filters;
    params := SetTexts(merged);
    params := SetDetails(merged, params);
    params := SetInterval(merged, params);
    hide PrintedAmong, Print;
    ghost var keys := TEXT_KEYS + DETAIL_KEYS + INTERVAL_KEYS;
    if Truthy(merged.sort) && merged.sort.value != "name_asc" { params := params["sort" := merged.sort.value]; }
    PrintKey(merged, keys, "sort");
    if merged.page.Some? && merged.page.value > 1 { params := params["page" := Print(merged.page.value)]; }
    PrintKey(merged, keys + {"sort"}, "page");
    assert keys + {"sort"} + {"page"} == KEYS;
  }

  const INTERVAL_KEYS := {"date", "startTime", "endTime"}

  /** The date and times, all or none. */
  method SetInterval(merged: Filters, before: map<string, string>) returns (params: map<string, string>)
    requires before == PrintedAmong(merged, TEXT_KEYS + DETAIL_KEYS)
    ensures params == PrintedAmong(merged, TEXT_KEYS + DETAIL_KEYS + INTERVAL_KEYS)
  {
    hide PrintedAmong;
    params := before;
    if Truthy(merged.date) && Truthy(merged.startTime) && Truthy(merged.endTime) {
      params := params["date" := merged.date.value];
      params := params["startTime" := merged.startTime.value];
      params := params["endTime" := merged.endTime.value];
    }
    ghost var keys := TEXT_KEYS + DETAIL_KEYS;
    PrintKey(merged, keys, "date");
    PrintKey(merged, keys + {"date"}, "startTime");
    PrintKey(merged, keys + {"date"} + {"startTime"}, "endTime");
    assert keys + {"date"} + {"startTime"} + {"endTime"} == TEXT_KEYS + DETAIL_KEYS + INTERVAL_KEYS;
  }

  const TEXT_KEYS := {"q", "buildingId", "type"}
  const DETAIL_KEYS := {"minCapacity", "amenity"}

  method SetTexts(merged: Filters) returns (params: map<string, string>)
    ensures params == PrintedAmong(merged, TEXT_KEYS)
  {
    params := map[];
    ghost var keys: set<string> := {};
    assert params == PrintedAmong(merged, keys);
    hide PrintedAmong;
    if Truthy(merged.q) { params := params["q" := merged.q.value]; }
    PrintKey(merged, keys, "q");
    keys := keys + {"q"};
    if Truthy(merged.buildingId) { params := params["buildingId" := merged.buildingId.value]; }
    PrintKey(merged, keys, "buildingId");
    keys := keys + {"buildingId"};
    if Truthy(merged.resourceType) { params := params["type" := merged.resourceType.value]; }
    PrintKey(merged, keys, "type");
    assert keys + {"type"} == TEXT_KEYS;
  }

  method SetDetails(merged: Filters, before: map<string, string>) returns (params: map<string, string>)
    requires before == PrintedAmong(merged, TEXT_KEYS)
    ensures params == PrintedAmong(merged, TEXT_KEYS + DETAIL_KEYS)
  {
    hide PrintedAmong, Print;
    params := before;
    if merged.minCapacity.Some? { params := params["minCapacity" := Print(merged.minCapacity.value)]; }
    PrintKey(merged, TEXT_KEYS, "minCapacity");
    if Truthy(merged.amenity) { params := params["amenity" := merged.amenity.value]; }
    PrintKey(merged, TEXT_KEYS + {"minCapacity"}, "amenity");
    assert TEXT_KEYS + {"minCapacity"} + {"amenity"} == TEXT_KEYS + DETAIL_KEYS;
  }

  // -------------------------------------------------------------- round trip

  /** Printed parameters as the next request brings them. */
  function Received(printed: map<string, string>): Params {
    map key | key in printed :: One(printed[key])
  }

  /** The default sort and the first page go without saying. */
  function WithoutDefaults(f: Filters): Filters {
    f.(sort := KeepIf(f.sort, f.sort != Some("name_asc")),
       page := if f.page.Some? && f.page.value > 1 then f.page else None)
  }

  /** A text that `trim` leaves alone and that fits. */
  predicate Fits(s: string, maxLength: nat) {
    Edged(s) && Utf16Length(s) <= maxLength
  }

  /** Filters as normalisation leaves them; lower-casing may have made the amenity longer than its bound. */
  predicate Canonical(f: Filters, lower: string -> string) {
    (f.q.Some? ==> Fits(f.q.value, 120))
    && (f.buildingId.Some? ==> IsUuid(f.buildingId.value))
    && (f.resourceType.Some? ==> f.resourceType.value in RESOURCE_TYPES)
    && (f.minCapacity.Some? ==> 1 <= f.minCapacity.value <= 10000)
    && (f.amenity.Some? ==> Edged(f.amenity.value) && lower(f.amenity.value) == f.amenity.value)
    && (IsInterval(f.date, f.startTime, f.endTime) || (f.date.None? && f.startTime.None? && f.endTime.None?))
    && (f.sort.Some? ==> f.sort.value in RESOURCE_SORTS)
    && (f.page.Some? ==> 1 <= f.page.value <= MAX_SAFE_INTEGER)
  }

  /** The amenity still fits its bound in lower case. */
  predicate AmenityFits(f: Filters) {
    f.amenity.Some? ==> Utf16Length(f.amenity.value) <= 50
  }

  lemma {:induction false} TrimStartEnds(s: string)
    ensures TrimStart(s) != "" ==> !IsWhiteSpace(TrimStart(s)[0])
    ensures IsAscii(s) ==> IsAscii(TrimStart(s))
  {
    if s != "" && IsWhiteSpace(s[0]) {
      TrimStartEnds(s[1..]);
    }
  }

  lemma {:induction false} TrimEndEnds(s: string)
    ensures TrimEnd(s) != "" ==> !IsWhiteSpace(TrimEnd(s)[|TrimEnd(s)| - 1]) && TrimEnd(s)[0] == s[0]
    ensures |TrimEnd(s)| <= |s|
    ensures IsAscii(s) ==> IsAscii(TrimEnd(s))
  {
    if s != "" && IsWhiteSpace(s[|s| - 1]) {
      TrimEndEnds(s[..|s| - 1]);
    }
  }

  /** What `trim` leaves starts and ends with something else than space. */
  lemma TrimLeavesEnds(s: string)
    ensures Trim(s) != "" ==> Edged(Trim(s))
    ensures IsAscii(s) ==> IsAscii(Trim(s))
  {
    TrimStartEnds(s);
    TrimEndEnds(TrimStart(s));
  }

  /** Text that `trim` leaves alone is dropped exactly when it is too long. */
  lemma LongTextDropped(s: string, maxLength: nat)
    requires Edged(s)
    ensures BoundedText(Some(s), maxLength) == if Utf16Length(s) <= maxLength then Some(s) else None
  {
    assert Trim(s) == s;
  }

  /** Characters of the basic plane are one unit each. */
  lemma {:induction false} BasicLength(s: string)
    requires forall i :: 0 <= i < |s| ==> s[i] as int < 0x1_0000
    ensures Utf16Length(s) == |s|
  {
    if s != "" {
      BasicLength(s[1..]);
    }
  }

  lemma NormalizedCanonical(params: Params, lower: string -> string)
    requires IsLowerCasing(lower)
    ensures Canonical(Normalized(params, lower), lower)
  {
    hide Trim, IsUuid, IntervalAccepted, Utf16Length, Value, Edged, IsAscii;
    var q, amenity := Single(params, "q"), Single(params, "amenity");
    if q.Some? {
      TrimLeavesEnds(q.value);
    }
    if amenity.Some? {
      TrimLeavesEnds(amenity.value);
    }
  }

  lemma PrintedNumberStays(n: nat, minimum: nat, maximum: nat)
    requires minimum <= n <= maximum
    ensures BoundedInteger(Some(Print(n)), minimum, maximum) == Some(n)
  {
    ValueOfPrint(n);
  }

  lemma SingleOfPrinted(f: Filters, key: string)
    requires key in KEYS
    ensures Single(Received(Printed(f)), key) == PrintedValue(f, key)
  {
  }

  lemma CanonicalTruthy(f: Filters, lower: string -> string)
    requires Canonical(f, lower)
    ensures (f.q.Some? ==> Truthy(f.q)) && (f.buildingId.Some? ==> Truthy(f.buildingId))
    ensures (f.resourceType.Some? ==> Truthy(f.resourceType)) && (f.amenity.Some? ==> Truthy(f.amenity))
    ensures (f.date.Some? ==> Truthy(f.date) && Truthy(f.startTime) && Truthy(f.endTime))
            && (f.sort.Some? ==> Truthy(f.sort))
  {
  }

  /** The parameters hold what is printed for the filters. */
  ghost predicate Carries(params: Params, f: Filters) {
    forall key :: key in KEYS ==> Single(params, key) == PrintedValue(f, key)
  }

  lemma TextsReadBack(params: Params, f: Filters, lower: string -> string)
    requires Canonical(f, lower) && Carries(params, f)
    ensures BoundedText(Single(params, "q"), 120) == f.q
    ensures LowerOption(BoundedText(Single(params, "amenity"), 50), lower) == if AmenityFits(f) then f.amenity else None
  {
    hide Trim, Utf16Length, Edged, IsWhiteSpace, IntervalAccepted, IsUuid, Print, BoundedText;
    CanonicalTruthy(f, lower);
    QueryReadsBack(f, lower);
    AmenityReadsBack(f, lower);
  }

  lemma QueryReadsBack(f: Filters, lower: string -> string)
    requires Canonical(f, lower)
    ensures BoundedText(f.q, 120) == f.q
  {
    hide IntervalAccepted, IsUuid;
    if f.q.Some? {
      LongTextDropped(f.q.value, 120);
    }
  }

  lemma AmenityReadsBack(f: Filters, lower: string -> string)
    requires Canonical(f, lower)
    ensures BoundedText(f.amenity, 50) == if AmenityFits(f) then f.amenity else None
  {
    hide IntervalAccepted, IsUuid;
    if f.amenity.Some? {
      LongTextDropped(f.amenity.value, 50);
    }
  }

  lemma NumbersReadBack(params: Params, f: Filters, lower: string -> string)
    requires Canonical(f, lower) && Carries(params, f)
    ensures BoundedInteger(Single(params, "minCapacity"), 1, 10000) == f.minCapacity
    ensures BoundedInteger(Single(params, "page"), 1, MAX_SAFE_INTEGER) == WithoutDefaults(f).page
  {
    hide Fits, Edged, IntervalAccepted, IsUuid, Print, Value;
    if f.minCapacity.Some? {
      PrintedNumberStays(f.minCapacity.value, 1, 10000);
    }
    if f.page.Some? {
      PrintedNumberStays(f.page.value, 1, MAX_SAFE_INTEGER);
    }
  }

  /** What is read back of printed filters: all of them but the defaults, and an amenity that outgrew its bound. */
  function ReadBack(f: Filters): Filters {
    WithoutDefaults(f).(amenity := if AmenityFits(f) then f.amenity else None)
  }

  lemma PrintThenRead(f: Filters, lower: string -> string)
    requires Canonical(f, lower)
    ensures Normalized(Received(Printed(f)), lower) == ReadBack(f)
  {
    hide Received, Printed, IsUuid, IntervalAccepted, BoundedText, BoundedInteger, LowerOption, Print, Fits, Edged,
      Utf16Length;
    var params := Received(Printed(f));
    forall key | key in KEYS
      ensures Single(params, key) == PrintedValue(f, key)
    {
      SingleOfPrinted(f, key);
    }
    CanonicalTruthy(f, lower);
    TextsReadBack(params, f, lower);
    NumbersReadBack(params, f, lower);
  }

  /**
   * For any parameters, printing the filters and reading them again drops the
   * defaults only, exactly when the lower-cased amenity still has at most 50
   * UTF-16 units; otherwise it drops the amenity too.
   */
  lemma QueryRoundTrip(params: Params, lower: string -> string)
    requires IsLowerCasing(lower)
    ensures var f := Normalized(params, lower);
            Normalized(Received(Printed(f)), lower) == ReadBack(f)
            && (ReadBack(f) == WithoutDefaults(f) <==> AmenityFits(f))
  {
    hide Received, Printed, Normalized;
    NormalizedCanonical(params, lower);
    PrintThenRead(Normalized(params, lower), lower);
  }

  /** An ASCII amenity fits in lower case as it did before. */
  lemma AsciiAmenityFits(params: Params, lower: string -> string)
    requires IsLowerCasing(lower) && (Single(params, "amenity").Some? ==> IsAscii(Single(params, "amenity").value))
    ensures AmenityFits(Normalized(params, lower))
  {
    hide IsUuid, IntervalAccepted, Value, Edged, BoundedInteger;
    var amenity := Single(params, "amenity");
    if BoundedText(amenity, 50).Some? {
      TrimLeavesEnds(amenity.value);
      BasicLength(Trim(amenity.value));
      BasicLength(lower(Trim(amenity.value)));
    }
  }

  /** A link to another page reads back as the same filters on that page. */
  lemma PageOverrideReads(params: Params, page: nat, lower: string -> string)
    requires IsLowerCasing(lower) && 1 <= page <= MAX_SAFE_INTEGER
    ensures Normalized(Received(Printed(Normalized(params, lower).(page := Some(page)))), lower)
         == ReadBack(Normalized(params, lower)).(page := if page > 1 then Some(page) else None)
  {
    NormalizedCanonical(params, lower);
    hide Normalized, Printed, Received;
    PrintThenRead(Normalized(params, lower).(page := Some(page)), lower);
  }

  /** A page override changes no other parameter of the link. */
  lemma PageOverrideChangesPageOnly(f: Filters, page: Option<nat>)
    ensures Printed(f.(page := page)) - {"page"} == Printed(f) - {"page"}
  {
  }

  // ---------------------------------------------------- a growing amenity

  lemma LowerFirst(c: char, rest: string)
    ensures Lower([c] + rest) == LowerChar(c) + Lower(rest)
  {
    assert ([c] + rest)[1..] == rest;
    hide LowerChar;
  }

  lemma Associates(a: string, b: string, c: string)
    ensures a + (b + c) == a + b + c
  {
  }

  lemma {:induction false} LowerOfConcat(a: string, b: string)
    ensures Lower(a + b) == Lower(a) + Lower(b)
  {
    hide Lower, LowerChar;
    if a == "" {
      assert a + b == b;
      LowerOfEmpty();
      assert "" + Lower(b) == Lower(b);
    } else {
      var rest := a[1..];
      assert a == [a[0]] + rest;
      LowerOfConcat(rest, b);
      Associates([a[0]], rest, b);
      LowerFirst(a[0], rest);
      LowerFirst(a[0], rest + b);
      Associates(LowerChar(a[0]), Lower(rest), Lower(b));
    }
  }

  lemma LowerOfEmpty()
    ensures Lower("") == ""
  {
  }

  lemma LowerCharTwice(c: char)
    ensures Lower(LowerChar(c)) == LowerChar(c)
  {
    if c == '\U{0130}' {
      assert "i\U{0307}"[1..] == "\U{0307}";
      assert Lower("\U{0307}") == "\U{0307}";
    }
  }

  lemma {:induction false} LowerTwice(s: string)
    ensures Lower(Lower(s)) == Lower(s)
  {
    if s != "" {
      LowerTwice(s[1..]);
      LowerCharTwice(s[0]);
      LowerOfConcat(LowerChar(s[0]), Lower(s[1..]));
    }
  }

  lemma {:induction false} LowerEdges(s: string)
    requires s != ""
    ensures Lower(s) != ""
    ensures !IsWhiteSpace(s[0]) ==> !IsWhiteSpace(Lower(s)[0])
    ensures !IsWhiteSpace(s[|s| - 1]) ==> !IsWhiteSpace(Lower(s)[|Lower(s)| - 1])
  {
    if |s| > 1 {
      LowerEdges(s[1..]);
    } else {
      assert Lower(s) == LowerChar(s[0]);
    }
  }

  lemma {:induction false} LowerOfAscii(s: string)
    requires IsAscii(s)
    ensures IsAscii(Lower(s)) && |Lower(s)| == |s|
  {
    if s != "" {
      LowerOfAscii(s[1..]);
    }
  }

  /** The modelled part of `toLowerCase` meets what is relied on. */
  lemma LowerIsLowerCasing()
    ensures IsLowerCasing(Lower)
  {
    forall s: string
      ensures Lower(Lower(s)) == Lower(s)
      ensures Edged(s) ==> Edged(Lower(s))
      ensures IsAscii(s) ==> IsAscii(Lower(s)) && |Lower(s)| == |s|
    {
      LowerTwice(s);
      if s != "" {
        LowerEdges(s);
      }
      if IsAscii(s) {
        LowerOfAscii(s);
      }
    }
  }

  lemma {:induction false} DottedLength(n: nat)
    ensures Utf16Length(Repeat('\U{0130}', n)) == n && Utf16Length(Lower(Repeat('\U{0130}', n))) == 2 * n
  {
    if n > 0 {
      DottedLength(n - 1);
      var s, rest := Repeat('\U{0130}', n), Lower(Repeat('\U{0130}', n - 1));
      assert s[1..] == Repeat('\U{0130}', n - 1);
      assert Lower(s) == "i\U{0307}" + rest;
      assert ("i\U{0307}" + rest)[1..] == "\U{0307}" + rest && ("\U{0307}" + rest)[1..] == rest;
    }
  }

  lemma AmenityOf(s: string, lower: string -> string)
    requires Edged(s) && Utf16Length(s) <= 50
    ensures Normalized(map["amenity" := One(s)], lower).amenity == Some(lower(s))
  {
    hide Trim, Edged, Utf16Length, IntervalAccepted, IsUuid, BoundedInteger;
    LongTextDropped(s, 50);
  }

  /** Twenty-six to fifty dotted capital Is make an amenity filter that is lost on the next link. */
  lemma GrowingAmenityLost(n: nat)
    requires 26 <= n <= 50
    ensures var f := Normalized(map["amenity" := One(Repeat('\U{0130}', n))], Lower);
            f.amenity.Some? && Normalized(Received(Printed(f)), Lower).amenity.None?
  {
    hide Printed, Received, Lower, Utf16Length, Normalized;
    var s := Repeat('\U{0130}', n);
    DottedLength(n);
    AmenityOf(s, Lower);
    LowerIsLowerCasing();
    QueryRoundTrip(map["amenity" := One(s)], Lower);
  }
}
