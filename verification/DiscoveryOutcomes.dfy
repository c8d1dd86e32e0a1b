/** Which filter each query parameter stands for, parameter by parameter. */
module DiscoveryOutcomes {
  import opened Calendar
  import opened Decimal
  import opened DiscoveryQuery
  import opened FrontendBookings
  import opened WireText
  import opened Wrappers

  /** The parameter occurs once, with the value. */
  predicate Given(params: Params, key: string, value: string) {
    key in params && params[key] == One(value)
  }

  /** The parameter occurs once, in decimal digits that stand for `n`. */
  ghost predicate NumberGiven(params: Params, key: string, n: nat) {
    exists text :: Given(params, key, text) && text != "" && AllDigits(text) && Value(text) == n
  }

  predicate Blank(s: string) {
    forall i :: 0 <= i < |s| ==> IsWhiteSpace(s[i])
  }

  /** `core` is what stands between the leading and the trailing white space of the text. */
  ghost predicate Between(text: string, core: string) {
    Edged(core) && exists lead, trail :: Blank(lead) && Blank(trail) && text == lead + core + trail
  }

  lemma {:induction false} StartOfTrim(lead: string, rest: string)
    requires Blank(lead) && (rest == "" || !IsWhiteSpace(rest[0]))
    ensures TrimStart(lead + rest) == rest
  {
    if lead == "" {
      assert lead + rest == rest;
    } else {
      assert (lead + rest)[1..] == lead[1..] + rest;
      StartOfTrim(lead[1..], rest);
    }
  }

  lemma {:induction false} EndOfTrim(front: string, trail: string)
    requires Blank(trail) && (front == "" || !IsWhiteSpace(front[|front| - 1]))
    ensures TrimEnd(front + trail) == front
  {
    if trail == "" {
      assert front + trail == front;
    } else {
      var s := front + trail;
      assert s[..|s| - 1] == front + trail[..|trail| - 1];
      EndOfTrim(front, trail[..|trail| - 1]);
    }
  }

  lemma {:induction false} StartSplits(s: string) returns (lead: string)
    ensures Blank(lead) && s == lead + TrimStart(s)
  {
    if s != "" && IsWhiteSpace(s[0]) {
      var rest := StartSplits(s[1..]);
      lead := [s[0]] + rest;
      assert s == [s[0]] + s[1..];
    } else {
      lead := "";
      assert s == "" + s;
    }
  }

  lemma {:induction false} EndSplits(s: string) returns (trail: string)
    ensures Blank(trail) && s == TrimEnd(s) + trail
  {
    if s != "" && IsWhiteSpace(s[|s| - 1]) {
      var rest := EndSplits(s[..|s| - 1]);
      trail := rest + [s[|s| - 1]];
      assert s == s[..|s| - 1] + [s[|s| - 1]];
    } else {
      trail := "";
      assert s == s + "";
    }
  }

  lemma BetweenTrims(text: string, core: string)
    requires Between(text, core)
    ensures Trim(text) == core && core != ""
  {
    var lead, trail :| Blank(lead) && Blank(trail) && text == lead + core + trail;
    assert text == lead + (core + trail) && (core + trail)[0] == core[0];
    StartOfTrim(lead, core + trail);
    EndOfTrim(core, trail);
    hide TrimStart, TrimEnd, IsWhiteSpace, Blank;
  }

  /** `trim` finds what stands between the white space. */
  lemma TrimIsBetween(text: string, core: string)
    ensures Between(text, core) <==> Trim(text) == core && core != ""
  {
    if Between(text, core) {
      BetweenTrims(text, core);
      hide Trim, Between;
    }
    if Trim(text) == core && core != "" {
      hide TrimStart, TrimEnd, IsWhiteSpace, Blank, Edged;
      TrimLeavesEnds(text);
      var lead := StartSplits(text);
      var trail := EndSplits(TrimStart(text));
      assert text == lead + core + trail;
    }
  }

  lemma TextReads(params: Params, key: string, maxLength: nat, core: string)
    ensures BoundedText(Single(params, key), maxLength) == Some(core)
       <==> exists text :: Given(params, key, text) && Between(text, core) && Utf16Length(core) <= maxLength
  {
    hide Trim, Between, Utf16Length;
    if BoundedText(Single(params, key), maxLength) == Some(core) {
      TrimIsBetween(params[key].value, core);
      assert Given(params, key, params[key].value);
    }
    if text :| Given(params, key, text) && Between(text, core) && Utf16Length(core) <= maxLength {
      TrimIsBetween(text, core);
    }
  }

  lemma NumberReads(params: Params, key: string, low: nat, high: nat, n: nat)
    ensures BoundedInteger(Single(params, key), low, high) == Some(n)
       <==> low <= n <= high && NumberGiven(params, key, n)
  {
    hide Value, AllDigits;
    if BoundedInteger(Single(params, key), low, high) == Some(n) {
      assert Given(params, key, params[key].value);
    }
  }

  /** Each filter is the value of its own parameter, given once and acceptable, and of no other. */
  lemma ParametersRead(params: Params, lower: string -> string, value: string, n: nat)
    ensures var f := Normalized(params, lower);
            (f.q == Some(value) <==>
               exists text :: Given(params, "q", text) && Between(text, value) && Utf16Length(value) <= 120)
            && (f.amenity == Some(value) <==>
                  exists core :: lower(core) == value
                    && exists text :: Given(params, "amenity", text) && Between(text, core) && Utf16Length(core) <= 50)
            && (f.buildingId == Some(value) <==> Given(params, "buildingId", value) && IsUuid(value))
            && (f.resourceType == Some(value) <==>
                  Given(params, "type", value) && value in {"room", "laboratory", "equipment"})
            && (f.sort == Some(value) <==>
                  Given(params, "sort", value) && value in {"name_asc", "capacity_asc", "capacity_desc"})
            && (f.minCapacity == Some(n) <==> 1 <= n <= 10000 && NumberGiven(params, "minCapacity", n))
            && (f.page == Some(n) <==> 1 <= n <= 9007199254740991 && NumberGiven(params, "page", n))
  {
    hide BoundedText, BoundedInteger, Between, Utf16Length, NumberGiven, IsUuid, IntervalAccepted;
    TextReads(params, "q", 120, value);
    NumberReads(params, "minCapacity", 1, 10000, n);
    NumberReads(params, "page", 1, MAX_SAFE_INTEGER, n);
    AmenityReads(params, lower, value);
  }

  lemma AmenityReads(params: Params, lower: string -> string, value: string)
    ensures LowerOption(BoundedText(Single(params, "amenity"), 50), lower) == Some(value)
       <==> exists core :: lower(core) == value
              && exists text :: Given(params, "amenity", text) && Between(text, core) && Utf16Length(core) <= 50
  {
    hide BoundedText, Between, Utf16Length, Given;
    var read := BoundedText(Single(params, "amenity"), 50);
    if read.Some? {
      TextReads(params, "amenity", 50, read.value);
    }
    forall core | exists text :: Given(params, "amenity", text) && Between(text, core) && Utf16Length(core) <= 50
      ensures read == Some(core)
    {
      TextReads(params, "amenity", 50, core);
    }
  }

  // ------------------------------------------------------------------- texts

  lemma HourOfText(s: string) returns (hour: nat)
    requires IsHourText(s)
    ensures hour <= 23 && s == FormatHour(hour)
  {
    var front, text := s[..1], s[..2];
    assert text[..1] == front && front[..0] == "";
    assert Value(front) == DigitValue(s[0]);
    assert Value(text) == 10 * DigitValue(s[0]) + DigitValue(s[1]);
    PaddedOfValue(text);
    assert s == text + s[2..];
    hour := Value(text);
  }

  lemma DayOfText(date: string) returns (day: int)
    requires IsCalendarDate(date)
    ensures WireDay(day) && date == DayText(day)
  {
    RequestedDateIsWire(date);
    day := DayNumber(ParseDate(date));
  }

  /** The texts of a day and of two ordered whole hours. */
  ghost predicate NamesInterval(date: string, startTime: string, endTime: string) {
    exists day: int, s: nat, e: nat ::
      WireDay(day) && s < e <= 23 && date == DayText(day) && startTime == FormatHour(s) && endTime == FormatHour(e)
  }

  lemma NamesExactly(date: string, startTime: string, endTime: string)
    ensures IntervalAccepted(date, startTime, endTime) <==> NamesInterval(date, startTime, endTime)
  {
    hide IsHourText, Less, FormatHour, DayText, WireDay, IsCalendarDate;
    if IntervalAccepted(date, startTime, endTime) {
      var day := DayOfText(date);
      var s := HourOfText(startTime);
      var e := HourOfText(endTime);
      HourTextOrder(s, e);
    }
    if NamesInterval(date, startTime, endTime) {
      var day: int, s: nat, e: nat :|
        WireDay(day) && s < e <= 23 && date == DayText(day) && startTime == FormatHour(s) && endTime == FormatHour(e);
      DayAccepted(day);
      HourTextAccepted(s);
      HourTextAccepted(e);
      HourTextOrder(s, e);
    }
  }

  predicate HexDigits(s: string) {
    forall i :: 0 <= i < |s| ==> '0' <= s[i] <= '9' || 'a' <= s[i] <= 'f' || 'A' <= s[i] <= 'F'
  }

  lemma HexAt(s: string, from: nat, to: nat)
    requires from <= to <= |s|
    ensures HexDigits(s[from..to]) <==> forall i :: from <= i < to ==> IsHex(s[i])
  {
    assert forall i :: 0 <= i < to - from ==> s[from..to][i] == s[from + i];
    if HexDigits(s[from..to]) {
      forall i | from <= i < to
        ensures IsHex(s[i])
      {
        assert s[from..to][i - from] == s[i];
      }
    }
  }

  /** Groups of 8, 4, 4, 4 and 12 hexadecimal digits, with hyphens between them. */
  lemma UuidGroups(s: string)
    requires |s| == 36
    ensures IsUuid(s)
       <==> s[8] == s[13] == s[18] == s[23] == '-'
            && HexDigits(s[..8]) && HexDigits(s[9..13]) && HexDigits(s[14..18]) && HexDigits(s[19..23])
            && HexDigits(s[24..])
  {
    HexAt(s, 0, 8);
    HexAt(s, 9, 13);
    HexAt(s, 14, 18);
    HexAt(s, 19, 23);
    HexAt(s, 24, 36);
    assert s[0..8] == s[..8] && s[24..36] == s[24..];
    hide HexDigits, IsHex;
  }

  /** Date and times stand together: the texts of a day and of ordered whole hours, or none of them is kept. */
  lemma IntervalRead(params: Params, lower: string -> string, date: string, startTime: string, endTime: string)
    ensures var f := Normalized(params, lower);
            (f.date == Some(date) && f.startTime == Some(startTime) && f.endTime == Some(endTime) <==>
               Given(params, "date", date) && Given(params, "startTime", startTime) && Given(params, "endTime", endTime)
               && NamesInterval(date, startTime, endTime))
            && (f.date.Some? <==> f.startTime.Some?) && (f.date.Some? <==> f.endTime.Some?)
  {
    NamesExactly(date, startTime, endTime);
    hide BoundedText, BoundedInteger, IsUuid, IntervalAccepted, NamesInterval;
  }
}
