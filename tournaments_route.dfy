/** The logic of the tournaments API route: the `status` query filter of
    `GET`, and in `POST` the normalisation of optional dates and the
    expansion of time blocks into match slots of the tournament's match
    duration. Request parsing, the repositories and the HTTP responses are
    not modelled; the request values become parameters. */
module TournamentsRoute {
  import opened Common
  import opened Collections
  import opened Text

  const AllowedStatuses: seq<string> := ["draft", "schedule_review", "in_progress", "finished", "cancelled"]

  predicate IsAllowed(status: string)
  {
    status in AllowedStatuses
  }

  /** `parts.map(status => status.trim())`. */
  function TrimAll(parts: seq<string>): (r: seq<string>)
    ensures |r| == |parts| && forall i :: 0 <= i < |parts| ==> r[i] == Trim(parts[i])
  {
    seq(|parts|, i requires 0 <= i < |parts| => Trim(parts[i]))
  }

  /** `Array.from(new Set(s))`: each value once, in the order of its first
      occurrence. */
  function Dedupe(s: seq<string>): seq<string>
  {
    if s == [] then []
    else
      var d := Dedupe(s[..|s| - 1]);
      if s[|s| - 1] in d then d else d + [s[|s| - 1]]
  }

  /** Deduplication keeps exactly the values of `s`, each once. */
  lemma {:induction false} DedupeMembers(s: seq<string>)
    ensures Distinct(Dedupe(s))
    ensures forall x :: x in Dedupe(s) <==> x in s
  {
    if s != [] {
      var init := s[..|s| - 1];
      assert s == init + [s[|s| - 1]];
      DedupeMembers(init);
    }
  }

  /** Deduplication keeps the values in the order they first occur. */
  lemma {:induction false} DedupeFirstSeenOrder(s: seq<string>)
    ensures forall i, j :: 0 <= i < j < |Dedupe(s)| ==> IndexOf(s, Dedupe(s)[i]) < IndexOf(s, Dedupe(s)[j])
  {
    if s != [] {
      var init, x := s[..|s| - 1], s[|s| - 1];
      assert s == init + [x];
      DedupeMembers(init);
      DedupeFirstSeenOrder(init);
      var d := Dedupe(init);
      forall i | 0 <= i < |d|
        ensures IndexOf(s, d[i]) == IndexOf(init, d[i]) < |init|
      {
        assert d[i] in d;
        IndexOfSnoc(init, x, d[i]);
      }
      if x !in d {
        IndexOfSnoc(init, x, x);
        var r := d + [x];
        forall i, j | 0 <= i < j < |r|
          ensures IndexOf(s, r[i]) < IndexOf(s, r[j])
        {
          assert r[i] == d[i];
          if j < |d| {
            assert r[j] == d[j];
          }
        }
      }
    }
  }

  /** The trimmed comma-separated parts of the parameter. */
  function Parts(param: string): seq<string>
  {
    TrimAll(Split(param, ','))
  }

  /** The allowed parts, in order, repeats included. */
  function Named(param: string): seq<string>
  {
    Filter(Parts(param), IsAllowed)
  }

  /** The statuses a non-empty `status` parameter asks for. */
  function RequestedStatuses(param: string): seq<string>
  {
    Dedupe(Named(param))
  }

  /** `statusesFilter`: `None` stands for `undefined`, given when the
      parameter is missing or empty or names no allowed status. */
  function StatusesFilter(param: Option<string>): Option<seq<string>>
  {
    var requested := if param.None? || param.value == "" then [] else RequestedStatuses(param.value);
    if |requested| > 0 then Some(requested) else None
  }

  /** The requested statuses are the allowed parts, each once, in the order
      they are first named. */
  lemma RequestedStatusesCorrect(param: string)
    ensures var r := RequestedStatuses(param);
      && Distinct(r)
      && (forall x :: x in r <==> x in Parts(param) && IsAllowed(x))
      && (forall i, j :: 0 <= i < j < |r| ==> IndexOf(Named(param), r[i]) < IndexOf(Named(param), r[j]))
  {
    FilterMembership(Parts(param), IsAllowed);
    DedupeMembers(Named(param));
    DedupeFirstSeenOrder(Named(param));
  }

  /** An empty parameter has the one part "", which is not a status. */
  lemma EmptyParamNamesNothing()
    ensures forall x :: x in Parts("") ==> !IsAllowed(x)
  {
    assert Split("", ',') == [""];
    assert Parts("") == [Trim("")];
  }

  /** There is no filter exactly when the parameter names no allowed status
      among its trimmed comma-separated parts (a missing parameter gives no
      filter either). */
  lemma NoFilterWithoutStatuses(param: string)
    ensures StatusesFilter(Some(param)).None? <==> forall x :: x in Parts(param) ==> !IsAllowed(x)
  {
    if param == "" {
      EmptyParamNamesNothing();
    } else {
      RequestedStatusesCorrect(param);
      var r := RequestedStatuses(param);
      if |r| > 0 {
        assert r[0] in r;
      }
    }
  }

  /** A filter holds exactly the allowed statuses among the trimmed
      comma-separated parts, each once, in the order they are first named. */
  lemma FilterContents(param: string)
    requires StatusesFilter(Some(param)).Some?
    ensures var f := StatusesFilter(Some(param)).value;
      && Distinct(f)
      && (forall x :: x in f <==> x in Parts(param) && IsAllowed(x))
      && (forall i, j :: 0 <= i < j < |f| ==> IndexOf(Named(param), f[i]) < IndexOf(Named(param), f[j]))
  {
    RequestedStatusesCorrect(param);
  }

  /** `normalizeDate`: a missing or blank date becomes `null`. */
  function NormalizeDate(date: Option<string>): (r: Option<string>)
    ensures r.None? <==> date.None? || Trim(date.value) == ""
    ensures r.Some? ==> r == date
  {
    if date.None? || date.value == "" || Trim(date.value) == "" then None else date
  }

  /** `Math.max(15, Number(match_duration) || 60)`, where `None` stands for
      a missing or non-numeric duration. */
  function SlotDuration(matchDuration: Option<int>): (d: int)
    ensures d >= 15
    ensures matchDuration.Some? && matchDuration.value >= 15 ==> d == matchDuration.value
    ensures matchDuration.Some? && matchDuration.value != 0 && matchDuration.value < 15 ==> d == 15
    ensures matchDuration.None? || matchDuration.value == 0 ==> d == 60
  {
    var given := if matchDuration.None? || matchDuration.value == 0 then 60 else matchDuration.value;
    Max(15, given)
  }

  const MinutesPerDay := 24 * 60

  /** `timeToMinutes`: hours and minutes of an "H:M" string, a part that does
      not start with a digit counting as 0; at the end of a block,
      midnight written "00:00", "24:00" or "0:00" is the end of the day. */
  function TimeToMinutes(time: string, asEndOfDay: bool): (r: nat)
    ensures asEndOfDay && Trim(time) in ["00:00", "24:00", "0:00"] ==> r == MinutesPerDay
  {
    var s := Trim(time);
    if asEndOfDay && (s == "00:00" || s == "24:00" || s == "0:00") then MinutesPerDay
    else
      var parts := Split(s, ':');
      var h := ParseIntOrZero(parts[0]);
      var m := if |parts| > 1 && parts[1] != "" then ParseIntOrZero(parts[1]) else 0;
      h * 60 + m
  }

  /** `minutesToTime`: a zero-padded "HH:MM", and "00:00" from the end of
      the day on. */
  function MinutesToTime(total: nat): (r: string)
    ensures total >= MinutesPerDay ==> r == "00:00"
  {
    if total >= MinutesPerDay then "00:00"
    else PadStart2(NatToString(total / 60)) + ":" + PadStart2(NatToString(total % 60))
  }

  /** A time of day prints as two two-digit fields, hours and minutes,
      around a colon. */
  lemma PrintedTime(total: nat)
    requires total < MinutesPerDay
    ensures var hh, mm := PadStart2(NatToString(total / 60)), PadStart2(NatToString(total % 60));
      && MinutesToTime(total) == hh + ":" + mm
      && |hh| == 2 && AllDigits(hh) && ParseIntOrZero(hh) == total / 60
      && |mm| == 2 && AllDigits(mm) && ParseIntOrZero(mm) == total % 60
  {
    ParsePadded(total / 60);
    ParsePadded(total % 60);
  }

  /** Splitting two digit fields joined by a colon gives the fields back. */
  lemma SplitDigitFields(hh: string, mm: string)
    requires AllDigits(hh) && AllDigits(mm)
    ensures Split(hh + ":" + mm, ':') == [hh, mm]
  {
    assert ':' !in hh && ':' !in mm by {
      assert forall i :: 0 <= i < |hh| ==> IsDigit(hh[i]);
      assert forall i :: 0 <= i < |mm| ==> IsDigit(mm[i]);
    }
    assert Join([mm], ':') == mm;
    assert Join([hh, mm], ':') == hh + ":" + mm by {
      assert [hh, mm][1..] == [mm];
    }
    SplitJoin([hh, mm], ':');
  }

  /** Two-digit fields around a colon have no blank to trim. */
  lemma TrimDigitFields(hh: string, mm: string)
    requires |hh| == 2 && AllDigits(hh) && |mm| == 2 && AllDigits(mm)
    ensures Trim(hh + ":" + mm) == hh + ":" + mm
  {
    var s := hh + ":" + mm;
    assert s[0] == hh[0] && IsDigit(hh[0]);
    assert s[|s| - 1] == mm[1] && IsDigit(mm[1]);
    TrimOfTrimmed(s);
  }

  /** Reading back a printed time of day gives the same minute. */
  lemma TimeRoundTrip(total: nat)
    requires total < MinutesPerDay
    ensures TimeToMinutes(MinutesToTime(total), false) == total
  {
    var hh, mm := PadStart2(NatToString(total / 60)), PadStart2(NatToString(total % 60));
    PrintedTime(total);
    TrimDigitFields(hh, mm);
    SplitDigitFields(hh, mm);
    assert mm != "";
  }

  /** One element of `group_slots`; a field that is missing or not a string
      is `None`, and so are all the fields of a missing block. */
  datatype Block = Block(slotDate: Option<string>, startTime: Option<string>, endTime: Option<string>)

  datatype Slot = Slot(slotDate: string, startTime: string, endTime: string)

  /** The values the loop variable `t` takes in a block ending at minute
      `endM`, from `t` on: the start minute of each slot. */
  function SlotStarts(t: nat, endM: nat, d: nat): seq<nat>
    requires d >= 1
    decreases endM - t
  {
    if t + d > endM then [] else [t] + SlotStarts(t + d, endM, d)
  }

  /** As many slots fit in a block as whole durations fit between its start
      and its end: `n` of them fit and `n + 1` do not. */
  lemma {:induction false} SlotCount(startM: nat, endM: nat, d: nat)
    requires d >= 1
    ensures var n := |SlotStarts(startM, endM, d)|;
      (n == 0 || startM + n * d <= endM) && endM < startM + (n + 1) * d
    decreases endM - startM
  {
    if startM + d <= endM {
      SlotCount(startM + d, endM, d);
      var n := |SlotStarts(startM + d, endM, d)|;
      assert (n + 1) * d == n * d + d;
      assert (n + 2) * d == (n + 1) * d + d;
    }
  }

  /** Slot `k` of a block starts `k` durations after the block's start and
      ends, one duration later, no later than the block. */
  lemma {:induction false} SlotStartAt(startM: nat, endM: nat, d: nat, k: nat)
    requires d >= 1 && k < |SlotStarts(startM, endM, d)|
    ensures SlotStarts(startM, endM, d)[k] == startM + k * d
    ensures startM + k * d + d <= endM
    decreases k
  {
    if k > 0 {
      SlotStartAt(startM + d, endM, d, k - 1);
      assert startM + d + (k - 1) * d == startM + k * d;
    }
  }

  /** The record pushed for the slot starting at minute `t`. */
  function SlotAt(date: string, t: nat, d: nat): (r: Slot)
  {
    Slot(date, MinutesToTime(t), MinutesToTime(t + d))
  }

  /** The records pushed for slots starting at the minutes `starts`. */
  function SlotsAt(date: string, starts: seq<nat>, d: nat): seq<Slot>
  {
    MapSeq(starts, (t: nat) => SlotAt(date, t, d))
  }

  /** The slots of one block: none for a block with a missing field or a
      blank date. */
  function BlockSlots(block: Block, d: nat): seq<Slot>
    requires d >= 1
  {
    if block.slotDate.None? || block.startTime.None? || block.endTime.None? then []
    else
      var slotDate := Trim(block.slotDate.value);
      if slotDate == "" then []
      else
        var startM := TimeToMinutes(block.startTime.value, false);
        var endM := TimeToMinutes(block.endTime.value, true);
        SlotsAt(slotDate, SlotStarts(startM, endM, d), d)
  }

  /** The `expanded` list after the loop over `blocks`. */
  function Expanded(blocks: seq<Block>, d: nat): seq<Slot>
    requires d >= 1
  {
    FlatMap(blocks, (b: Block) => BlockSlots(b, d))
  }

  /** The slots the route stores for `group_slots`, or `None` when it stores
      none (no block list, an empty one, or no slot at all). */
  function GroupSlots(groupSlots: Option<seq<Block>>, matchDuration: Option<int>): Option<seq<Slot>>
  {
    if groupSlots.None? || |groupSlots.value| == 0 then None
    else
      var expanded := Expanded(groupSlots.value, SlotDuration(matchDuration));
      if |expanded| > 0 then Some(expanded) else None
  }

  /** The inner loop: `for (t = startM; t + d <= endM; t += d)`. */
  method PushBlockSlots(expanded: seq<Slot>, slotDate: string, startM: nat, endM: nat, d: nat) returns (r: seq<Slot>)
    requires d >= 1
    ensures r == expanded + SlotsAt(slotDate, SlotStarts(startM, endM, d), d)
  {
    r := expanded;
    var t := startM;
    while t + d <= endM
      invariant r + SlotsAt(slotDate, SlotStarts(t, endM, d), d) == expanded + SlotsAt(slotDate, SlotStarts(startM, endM, d), d)
      decreases endM - t
    {
      MapSeqCons<nat, Slot>(t, SlotStarts(t + d, endM, d), (u: nat) => SlotAt(slotDate, u, d));
      r := r + [SlotAt(slotDate, t, d)];
      t := t + d;
    }
    assert r + SlotsAt(slotDate, SlotStarts(t, endM, d), d) == r;
  }

  /** The expansion of `group_slots` in `POST`, both loops included. */
  method ExpandGroupSlots(groupSlots: Option<seq<Block>>, matchDuration: Option<int>) returns (r: Option<seq<Slot>>)
    ensures r == GroupSlots(groupSlots, matchDuration)
  {
    if groupSlots.None? || |groupSlots.value| == 0 {
      return None;
    }
    var blocks := groupSlots.value;
    var durationMinutes := SlotDuration(matchDuration);
    var expanded: seq<Slot> := [];
    for i := 0 to |blocks|
      invariant expanded == Expanded(blocks[..i], durationMinutes)
    {
      assert blocks[..i + 1][..i] == blocks[..i];
      var block := blocks[i];
      if block.slotDate.None? || block.startTime.None? || block.endTime.None? {
        continue;
      }
      var slotDate := Trim(block.slotDate.value);
      if slotDate == "" {
        continue;
      }
      var startM := TimeToMinutes(block.startTime.value, false);
      var endM := TimeToMinutes(block.endTime.value, true);
      expanded := PushBlockSlots(expanded, slotDate, startM, endM, durationMinutes);
    }
    assert blocks[..|blocks|] == blocks;
    if |expanded| > 0 {
      return Some(expanded);
    }
    return None;
  }
}
