/**
 * The counting loop of `plotTotalMessages` in grapher.py: every message
 * whose day lies strictly between the start and end dates is tallied
 * under its "month/day/year" key in a dictionary that starts as
 * `{"": 0}`. The sort of the dictionary by timestamp and the plot that
 * follow the loop are not part of this model.
 */
module DayCount {
  import opened Wrappers
  import opened Grapher
  import opened Decimal

  /** `"{0}/{1}/{2}".format(month, day, year)`: the key of a day, in unpadded decimal. */
  function DateKey(d: Date): (key: string)
    ensures |key| > 0 && IsDigit(key[0])
  {
    IntToStringSign(d.month);
    IntToString(d.month) + ("/" + (IntToString(d.day) + ("/" + IntToString(d.year))))
  }

  /** `parse(msg_date)` for a key of the form month/day/year; anything else does not read as a day. */
  function ParseKey(key: string): Option<Date> {
    var month := ParseNat(key);
    if month.None? || |month.value.rest| == 0 || month.value.rest[0] != '/' then None
    else ParseDayYear(month.value.value, month.value.rest[1..])
  }

  /** The day and year that follow the month of a key. */
  function ParseDayYear(month: nat, s: string): Option<Date> {
    var day := ParseNat(s);
    if day.None? || |day.value.rest| == 0 || day.value.rest[0] != '/' then None
    else ParseYear(month, day.value.value, day.value.rest[1..])
  }

  /** The year that ends a key. */
  function ParseYear(month: nat, day: nat, s: string): Option<Date> {
    var year := ParseNat(s);
    if year.None? || year.value.rest != [] then None else Some(Date(year.value.value, month, day))
  }

  /**
   * A key is the month, day and year in decimal, joined by '/', and none of
   * the three numbers is zero-padded.
   */
  lemma DateKeyUnpadded(d: Date)
    ensures DateKey(d) == Digits(d.month) + ("/" + (Digits(d.day) + ("/" + Digits(d.year))))
    ensures Digits(d.month)[0] == '0' ==> d.month == 0
    ensures Digits(d.day)[0] == '0' ==> d.day == 0
    ensures Digits(d.year)[0] == '0' ==> d.year == 0
  {
    DigitsUnpadded(d.month);
    DigitsUnpadded(d.day);
    DigitsUnpadded(d.year);
  }

  /** Reading a day's key back gives that day. */
  lemma {:induction false} ParseKeyRoundTrip(d: Date)
    ensures ParseKey(DateKey(d)) == Some(d)
  {
    var key := DateKey(d);
    ReadKey(d, key);
  }

  lemma {:induction false} ReadKey(d: Date, key: string)
    requires key == Digits(d.month) + ("/" + (Digits(d.day) + ("/" + Digits(d.year))))
    ensures ParseKey(key) == Some(d)
  {
    var yearPart := "/" + Digits(d.year);
    var dayPart := "/" + (Digits(d.day) + yearPart);
    SlashDelimits(Digits(d.day) + yearPart);
    SlashDelimits(Digits(d.year));
    ParseNatRoundTrip(d.month, dayPart);
    ParseNatRoundTrip(d.day, yearPart);
    ParseNatRoundTrip(d.year, []);
    assert Digits(d.year) + [] == Digits(d.year);
    assert dayPart[0] == '/' && dayPart[1..] == Digits(d.day) + yearPart;
    assert yearPart[0] == '/' && yearPart[1..] == Digits(d.year);
    assert ParseNat(key) == Some(Parsed(d.month, dayPart));
    assert ParseYear(d.month, d.day, Digits(d.year)) == Some(d);
    assert ParseDayYear(d.month, Digits(d.day) + yearPart) == Some(d);
  }

  lemma SlashDelimits(tail: string)
    ensures Delimited("/" + tail)
  {
    assert ("/" + tail)[0] == '/';
  }

  /** Different days have different keys. */
  lemma {:induction false} DateKeyInjective(d1: Date, d2: Date)
    requires DateKey(d1) == DateKey(d2)
    ensures d1 == d2
  {
    ParseKeyRoundTrip(d1);
    ParseKeyRoundTrip(d2);
  }

  /** `a < b` on the midnights of two days: year, then month, then day. */
  predicate Before(a: Date, b: Date) {
    a.year < b.year || (a.year == b.year && (a.month < b.month || (a.month == b.month && a.day < b.day)))
  }

  /** The comparison of days is a strict total order. */
  lemma BeforeOrder(a: Date, b: Date, c: Date)
    ensures !Before(a, a)
    ensures Before(a, b) && Before(b, c) ==> Before(a, c)
    ensures a == b || Before(a, b) || Before(b, a)
  {
  }

  /** `start_date < parse(msg_date) < end_date`. */
  predicate InRange(start: Date, end: Date, d: Date) {
    Before(start, d) && Before(d, end)
  }

  /** A Python dictionary of counts: its entries, and its keys in insertion order. */
  datatype Record = Record(counts: map<string, nat>, order: seq<string>)

  /** The initial `{"": 0}`. */
  const Blank: Record := Record(map["" := 0], [""])

  /** `record[key] += 1` when `key` is present, `record[key] = 1` (appended last) when not. */
  function Bump(r: Record, key: string): Record {
    if key in r.counts then Record(r.counts[key := r.counts[key] + 1], r.order)
    else Record(r.counts[key := 1], r.order + [key])
  }

  lemma BumpPresent(r: Record, key: string)
    requires key in r.counts
    ensures Bump(r, key) == r.(counts := r.counts[key := r.counts[key] + 1])
  {
  }

  lemma BumpAbsent(r: Record, key: string)
    requires key !in r.counts
    ensures Bump(r, key) == Record(r.counts[key := 1], r.order + [key])
  {
  }

  /** Every message of `msgs` has a timestamp. */
  predicate AllStamped(msgs: seq<Message>) {
    forall k :: 0 <= k < |msgs| ==> msgs[k].timestamp.Some?
  }

  /**
   * The dictionary after the loop has seen `msgs`, or None when some
   * message has no timestamp: `msg.timestamp.month` then raises.
   */
  function Tally(msgs: seq<Message>, start: Date, end: Date): Option<Record> {
    if msgs == [] then Some(Blank)
    else
      var prev := Tally(msgs[..|msgs| - 1], start, end);
      var t := msgs[|msgs| - 1].timestamp;
      if prev.None? || t.None? then None
      else if InRange(start, end, t.value) then Some(Bump(prev.value, DateKey(t.value)))
      else prev
  }

  /** The number of messages stamped with day `d`. */
  function Occurrences(msgs: seq<Message>, d: Date): nat {
    if msgs == [] then 0
    else Occurrences(msgs[..|msgs| - 1], d) + (if msgs[|msgs| - 1].timestamp == Some(d) then 1 else 0)
  }

  /** The number of messages stamped with a day strictly between `start` and `end`. */
  function InRangeCount(msgs: seq<Message>, start: Date, end: Date): nat {
    if msgs == [] then 0
    else
      var t := msgs[|msgs| - 1].timestamp;
      InRangeCount(msgs[..|msgs| - 1], start, end) + (if t.Some? && InRange(start, end, t.value) then 1 else 0)
  }

  /** The sum of the counts of `keys`. */
  function SumOver(counts: map<string, nat>, keys: seq<string>): nat
    requires forall k :: k in keys ==> k in counts
  {
    if keys == [] then 0 else SumOver(counts, keys[..|keys| - 1]) + counts[keys[|keys| - 1]]
  }

  /** The keys are listed once each, in some order, and `""` still counts nothing. */
  predicate Valid(r: Record) {
    && (forall k :: k in r.counts ==> k in r.order)
    && (forall k :: k in r.order ==> k in r.counts)
    && (forall i, j :: 0 <= i < j < |r.order| ==> r.order[i] != r.order[j])
    && "" in r.counts && r.counts[""] == 0
  }

  /** The loop gets through `msgs` exactly when every message has a timestamp. */
  lemma {:induction false} TallySucceeds(msgs: seq<Message>, start: Date, end: Date)
    ensures Tally(msgs, start, end).Some? <==> AllStamped(msgs)
    decreases |msgs|
  {
    if msgs != [] {
      var init := msgs[..|msgs| - 1];
      TallySucceeds(init, start, end);
      assert forall k :: 0 <= k < |init| ==> init[k] == msgs[k];
    }
  }

  /** Bumping a key keeps the dictionary well formed, provided the key is not `""`. */
  lemma BumpValid(r: Record, key: string)
    requires Valid(r) && key != ""
    ensures Valid(Bump(r, key))
  {
    if key !in r.counts {
      var o := r.order + [key];
      assert forall k :: k in o <==> k in r.order || k == key;
    }
  }

  /** The dictionary stays well formed through the loop. */
  lemma {:induction false} TallyValid(msgs: seq<Message>, start: Date, end: Date)
    requires Tally(msgs, start, end).Some?
    ensures Valid(Tally(msgs, start, end).value)
    decreases |msgs|
  {
    if msgs != [] {
      var init := msgs[..|msgs| - 1];
      TallyValid(init, start, end);
      var t := msgs[|msgs| - 1].timestamp;
      if InRange(start, end, t.value) {
        BumpValid(Tally(init, start, end).value, DateKey(t.value));
      }
    }
  }

  /**
   * The count under a day's key is the number of messages of that day,
   * and the key is present exactly when the day is in range and some
   * message falls on it: out-of-range messages are not counted.
   */
  lemma {:induction false} TallyCountsDay(msgs: seq<Message>, start: Date, end: Date, d: Date)
    requires Tally(msgs, start, end).Some?
    ensures var r := Tally(msgs, start, end).value;
      && (DateKey(d) in r.counts <==> InRange(start, end, d) && Occurrences(msgs, d) > 0)
      && (DateKey(d) in r.counts ==> r.counts[DateKey(d)] == Occurrences(msgs, d))
    decreases |msgs|
  {
    if msgs != [] {
      var init := msgs[..|msgs| - 1];
      TallyCountsDay(init, start, end, d);
      var t := msgs[|msgs| - 1].timestamp.value;
      if DateKey(t) == DateKey(d) {
        DateKeyInjective(t, d);
      }
    }
  }

  /** The initial `""` entry is never counted. */
  lemma TallyKeepsBlank(msgs: seq<Message>, start: Date, end: Date)
    requires Tally(msgs, start, end).Some?
    ensures "" in Tally(msgs, start, end).value.counts
    ensures Tally(msgs, start, end).value.counts[""] == 0
  {
    TallyValid(msgs, start, end);
  }

  /** Every other key is the key of an in-range day. */
  lemma {:induction false} TallyKeys(msgs: seq<Message>, start: Date, end: Date, key: string)
    requires Tally(msgs, start, end).Some?
    requires key in Tally(msgs, start, end).value.counts && key != ""
    ensures ParseKey(key).Some? && DateKey(ParseKey(key).value) == key
    ensures InRange(start, end, ParseKey(key).value)
    decreases |msgs|
  {
    var init := msgs[..|msgs| - 1];
    var t := msgs[|msgs| - 1].timestamp.value;
    if key == DateKey(t) && InRange(start, end, t) {
      ParseKeyRoundTrip(t);
    } else {
      TallyKeys(init, start, end, key);
    }
  }

  /** Changing the count of a key not among `keys` leaves their sum alone. */
  lemma {:induction false} SumElsewhere(counts: map<string, nat>, keys: seq<string>, key: string, n: nat)
    requires forall k :: k in keys ==> k in counts
    requires key !in keys
    ensures SumOver(counts[key := n], keys) == SumOver(counts, keys)
    decreases |keys|
  {
    if keys != [] {
      var init := keys[..|keys| - 1];
      assert forall k :: k in init ==> k in keys;
      SumElsewhere(counts, init, key, n);
    }
  }

  /** Adding one to a key listed once in `keys` adds one to their sum. */
  lemma {:induction false} SumIncrement(counts: map<string, nat>, keys: seq<string>, key: string)
    requires forall k :: k in keys ==> k in counts
    requires forall i, j :: 0 <= i < j < |keys| ==> keys[i] != keys[j]
    requires key in keys
    ensures SumOver(counts[key := counts[key] + 1], keys) == SumOver(counts, keys) + 1
    decreases |keys|
  {
    var init := keys[..|keys| - 1];
    assert forall k :: k in init ==> k in keys;
    if keys[|keys| - 1] == key {
      assert key !in init;
      SumElsewhere(counts, init, key, counts[key] + 1);
    } else {
      assert key in init;
      SumIncrement(counts, init, key);
    }
  }

  /** Bumping a key adds one to the sum of the counts. */
  lemma BumpSum(r: Record, key: string)
    requires Valid(r) && key != ""
    ensures Valid(Bump(r, key))
    ensures SumOver(Bump(r, key).counts, Bump(r, key).order) == SumOver(r.counts, r.order) + 1
  {
    BumpValid(r, key);
    if key in r.counts {
      SumIncrement(r.counts, r.order, key);
    } else {
      var o := r.order + [key];
      assert o[..|o| - 1] == r.order;
      SumElsewhere(r.counts, r.order, key, 1);
    }
  }

  /** The counts add up to the number of in-range messages. */
  lemma {:induction false} TallySum(msgs: seq<Message>, start: Date, end: Date)
    requires Tally(msgs, start, end).Some?
    ensures Valid(Tally(msgs, start, end).value)
    ensures SumOver(Tally(msgs, start, end).value.counts, Tally(msgs, start, end).value.order) == InRangeCount(msgs, start, end)
    decreases |msgs|
  {
    if msgs == [] {
      assert SumOver(Blank.counts, Blank.order) == SumOver(Blank.counts, []) + 0;
    } else {
      var init := msgs[..|msgs| - 1];
      TallySum(init, start, end);
      var t := msgs[|msgs| - 1].timestamp.value;
      if InRange(start, end, t) {
        BumpSum(Tally(init, start, end).value, DateKey(t));
      }
    }
  }

  /** One more message with a timestamp bumps its day's key when the day is in range. */
  lemma TallyStep(msgs: seq<Message>, i: nat, start: Date, end: Date)
    requires i < |msgs| && Tally(msgs[..i], start, end).Some? && msgs[i].timestamp.Some?
    ensures var t := msgs[i].timestamp.value;
      var prev := Tally(msgs[..i], start, end).value;
      Tally(msgs[..i + 1], start, end) == if InRange(start, end, t) then Some(Bump(prev, DateKey(t))) else Some(prev)
  {
    assert msgs[..i + 1][..i] == msgs[..i];
  }

  /**
   * The loop of `plotTotalMessages`: the dictionary it builds is `Tally`,
   * whether a message's day is found through the `date == msg_date`
   * shortcut or through the lookup; None when a message has no timestamp.
   */
  method CountPerDay(messages: seq<Message>, start: Date, end: Date) returns (result: Option<Record>)
    ensures result == Tally(messages, start, end)
  {
    var record := Blank;
    var date := "";
    var i := 0;
    while i < |messages|
      invariant 0 <= i <= |messages|
      invariant Tally(messages[..i], start, end) == Some(record)
      invariant date in record.counts
    {
      var timestamp := messages[i].timestamp;
      if timestamp.None? {
        TallySucceeds(messages, start, end);
        return None;
      }
      TallyStep(messages, i, start, end);
      ghost var prev := record;
      var msgDate := DateKey(timestamp.value);
      var day := ParseKey(msgDate);
      ParseKeyRoundTrip(timestamp.value);
      if Before(start, day.value) && Before(day.value, end) {
        if date == msgDate {
          BumpPresent(record, date);
          record := record.(counts := record.counts[date := record.counts[date] + 1]);
        } else {
          date := msgDate;
          if date in record.counts {
            BumpPresent(record, date);
            record := record.(counts := record.counts[date := record.counts[date] + 1]);
          } else {
            BumpAbsent(record, date);
            record := Record(record.counts[date := 1], record.order + [date]);
          }
        }
      }
      i := i + 1;
    }
    assert messages[..i] == messages;
    return Some(record);
  }
}
