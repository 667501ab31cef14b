/** The "last updated" label (web/src/util/general.ts, `formatUpdatedAt`):
    the elapsed milliseconds sorted into now / seconds / minutes / hours /
    days, with a floored count and a singular or plural unit.

    The elapsed time is the integer `diff` the function computes from the
    clock and the parsed date; both of those stay outside the model. */
module RelativeTime {
  import opened Common

  datatype Unit = Second | Minute | Hour | Day

  /** Milliseconds in one unit. */
  function UnitMs(u: Unit): nat {
    match u
    case Second => 1000
    case Minute => 60 * 1000
    case Hour => 60 * 60 * 1000
    case Day => 24 * 60 * 60 * 1000
  }

  /** The next larger unit, whose length is the current unit's upper bound. */
  function Next(u: Unit): Option<Unit> {
    match u
    case Second => Some(Minute)
    case Minute => Some(Hour)
    case Hour => Some(Day)
    case Day => None
  }

  function UnitName(u: Unit): string {
    match u
    case Second => "second"
    case Minute => "minute"
    case Hour => "hour"
    case Day => "day"
  }

  /** The label's meaning: just now, or a count of whole units ago. */
  datatype Age = Now | Ago(count: nat, unit: Unit)

  /** The bucket chosen by the `if` chain, with `Math.floor` of a positive
      quotient. The unit is the largest one not longer than `diff`, and the
      count is how many whole units fit in `diff`. */
  function Bucket(diff: int): (a: Age)
    ensures a.Now? <==> diff < 1000
    ensures a.Ago? ==> UnitMs(a.unit) <= diff
    ensures a.Ago? && Next(a.unit).Some? ==> diff < UnitMs(Next(a.unit).value)
    ensures a.Ago? ==> a.count * UnitMs(a.unit) <= diff < (a.count + 1) * UnitMs(a.unit)
  {
    if diff < 1000 then Now
    else if diff < 60 * 1000 then Ago(diff / 1000, Second)
    else if diff < 60 * 60 * 1000 then Ago(diff / (60 * 1000), Minute)
    else if diff < 24 * 60 * 60 * 1000 then Ago(diff / (60 * 60 * 1000), Hour)
    else Ago(diff / (24 * 60 * 60 * 1000), Day)
  }

  /** The counts the buckets can show: 1-59 seconds, 1-59 minutes, 1-23
      hours, and at least one day. */
  lemma BucketCountRange(diff: int)
    ensures var a := Bucket(diff);
      a.Ago? ==>
        && 1 <= a.count
        && (a.unit == Second ==> a.count <= 59)
        && (a.unit == Minute ==> a.count <= 59)
        && (a.unit == Hour ==> a.count <= 23)
  {
  }

  /** The buckets partition the integers: exactly one range holds each
      `diff`, and the bucket is the one whose range that is. */
  lemma BucketsPartition(diff: int, u: Unit)
    ensures Bucket(diff).Ago? && Bucket(diff).unit == u <==>
      UnitMs(u) <= diff && (Next(u).Some? ==> diff < UnitMs(Next(u).value))
  {
  }

  /** A later time never shows a fresher label: buckets are ordered by
      unit first and count second. */
  predicate AtMost(a: Age, b: Age) {
    match (a, b)
    case (Now, _) => true
    case (Ago(_, _), Now) => false
    case (Ago(n, u), Ago(m, v)) => UnitMs(u) < UnitMs(v) || (u == v && n <= m)
  }

  lemma BucketMonotone(d1: int, d2: int)
    requires d1 <= d2
    ensures AtMost(Bucket(d1), Bucket(d2))
  {
    var a, b := Bucket(d1), Bucket(d2);
    if a.Ago? && b.Ago? && a.unit == b.unit {
      var ms := UnitMs(a.unit);
      assert a.count * ms <= d1 <= d2 < (b.count + 1) * ms;
    }
  }

  /* ---------------------------------------------------------------------
     Text
     --------------------------------------------------------------------- */

  function DigitChar(d: nat): char
    requires d < 10
  {
    ['0', '1', '2', '3', '4', '5', '6', '7', '8', '9'][d]
  }

  /** The decimal text of a count, as a template literal prints a
      non-negative integer. */
  function Decimal(n: nat): (s: string)
    ensures |s| >= 1
    ensures forall i | 0 <= i < |s| :: '0' <= s[i] <= '9'
    ensures |s| > 1 ==> s[0] != '0'
  {
    if n < 10 then [DigitChar(n)] else Decimal(n / 10) + [DigitChar(n % 10)]
  }

  /** The label: "now", or the count, the unit, an `s` unless the count is
      exactly one, and " ago". */
  function Format(diff: int): (s: string)
    ensures s == "now" <==> diff < 1000
  {
    match Bucket(diff)
    case Now => "now"
    case Ago(n, u) => Decimal(n) + Suffix(u, n != 1)
  }

  /** The text after the count: the unit word, plural or not, and " ago". */
  function Suffix(u: Unit, plural: bool): string {
    " " + UnitName(u) + (if plural then "s" else "") + " ago"
  }

  /** The unit word read back from the text after the count, with whether
      it was plural. */
  function ReadUnit(suffix: string): Option<(Unit, bool)> {
    if suffix == " second ago" then Some((Second, false))
    else if suffix == " seconds ago" then Some((Second, true))
    else if suffix == " minute ago" then Some((Minute, false))
    else if suffix == " minutes ago" then Some((Minute, true))
    else if suffix == " hour ago" then Some((Hour, false))
    else if suffix == " hours ago" then Some((Hour, true))
    else if suffix == " day ago" then Some((Day, false))
    else if suffix == " days ago" then Some((Day, true))
    else None
  }

  /** The length of the run of decimal digits at the start of `s`. */
  function DigitRun(s: string): (k: nat)
    ensures k <= |s|
    ensures forall i | 0 <= i < k :: '0' <= s[i] <= '9'
    ensures k < |s| ==> !('0' <= s[k] <= '9')
  {
    if |s| > 0 && '0' <= s[0] <= '9' then 1 + DigitRun(s[1..]) else 0
  }

  /** The value of a string of decimal digits. */
  function DecimalValue(s: string): nat
    requires forall i | 0 <= i < |s| :: '0' <= s[i] <= '9'
  {
    if |s| == 0 then 0 else DecimalValue(s[..|s| - 1]) * 10 + (s[|s| - 1] as int - '0' as int)
  }

  /** A reader for labels: the age a label states, or None for text that is
      not a label (a count with the wrong grammatical number included). */
  function ReadAge(s: string): Option<Age> {
    if s == "now" then Some(Now)
    else
      var k := DigitRun(s);
      if k == 0 then None
      else
        match ReadUnit(s[k..])
        case None => None
        case Some((u, plural)) =>
          var n := DecimalValue(s[..k]);
          if plural == (n != 1) then Some(Ago(n, u)) else None
  }

  lemma DigitCharValue(d: nat)
    requires d < 10
    ensures DigitChar(d) as int - '0' as int == d
  {
  }

  lemma {:induction false} DecimalValueOf(n: nat)
    ensures DecimalValue(Decimal(n)) == n
  {
    if n < 10 {
      DigitCharValue(n);
    } else {
      DecimalValueOf(n / 10);
      var s := Decimal(n);
      var init := Decimal(n / 10);
      assert s == init + [DigitChar(n % 10)];
      assert s[..|s| - 1] == init;
      assert s[|s| - 1] == DigitChar(n % 10);
      DigitCharValue(n % 10);
      assert DecimalValue(s) == DecimalValue(init) * 10 + n % 10;
    }
  }

  lemma {:induction false} DigitRunOf(digits: string, rest: string)
    requires forall i | 0 <= i < |digits| :: '0' <= digits[i] <= '9'
    requires |rest| > 0 && !('0' <= rest[0] <= '9')
    ensures DigitRun(digits + rest) == |digits|
    decreases |digits|
  {
    if |digits| == 0 {
      assert digits + rest == rest;
    } else {
      assert (digits + rest)[1..] == digits[1..] + rest;
      DigitRunOf(digits[1..], rest);
    }
  }

  lemma ReadSuffix(u: Unit, plural: bool)
    ensures ReadUnit(Suffix(u, plural)) == Some((u, plural))
  {
    if plural {
      ReadPluralSuffix(u);
    } else {
      ReadSingularSuffix(u);
    }
  }

  lemma ReadSingularSuffix(u: Unit)
    ensures ReadUnit(Suffix(u, false)) == Some((u, false))
  {
    var s := Suffix(u, false);
    assert s == " " + UnitName(u) + " ago";
    match u
    case Second =>
    case Minute =>
      assert s[1] == 'm';
    case Hour =>
      assert s[1] == 'h';
    case Day =>
      assert s[1] == 'd';
  }

  lemma ReadPluralSuffix(u: Unit)
    ensures ReadUnit(Suffix(u, true)) == Some((u, true))
  {
    var s := Suffix(u, true);
    assert s == " " + UnitName(u) + "s ago";
    match u
    case Second =>
    case Minute =>
      assert s[1] == 'm';
    case Hour =>
      assert s[1] == 'h';
    case Day =>
      assert s[1] == 'd';
  }

  /** A count followed by a unit suffix reads back as that count. */
  lemma ReadAgeOf(n: nat, suffix: string)
    requires ReadUnit(suffix).Some? && ReadUnit(suffix).value.1 == (n != 1)
    ensures ReadAge(Decimal(n) + suffix) == Some(Ago(n, ReadUnit(suffix).value.0))
  {
    var digits := Decimal(n);
    var s := digits + suffix;
    assert s[0] == digits[0];
    assert s != "now";
    assert suffix[0] == ' ';
    DigitRunOf(digits, suffix);
    assert s[|digits|..] == suffix;
    assert s[..|digits|] == digits;
    DecimalValueOf(n);
  }

  /** Reading a label back gives exactly the bucket it was printed from:
      the count, the unit and the plural agree with `Bucket`. */
  lemma ReadFormat(diff: int)
    ensures ReadAge(Format(diff)) == Some(Bucket(diff))
  {
    match Bucket(diff)
    case Now =>
    case Ago(n, u) =>
      ReadSuffix(u, n != 1);
      ReadAgeOf(n, Suffix(u, n != 1));
  }

  /** The unit word is singular exactly when the count is one. */
  lemma SingularExactlyForOne(diff: int)
    requires diff >= 1000
    ensures var a := Bucket(diff);
      Format(diff) == Decimal(a.count) + " " + UnitName(a.unit) + " ago" <==> a.count == 1
  {
    var a := Bucket(diff);
    if a.count != 1 {
      assert |Suffix(a.unit, true)| != |Suffix(a.unit, false)|;
    }
  }
}
