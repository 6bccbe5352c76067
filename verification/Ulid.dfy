/**
 Event ids and journal keys: ULIDs whose time part sorts, a random part that counts up within one
 millisecond, and object keys under year and month folders. Strings compare byte by byte.
 */
module Ulid {
  import opened Wrappers

  const ALPHABET := "0123456789ABCDEFGHJKMNPQRSTVWXYZ"

  // ---------------------------------------------------------------- order of strings

  predicate Before(a: string, b: string) {
    b != "" && (a == "" || a[0] < b[0] || (a[0] == b[0] && Before(a[1..], b[1..])))
  }

  lemma {:induction false} BeforeExtends(a: string, b: string, x: string, y: string)
    requires |a| == |b| && Before(a, b)
    ensures Before(a + x, b + y)
  {
    if a[0] == b[0] {
      BeforeExtends(a[1..], b[1..], x, y);
      assert (a + x)[1..] == a[1..] + x && (b + y)[1..] == b[1..] + y;
    }
  }

  lemma {:induction false} BeforeAfterPrefix(p: string, x: string, y: string)
    ensures Before(p + x, p + y) <==> Before(x, y)
  {
    if p == "" {
      assert p + x == x && p + y == y;
    } else {
      BeforeAfterPrefix(p[1..], x, y);
      assert (p + x)[1..] == p[1..] + x && (p + y)[1..] == p[1..] + y;
    }
  }

  lemma {:induction false} NotBeforeItself(a: string)
    ensures !Before(a, a)
  {
    if a != "" {
      NotBeforeItself(a[1..]);
    }
  }

  lemma {:induction false} BeforeIsTransitive(a: string, b: string, c: string)
    requires Before(a, b) && Before(b, c)
    ensures Before(a, c)
  {
    if a != "" && a[0] == b[0] && b[0] == c[0] {
      BeforeIsTransitive(a[1..], b[1..], c[1..]);
    }
  }

  // ---------------------------------------------------------------- base 32 in a fixed width

  function Symbol(d: nat): char
    requires d < 32
  {
    ALPHABET[d]
  }

  lemma SymbolsSort(a: nat, b: nat)
    requires a < b < 32
    ensures Symbol(a) < Symbol(b)
  {
  }

  /** The digits are the ten figures and then the capitals in order, without I, L, O and U. */
  lemma SymbolIs(d: nat)
    requires d < 32
    ensures Symbol(d) as int == if d < 10 then '0' as int + d
                                else if d < 18 then 'A' as int + (d - 10)
                                else if d < 20 then 'J' as int + (d - 18)
                                else if d < 22 then 'M' as int + (d - 20)
                                else if d < 27 then 'P' as int + (d - 22)
                                else 'V' as int + (d - 27)
  {
  }

  /** How many numbers n digits can tell apart. */
  function Range(n: nat): nat {
    if n == 0 then 1 else 32 * Range(n - 1)
  }

  /** The last n digits of v. */
  function Digits(v: nat, n: nat): (s: string)
    ensures |s| == n
    decreases n, v
  {
    if n == 0 then "" else Digits(v / 32, n - 1) + [Symbol(v % 32)]
  }

  /** In one width the strings sort as the numbers do. */
  lemma {:induction false} DigitsSort(v: nat, w: nat, n: nat)
    requires v < w < Range(n)
    ensures Before(Digits(v, n), Digits(w, n))
    decreases n
  {
    var x, y := Digits(v / 32, n - 1), Digits(w / 32, n - 1);
    if v / 32 < w / 32 {
      DigitsSort(v / 32, w / 32, n - 1);
      BeforeExtends(x, y, [Symbol(v % 32)], [Symbol(w % 32)]);
    } else {
      SymbolsSort(v % 32, w % 32);
      BeforeAfterPrefix(x, [Symbol(v % 32)], [Symbol(w % 32)]);
    }
  }

  /** Both encoders of the source: the digits fill an array from its end. */
  method Encode(value: nat, n: nat) returns (s: string)
    ensures s == Digits(value, n)
  {
    var out := new char[n];
    var v := value;
    var i: nat := n;
    while i > 0
      invariant i <= n && Digits(value, n) == Digits(v, i) + out[i..]
    {
      ghost var rest := out[i..];
      var c := Symbol(v % 32);
      DigitsStep(v, i, rest);
      i := i - 1;
      out[i] := c;
      assert out[i..] == [c] + rest;
      v := v / 32;
    }
    s := out[..];
    assert out[0..] == s;
  }

  lemma DigitsStep(v: nat, i: nat, rest: string)
    requires i > 0
    ensures Digits(v, i) + rest == Digits(v / 32, i - 1) + ([Symbol(v % 32)] + rest)
  {
  }

  function IndexIn(c: char, alphabet: string): Option<nat> {
    if alphabet == "" then None
    else if alphabet[0] == c then Some(0)
    else
      match IndexIn(c, alphabet[1..])
      case None => None
      case Some(i) => Some(i + 1)
  }

  /** The place of a character in the alphabet. */
  function IndexOf(c: char): Option<nat> {
    IndexIn(c, ALPHABET)
  }

  lemma {:induction false} IndexFinds(alphabet: string, i: nat)
    requires i < |alphabet| && forall j, k :: 0 <= j < k < |alphabet| ==> alphabet[j] < alphabet[k]
    ensures IndexIn(alphabet[i], alphabet) == Some(i)
  {
    if i > 0 {
      assert alphabet[0] < alphabet[i];
      IndexFinds(alphabet[1..], i - 1);
    }
  }

  lemma SymbolIsFound(d: nat)
    requires d < 32
    ensures IndexOf(Symbol(d)) == Some(d)
  {
    IndexFinds(ALPHABET, d);
  }

  /** The number that digits stand for; None if a character is no digit. */
  function Value(s: string): Option<nat> {
    if s == "" then Some(0)
    else
      match (Value(s[..|s| - 1]), IndexOf(s[|s| - 1]))
      case (Some(high), Some(low)) => Some(high * 32 + low)
      case _ => None
  }

  lemma {:induction false} ValueOfDigits(v: nat, n: nat)
    requires v < Range(n)
    ensures Value(Digits(v, n)) == Some(v)
  {
    if n > 0 {
      ValueOfDigits(v / 32, n - 1);
      SymbolIsFound(v % 32);
      assert Digits(v, n)[..n - 1] == Digits(v / 32, n - 1);
    }
  }

  lemma {:induction false} BadDigit(s: string, i: nat)
    requires i < |s| && IndexOf(s[i]) == None
    ensures Value(s) == None
  {
    if i < |s| - 1 {
      BadDigit(s[..|s| - 1], i);
    }
  }

  /** Two numbers side by side sort by the first, then by the second. */
  lemma PairsSort(v: nat, w: nat, n: nat, r: nat, q: nat, m: nat)
    requires v < Range(n) && w < Range(n) && r < Range(m) && q < Range(m) && Earlier(v, r, w, q)
    ensures Before(Digits(v, n) + Digits(r, m), Digits(w, n) + Digits(q, m))
  {
    if v < w {
      DigitsSort(v, w, n);
      BeforeExtends(Digits(v, n), Digits(w, n), Digits(r, m), Digits(q, m));
    } else {
      DigitsSort(r, q, m);
      BeforeAfterPrefix(Digits(v, n), Digits(r, m), Digits(q, m));
    }
  }

  // ---------------------------------------------------------------- the time part

  const TIME_RANGE := 0x4_0000_0000_0000   // 2^50
  const RANDOM_RANGE := 0x1_0000_0000_0000_0000_0000   // 2^80

  function Wrapped(ms: int): nat {
    ms % TIME_RANGE
  }

  /** Ten digits hold the low 50 bits, also of a negative time. */
  function TimePart(ms: int): string {
    Digits(Wrapped(ms), 10)
  }

  function Id(ms: int, random: nat): string {
    TimePart(ms) + Digits(random, 16)
  }

  lemma Powers()
    ensures Range(10) == TIME_RANGE && Range(16) == RANDOM_RANGE
  {
    assert Range(2) == 1024;
    assert Range(4) == 1024 * 1024 by { assert Range(3) == 32 * 1024; }
    assert Range(6) == 1024 * 1024 * 1024 by { assert Range(5) == 32 * 1024 * 1024; }
    assert Range(8) == 0x100_0000_0000 by { assert Range(7) == 32 * 1024 * 1024 * 1024; }
    assert Range(10) == TIME_RANGE by { assert Range(9) == 32 * 0x100_0000_0000; }
    assert Range(12) == 1024 * TIME_RANGE by { assert Range(11) == 32 * TIME_RANGE; }
    assert Range(14) == 1024 * 1024 * TIME_RANGE by { assert Range(13) == 32 * 1024 * TIME_RANGE; }
    assert Range(16) == RANDOM_RANGE by { assert Range(15) == 32 * 1024 * 1024 * TIME_RANGE; }
  }

  datatype Error = WrongLength | InvalidCharacter

  method UlidTime(id: string) returns (result: Result<nat, Error>)
    ensures |id| != 26 <==> result == Failure(WrongLength)
    ensures |id| == 26 ==>
              result == if Value(id[..10]).Some? then Success(Value(id[..10]).value) else Failure(InvalidCharacter)
  {
    if |id| != 26 {
      return Failure(WrongLength);
    }
    var ms: nat := 0;
    for i := 0 to 10
      invariant Value(id[..i]) == Some(ms)
    {
      assert id[..i + 1][..i] == id[..i];
      var index := IndexOf(id[i]);
      if index.None? {
        BadDigit(id[..10], i);
        return Failure(InvalidCharacter);
      }
      ms := ms * 32 + index.value;
    }
    return Success(ms);
  }

  /** Times of the next 35 thousand years fit. */
  lemma FitsUnwrapped(ms: nat, random: nat)
    requires ms < TIME_RANGE
    ensures Id(ms, random) == Digits(ms, 10) + Digits(random, 16)
  {
    SmallIsItsRest(ms, TIME_RANGE);
    assert TimePart(ms) == Digits(ms, 10);
  }

  lemma SmallIsItsRest(n: nat, m: nat)
    requires n < m
    ensures n % m == n
  {
  }

  /** Reading the time of an id gives the millisecond it was made for. */
  lemma TimeRoundTrips(ms: nat, random: nat)
    requires ms < TIME_RANGE
    ensures |Id(ms, random)| == 26 && Value(Id(ms, random)[..10]) == Some(ms)
  {
    Powers();
    FitsUnwrapped(ms, random);
    ValueOfDigits(ms, 10);
    assert Id(ms, random)[..10] == Digits(ms, 10);
  }

  // ---------------------------------------------------------------- the order of ids

  ghost predicate Earlier(ms: nat, random: nat, ms2: nat, random2: nat) {
    ms < ms2 || (ms == ms2 && random < random2)
  }

  /** Ids sort as their times, and within a millisecond as their random parts. */
  lemma IdsSort(ms: nat, random: nat, ms2: nat, random2: nat)
    requires ms < TIME_RANGE && ms2 < TIME_RANGE && random < RANDOM_RANGE && random2 < RANDOM_RANGE
    ensures Before(Id(ms, random), Id(ms2, random2)) <==> Earlier(ms, random, ms2, random2)
  {
    if Earlier(ms, random, ms2, random2) {
      EarlierSorts(ms, random, ms2, random2);
    } else if Before(Id(ms, random), Id(ms2, random2)) {
      if Earlier(ms2, random2, ms, random) {
        EarlierSorts(ms2, random2, ms, random);
        BeforeIsTransitive(Id(ms, random), Id(ms2, random2), Id(ms, random));
      }
      NotBeforeItself(Id(ms, random));
      assert false;
    }
  }

  lemma EarlierSorts(ms: nat, random: nat, ms2: nat, random2: nat)
    requires ms < TIME_RANGE && ms2 < TIME_RANGE && random < RANDOM_RANGE && random2 < RANDOM_RANGE
    requires Earlier(ms, random, ms2, random2)
    ensures Before(Id(ms, random), Id(ms2, random2))
  {
    Powers();
    FitsUnwrapped(ms, random);
    FitsUnwrapped(ms2, random2);
    PairsSort(ms, ms2, 10, random, random2, 16);
  }

  // ---------------------------------------------------------------- the generator

  /** Time and random part of the last id. */
  datatype Last = Last(ms: int, random: nat)

  function Next(last: Last, ms: int, random: nat): Last {
    if ms == last.ms && last.random != 0 then
      if last.random + 1 >= RANDOM_RANGE then Last(ms + 1, random) else Last(ms, last.random + 1)
    else Last(ms, random)
  }

  function LastId(last: Last): string {
    Id(last.ms, last.random)
  }

  /** An id is after the one before it exactly in these cases. */
  lemma NextIsLaterIff(last: Last, ms: nat, random: nat)
    requires 0 <= last.ms < TIME_RANGE && last.random < RANDOM_RANGE
    requires ms + 1 < TIME_RANGE && random < RANDOM_RANGE
    ensures Before(LastId(last), LastId(Next(last, ms, random))) <==>
              ms > last.ms || (ms == last.ms && (last.random > 0 || random > 0))
  {
    var next := Next(last, ms, random);
    IdsSort(last.ms, last.random, next.ms, next.random);
  }

  /** One call of a run: the clock, and the random number drawn if one is needed. */
  datatype Call = Call(ms: nat, random: nat)

  function After(last: Last, calls: seq<Call>): Last {
    if calls == [] then last
    else
      var before := After(last, calls[..|calls| - 1]);
      Next(before, calls[|calls| - 1].ms, calls[|calls| - 1].random)
  }

  /** The clock does not go back, random numbers are in range, and no call hits the carry past 80 bits. */
  ghost predicate Ordinary(last: Last, calls: seq<Call>) {
    calls == [] ||
    (var before, call := calls[..|calls| - 1], calls[|calls| - 1];
     && Ordinary(last, before)
     && After(last, before).ms <= call.ms && call.ms + 1 < TIME_RANGE && 0 < call.random < RANDOM_RANGE
     && (call.ms == After(last, before).ms ==> After(last, before).random + 1 < RANDOM_RANGE))
  }

  /** In an ordinary run every id is after every earlier one. */
  lemma {:induction false} IdsIncrease(last: Last, calls: seq<Call>, i: nat)
    requires 0 <= last.ms < TIME_RANGE && last.random < RANDOM_RANGE && Ordinary(last, calls) && i < |calls|
    ensures Before(LastId(After(last, calls[..i])), LastId(After(last, calls)))
    decreases |calls|
  {
    var before, call := calls[..|calls| - 1], calls[|calls| - 1];
    StaysInRange(last, before);
    NextIsLaterIff(After(last, before), call.ms, call.random);
    if i < |before| {
      assert calls[..i] == before[..i];
      IdsIncrease(last, before, i);
      BeforeIsTransitive(LastId(After(last, calls[..i])), LastId(After(last, before)), LastId(After(last, calls)));
    } else {
      assert calls[..i] == before;
    }
  }

  lemma {:induction false} StaysInRange(last: Last, calls: seq<Call>)
    requires 0 <= last.ms < TIME_RANGE && last.random < RANDOM_RANGE && Ordinary(last, calls)
    ensures 0 <= After(last, calls).ms < TIME_RANGE && After(last, calls).random < RANDOM_RANGE
  {
    if calls != [] {
      StaysInRange(last, calls[..|calls| - 1]);
    }
  }

  class Generator {
    var lastMs: int
    var lastRandom: nat

    constructor ()
      ensures State() == Last(0, 0)
    {
      lastMs, lastRandom := 0, 0;
    }

    function State(): Last
      reads this
    {
      Last(lastMs, lastRandom)
    }

    /** `random` is what the random source gives if it is asked. */
    method NewULID(ms: int, random: nat) returns (id: string)
      requires random < RANDOM_RANGE
      modifies this
      ensures State() == Next(old(State()), ms, random) && id == LastId(State()) && |id| == 26
      ensures ms != old(lastMs) || old(lastRandom) == 0 ==> lastMs == ms && lastRandom == random
      ensures ms == old(lastMs) && 0 < old(lastRandom) < RANDOM_RANGE - 1 ==>
                lastMs == ms && lastRandom == old(lastRandom) + 1
      ensures ms == old(lastMs) && old(lastRandom) >= RANDOM_RANGE - 1 ==> lastMs == ms + 1 && lastRandom == random
    {
      var at := ms;
      var r: nat;
      if ms == lastMs && lastRandom != 0 {
        r := lastRandom + 1;
        if r >= RANDOM_RANGE {
          at := at + 1;
          r := random;
        }
      } else {
        r := random;
      }
      lastMs, lastRandom := at, r;
      var time := Encode(Wrapped(at), 10);
      var rest := Encode(r, 16);
      id := time + rest;
    }
  }

  // ---------------------------------------------------------------- the calendar

  const MS_PER_DAY := 86_400_000

  predicate IsLeap(year: nat) {
    year % 4 == 0 && (year % 100 != 0 || year % 400 == 0)
  }

  function DaysInYear(year: nat): nat {
    if IsLeap(year) then 366 else 365
  }

  function DaysInMonth(year: nat, month: nat): nat {
    match month
    case 2 => if IsLeap(year) then 29 else 28
    case 4 => 30
    case 6 => 30
    case 9 => 30
    case 11 => 30
    case _ => 31
  }

  datatype Month = Month(year: nat, month: nat)

  /** The month `day` days after the first of January of `year`. */
  function MonthFrom(year: nat, day: nat): Month
    decreases day
  {
    if day >= DaysInYear(year) then MonthFrom(year + 1, day - DaysInYear(year)) else Month(year, MonthIn(year, 1, day))
  }

  function MonthIn(year: nat, month: nat, day: nat): nat
    decreases 12 - month
  {
    if month >= 12 || day < DaysInMonth(year, month) then month
       else MonthIn(year, month + 1, day - DaysInMonth(year, month))
  }

  /** The UTC month of a time since 1970. */
  function MonthOf(ms: nat): Month {
    MonthFrom(1970, ms / MS_PER_DAY)
  }

  ghost predicate NotAfter(a: Month, b: Month) {
    a.year < b.year || (a.year == b.year && a.month <= b.month)
  }

  lemma {:induction false} MonthInGrows(year: nat, month: nat, day: nat, later: nat)
    requires day <= later && month <= 12
    ensures month <= MonthIn(year, month, day) <= MonthIn(year, month, later) <= 12
    decreases 12 - month
  {
    if month < 12 && later >= DaysInMonth(year, month) {
      if day >= DaysInMonth(year, month) {
        MonthInGrows(year, month + 1, day - DaysInMonth(year, month), later - DaysInMonth(year, month));
      } else {
        MonthInGrows(year, month + 1, 0, later - DaysInMonth(year, month));
      }
    }
  }

  lemma {:induction false} YearNotBefore(year: nat, day: nat)
    ensures MonthFrom(year, day).year >= year
    decreases day
  {
    if day >= DaysInYear(year) {
      YearNotBefore(year + 1, day - DaysInYear(year));
    }
  }

  /** A year has at least 365 days. */
  lemma {:induction false} YearNotAfter(year: nat, day: nat)
    ensures MonthFrom(year, day).year <= year + day / 365
    decreases day
  {
    if day >= DaysInYear(year) {
      YearNotAfter(year + 1, day - DaysInYear(year));
    }
  }

  /** The times of 50 bits end before the year 100000. */
  lemma YearsHaveFiveFigures(ms: nat)
    requires ms < TIME_RANGE
    ensures 1970 <= MonthOf(ms).year <= 99999
  {
    YearNotBefore(1970, ms / MS_PER_DAY);
    YearNotAfter(1970, ms / MS_PER_DAY);
  }

  /** How many days lie between the first of January of two years. */
  function DaysUntil(year: nat, later: nat): nat
    decreases later - year
  {
    if later <= year then 0 else DaysInYear(year) + DaysUntil(year + 1, later)
  }

  lemma {:induction false} DaysUntilIs(year: nat, later: nat)
    requires year <= later
    ensures MonthFrom(year, DaysUntil(year, later)) == Month(later, 1)
    ensures 365 * (later - year) <= DaysUntil(year, later) <= 366 * (later - year)
    decreases later - year
  {
    if year < later {
      DaysUntilIs(year + 1, later);
    }
  }

  lemma {:induction false} DaysUntilGrows(year: nat, later: nat, last: nat)
    requires year <= later < last
    ensures DaysUntil(year, later) < DaysUntil(year, last)
    decreases later - year
  {
    if year < later {
      DaysUntilGrows(year + 1, later, last);
    }
  }

  /** The first millisecond of a year. */
  function NewYear(year: nat): nat {
    DaysUntil(1970, year) * MS_PER_DAY
  }

  lemma {:induction false} MonthFromGrows(year: nat, day: nat, later: nat)
    requires day <= later
    ensures NotAfter(MonthFrom(year, day), MonthFrom(year, later))
    ensures MonthFrom(year, day).month <= 12
    decreases day
  {
    if day >= DaysInYear(year) {
      MonthFromGrows(year + 1, day - DaysInYear(year), later - DaysInYear(year));
    } else {
      MonthInGrows(year, 1, day, day);
      if later >= DaysInYear(year) {
        YearNotBefore(year + 1, later - DaysInYear(year));
      } else {
        MonthInGrows(year, 1, day, later);
      }
    }
  }

  // ---------------------------------------------------------------- the calendar in closed form

  /** How many leap years there are up to this one, by the Gregorian rule. */
  function Leaps(year: nat): int {
    year / 4 - year / 100 + year / 400
  }

  /**
   The day a month starts on, counted from the first of January 1970; month 13 starts the next year. With
   30 days in February every month would start on day (367 m - 362) / 12 of its year.
   */
  function FirstDay(year: nat, month: nat): int
    requires year > 0
  {
    var short := 2 - (Leaps(year) - Leaps(year - 1));
    365 * (year - 1970) + Leaps(year - 1) - 477 + (367 * month - 362) / 12 - if month <= 2 then 0 else short
  }

  lemma FourthsGrow(n: nat)
    requires n > 0
    ensures n / 4 - (n - 1) / 4 == if n % 4 == 0 then 1 else 0
  {
  }

  lemma CenturiesGrow(n: nat)
    requires n > 0
    ensures n / 100 - (n - 1) / 100 == if n % 100 == 0 then 1 else 0
    ensures n / 400 - (n - 1) / 400 == if n % 400 == 0 then 1 else 0
  {
  }

  lemma CenturiesAreFourths(n: nat)
    ensures n % 400 == 0 ==> n % 100 == 0
    ensures n % 100 == 0 ==> n % 4 == 0
  {
    if n % 400 == 0 {
      assert n == 100 * (4 * (n / 400));
    }
    if n % 100 == 0 {
      assert n == 4 * (25 * (n / 100));
    }
  }

  /** A leap year is one in which the count of leap years grows. */
  lemma LeapsGrow(year: nat)
    requires year > 0
    ensures DaysInYear(year) == 365 + Leaps(year) - Leaps(year - 1)
  {
    FourthsGrow(year);
    CenturiesGrow(year);
    CenturiesAreFourths(year);
    var now, before := Leaps(year), Leaps(year - 1);
    assert now - before
        == (if year % 4 == 0 then 1 else 0) - (if year % 100 == 0 then 1 else 0) + (if year % 400 == 0 then 1 else 0);
  }

  lemma {:induction false} YearStarts(year: nat)
    requires year >= 1970
    ensures DaysUntil(1970, year) == FirstDay(year, 1)
    ensures FirstDay(year, 13) == FirstDay(year, 1) + DaysInYear(year)
    ensures FirstDay(year, 13) == FirstDay(year + 1, 1)
  {
    LeapsGrow(year);
    if year > 1970 {
      YearStarts(year - 1);
      DaysUntilNext(1970, year - 1);
    }
  }

  lemma {:induction false} DaysUntilNext(year: nat, later: nat)
    requires year <= later
    ensures DaysUntil(year, later + 1) == DaysUntil(year, later) + DaysInYear(later)
    decreases later - year
  {
    if year < later {
      DaysUntilNext(year + 1, later);
    }
  }

  /** With 30 days in February. */
  lemma MonthQuotients(m: nat)
    requires 1 <= m <= 12
    ensures (367 * (m + 1) - 362) / 12 - (367 * m - 362) / 12
         == if m == 2 || m == 4 || m == 6 || m == 9 || m == 11 then 30 else 31
  {
  }

  lemma MonthLength(year: nat, month: nat)
    requires year > 0 && 1 <= month <= 12
    ensures FirstDay(year, month + 1) - FirstDay(year, month) == DaysInMonth(year, month)
  {
    LeapsGrow(year);
    MonthQuotients(month);
  }

  /** The month in a year, counted from a month that starts `start` days into it. */
  lemma {:induction false} MonthInIs(year: nat, from: nat, day: nat)
    requires year > 0 && 1 <= from <= 12 && day < FirstDay(year, 13) - FirstDay(year, from)
    ensures var m := MonthIn(year, from, day);
            from <= m <= 12 && FirstDay(year, m) <= FirstDay(year, from) + day < FirstDay(year, m + 1)
    decreases 12 - from
  {
    MonthLength(year, from);
    if from < 12 && day >= DaysInMonth(year, from) {
      MonthInIs(year, from + 1, day - DaysInMonth(year, from));
    }
  }

  lemma {:induction false} MonthFromIs(year: nat, day: nat)
    requires year >= 1970
    ensures var at := MonthFrom(year, day);
            && at.year >= year && 1 <= at.month <= 12
            && FirstDay(at.year, at.month) <= FirstDay(year, 1) + day < FirstDay(at.year, at.month + 1)
    decreases day
  {
    YearStarts(year);
    if day >= DaysInYear(year) {
      MonthFromIs(year + 1, day - DaysInYear(year));
    } else {
      MonthInIs(year, 1, day);
    }
  }

  lemma {:induction false} MonthsAscend(year: nat, m: nat, n: nat)
    requires year > 0 && 1 <= m <= n <= 13
    ensures FirstDay(year, m) <= FirstDay(year, n) && (m < n ==> FirstDay(year, m) < FirstDay(year, n))
    decreases n - m
  {
    if m < n {
      MonthLength(year, n - 1);
      MonthsAscend(year, m, n - 1);
    }
  }

  lemma {:induction false} MonthFromAt(year: nat, later: nat, day: nat)
    requires year <= later && day < DaysInYear(later)
    ensures MonthFrom(year, DaysUntil(year, later) + day) == Month(later, MonthIn(later, 1, day))
    decreases later - year
  {
    if year < later {
      MonthFromAt(year + 1, later, day);
    }
  }

  /** A day is of the month in which, by the closed form, it lies. */
  lemma DayHasMonth(year: nat, month: nat, day: nat)
    requires year >= 1970 && 1 <= month <= 12 && FirstDay(year, month) <= day < FirstDay(year, month + 1)
    ensures MonthFrom(1970, day) == Month(year, month)
  {
    YearStarts(year);
    MonthsAscend(year, 1, month);
    MonthsAscend(year, month + 1, 13);
    var rest := day - FirstDay(year, 1);
    MonthFromAt(1970, year, rest);
    MonthInIs(year, 1, rest);
    var m := MonthIn(year, 1, rest);
    if m < month {
      MonthsAscend(year, m + 1, month);
    } else if m > month {
      MonthsAscend(year, month + 1, m);
    }
  }

  lemma EpochIsDayZero()
    ensures FirstDay(1970, 1) == 0
  {
  }

  lemma MonthFromIsIff(day: nat, year: nat, month: nat)
    requires year >= 1970 && 1 <= month <= 12
    ensures MonthFrom(1970, day) == Month(year, month) <==> FirstDay(year, month) <= day < FirstDay(year, month + 1)
  {
    EpochIsDayZero();
    if MonthFrom(1970, day) == Month(year, month) {
      MonthFromIs(1970, day);
    }
    if FirstDay(year, month) <= day < FirstDay(year, month + 1) {
      DayHasMonth(year, month, day);
    }
  }

  lemma DayOfTime(ms: nat, lo: int, hi: int)
    ensures lo <= ms / MS_PER_DAY < hi <==> lo * MS_PER_DAY <= ms < hi * MS_PER_DAY
  {
  }

  /** The month of a time is the one whose days, in closed form, its day is one of. */
  lemma MonthOfIs(ms: nat, year: nat, month: nat)
    requires year >= 1970 && 1 <= month <= 12
    ensures MonthOf(ms) == Month(year, month) <==>
              FirstDay(year, month) * MS_PER_DAY <= ms < FirstDay(year, month + 1) * MS_PER_DAY
  {
    MonthFromIsIff(ms / MS_PER_DAY, year, month);
    DayOfTime(ms, FirstDay(year, month), FirstDay(year, month + 1));
  }

  // ---------------------------------------------------------------- journal keys

  function Figure(d: nat): char
    requires d < 10
  {
    '0' + d as char
  }

  /** A decimal number without leading zeros. */
  function Decimal(v: nat): string {
    if v < 10 then [Figure(v)] else Decimal(v / 10) + [Figure(v % 10)]
  }

  /** Padded with zeros to at least four digits. */
  function Year4(year: nat): string {
    if year >= 1000 then Decimal(year) else [Figure(0), Figure(year / 100), Figure(year / 10 % 10), Figure(year % 10)]
  }

  /** Padded with a zero to at least two digits. */
  function Month2(month: nat): string {
    if month >= 10 then Decimal(month) else [Figure(0), Figure(month)]
  }

  function Folder(at: Month): string {
    Year4(at.year) + "/" + Month2(at.month) + "/"
  }

  function KeyOf(prefix: string, tenant: string, id: string, ms: nat): string {
    prefix + "journal/" + tenant + "/" + Folder(MonthOf(ms)) + id + ".json"
  }

  lemma FourFigures(year: nat)
    requires 1000 <= year <= 9999
    ensures Year4(year) == [Figure(year / 1000), Figure(year / 100 % 10), Figure(year / 10 % 10), Figure(year % 10)]
  {
    assert Decimal(year / 1000) == [Figure(year / 1000)];
    assert Decimal(year / 100) == Decimal(year / 1000) + [Figure(year / 100 % 10)]
             by { assert year / 100 / 10 == year / 1000; }
    assert Decimal(year / 10) == Decimal(year / 100) + [Figure(year / 10 % 10)]
             by { assert year / 10 / 10 == year / 100; }
  }

  lemma FiveFigures(year: nat)
    requires 10000 <= year <= 99999
    ensures Year4(year) == Decimal(year / 10) + [Figure(year % 10)] && |Decimal(year / 10)| == 4
  {
    FourFigures(year / 10);
  }

  lemma TwoFigures(month: nat)
    requires month <= 12
    ensures Month2(month) == [Figure(month / 10), Figure(month % 10)]
  {
    assert Decimal(month / 10) == [Figure(month / 10)];
  }

  /** The folder of a time: the four figures of its year, a slash, the two of its month, a slash. */
  lemma FolderShows(ms: nat, year: nat, month: nat)
    requires 1970 <= year <= 9999 && 1 <= month <= 12
    requires FirstDay(year, month) * MS_PER_DAY <= ms < FirstDay(year, month + 1) * MS_PER_DAY
    ensures Folder(MonthOf(ms))
         == [Figure(year / 1000), Figure(year / 100 % 10), Figure(year / 10 % 10), Figure(year % 10), '/',
             Figure(month / 10), Figure(month % 10), '/']
  {
    MonthOfIs(ms, year, month);
    FourFigures(year);
    TwoFigures(month);
  }

  lemma {:induction false} DecimalsSort(a: nat, b: nat)
    requires a < b && |Decimal(a)| == |Decimal(b)|
    ensures Before(Decimal(a), Decimal(b))
  {
    if b >= 10 {
      assert Decimal(b / 10) != "" && a >= 10;
      if a / 10 < b / 10 {
        DecimalsSort(a / 10, b / 10);
        BeforeExtends(Decimal(a / 10), Decimal(b / 10), [Figure(a % 10)], [Figure(b % 10)]);
      } else {
        BeforeAfterPrefix(Decimal(a / 10), [Figure(a % 10)], [Figure(b % 10)]);
      }
    }
  }

  lemma MonthsSort(a: nat, b: nat)
    requires a < b <= 12
    ensures Before(Month2(a), Month2(b))
  {
    TwoFigures(a);
    TwoFigures(b);
  }

  /** Folders of years with equally many figures sort as their months. */
  lemma FoldersSort(a: Month, b: Month)
    requires |Year4(a.year)| == |Year4(b.year)| && 1000 <= a.year
    requires a.month <= 12 && b.month <= 12 && NotAfter(a, b)
    ensures |Folder(a)| == |Folder(b)| && (a != b ==> Before(Folder(a), Folder(b)))
  {
    TwoFigures(a.month);
    TwoFigures(b.month);
    var x, y := Month2(a.month) + "/", Month2(b.month) + "/";
    if a.year < b.year {
      DecimalsSort(a.year, b.year);
      BeforeExtends(Year4(a.year), Year4(b.year), "/" + x, "/" + y);
      assert Folder(a) == Year4(a.year) + ("/" + x) && Folder(b) == Year4(b.year) + ("/" + y);
    } else if a.month < b.month {
      MonthsSort(a.month, b.month);
      BeforeExtends(Month2(a.month), Month2(b.month), "/", "/");
      BeforeAfterPrefix(Year4(a.year) + "/", x, y);
      assert Folder(a) == Year4(a.year) + "/" + x && Folder(b) == Year4(b.year) + "/" + y;
    }
  }

  lemma NeverBothBefore(a: string, b: string)
    requires Before(a, b)
    ensures !Before(b, a)
  {
    if Before(b, a) {
      BeforeIsTransitive(a, b, a);
      NotBeforeItself(a);
      assert false;
    }
  }

  /** A four-digit year sorts before a five-digit one exactly if it is at most that one without its last digit. */
  lemma MixedFoldersSort(a: Month, b: Month, x: string, y: string)
    requires 1000 <= a.year <= 9999 < b.year <= 99999
    ensures Before(Folder(a) + x, Folder(b) + y) <==> a.year <= b.year / 10
    ensures a.year > b.year / 10 ==> Before(Folder(b) + y, Folder(a) + x)
  {
    FourFigures(a.year);
    FiveFigures(b.year);
    var m, n := Month2(a.month) + "/" + x, Month2(b.month) + "/" + y;
    var u, v := "/" + m, [Figure(b.year % 10)] + ("/" + n);
    assert Folder(a) + x == Decimal(a.year) + u;
    assert Folder(b) + y == Decimal(b.year / 10) + v;
    HeadsSort(a.year, b.year / 10, u, v);
  }

  /** Equally long decimals decide the order, and if they are equal the slash comes before any figure. */
  lemma HeadsSort(a: nat, b: nat, u: string, v: string)
    requires |Decimal(a)| == |Decimal(b)| && u != "" && v != "" && u[0] < v[0]
    ensures Before(Decimal(a) + u, Decimal(b) + v) <==> a <= b
    ensures a > b ==> Before(Decimal(b) + v, Decimal(a) + u)
  {
    if a < b {
      DecimalsSort(a, b);
      BeforeExtends(Decimal(a), Decimal(b), u, v);
    } else if a == b {
      BeforeAfterPrefix(Decimal(a), u, v);
    } else {
      DecimalsSort(b, a);
      BeforeExtends(Decimal(b), Decimal(a), v, u);
      NeverBothBefore(Decimal(b) + v, Decimal(a) + u);
    }
  }

  /** Whether the folder of a month sorts not after that of a later one. */
  predicate InFolderOrder(a: Month, b: Month) {
    b.year <= 9999 || a.year >= 10000 || a.year <= b.year / 10
  }

  /** Keys in folders of one width compare as their months and then their ids. */
  lemma SameWidthSorts(a: Month, b: Month, x: string, y: string)
    requires 1000 <= a.year && b.year <= 99999 && (b.year <= 9999 || a.year >= 10000)
    requires a.month <= 12 && b.month <= 12 && NotAfter(a, b) && (a == b ==> Before(x, y))
    ensures Before(Folder(a) + x, Folder(b) + y)
  {
    if b.year <= 9999 {
      FourFigures(a.year);
      FourFigures(b.year);
    } else {
      FiveFigures(a.year);
      FiveFigures(b.year);
    }
    FoldersSort(a, b);
    if a == b {
      BeforeAfterPrefix(Folder(a), x, y);
    } else {
      BeforeExtends(Folder(a), Folder(b), x, y);
    }
  }

  lemma KeySplits(prefix: string, tenant: string, id: string, ms: nat)
    ensures KeyOf(prefix, tenant, id, ms) == prefix + "journal/" + tenant + "/" + (Folder(MonthOf(ms)) + (id + ".json"))
  {
  }

  /**
   Keys of events compare as their ids do, across month and year folders, exactly if the years have
   equally many figures or the earlier one is at most the later one without its last; otherwise they
   compare the other way round.
   */
  lemma KeysSort(prefix: string, tenant: string, ms: nat, random: nat, ms2: nat, random2: nat)
    requires ms < TIME_RANGE && ms2 < TIME_RANGE && random < RANDOM_RANGE && random2 < RANDOM_RANGE
    requires Earlier(ms, random, ms2, random2)
    ensures var key, key2 := KeyOf(prefix, tenant, Id(ms, random), ms), KeyOf(prefix, tenant, Id(ms2, random2), ms2);
            && (Before(key, key2) <==> InFolderOrder(MonthOf(ms), MonthOf(ms2)))
            && (Before(key2, key) <==> !InFolderOrder(MonthOf(ms), MonthOf(ms2)))
  {
    var a, b := MonthOf(ms), MonthOf(ms2);
    var x, y := Id(ms, random) + ".json", Id(ms2, random2) + ".json";
    assert ms / MS_PER_DAY <= ms2 / MS_PER_DAY;
    MonthFromGrows(1970, ms / MS_PER_DAY, ms2 / MS_PER_DAY);
    MonthFromGrows(1970, ms2 / MS_PER_DAY, ms2 / MS_PER_DAY);
    YearsHaveFiveFigures(ms);
    YearsHaveFiveFigures(ms2);
    if b.year <= 9999 || a.year >= 10000 {
      IdsSort(ms, random, ms2, random2);
      BeforeExtends(Id(ms, random), Id(ms2, random2), ".json", ".json");
      SameWidthSorts(a, b, x, y);
    } else {
      MixedFoldersSort(a, b, x, y);
    }
    if InFolderOrder(a, b) {
      NeverBothBefore(Folder(a) + x, Folder(b) + y);
    }
    var base := prefix + "journal/" + tenant + "/";
    BeforeAfterPrefix(base, Folder(a) + x, Folder(b) + y);
    BeforeAfterPrefix(base, Folder(b) + y, Folder(a) + x);
    KeySplits(prefix, tenant, Id(ms, random), ms);
    KeySplits(prefix, tenant, Id(ms2, random2), ms2);
  }

  /** Events at the beginning of two years, and when their keys sort the wrong way. */
  lemma NewYearKeysSort(prefix: string, tenant: string, year: nat, random: nat, later: nat, random2: nat)
    requires 1970 <= year <= 9999 < later <= 37000 && random < RANDOM_RANGE && random2 < RANDOM_RANGE
    ensures NewYear(year) < NewYear(later) < TIME_RANGE
    ensures var key := KeyOf(prefix, tenant, Id(NewYear(year), random), NewYear(year));
            var key2 := KeyOf(prefix, tenant, Id(NewYear(later), random2), NewYear(later));
            Before(key2, key) <==> year > later / 10
  {
    DaysUntilIs(1970, year);
    DaysUntilIs(1970, later);
    DaysUntilGrows(1970, year, later);
    assert NewYear(year) / MS_PER_DAY == DaysUntil(1970, year) && NewYear(later) / MS_PER_DAY == DaysUntil(1970, later);
    KeysSort(prefix, tenant, NewYear(year), random, NewYear(later), random2);
  }

  /** The first event of the year 10000 sorts before one of the year 9999, but that of 20000 after one of 1970. */
  lemma FiveDigitYearsSort(prefix: string, tenant: string, random: nat, random2: nat)
    requires random < RANDOM_RANGE && random2 < RANDOM_RANGE
    ensures Before(KeyOf(prefix, tenant, Id(NewYear(10000), random2), NewYear(10000)),
                   KeyOf(prefix, tenant, Id(NewYear(9999), random), NewYear(9999)))
    ensures !Before(KeyOf(prefix, tenant, Id(NewYear(20000), random2), NewYear(20000)),
                    KeyOf(prefix, tenant, Id(NewYear(1970), random), NewYear(1970)))
    ensures NewYear(1970) < NewYear(9999) < NewYear(10000) < NewYear(20000) < TIME_RANGE
  {
    NewYearKeysSort(prefix, tenant, 9999, random, 10000, random2);
    NewYearKeysSort(prefix, tenant, 1970, random, 20000, random2);
    DaysUntilGrows(1970, 1970, 9999);
    DaysUntilGrows(1970, 10000, 20000);
  }
}
