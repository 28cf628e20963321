/** The public results page (src/modules/public/results/ResultsPage.tsx): the
    reveal countdown, the rotating phrase, and the demo-mode override. */
module ResultsPage {
  import opened Wrappers
  import opened Domain
  import opened ResultsData
  import Nullish

  const MsPerSecond := 1000
  const MsPerMinute := 60 * MsPerSecond
  const MsPerHour := 60 * MsPerMinute

  predicate IsDigit(ch: char)
  {
    '0' <= ch <= '9'
  }

  predicate AllDigits(s: string)
  {
    forall i :: 0 <= i < |s| ==> IsDigit(s[i])
  }

  function DigitChar(d: nat): (ch: char)
    requires d < 10
    ensures IsDigit(ch) && (ch as int) - ('0' as int) == d
  {
    (('0' as int) + d) as char
  }

  /** `String(n)` for a whole number. */
  function Decimal(n: nat): (s: string)
    ensures |s| >= 1 && AllDigits(s)
    ensures n < 10 <==> |s| == 1
    ensures 10 <= n < 100 ==> |s| == 2
  {
    if n < 10 then [DigitChar(n)] else Decimal(n / 10) + [DigitChar(n % 10)]
  }

  /** `s.padStart(2, "0")`. */
  function PadTwo(s: string): (r: string)
    ensures |r| == if |s| >= 2 then |s| else 2
    ensures r[|r| - |s|..] == s
    ensures forall i :: 0 <= i < |r| - |s| ==> r[i] == '0'
  {
    if |s| >= 2 then s else seq(2 - |s|, _ => '0') + s
  }

  /** Reads a run of digits back as a number (leading zeros allowed). */
  function ParseDecimal(s: string): nat
    requires AllDigits(s)
  {
    if s == [] then 0
    else ParseDecimal(s[..|s| - 1]) * 10 + ((s[|s| - 1] as int) - ('0' as int))
  }

  lemma {:induction false} ParseDecimalRoundTrip(n: nat)
    ensures ParseDecimal(Decimal(n)) == n
    decreases n
  {
    if n >= 10 {
      var s := Decimal(n);
      assert s[..|s| - 1] == Decimal(n / 10);
      ParseDecimalRoundTrip(n / 10);
    }
  }

  lemma {:induction false} LeadingZeros(k: nat, s: string)
    requires AllDigits(s)
    ensures AllDigits(seq(k, _ => '0') + s)
    ensures ParseDecimal(seq(k, _ => '0') + s) == ParseDecimal(s)
    decreases |s|
  {
    var z := seq(k, _ => '0');
    if s == [] {
      assert z + s == z;
      ZerosParse(k);
    } else {
      var t := z + s;
      assert t[..|t| - 1] == z + s[..|s| - 1];
      LeadingZeros(k, s[..|s| - 1]);
    }
  }

  lemma {:induction false} ZerosParse(k: nat)
    ensures AllDigits(seq(k, _ => '0'))
    ensures ParseDecimal(seq(k, _ => '0')) == 0
    decreases k
  {
    if k > 0 {
      assert seq(k, _ => '0')[..k - 1] == seq(k - 1, _ => '0');
      ZerosParse(k - 1);
    }
  }

  /** A padded field reads back as the number it shows. */
  lemma PaddedRoundTrip(n: nat)
    ensures AllDigits(PadTwo(Decimal(n)))
    ensures ParseDecimal(PadTwo(Decimal(n))) == n
  {
    var s := Decimal(n);
    ParseDecimalRoundTrip(n);
    if |s| < 2 {
      LeadingZeros(2 - |s|, s);
    }
  }

  /** The `HH:MM:SS` text for a number of hours, minutes and seconds. */
  function Clock(h: nat, m: nat, s: nat): string
  {
    PadTwo(Decimal(h)) + [':'] + PadTwo(Decimal(m)) + [':'] + PadTwo(Decimal(s))
  }

  /** The whole hours, minutes and seconds in `diff` milliseconds, as `tick`
      computes them (all operands positive, so flooring is integer division). */
  datatype Split = Split(hours: nat, minutes: nat, seconds: nat)

  function SplitDiff(diff: nat): (r: Split)
    ensures r.minutes < 60 && r.seconds < 60
    ensures r.hours * 3600 + r.minutes * 60 + r.seconds == diff / MsPerSecond
  {
    UnitSteps(diff);
    Split(diff / MsPerHour, (diff / MsPerMinute) % 60, (diff / MsPerSecond) % 60)
  }

  /** Dividing by milliseconds per hour or minute equals dividing the whole
      seconds, and whole seconds split into hours, minutes and seconds. */
  lemma UnitSteps(diff: nat)
    ensures diff / MsPerMinute == diff / MsPerSecond / 60
    ensures diff / MsPerHour == diff / MsPerSecond / 3600
    ensures var s := diff / MsPerSecond; (s / 3600) * 3600 + ((s / 60) % 60) * 60 + s % 60 == s
  {
  }

  /** `useCountdown`'s value at instant `now`: null without a target date,
      "00:00:00" once the target has passed. */
  function Countdown(target: Option<string>, timeOf: string -> int, now: int): (r: Option<string>)
    ensures r.None? <==> !Nullish.Truthy(target)
    ensures Nullish.Truthy(target) && timeOf(target.value) - now <= 0 ==> r == Some("00:00:00")
  {
    if !Nullish.Truthy(target) then None
    else
      var diff := timeOf(target.value) - now;
      if diff <= 0 then Some("00:00:00")
      else
        var p := SplitDiff(diff);
        Some(Clock(p.hours, p.minutes, p.seconds))
  }

  /** The position of the first `c` in `s`. */
  function IndexOf(s: string, c: char): (r: Option<nat>)
    ensures r.None? <==> c !in s
    ensures r.Some? ==> r.value < |s| && s[r.value] == c && c !in s[..r.value]
  {
    if s == [] then None
    else if s[0] == c then Some(0)
    else match IndexOf(s[1..], c)
      case None => None
      case Some(k) => assert s[..k + 1] == [s[0]] + s[1..][..k]; Some(k + 1)
  }

  lemma {:induction false} IndexOfJoin(a: string, c: char, b: string)
    requires c !in a
    ensures IndexOf(a + [c] + b, c) == Some(|a|)
    decreases |a|
  {
    if a != [] {
      assert (a + [c] + b)[1..] == a[1..] + [c] + b;
      IndexOfJoin(a[1..], c, b);
    }
  }

  /** Reads `HH:MM:SS`-shaped text: digit runs separated by the first two
      colons. */
  function ReadClock(s: string): Option<Split>
  {
    match IndexOf(s, ':')
    case None => None
    case Some(i) => ReadRest(s[..i], s[i + 1..])
  }

  /** The rest of `ReadClock` once the hours field `h` is split off. */
  function ReadRest(h: string, rest: string): Option<Split>
  {
    match IndexOf(rest, ':')
    case None => None
    case Some(k) => ReadDigits(h, rest[..k], rest[k + 1..])
  }

  function ReadDigits(h: string, m: string, s: string): Option<Split>
  {
    if AllDigits(h) && AllDigits(m) && AllDigits(s) then
      Some(Split(ParseDecimal(h), ParseDecimal(m), ParseDecimal(s)))
    else None
  }

  lemma SplitAtColon(a: string, rest: string)
    requires ':' !in a
    ensures ReadClock(a + [':'] + rest) == ReadRest(a, rest)
  {
    var text := a + [':'] + rest;
    IndexOfJoin(a, ':', rest);
    assert text[..|a|] == a && text[|a| + 1..] == rest;
  }

  lemma SplitRestAtColon(h: string, m: string, s: string)
    requires ':' !in m
    ensures ReadRest(h, m + [':'] + s) == ReadDigits(h, m, s)
  {
    var rest := m + [':'] + s;
    IndexOfJoin(m, ':', s);
    assert rest[..|m|] == m && rest[|m| + 1..] == s;
  }

  lemma NoColon(s: string)
    requires AllDigits(s)
    ensures ':' !in s
  {
  }

  /** Three digit fields joined by colons read back field by field. */
  lemma ReadFields(hs: string, ms: string, ss: string)
    requires AllDigits(hs) && AllDigits(ms) && AllDigits(ss)
    ensures ReadClock(hs + [':'] + ms + [':'] + ss) == Some(Split(ParseDecimal(hs), ParseDecimal(ms), ParseDecimal(ss)))
  {
    NoColon(hs);
    NoColon(ms);
    assert hs + [':'] + ms + [':'] + ss == hs + [':'] + (ms + [':'] + ss);
    SplitAtColon(hs, ms + [':'] + ss);
    SplitRestAtColon(hs, ms, ss);
  }

  /** A clock text reads back as the three numbers it was made from. */
  lemma ClockReadsBack(h: nat, m: nat, sec: nat)
    ensures ReadClock(Clock(h, m, sec)) == Some(Split(h, m, sec))
  {
    PaddedRoundTrip(h);
    PaddedRoundTrip(m);
    PaddedRoundTrip(sec);
    ReadFields(PadTwo(Decimal(h)), PadTwo(Decimal(m)), PadTwo(Decimal(sec)));
  }

  /** A running countdown reads back as the whole seconds left before the
      reveal, with minutes and seconds below 60. */
  lemma CountdownReadsBack(target: string, timeOf: string -> int, now: int)
    requires target != "" && timeOf(target) - now > 0
    ensures var text := Countdown(Some(target), timeOf, now).value;
      && ReadClock(text).Some?
      && var p := ReadClock(text).value;
         p.minutes < 60 && p.seconds < 60 &&
         p.hours * 3600 + p.minutes * 60 + p.seconds == (timeOf(target) - now) / MsPerSecond
  {
    var diff: nat := timeOf(target) - now;
    CountdownParses(target, timeOf, now);
    var p := SplitDiff(diff);
    assert ReadClock(Countdown(Some(target), timeOf, now).value) == Some(p);
  }

  lemma CountdownParses(target: string, timeOf: string -> int, now: int)
    requires target != "" && timeOf(target) - now > 0
    ensures ReadClock(Countdown(Some(target), timeOf, now).value) == Some(SplitDiff(timeOf(target) - now))
  {
    var p := SplitDiff(timeOf(target) - now);
    CountdownIsClock(target, timeOf, now);
    ClockReadsBack(p.hours, p.minutes, p.seconds);
  }

  lemma CountdownIsClock(target: string, timeOf: string -> int, now: int)
    requires target != "" && timeOf(target) - now > 0
    ensures var p := SplitDiff(timeOf(target) - now);
      Countdown(Some(target), timeOf, now) == Some(Clock(p.hours, p.minutes, p.seconds))
  {
  }

  /** A running countdown is at least eight characters: every field has at
      least two digits. */
  lemma CountdownWidth(target: string, timeOf: string -> int, now: int)
    requires target != "" && timeOf(target) - now > 0
    ensures |Countdown(Some(target), timeOf, now).value| >= 8
  {
    var p := SplitDiff(timeOf(target) - now);
    CountdownIsClock(target, timeOf, now);
    ClockLength(p.hours, p.minutes, p.seconds);
  }

  lemma ClockLength(h: nat, m: nat, sec: nat)
    ensures |Clock(h, m, sec)| >= 8
  {
    assert |PadTwo(Decimal(h))| >= 2 && |PadTwo(Decimal(m))| >= 2 && |PadTwo(Decimal(sec))| >= 2;
  }

  const PhraseCount := 3

  /** The phrase carousel's timer step. */
  function NextPhrase(index: nat): (r: nat)
    ensures r < PhraseCount
    ensures index + 1 < PhraseCount ==> r == index + 1
    ensures index + 1 == PhraseCount ==> r == 0
  {
    (index + 1) % PhraseCount
  }

  const DemoContest := Contest("demo-contest", "Quarteto Awards – DEMO MODE", None, "", "", None, true, "")

  const DemoCategories := [
    ResultsCategory("demo1", "Melhor Restaurante", [
      ResultsNominee("n1", "Sushi Hiroshi", None, 7, 58.0, true),
      ResultsNominee("n2", "Burger House", None, 4, 33.0, false),
      ResultsNominee("n3", "Pasta Mia", None, 1, 9.0, false)]),
    ResultsCategory("demo2", "Filme do Ano", [
      ResultsNominee("n1", "Duna: Parte 2", None, 6, 50.0, true),
      ResultsNominee("n2", "Oppenheimer", None, 4, 33.0, false),
      ResultsNominee("n3", "Barbie", None, 2, 17.0, false)])]

  /** `searchParams.get("demo") === "true"`. */
  predicate IsDemo(demoParam: Option<string>)
  {
    demoParam == Some("true")
  }

  /** Which panels the page renders. */
  datatype Panels = Panels(loading: bool, error: bool, beforeReveal: bool, results: bool)

  /** The status, contest and categories the page actually renders: in demo
      mode the fixed sample replaces whatever was loaded. */
  function Final(demoParam: Option<string>, v: ResultsView): (r: ResultsView)
    ensures IsDemo(demoParam) ==> r == ResultsView(Ready, Some(DemoContest), DemoCategories)
    ensures !IsDemo(demoParam) ==> r == v
  {
    if IsDemo(demoParam) then ResultsView(Ready, Some(DemoContest), DemoCategories) else v
  }

  function Show(demoParam: Option<string>, v: ResultsView): (p: Panels)
    ensures IsDemo(demoParam) ==> p == Panels(false, false, false, true)
    ensures !IsDemo(demoParam) ==>
      p.results == (v.status == Ready && v.contest.Some?) &&
      p.beforeReveal == (v.status == BeforeReveal && v.contest.Some?)
    ensures !(p.results && p.beforeReveal) && !(p.loading && p.error)
  {
    var f := Final(demoParam, v);
    var demo := IsDemo(demoParam);
    Panels(
      v.status == Loading && !demo,
      v.status == Error && !demo,
      v.status == BeforeReveal && v.contest.Some? && !demo,
      f.status == Ready && f.contest.Some?)
  }

  /** Outside demo mode, results never show while the reveal time is ahead. */
  lemma NoResultsBeforeReveal(demoParam: Option<string>, b: ResultsBackend, now: int, timeOf: string -> int)
    requires !IsDemo(demoParam)
    requires b.contest.Ok? && b.contest.value.Some?
    requires Withheld(b.contest.value.value, now, timeOf)
    ensures var p := Show(demoParam, Load(b, now, timeOf)); p.beforeReveal && !p.results
  {
  }
}
