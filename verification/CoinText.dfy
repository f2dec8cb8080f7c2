/** ExtractNumber: the amount and the denom of a coin text such as "250uatom". */
module CoinText {
  import opened Options
  import opened MachineInts

  predicate IsDigit(c: char) { '0' <= c <= '9' }

  predicate AllDigits(s: string) { forall i :: 0 <= i < |s| ==> IsDigit(s[i]) }

  function DigitValue(c: char): nat
    requires IsDigit(c)
  {
    c as int - '0' as int
  }

  function DigitChar(d: nat): (c: char)
    requires d < 10
    ensures IsDigit(c) && DigitValue(c) == d
  {
    ('0' as int + d) as char
  }

  /** The number a digit string denotes. */
  function Parse(s: string): nat
    requires AllDigits(s)
  {
    if s == "" then 0 else 10 * Parse(s[..|s| - 1]) + DigitValue(s[|s| - 1])
  }

  /** strconv.Itoa for non-negative numbers. */
  function Itoa(n: nat): (s: string)
    ensures s != "" && AllDigits(s)
  {
    if n < 10 then [DigitChar(n)] else Itoa(n / 10) + [DigitChar(n % 10)]
  }

  lemma {:induction false} ParseItoa(n: nat)
    ensures Parse(Itoa(n)) == n
  {
    var s := Itoa(n);
    if n < 10 {
      assert s[..0] == "";
    } else {
      ParseItoa(n / 10);
      assert s[..|s| - 1] == Itoa(n / 10);
    }
  }

  // ---------------------------------------------------------------------------------------------
  // Finding digit runs, and removing a text
  // ---------------------------------------------------------------------------------------------

  /** The length of the digit run at the start. */
  function RunLength(s: string): (n: nat)
    ensures n <= |s| && AllDigits(s[..n]) && (n < |s| ==> !IsDigit(s[n]))
  {
    if s == "" || !IsDigit(s[0]) then 0 else 1 + RunLength(s[1..])
  }

  /** All matches of the pattern for one or more digits. */
  function Runs(s: string): (runs: seq<string>)
    ensures forall i :: 0 <= i < |runs| ==> AllDigits(runs[i])
    decreases |s|
  {
    if s == "" then []
    else if IsDigit(s[0]) then [s[..RunLength(s)]] + Runs(s[RunLength(s)..])
    else Runs(s[1..])
  }

  /** strings.ReplaceAll(s, t, ""). */
  function Remove(s: string, t: string): (r: string)
    requires t != ""
    ensures |r| <= |s|
    decreases |s|
  {
    if |s| < |t| then s
    else if s[..|t|] == t then Remove(s[|t|..], t)
    else [s[0]] + Remove(s[1..], t)
  }

  predicate OccursAt(s: string, t: string, i: nat) { i + |t| <= |s| && s[i..i + |t|] == t }

  lemma Shift(s: string, t: string, i: nat)
    requires s != ""
    ensures OccursAt(s[1..], t, i) <==> OccursAt(s, t, i + 1)
  {
    if i + 1 + |t| <= |s| {
      assert s[1..][i..i + |t|] == s[i + 1..i + 1 + |t|];
    }
  }

  /** Removing changes nothing exactly if the text does not occur. */
  lemma {:induction false} RemoveKeeps(s: string, t: string)
    requires t != ""
    ensures Remove(s, t) == s <==> forall i: nat :: !OccursAt(s, t, i)
    decreases |s|
  {
    if |s| >= |t| {
      if s[..|t|] == t {
        assert OccursAt(s, t, 0);
      } else {
        RemoveKeeps(s[1..], t);
        if i: nat :| OccursAt(s[1..], t, i) {
          Shift(s, t, i);
        } else {
          forall i: nat
            ensures !OccursAt(s, t, i)
          {
            if i > 0 {
              Shift(s, t, i - 1);
            }
          }
        }
        assert s == [s[0]] + s[1..];
      }
    }
  }

  function Decimal(n: int): (s: string)
    ensures s != ""
  {
    if n < 0 then "-" + Itoa(-n) else Itoa(n)
  }

  /** The first number in the text, as a 64-bit integer, and the text without that number's decimal form. */
  function Extracted(value: string): Option<(int, string)> {
    if Runs(value) == [] then None
    else
      var n := Int64(Parse(Runs(value)[0]));
      Some((n, Remove(value, Decimal(n))))
  }

  /** The text of a coin: an amount and a denom that does not start with a digit. */
  ghost predicate IsCoin(value: string, n: nat, denom: string) {
    value == Itoa(n) + denom && (denom == "" || !IsDigit(denom[0]))
  }

  /** The low 64 bits of the amount; the coin comes back if they hold it and its digits do not occur in the denom. */
  ghost predicate ComesBack(r: Option<(int, string)>, n: nat, denom: string) {
    && r.Some? && r.value.0 == Int64(n)
    && (r.value.0 == n <==> n < Two63)
    && (r.value == (n, denom) <==> n < Two63 && forall i: nat :: !OccursAt(denom, Itoa(n), i))
  }

  lemma CoinsComeBack(value: string)
    ensures forall n, denom :: IsCoin(value, n, denom) ==> ComesBack(Extracted(value), n, denom)
  {
    forall n, denom | IsCoin(value, n, denom)
      ensures ComesBack(Extracted(value), n, denom)
    {
      CoinRoundTrip(n, denom);
    }
  }

  /** ExtractNumber; the coin property says when the text of a coin yields the coin. */
  method ExtractNumber(value: string) returns (r: Option<(int, string)>)
    ensures r == Extracted(value)
    ensures forall n, denom :: IsCoin(value, n, denom) ==> ComesBack(r, n, denom)
    ensures r.None? <==> forall i :: 0 <= i < |value| ==> !IsDigit(value[i])
  {
    CoinsComeBack(value);
    NoRuns(value);
    var numberStrings := Runs(value);
    var numbers := new int[|numberStrings|];
    for i := 0 to |numberStrings|
      invariant forall k :: 0 <= k < i ==> numbers[k] == Int64(Parse(numberStrings[k]))
    {
      numbers[i] := Int64(Parse(numberStrings[i]));
    }
    if numbers.Length > 0 {
      return Some((numbers[0], Remove(value, Decimal(numbers[0]))));
    }
    return None;
  }

  /** There is no number exactly if there is no digit. */
  lemma {:induction false} NoRuns(s: string)
    ensures Runs(s) == [] <==> forall i :: 0 <= i < |s| ==> !IsDigit(s[i])
    decreases |s|
  {
    if s != "" && !IsDigit(s[0]) {
      NoRuns(s[1..]);
      assert forall i :: 1 <= i < |s| ==> s[i] == s[1..][i - 1];
    }
  }

  /** The first number is the first digit run, wherever it is. */
  lemma {:induction false} FirstRun(before: string, d: string, rest: string)
    requires forall i :: 0 <= i < |before| ==> !IsDigit(before[i])
    requires d != "" && AllDigits(d) && (rest == "" || !IsDigit(rest[0]))
    ensures Runs(before + (d + rest)) != [] && Runs(before + (d + rest))[0] == d
    decreases |before|
  {
    if before == "" {
      assert before + (d + rest) == d + rest;
      RunOfConcat(d, rest);
      assert (d + rest)[..|d|] == d;
    } else {
      assert (before + (d + rest))[1..] == before[1..] + (d + rest);
      FirstRun(before[1..], d, rest);
    }
  }

  // ---------------------------------------------------------------------------------------------
  // Coins
  // ---------------------------------------------------------------------------------------------

  lemma {:induction false} RunOfConcat(d: string, rest: string)
    requires AllDigits(d) && (rest == "" || !IsDigit(rest[0]))
    ensures RunLength(d + rest) == |d|
  {
    if d == "" {
      assert d + rest == rest;
    } else {
      assert (d + rest)[1..] == d[1..] + rest;
      RunOfConcat(d[1..], rest);
    }
  }

  lemma FirstNumber(n: nat, denom: string)
    requires denom == "" || !IsDigit(denom[0])
    ensures var value := Itoa(n) + denom;
            Runs(value) != [] && Parse(Runs(value)[0]) == n
  {
    RunOfConcat(Itoa(n), denom);
    ParseItoa(n);
    assert (Itoa(n) + denom)[..|Itoa(n)|] == Itoa(n);
  }

  lemma FitsInt64(n: nat)
    ensures Int64(n) == n <==> n < Two63
  {
  }

  /**
   The text of a coin whose denom does not start with a digit yields the low 64 bits of its amount, for every amount; it
   yields the coin if and only if the amount is below 2^63 and its digits do not occur in the denom.
   */
  lemma CoinRoundTrip(n: nat, denom: string)
    requires denom == "" || !IsDigit(denom[0])
    ensures ComesBack(Extracted(Itoa(n) + denom), n, denom)
  {
    hide Itoa, Runs, Parse, Int64;
    FirstNumber(n, denom);
    FitsInt64(n);
    var value := Itoa(n) + denom;
    assert value[..|Itoa(n)|] == Itoa(n) && value[|Itoa(n)|..] == denom;
    RemoveKeeps(denom, Itoa(n));
  }

  /** The amount 2^63, nine units of a denom with 18 decimals and a bit, comes back negative. */
  lemma AmountWraps(denom: string)
    requires denom == "" || !IsDigit(denom[0])
    ensures var value := Itoa(Two63) + denom;
            var r := Extracted(value);
            r.Some? && r.value.0 == -Two63 && ('-' !in denom ==> r.value.1 == value)
  {
    hide Itoa, Runs, Parse;
    CoinRoundTrip(Two63, denom);
    var value := Itoa(Two63) + denom;
    if '-' !in denom {
      var t := Decimal(-Two63);
      forall i: nat
        ensures !OccursAt(value, t, i)
      {
        NoMinus(value, t, i);
      }
      RemoveKeeps(value, t);
    }
  }

  lemma NoMinus(s: string, t: string, i: nat)
    requires '-' !in s && t != "" && t[0] == '-'
    ensures !OccursAt(s, t, i)
  {
    assert i + |t| <= |s| ==> s[i..i + |t|][0] == s[i];
  }

  lemma NoDigitsNoMatch(s: string, t: string, i: nat)
    requires t != "" && AllDigits(t) && forall k :: 0 <= k < |s| ==> !IsDigit(s[k])
    ensures !OccursAt(s, t, i)
  {
    assert i + |t| <= |s| ==> s[i..i + |t|][0] == s[i];
  }

  /** A coin whose denom has no digits always comes back. */
  lemma DigitFreeCoin(n: nat, denom: string)
    requires n < Two63 && forall i :: 0 <= i < |denom| ==> !IsDigit(denom[i])
    ensures Extracted(Itoa(n) + denom) == Some((n, denom))
  {
    hide Itoa, OccursAt, Extracted;
    CoinRoundTrip(n, denom);
    forall i: nat
      ensures !OccursAt(denom, Itoa(n), i)
    {
      NoDigitsNoMatch(denom, Itoa(n), i);
    }
  }

  /** The text "7p7", seven units of the denom p7, loses the 7 of its denom. */
  lemma DenomWithDigits()
    ensures Extracted("7p7") == Some((7, "p"))
  {
    hide Runs, Parse, Remove, Itoa;
    Seven();
    assert "7" + "p7" == "7p7";
    FirstNumber(7, "p7");
    SevensRemoved();
  }

  lemma Seven()
    ensures Itoa(7) == "7"
  {
  }

  lemma RemoveNext(c: char, s: string, t: string)
    requires |t| == 1
    ensures Remove([c] + s, t) == if c == t[0] then Remove(s, t) else [c] + Remove(s, t)
  {
    var all := [c] + s;
    assert all[1..] == s && all[..1] == [c] && t == [t[0]];
  }

  lemma SevensRemoved()
    ensures Remove("7p7", "7") == "p"
  {
    hide Remove;
    RemoveNothing("7");
    RemoveNext('7', "", "7");
    RemoveNext('p', "7", "7");
    RemoveNext('7', "p7", "7");
    assert ['7'] + "" == "7" && ['p'] + "7" == "p7" && ['7'] + "p7" == "7p7";
  }

  lemma RemoveNothing(t: string)
    requires t != ""
    ensures Remove("", t) == ""
  {
  }
}
