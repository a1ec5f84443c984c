/**
 * The desktop demo window (`app/main.py`): the thousands formatting of the
 * wallet counter, the periodic tick that advances it and walks the sample
 * USD amount while a search runs, and the chain and search toggles. Tk
 * widgets are reduced to the values they show; `random.randint(20, 60)` is
 * the tick's `roll` input and `random.uniform(-2.0, 3.0)` its `drift`.
 */
module AppMain {
  import opened Common

  /** The digits `d` in groups of three from the right, `sep` between
      groups: Python's `,` grouping, with the commas replaced by `sep`. */
  function Grouped(d: string, sep: char): (r: string)
    requires d != []
  {
    if |d| <= 3 then d else Grouped(d[..|d| - 3], sep) + [sep] + d[|d| - 3..]
  }

  /** `format_int_with_spaces`: the sign, then the grouped digits. */
  function FormatIntWithSpaces(value: int): (s: string)
    ensures s != []
  {
    if value < 0 then "-" + Grouped(NatDecimal(-value), ' ') else Grouped(NatDecimal(value), ' ')
  }

  /** Grouping only inserts separators: removing them gives the digits back. */
  lemma {:induction false} GroupedRoundTrip(d: string, sep: char)
    requires d != [] && !IsDigit(sep) && forall i :: 0 <= i < |d| ==> IsDigit(d[i])
    ensures RemoveChar(Grouped(d, sep), sep) == d
    decreases |d|
  {
    if |d| <= 3 {
      RemoveCharNone(d, sep);
    } else {
      var hi, lo := d[..|d| - 3], d[|d| - 3..];
      GroupedRoundTrip(hi, sep);
      UngroupStep(Grouped(hi, sep), hi, lo, sep);
      assert hi + lo == d;
    }
  }

  /** One more separator and group of three digits, removed again. */
  lemma UngroupStep(g: string, hi: string, lo: string, sep: char)
    requires RemoveChar(g, sep) == hi
    requires forall i :: 0 <= i < |lo| ==> lo[i] != sep
    ensures RemoveChar(g + [sep] + lo, sep) == hi + lo
  {
    RemoveCharAppend(g + [sep], lo, sep);
    RemoveCharAppend(g, [sep], sep);
    RemoveCharNone(lo, sep);
    assert RemoveChar([sep], sep) == [] by {
      assert [sep][..0] == [];
    }
  }

  /** More than three digits are grouped with at least one separator. */
  lemma GroupedSeparates(d: string, sep: char)
    requires |d| > 3
    ensures sep in Grouped(d, sep)
  {
    var g := Grouped(d[..|d| - 3], sep);
    assert Grouped(d, sep)[|g|] == sep;
  }

  /** Grouping keeps the digits and adds only separators. */
  lemma {:induction false} GroupedCharacters(d: string, sep: char)
    requires d != [] && forall i :: 0 <= i < |d| ==> IsDigit(d[i])
    ensures forall i :: 0 <= i < |Grouped(d, sep)| ==> IsDigit(Grouped(d, sep)[i]) || Grouped(d, sep)[i] == sep
    decreases |d|
  {
    if |d| > 3 {
      GroupedCharacters(d[..|d| - 3], sep);
    }
  }

  /** Every fourth character counted from the right is a space, and no other is. */
  predicate SpacedEveryFourth(r: string)
  {
    forall i :: 0 <= i < |r| ==> (r[i] == ' ' <==> (|r| - i) % 4 == 0)
  }

  /** Appending a space and three non-space characters keeps the layout. */
  lemma LayoutAppend(g: string, lo: string)
    requires |lo| == 3 && ' ' !in lo
    requires SpacedEveryFourth(g)
    ensures SpacedEveryFourth(g + " " + lo)
  {
    var r := g + " " + lo;
    forall i | 0 <= i < |r| ensures r[i] == ' ' <==> (|r| - i) % 4 == 0 {
      if i < |g| {
        assert r[i] == g[i];
      } else if i > |g| {
        assert r[i] == lo[i - |g| - 1];
      }
    }
  }

  /** The layout of a grouping: the groups after the first hold exactly
      three digits and the first one to three. */
  lemma {:induction false} GroupedLayout(d: string)
    requires d != [] && forall i :: 0 <= i < |d| ==> IsDigit(d[i])
    ensures |Grouped(d, ' ')| == |d| + (|d| - 1) / 3
    ensures SpacedEveryFourth(Grouped(d, ' '))
    decreases |d|
  {
    if |d| <= 3 {
      assert forall i :: 0 <= i < |d| ==> d[i] != ' ';
    } else {
      var hi, lo := d[..|d| - 3], d[|d| - 3..];
      GroupedLayout(hi);
      assert forall i :: 0 <= i < |lo| ==> IsDigit(lo[i]);
      LayoutAppend(Grouped(hi, ' '), lo);
    }
  }

  /** Removing the spaces from `format_int_with_spaces(v)` gives `str(v)`. */
  lemma FormatRoundTrip(value: int)
    ensures RemoveChar(FormatIntWithSpaces(value), ' ') == Decimal(value)
  {
    var d := NatDecimal(if value < 0 then -value else value);
    GroupedRoundTrip(d, ' ');
    if value < 0 {
      RemoveCharAppend("-", Grouped(d, ' '), ' ');
      assert RemoveChar("-", ' ') == "-" by {
        assert "-"[..0] == [];
      }
    }
  }

  /** The ten chain buttons, in grid order. */
  const ChainNames: seq<string> := ["BTC", "ETH", "BNB", "SOL", "AVAX", "LTC", "OP", "MATIC", "TON", "TRX"]

  /** The chains selected when the window opens. */
  const InitiallySelected: set<string> := {"BTC", "ETH", "MATIC"}

  /** `selected_chains` as built: one flag per chain, set for the initially
      selected ones. */
  function InitialSelection(): (sel: map<string, bool>)
    ensures forall n :: n in sel <==> n in ChainNames
    ensures forall n :: n in sel ==> (sel[n] <==> n == "BTC" || n == "ETH" || n == "MATIC")
  {
    map n | n in ChainNames :: n in InitiallySelected
  }

  /** Exactly three chains start selected. */
  lemma ThreeSelected()
    ensures var sel := InitialSelection(); |set n | n in sel && sel[n]| == 3
  {
    var sel := InitialSelection();
    assert (set n | n in sel && sel[n]) == InitiallySelected;
  }

  /** The flags after `_toggle_chain(name)`. */
  function Toggled(sel: map<string, bool>, name: string): (r: map<string, bool>)
    requires name in sel
    ensures forall n :: n in r <==> n in sel
    ensures r[name] == !sel[name]
    ensures forall n :: n in sel && n != name ==> r[n] == sel[n]
  {
    sel[name := !sel[name]]
  }

  /** Toggling a chain twice restores the selection. */
  lemma ToggleTwice(sel: map<string, bool>, name: string)
    requires name in sel
    ensures Toggled(Toggled(sel, name), name) == sel
  {
    var r := Toggled(Toggled(sel, name), name);
    assert forall n :: n in r ==> r[n] == sel[n];
  }

  /** The start button's caption. */
  function ButtonText(searching: bool): (text: string)
    ensures text == "Stop" <==> searching
  {
    if searching then "Stop" else "Start search"
  }

  /** The amount a tick adds while searching: the speed, at least 1, times
      the roll. */
  function Increment(speed: int, roll: int): int
  {
    (if speed < 1 then 1 else speed) * roll
  }

  /** With a roll from `randint(20, 60)`, a searching tick adds between
      20 and 60 times the effective speed, so the counter always grows. */
  lemma IncrementBounds(speed: int, roll: int)
    requires 20 <= roll <= 60
    ensures var s := if speed < 1 then 1 else speed;
      20 * s <= Increment(speed, roll) <= 60 * s && Increment(speed, roll) >= 20
  {
    var s := if speed < 1 then 1 else speed;
    assert s * 20 <= s * roll <= s * 60;
  }

  /** The delay before the next tick, in milliseconds. */
  function TickDelay(speed: int): (ms: int)
    ensures ms >= 40 && ms >= 600 - 50 * speed
    ensures ms == 40 || ms == 600 - 50 * speed
  {
    if 600 - speed * 50 > 40 then 600 - speed * 50 else 40
  }

  /** On the slider's range 1..10 the delay runs from 550 down to 100, and a
      higher speed never waits longer. */
  lemma DelayOnSlider(speed: int, faster: int)
    requires 1 <= speed <= 10
    ensures 100 <= TickDelay(speed) <= 550
    ensures speed <= faster ==> TickDelay(faster) <= TickDelay(speed)
  {
  }

  /** The sample profit's USD text as the window opens. */
  const InitialUsdText: string := "$1122.87"

  /** 10 to the power `n`. */
  function Pow10(n: nat): (p: nat)
    ensures p >= 1
  {
    if n == 0 then 1 else 10 * Pow10(n - 1)
  }

  /** `n` digits are worth less than 10^n. */
  lemma {:induction false} DigitsBelow(s: string)
    requires forall i :: 0 <= i < |s| ==> IsDigit(s[i])
    ensures DigitsValue(s) < Pow10(|s|)
    decreases |s|
  {
    if s != [] {
      var init := s[..|s| - 1];
      DigitsBelow(init);
      assert DigitsValue(init) * 10 <= (Pow10(|init|) - 1) * 10;
    }
  }

  /** A number of 1000 or more has at least four digits. */
  lemma FourDigits(n: nat)
    requires n >= 1000
    ensures |NatDecimal(n)| > 3
  {
    var d := NatDecimal(n);
    DigitsBelow(d);
    Pow10Monotone(|d|, 3);
  }

  lemma {:induction false} Pow10Monotone(a: nat, b: nat)
    ensures a <= b ==> Pow10(a) <= Pow10(b)
    ensures Pow10(3) == 1000
    decreases b
  {
    if a < b {
      Pow10Monotone(a, b - 1);
    }
  }

  /** An amount in cents, rounded to the nearest cent (halves up). */
  function Cents(x: real): (c: nat)
    requires x >= 0.0
    ensures c as real - 0.5 <= x * 100.0 < c as real + 0.5
  {
    (x * 100.0 + 0.5).Floor
  }

  /** The two digits of a number below 100, with a leading zero. */
  function TwoDigits(n: nat): (s: string)
    requires n < 100
    ensures |s| == 2 && IsDigit(s[0]) && IsDigit(s[1]) && DigitsValue(s) == n
  {
    var s := [(48 + n / 10) as char, (48 + n % 10) as char];
    assert s[..1][..0] == [];
    assert DigitsValue(s[..1]) == n / 10;
    s
  }

  /** `f"{x:,.2f}"`: a minus sign for a negative amount, the whole part in
      comma-separated groups of three, a point and two digits of cents. */
  function MoneyText(x: real): (s: string)
  {
    SignedMoney(x < 0.0, Cents(if x < 0.0 then -x else x))
  }

  /** The text of an amount of cents, after its sign. */
  function SignedMoney(negative: bool, c: nat): (s: string)
  {
    (if negative then "-" else "") + Grouped(NatDecimal(c / 100), ',') + "." + TwoDigits(c % 100)
  }

  /** Digits only. */
  predicate AllDigits(s: string)
  {
    forall i :: 0 <= i < |s| ==> IsDigit(s[i])
  }

  /** The position of the first `'.'`, or the length when there is none. */
  function PointIndex(s: string): (k: nat)
    ensures k <= |s| && (k < |s| ==> s[k] == '.')
    ensures forall i :: 0 <= i < k ==> s[i] != '.'
  {
    if s == [] || s[0] == '.' then 0 else 1 + PointIndex(s[1..])
  }

  /** The value of `whole.frac` in decimal. */
  function Pointed(whole: string, frac: string): real
    requires AllDigits(whole) && AllDigits(frac)
  {
    DigitsValue(whole) as real + DigitsValue(frac) as real / Pow10(|frac|) as real
  }

  /** `float(s)` for text without a sign: digits, optionally a point and
      more digits, with at least one digit in all. */
  function ParseUnsigned(s: string): (r: Option<real>)
    ensures r.Some? ==> forall i :: 0 <= i < |s| ==> IsDigit(s[i]) || s[i] == '.'
  {
    var k := PointIndex(s);
    var whole := s[..k];
    var frac := if k < |s| then s[k + 1..] else [];
    if AllDigits(whole) && AllDigits(frac) && (whole != [] || frac != []) then
      assert forall i :: 0 <= i < |s| ==> i < k || i == k || s[i] == frac[i - k - 1];
      Some(Pointed(whole, frac))
    else None
  }

  /** `float(s)` on decimal text: an optional sign, then `ParseUnsigned`.
      `None` is the `ValueError`; in particular a comma, which `float`
      never accepts, always raises it. */
  function ParseFloat(s: string): (r: Option<real>)
    ensures r.Some? ==> forall i :: 0 <= i < |s| ==> IsDigit(s[i]) || s[i] == '.' || (i == 0 && (s[i] == '-' || s[i] == '+'))
    ensures ',' in s ==> r.None?
  {
    if s != [] && (s[0] == '-' || s[0] == '+') then
      match ParseUnsigned(s[1..])
      case Some(v) =>
        assert forall i :: 1 <= i < |s| ==> s[i] == s[1..][i - 1];
        Some(if s[0] == '-' then -v else v)
      case None => None
    else ParseUnsigned(s)
  }

  /** The USD text after one searching tick of `_tick`, as written: the
      dollar sign is removed, the rest goes through `float`, the drift is
      added and the result is written back with `f"${usd:,.2f}"`. `None`
      is the `ValueError` `float` raises. */
  function UsdAfterTick(text: string, drift: real): (r: Option<string>)
    ensures r.Some? ==> |r.value| > 0 && r.value[0] == '$'
    ensures r.None? <==> ParseFloat(RemoveChar(text, '$')).None?
  {
    match ParseFloat(RemoveChar(text, '$'))
    case Some(usd) => Some("$" + MoneyText(usd + drift))
    case None => None
  }

  /** The text a tick writes, read back without its `$` and commas, is the
      amount it read plus the drift, rounded to the cent. */
  lemma WalkReadsBack(text: string, drift: real, usd: real)
    requires ParseFloat(RemoveChar(text, '$')) == Some(usd)
    ensures UsdAfterTick(text, drift).Some?
    ensures ParseFloat(RemoveChar(RemoveChar(UsdAfterTick(text, drift).value, '$'), ','))
      == Some(RoundedToCents(usd + drift))
  {
    var written := "$" + MoneyText(usd + drift);
    assert UsdAfterTick(text, drift) == Some(written);
    FixedTickReadsBack(usd + drift);
  }

  /** The opening text reads as 1122.87. */
  lemma InitialUsdValue()
    ensures ParseFloat(RemoveChar(InitialUsdText, '$')) == Some(1122.87)
  {
    InitialText();
    InitialDigits();
    ParsePointed("1122", "87");
    assert Pointed("1122", "87") == 1122.87 by {
      assert Pow10(2) == 100;
    }
  }

  /** Without its dollar sign the opening text is `1122.87`. */
  lemma InitialText()
    ensures RemoveChar(InitialUsdText, '$') == "1122" + "." + "87"
  {
    var t := "1122.87";
    assert InitialUsdText == "$" + t;
    RemoveCharAppend("$", t, '$');
    assert RemoveChar("$", '$') == [] by {
      assert "$"[..0] == [];
    }
    RemoveCharNone(t, '$');
  }

  lemma InitialDigits()
    ensures AllDigits("1122") && DigitsValue("1122") == 1122
    ensures AllDigits("87") && DigitsValue("87") == 87
  {
    assert "1122"[..3] == "112" && "112"[..2] == "11" && "11"[..1] == "1" && "1"[..0] == [];
    assert "87"[..1] == "8" && "8"[..0] == [];
  }

  /** Any amount of 1000 dollars or more is written with a comma. */
  lemma MoneyTextComma(x: real)
    requires x >= 1000.0
    ensures ',' in MoneyText(x)
  {
    var c := Cents(x);
    FourDigits(c / 100);
    var g := Grouped(NatDecimal(c / 100), ',');
    GroupedSeparates(NatDecimal(c / 100), ',');
    var j :| 0 <= j < |g| && g[j] == ',';
    assert MoneyText(x)[j] == ',';
  }

  /** Once the USD text shows 1000 dollars or more, the next searching tick
      raises: `float` meets the comma its own formatting put there. */
  lemma LargeAmountRaises(x: real, drift: real)
    requires x >= 1000.0
    ensures UsdAfterTick("$" + MoneyText(x), drift).None?
  {
    MoneyTextComma(x);
    RemoveCharKeeps("$" + MoneyText(x), '$', ',');
  }

  /** From the opening text, the first searching tick succeeds and the
      second one raises, whatever the two drifts of `uniform(-2.0, 3.0)`. */
  lemma SecondSearchingTickRaises(drift1: real, drift2: real)
    requires -2.0 <= drift1 <= 3.0
    ensures UsdAfterTick(InitialUsdText, drift1).Some?
    ensures UsdAfterTick(UsdAfterTick(InitialUsdText, drift1).value, drift2).None?
  {
    InitialUsdValue();
    LargeAmountRaises(1122.87 + drift1, drift2);
  }

  /** The tick with the comma removed as well before `float`: the text it
      reads is always one `float` accepts. */
  function UsdAfterTickFixed(text: string, drift: real): (r: Option<string>)
  {
    match ParseFloat(RemoveChar(RemoveChar(text, '$'), ','))
    case Some(usd) => Some("$" + MoneyText(usd + drift))
    case None => None
  }

  /** An amount rounded to the cent, as `MoneyText` writes it. */
  function RoundedToCents(x: real): (r: real)
    ensures -0.005 <= r - x <= 0.005
  {
    var c := Cents(if x < 0.0 then -x else x);
    if x < 0.0 then -(c as real / 100.0) else c as real / 100.0
  }

  /** Digits, a point and more digits read back as their value. */
  lemma ParsePointed(w: string, f: string)
    requires w != [] && f != [] && AllDigits(w) && AllDigits(f)
    ensures ParseUnsigned(w + "." + f) == Some(Pointed(w, f))
  {
    var s := w + "." + f;
    assert s == w + ("." + f);
    PointAfterDigits(w, "." + f);
    var k := PointIndex(s);
    assert k == |w| && k < |s|;
    assert s[..k] == w;
    assert s[k + 1..] == f;
  }

  /** The first point after a run of digits is right after them. */
  lemma {:induction false} PointAfterDigits(w: string, rest: string)
    requires AllDigits(w) && rest != [] && rest[0] == '.'
    ensures PointIndex(w + rest) == |w|
    decreases |w|
  {
    if w == [] {
      assert w + rest == rest;
    } else {
      assert (w + rest)[1..] == w[1..] + rest;
      PointAfterDigits(w[1..], rest);
    }
  }

  /** With the commas removed as well, the text the tick wrote reads back as
      the amount rounded to the cent: the corrected tick never raises. */
  lemma FixedTickReadsBack(x: real)
    ensures ParseFloat(RemoveChar(RemoveChar("$" + MoneyText(x), '$'), ',')) == Some(RoundedToCents(x))
  {
    var negative, c := x < 0.0, Cents(if x < 0.0 then -x else x);
    assert MoneyText(x) == SignedMoney(negative, c);
    assert RoundedToCents(x) == if negative then -(c as real / 100.0) else c as real / 100.0;
    CentsReadBack(negative, c);
  }

  /** The same for a signed amount of cents. */
  lemma CentsReadBack(negative: bool, c: nat)
    ensures ParseFloat(RemoveChar(RemoveChar("$" + SignedMoney(negative, c), '$'), ','))
      == Some(if negative then -(c as real / 100.0) else c as real / 100.0)
  {
    DollarRemoved(negative, c);
    CommasRemoved(negative, c);
    SignedCentsRead(negative, c);
  }

  /** The amount text without separators, read back, is the signed cents. */
  lemma SignedCentsRead(negative: bool, c: nat)
    ensures ParseFloat((if negative then "-" else "") + CentsText(c))
      == Some(if negative then -(c as real / 100.0) else c as real / 100.0)
  {
    CentsRead(c);
    ParseSigned(negative, CentsText(c), c as real / 100.0);
  }

  /** An amount of cents as `MoneyText` writes it, without sign or separators. */
  function CentsText(c: nat): (s: string)
    ensures s != [] && IsDigit(s[0])
  {
    var s := NatDecimal(c / 100) + "." + TwoDigits(c % 100);
    assert s[0] == NatDecimal(c / 100)[0];
    s
  }

  /** A sign before unsigned decimal text negates its value or keeps it. */
  lemma ParseSigned(negative: bool, u: string, v: real)
    requires u != [] && IsDigit(u[0]) && ParseUnsigned(u) == Some(v)
    ensures ParseFloat((if negative then "-" else "") + u) == Some(if negative then -v else v)
  {
    var s := (if negative then "-" else "") + u;
    if negative {
      assert s[0] == '-' && s[1..] == u;
    } else {
      assert s == u;
    }
  }

  /** Removing the dollar sign leaves the amount text. */
  lemma DollarRemoved(negative: bool, c: nat)
    ensures RemoveChar("$" + SignedMoney(negative, c), '$') == SignedMoney(negative, c)
  {
    var d := NatDecimal(c / 100);
    var m := SignedMoney(negative, c);
    GroupedCharacters(d, ',');
    assert forall i :: 0 <= i < |m| ==> m[i] != '$';
    assert "$"[..0] == [];
    RemoveCharAppend("$", m, '$');
    RemoveCharNone(m, '$');
  }

  /** Removing the commas from the amount text leaves the sign, the digits,
      the point and the cents. */
  lemma CommasRemoved(negative: bool, c: nat)
    ensures RemoveChar(SignedMoney(negative, c), ',') == (if negative then "-" else "") + CentsText(c)
  {
    var tt := TwoDigits(c % 100);
    var sign, d := if negative then "-" else "", NatDecimal(c / 100);
    assert SignedMoney(negative, c) == sign + Grouped(d, ',') + ("." + tt);
    Ungrouped(sign, d, "." + tt);
    assert sign + d + ("." + tt) == sign + CentsText(c);
  }

  /** Removing the commas from a sign, grouped digits and a comma-free tail leaves the digits plain. */
  lemma Ungrouped(sign: string, d: string, tail: string)
    requires d != [] && AllDigits(d)
    requires forall i :: 0 <= i < |sign| ==> sign[i] != ','
    requires forall i :: 0 <= i < |tail| ==> tail[i] != ','
    ensures RemoveChar(sign + Grouped(d, ',') + tail, ',') == sign + d + tail
  {
    var g := Grouped(d, ',');
    GroupedRoundTrip(d, ',');
    RemoveCharAppend(sign + g, tail, ',');
    RemoveCharAppend(sign, g, ',');
    RemoveCharNone(sign, ',');
    RemoveCharNone(tail, ',');
  }

  /** The whole part and the two cent digits read back as the cents over 100. */
  lemma CentsRead(c: nat)
    ensures ParseUnsigned(CentsText(c)) == Some(c as real / 100.0)
  {
    var q, r := c / 100, c % 100;
    var w, f := NatDecimal(q), TwoDigits(r);
    ParsePointed(w, f);
    PointedCents(w, f);
    CentsSplit(q, r, c);
  }

  /** Two digits after the point are hundredths. */
  lemma PointedCents(w: string, f: string)
    requires AllDigits(w) && AllDigits(f) && |f| == 2
    ensures Pointed(w, f) == DigitsValue(w) as real + DigitsValue(f) as real / 100.0
  {
    assert Pow10(2) == 100;
  }

  lemma CentsSplit(q: int, r: int, c: int)
    requires c == q * 100 + r
    ensures q as real + r as real / 100.0 == c as real / 100.0
  {
  }

  /** The corrected tick never raises, from any text it wrote itself. */
  lemma FixedTickNeverRaises(x: real, drift: real)
    ensures UsdAfterTickFixed("$" + MoneyText(x), drift).Some?
  {
    FixedTickReadsBack(x);
  }

  /** The state of `CryptoPRApp` the interactions change. */
  class App {
    var walletsChecked: int
    var checkedLabel: string
    var searching: bool
    var startButtonText: string
    var speed: int
    var selectedChains: map<string, bool>
    var usdText: string

    /** The labels show the state, and every chain has a flag. */
    ghost predicate Valid()
      reads this
    {
      checkedLabel == FormatIntWithSpaces(walletsChecked)
      && startButtonText == ButtonText(searching)
      && forall n :: n in selectedChains <==> n in ChainNames
    }

    /** The window as it opens. */
    constructor ()
      ensures Valid()
      ensures walletsChecked == 3830672 && !searching && speed == 10
      ensures selectedChains == InitialSelection()
      ensures usdText == InitialUsdText
    {
      walletsChecked := 3830672;
      checkedLabel := FormatIntWithSpaces(3830672);
      searching := false;
      startButtonText := "Start search";
      speed := 10;
      selectedChains := InitialSelection();
      usdText := InitialUsdText;
    }

    /** `_toggle_chain`: flips the one flag. */
    method ToggleChain(name: string)
      requires Valid() && name in selectedChains
      modifies this`selectedChains
      ensures Valid()
      ensures selectedChains == Toggled(old(selectedChains), name)
    {
      selectedChains := selectedChains[name := !selectedChains[name]];
    }

    /** `_toggle_search`: starts or stops the search and recaptions the button. */
    method ToggleSearch()
      requires Valid()
      modifies this`searching, this`startButtonText
      ensures Valid()
      ensures searching == !old(searching)
      ensures startButtonText == "Stop" <==> searching
    {
      searching := !searching;
      startButtonText := if searching then "Stop" else "Start search";
    }

    /** `_tick`: while searching, adds the increment, redraws the counter
        and walks the USD text by `drift`. The delay before the next tick is
        `Some` unless `float` raised on the USD text, in which case `None`
        is the `ValueError`, no next tick is scheduled, and the counter has
        already been updated. */
    method Tick(roll: int, drift: real) returns (next: Option<int>)
      requires Valid() && 20 <= roll <= 60 && -2.0 <= drift <= 3.0
      modifies this`walletsChecked, this`checkedLabel, this`usdText
      ensures Valid()
      ensures walletsChecked == old(walletsChecked) + (if searching then Increment(speed, roll) else 0)
      ensures !searching ==> usdText == old(usdText) && next == Some(TickDelay(speed))
      ensures searching && UsdAfterTick(old(usdText), drift).None? ==> usdText == old(usdText) && next.None?
      ensures searching && UsdAfterTick(old(usdText), drift).Some? ==>
        usdText == UsdAfterTick(old(usdText), drift).value && next == Some(TickDelay(speed))
    {
      if searching {
        var increment := (if speed < 1 then 1 else speed) * roll;
        walletsChecked := walletsChecked + increment;
        checkedLabel := FormatIntWithSpaces(walletsChecked);
        var walked := UsdAfterTick(usdText, drift);
        if walked.None? {
          return None;
        }
        usdText := walked.value;
      }
      var delayMs := if 600 - speed * 50 > 40 then 600 - speed * 50 else 40;
      next := Some(delayMs);
    }
  }

  /** Opening the window, starting the search and letting two ticks run:
      the first schedules the next tick, the second raises in `float`. */
  method SearchTwice(roll1: int, drift1: real, roll2: int, drift2: real) returns (first: Option<int>, second: Option<int>)
    requires 20 <= roll1 <= 60 && -2.0 <= drift1 <= 3.0
    requires 20 <= roll2 <= 60 && -2.0 <= drift2 <= 3.0
    ensures first == Some(TickDelay(10)) && second.None?
  {
    var app := new App();
    app.ToggleSearch();
    SecondSearchingTickRaises(drift1, drift2);
    first := app.Tick(roll1, drift1);
    second := app.Tick(roll2, drift2);
  }
}
