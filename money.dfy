/** `formatRp` (script.js:36-39): a price in rupiah, with the thousands
    separated by dots, as in "Rp30.000". */
module Money {
  import opened JsText

  /** A JavaScript number as far as prices go: NaN or a natural number. */
  datatype Number = NaN | Nat(n: nat)

  /** Deletes every '.'. */
  function StripDots(s: string): (r: string)
    ensures '.' !in r
    ensures '.' !in s ==> r == s
  {
    if s == [] then [] else (if s[0] == '.' then [] else [s[0]]) + StripDots(s[1..])
  }

  lemma {:induction false} StripDotsConcat(a: string, b: string)
    ensures StripDots(a + b) == StripDots(a) + StripDots(b)
    decreases |a|
  {
    if a != [] {
      assert (a + b)[1..] == a[1..] + b;
      StripDotsConcat(a[1..], b);
    } else {
      assert a + b == b;
    }
  }

  /** Appending a dot and a dot-free group adds one group. */
  lemma AppendGroup(g: string, last: string)
    requires '.' !in last
    ensures Split(g + ['.'] + last, '.') == Split(g, '.') + [last]
  {
    var groups := Split(g, '.');
    var parts := groups + [last];
    JoinSnoc(groups, last, '.');
    assert forall k :: 0 <= k < |parts| ==> '.' !in parts[k] by {
      forall k | 0 <= k < |parts| ensures '.' !in parts[k] {
        if k < |groups| { assert parts[k] == groups[k]; }
      }
    }
    SplitJoin(parts, '.');
  }

  /** ... and keeps the digits. */
  lemma AppendGroupDigits(g: string, last: string)
    ensures StripDots(g + ['.'] + last) == StripDots(g) + StripDots(last)
  {
    var dot: string := ['.'];
    assert StripDots(dot) == [] by {
      assert dot[0] == '.' && dot[1..] == [];
    }
    StripDotsConcat(g, dot);
    StripDotsConcat(g + dot, last);
  }

  /** The digit groups of a grouped numeral: the first has one to three
      digits, every later one exactly three. */
  predicate WellGrouped(groups: seq<string>) {
    |groups| >= 1 && 1 <= |groups[0]| <= 3 && forall k :: 1 <= k < |groups| ==> |groups[k]| == 3
  }

  /** The effect of `replace(/\B(?=(\d{3})+(?!\d))/g, '.')` on a string of
      digits: a dot goes between two digits exactly where the digits to the
      right of that point are a positive multiple of three. */
  function GroupThousands(ds: string): (r: string)
    requires ds != [] && '.' !in ds
    ensures StripDots(r) == ds
    ensures WellGrouped(Split(r, '.'))
    decreases |ds|
  {
    if |ds| <= 3 then
      assert Split(ds, '.') == [ds];
      ds
    else
      var head, last := ds[..|ds| - 3], ds[|ds| - 3..];
      assert ds == head + last;
      var g := GroupThousands(head);
      AppendGroup(g, last);
      AppendGroupDigits(g, last);
      g + ['.'] + last
  }

  /** `formatRp(v)`. */
  function FormatRp(v: Number): (r: string)
    ensures |r| > 2 && r[..2] == "Rp"
    ensures v.NaN? ==> r == "Rp0"
    ensures v.Nat? ==> WellGrouped(Split(r[2..], '.'))
    ensures v.Nat? ==> StripDots(r[2..]) == DecimalDigits(v.n)
    ensures v.Nat? ==> AllDigits(StripDots(r[2..])) && ValueOf(StripDots(r[2..])) == v.n
  {
    match v
    case NaN => "Rp0"
    case Nat(n) =>
      var r := "Rp" + GroupThousands(DecimalDigits(n));
      assert r[2..] == GroupThousands(DecimalDigits(n));
      r
  }
}
