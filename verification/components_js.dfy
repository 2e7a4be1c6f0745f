/**
 * The editor of `Components.js`, which also asks for the number of
 * children, and its `plural` helper. JavaScript numbers are integers here.
 */
module Components {
  import opened Wrappers
  import App

  /** The editor's state, with the child count. */
  datatype EditorState = EditorState(name: string, numberCount: int, minValue: int, maxValue: int,
                                     changed: bool, happy: bool)

  /** `EditFactoryElem.isHappy(state)`: the rule of the page without the child
    * count, and a child count between 1 and 15. */
  predicate IsHappy(s: EditorState)
  {
    |s.name| > 0 && |s.name| < 256
    && s.numberCount > 0 && s.numberCount <= 15
    && s.minValue > 0 && s.minValue < s.maxValue
    && s.maxValue <= 1000
  }

  lemma IsHappyRefinesApp(s: EditorState)
    ensures IsHappy(s) <==> App.IsHappy(s.name, s.minValue, s.maxValue) && 0 < s.numberCount <= 15
  {
  }

  /** `componentDidUpdate`: validity recomputed from the current fields. */
  function Refresh(s: EditorState): (r: EditorState)
    ensures r.happy == IsHappy(s) && r.(happy := s.happy) == s
  {
    s.(happy := IsHappy(s))
  }

  /** `setNumberCount`: the count and `changed`. */
  function SetNumberCount(s: EditorState, v: int): (r: EditorState)
    ensures r.changed && r.numberCount == v && r.(numberCount := s.numberCount, changed := s.changed) == s
  {
    s.(numberCount := v, changed := true)
  }

  /** `save_disabled = !f.happy || !f.changed`: with validity up to date,
    * save is enabled only for edited, valid fields. */
  function SaveDisabled(s: EditorState): (r: bool)
    ensures r <==> !(s.happy && s.changed)
    ensures s.happy == IsHappy(s) ==> (!r <==> s.changed && IsHappy(s))
  {
    !s.happy || !s.changed
  }

  /** Once refreshed after an edit, save is enabled exactly when the fields,
    * child count included, are valid; a child count outside 1..15 keeps it
    * disabled whatever else holds. */
  lemma SaveRules(s: EditorState, v: int)
    ensures s.changed ==> (SaveDisabled(Refresh(s)) <==> !IsHappy(s))
    ensures !SaveDisabled(Refresh(s)) ==> App.IsHappy(s.name, s.minValue, s.maxValue)
    ensures v < 1 || v > 15 ==> SaveDisabled(Refresh(SetNumberCount(s, v)))
  {
  }

  // ---------------------------------------------------------------------
  // Numbers as text

  function DigitChar(d: int): (c: char)
    requires 0 <= d < 10
    ensures '0' <= c <= '9' && c as int - '0' as int == d
  {
    (d + '0' as int) as char
  }

  predicate AllDigits(s: string)
  {
    forall i :: 0 <= i < |s| ==> '0' <= s[i] <= '9'
  }

  /** The decimal text of `n`, no leading zero. */
  function NatToString(n: nat): (r: string)
    ensures |r| >= 1 && AllDigits(r)
    ensures |r| > 1 ==> r[0] != '0'
  {
    if n < 10 then [DigitChar(n)]
    else
      var prefix := NatToString(n / 10);
      prefix + [DigitChar(n % 10)]
  }

  /** The number a digit string denotes. */
  function DigitsValue(s: string): nat
    requires AllDigits(s)
  {
    if s == [] then 0
    else DigitsValue(s[..|s| - 1]) * 10 + (s[|s| - 1] as int - '0' as int)
  }

  lemma {:induction false} DigitsValueRoundTrip(n: nat)
    ensures DigitsValue(NatToString(n)) == n
  {
    if n >= 10 {
      var r := NatToString(n);
      assert r[..|r| - 1] == NatToString(n / 10);
      DigitsValueRoundTrip(n / 10);
    }
  }

  /** `'' + value` for an integer. */
  function IntToString(i: int): (r: string)
    ensures r != [] && (i < 0 <==> r[0] == '-')
    ensures forall k :: 0 <= k < |r| ==> r[k] != ' '
  {
    if i < 0 then "-" + NatToString(-i) else NatToString(i)
  }

  /** Reads back the text `IntToString` writes. */
  function ParseInt(s: string): Option<int>
  {
    if s != [] && s[0] == '-' && |s| > 1 && AllDigits(s[1..]) then Some(-(DigitsValue(s[1..]) as int))
    else if s != [] && AllDigits(s) then Some(DigitsValue(s))
    else None
  }

  lemma IntToStringRoundTrip(i: int)
    ensures ParseInt(IntToString(i)) == Some(i)
  {
    if i < 0 {
      NegativeRoundTrip(-i);
    } else {
      NonNegativeRoundTrip(i);
    }
  }

  lemma NegativeRoundTrip(n: nat)
    ensures ParseInt("-" + NatToString(n)) == Some(-(n as int))
  {
    var digits := NatToString(n);
    var r := "-" + digits;
    assert r[1..] == digits;
    DigitsValueRoundTrip(n);
  }

  lemma NonNegativeRoundTrip(n: nat)
    ensures ParseInt(NatToString(n)) == Some(n)
  {
    var r := NatToString(n);
    assert r[0] != '-';
    DigitsValueRoundTrip(n);
  }

  /** `plural(value, singular, plural)` */
  function Plural(value: int, singular: string, plural: string): string
  {
    if value == 1 then IntToString(value) + " " + singular
    else IntToString(value) + " " + plural
  }

  /** The text up to the first space is the number, which reads back as
    * `value`; the rest is the singular word for 1 and the plural otherwise. */
  lemma PluralSpec(value: int, singular: string, plural: string)
    ensures var r := Plural(value, singular, plural);
            var n := |IntToString(value)|;
            && n < |r| && r[n] == ' '
            && (forall k :: 0 <= k < n ==> r[k] != ' ')
            && ParseInt(r[..n]) == Some(value)
            && r[n + 1..] == (if value == 1 then singular else plural)
  {
    var r := Plural(value, singular, plural);
    var t := IntToString(value);
    assert r == t + " " + (if value == 1 then singular else plural);
    assert r[..|t|] == t;
    IntToStringRoundTrip(value);
  }
}
