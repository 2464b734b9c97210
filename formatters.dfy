/**
 * The two keystroke formatters of the application form: the phone number
 * (`ddd-ddd-dddd`) and the Thai national ID number (`d dddd ddddd dd d`).
 * Each keeps the ASCII digits of what was typed, truncates them, and
 * inserts a separator between groups of digits, choosing the layout by
 * how many digits remain.
 *
 * `Group` is an independent reference definition of "split into groups of
 * these sizes, separated by this character"; the lemmas show that each
 * formatter is an instance of it and derive the promised properties from
 * general facts about `Group`.
 */
module Formatters {
  import opened Text

  /**
   * The sizes of the leading groups of a layout; whatever follows the
   * last size forms one final group.
   */
  datatype Sizes = End | Then(size: nat, rest: Sizes)

  const PhoneMaxDigits: nat := 10
  const PhoneSeparator: char := '-'
  const PhoneSizes: Sizes := Then(3, Then(3, End))

  const IdCardMaxDigits: nat := 13
  const IdCardSeparator: char := ' '
  const IdCardSizes: Sizes := Then(1, Then(4, Then(5, Then(2, End))))

  /** The phone number input handler: what the field holds after an input event. */
  function FormatPhone(value: string): (r: string)
    ensures |r| <= 12
  {
    var input := DigitsOnly(value);
    if |input| > 0 then LayOutPhone(Take(input, PhoneMaxDigits)) else ""
  }

  /** The length-selected branches of the phone handler, applied to the truncated digits. */
  function LayOutPhone(input: string): (r: string)
    requires |input| <= PhoneMaxDigits
    ensures |r| <= 12
  {
    if |input| > 6 then input[..3] + "-" + input[3..6] + "-" + input[6..]
    else if |input| > 3 then input[..3] + "-" + input[3..]
    else input
  }

  /** The ID card input handler: what the field holds after an input event. */
  function FormatIdCard(value: string): (r: string)
    ensures |r| <= 17
  {
    var input := DigitsOnly(value);
    if |input| > 0 then LayOutIdCard(Take(input, IdCardMaxDigits)) else ""
  }

  /** The length-selected branches of the ID card handler, applied to the truncated digits. */
  function LayOutIdCard(input: string): (r: string)
    requires |input| <= IdCardMaxDigits
    ensures |r| <= 17
  {
    if |input| > 12 then input[..1] + " " + input[1..5] + " " + input[5..10] + " " + input[10..12] + " " + input[12..]
    else if |input| > 10 then input[..1] + " " + input[1..5] + " " + input[5..10] + " " + input[10..]
    else if |input| > 5 then input[..1] + " " + input[1..5] + " " + input[5..]
    else if |input| > 1 then input[..1] + " " + input[1..]
    else input
  }

  // ---------------------------------------------------------------------
  // Reference layout

  /**
   * `t` cut into groups of the given sizes with `sep` between consecutive
   * groups; a separator is written only when characters remain after the
   * group, and whatever is left after the last size forms the final group.
   */
  function Group(t: string, sizes: Sizes, sep: char): string
  {
    match sizes
    case End => t
    case Then(k, rest) => if |t| <= k then t else t[..k] + [sep] + Group(t[k..], rest, sep)
  }

  /** The number of separators `Group` writes for `n` characters. */
  function Breaks(n: nat, sizes: Sizes): nat
  {
    match sizes
    case End => 0
    case Then(k, rest) => if n <= k then 0 else 1 + Breaks(n - k, rest)
  }

  lemma GroupSplit(t: string, k: nat, rest: Sizes, sep: char)
    requires |t| > k
    ensures Group(t, Then(k, rest), sep) == t[..k] + [sep] + Group(t[k..], rest, sep)
  {
  }

  lemma GroupStop(t: string, k: nat, rest: Sizes, sep: char)
    requires |t| <= k
    ensures Group(t, Then(k, rest), sep) == t
  {
  }

  lemma {:induction false} GroupLength(t: string, sizes: Sizes, sep: char)
    ensures |Group(t, sizes, sep)| == |t| + Breaks(|t|, sizes)
  {
    match sizes
    case End =>
    case Then(k, rest) =>
      if |t| > k {
        GroupLength(t[k..], rest, sep);
      }
  }

  /** Deleting the separators from a grouping gives back the grouped text. */
  lemma {:induction false} GroupWithout(t: string, sizes: Sizes, sep: char)
    requires forall i :: 0 <= i < |t| ==> t[i] != sep
    ensures Without(Group(t, sizes, sep), sep) == t
  {
    match sizes
    case End =>
    case Then(k, rest) =>
      if |t| > k {
        var head, tail := t[..k], t[k..];
        calc {
          Without(Group(t, sizes, sep), sep);
          { GroupSplit(t, k, rest, sep); }
          Without(head + [sep] + Group(tail, rest, sep), sep);
          { WithoutAroundSeparator(head, Group(tail, rest, sep), sep); }
          head + Without(Group(tail, rest, sep), sep);
          { GroupWithout(tail, rest, sep); }
          head + tail;
          t;
        }
      }
  }

  lemma WithoutAroundSeparator(head: string, rest: string, sep: char)
    requires forall i :: 0 <= i < |head| ==> head[i] != sep
    ensures Without(head + [sep] + rest, sep) == head + Without(rest, sep)
  {
    calc {
      Without(head + [sep] + rest, sep);
      { WithoutConcat(head + [sep], rest, sep); }
      Without(head + [sep], sep) + Without(rest, sep);
      { WithoutConcat(head, [sep], sep); }
      Without(head, sep) + Without([sep], sep) + Without(rest, sep);
      { assert [sep][1..] == []; }
      head + [] + Without(rest, sep);
    }
  }

  /** Grouping adds exactly `Breaks` separators. */
  lemma {:induction false} GroupOccurrences(t: string, sizes: Sizes, sep: char)
    requires forall i :: 0 <= i < |t| ==> t[i] != sep
    ensures Occurrences(Group(t, sizes, sep), sep) == Breaks(|t|, sizes)
  {
    match sizes
    case End =>
    case Then(k, rest) =>
      if |t| > k {
        GroupOccurrences(t[k..], rest, sep);
        OccurrencesConcat(t[..k] + [sep], Group(t[k..], rest, sep), sep);
        OccurrencesConcat(t[..k], [sep], sep);
      }
  }

  /** A separator that is not a digit is dropped again by the digit filter. */
  lemma {:induction false} GroupDigits(t: string, sizes: Sizes, sep: char)
    requires AllDigits(t) && !IsAsciiDigit(sep)
    ensures DigitsOnly(Group(t, sizes, sep)) == t
  {
    match sizes
    case End =>
      DigitsOnlyOfDigits(t);
    case Then(k, rest) =>
      if |t| > k {
        var head, tail := t[..k], t[k..];
        assert AllDigits(head) by { assert forall i :: 0 <= i < k ==> head[i] == t[i]; }
        assert AllDigits(tail) by { assert forall i :: 0 <= i < |tail| ==> tail[i] == t[k + i]; }
        calc {
          DigitsOnly(Group(t, sizes, sep));
          { GroupSplit(t, k, rest, sep); }
          DigitsOnly(head + [sep] + Group(tail, rest, sep));
          { DigitsAroundSeparator(head, Group(tail, rest, sep), sep); }
          head + DigitsOnly(Group(tail, rest, sep));
          { GroupDigits(tail, rest, sep); }
          head + tail;
          t;
        }
      } else {
        DigitsOnlyOfDigits(t);
      }
  }

  lemma DigitsAroundSeparator(head: string, rest: string, sep: char)
    requires AllDigits(head) && !IsAsciiDigit(sep)
    ensures DigitsOnly(head + [sep] + rest) == head + DigitsOnly(rest)
  {
    calc {
      DigitsOnly(head + [sep] + rest);
      { DigitsOnlyConcat(head + [sep], rest); }
      DigitsOnly(head + [sep]) + DigitsOnly(rest);
      { DigitsOnlyConcat(head, [sep]); }
      DigitsOnly(head) + DigitsOnly([sep]) + DigitsOnly(rest);
      { DigitsOnlyOfDigits(head); assert [sep][1..] == []; }
      head + [] + DigitsOnly(rest);
    }
  }

  /** A grouping of digits holds nothing but digits and the separator. */
  lemma {:induction false} GroupCharset(t: string, sizes: Sizes, sep: char)
    requires AllDigits(t)
    ensures forall i :: 0 <= i < |Group(t, sizes, sep)| ==>
              IsAsciiDigit(Group(t, sizes, sep)[i]) || Group(t, sizes, sep)[i] == sep
  {
    match sizes
    case End =>
    case Then(k, rest) =>
      if |t| > k {
        GroupCharset(t[k..], rest, sep);
      }
  }

  // ---------------------------------------------------------------------
  // Phone number

  /** The three shapes of the phone grouping, for any separator. */
  lemma PhoneShapes(t: string, sep: char)
    ensures |t| > 6 ==> Group(t, PhoneSizes, sep) == t[..3] + [sep] + t[3..6] + [sep] + t[6..]
    ensures 3 < |t| <= 6 ==> Group(t, PhoneSizes, sep) == t[..3] + [sep] + t[3..]
    ensures |t| <= 3 ==> Group(t, PhoneSizes, sep) == t
  {
    if |t| > 3 {
      var u := t[3..];
      GroupSplit(t, 3, Then(3, End), sep);
      if |u| > 3 {
        GroupSplit(u, 3, End, sep);
        assert u[..3] == t[3..6] && u[3..] == t[6..];
      } else {
        GroupStop(u, 3, End, sep);
      }
    } else {
      GroupStop(t, 3, Then(3, End), sep);
    }
  }

  /** The phone layout is the grouping 3, 3 and the rest, with dashes. */
  lemma PhoneLayoutIsGrouping(t: string)
    requires |t| <= PhoneMaxDigits
    ensures LayOutPhone(t) == Group(t, PhoneSizes, PhoneSeparator)
  {
    PhoneShapes(t, PhoneSeparator);
  }

  /** The phone formatter lays out the first ten digits in groups of 3, 3 and the rest. */
  lemma PhoneIsGrouping(value: string)
    ensures FormatPhone(value) == Group(Take(DigitsOnly(value), PhoneMaxDigits), PhoneSizes, PhoneSeparator)
  {
    var t := Take(DigitsOnly(value), PhoneMaxDigits);
    PhoneLayoutIsGrouping(t);
  }

  /** Where the separators of a phone grouping of digits fall. */
  lemma PhoneSeparatorPositions(t: string, sep: char)
    requires AllDigits(t) && !IsAsciiDigit(sep)
    ensures var r := Group(t, PhoneSizes, sep);
            forall i :: 0 <= i < |r| ==> (r[i] == sep <==> i == 3 || i == 7)
  {
    PhoneShapes(t, sep);
    var r := Group(t, PhoneSizes, sep);
    forall i | 0 <= i < |r|
      ensures r[i] == sep <==> i == 3 || i == 7
    {
      var shift := if i > 7 then 2 else if i > 3 then 1 else 0;
      if i != 3 && i != 7 {
        assert r[i] == t[i - shift];
      }
    }
  }

  /**
   * The output holds only ASCII digits and dashes; deleting the dashes (or
   * keeping only the digits) gives exactly the first min(10, n) digits of
   * the input, in order.
   */
  lemma PhoneKeepsDigits(value: string)
    ensures forall i :: 0 <= i < |FormatPhone(value)| ==>
              IsAsciiDigit(FormatPhone(value)[i]) || FormatPhone(value)[i] == '-'
    ensures Without(FormatPhone(value), '-') == Take(DigitsOnly(value), 10)
    ensures DigitsOnly(FormatPhone(value)) == Take(DigitsOnly(value), 10)
  {
    var t := Take(DigitsOnly(value), PhoneMaxDigits);
    PhoneIsGrouping(value);
    GroupCharset(t, PhoneSizes, PhoneSeparator);
    GroupWithout(t, PhoneSizes, PhoneSeparator);
    GroupDigits(t, PhoneSizes, PhoneSeparator);
  }

  /** An input without ASCII digits (empty, letters, Thai digits) clears the field, and only such an input does. */
  lemma PhoneEmpty(value: string)
    ensures FormatPhone(value) == "" <==> forall i :: 0 <= i < |value| ==> !IsAsciiDigit(value[i])
  {
    PhoneKeepsDigits(value);
    DigitsOnlyEmpty(value);
  }

  /**
   * With n = min(10, digits of the input): no dash for n <= 3, one for
   * 4 <= n <= 6, two for n >= 7; the dashes sit exactly at positions 3
   * and 7; the output is n plus the dashes long, at most 12.
   */
  lemma PhoneDashes(value: string)
    ensures var n := |Take(DigitsOnly(value), 10)|;
            var dashes := if n > 6 then 2 else if n > 3 then 1 else 0;
            && Occurrences(FormatPhone(value), '-') == dashes
            && |FormatPhone(value)| == n + dashes <= 12
            && forall i :: 0 <= i < |FormatPhone(value)| ==> (FormatPhone(value)[i] == '-' <==> i == 3 || i == 7)
  {
    var t := Take(DigitsOnly(value), PhoneMaxDigits);
    PhoneIsGrouping(value);
    GroupOccurrences(t, PhoneSizes, PhoneSeparator);
    GroupLength(t, PhoneSizes, PhoneSeparator);
    PhoneSeparatorPositions(t, PhoneSeparator);
  }

  /** Re-running the handler on the value it produced changes nothing. */
  lemma PhoneIdempotent(value: string)
    ensures FormatPhone(FormatPhone(value)) == FormatPhone(value)
  {
    var t := Take(DigitsOnly(value), PhoneMaxDigits);
    PhoneKeepsDigits(value);
    PhoneIsGrouping(value);
    PhoneIsGrouping(FormatPhone(value));
    assert Take(t, PhoneMaxDigits) == t;
  }

  // ---------------------------------------------------------------------
  // ID card number

  /** Peeling the first two groups off a grouping. */
  lemma GroupTwoSplits(t: string, a: nat, b: nat, rest: Sizes, sep: char)
    requires |t| > a + b
    ensures Group(t, Then(a, Then(b, rest)), sep) == t[..a] + [sep] + t[a..a + b] + [sep] + Group(t[a + b..], rest, sep)
  {
    var u := t[a..];
    GroupSplit(t, a, Then(b, rest), sep);
    GroupSplit(u, b, rest, sep);
    assert u[..b] == t[a..a + b] && u[b..] == t[a + b..];
  }

  /** The five shapes of the ID card grouping, for any separator. */
  lemma IdCardShapes(t: string, sep: char)
    ensures |t| > 12 ==> Group(t, IdCardSizes, sep) == t[..1] + [sep] + t[1..5] + [sep] + t[5..10] + [sep] + t[10..12] + [sep] + t[12..]
    ensures 10 < |t| <= 12 ==> Group(t, IdCardSizes, sep) == t[..1] + [sep] + t[1..5] + [sep] + t[5..10] + [sep] + t[10..]
    ensures 5 < |t| <= 10 ==> Group(t, IdCardSizes, sep) == t[..1] + [sep] + t[1..5] + [sep] + t[5..]
    ensures 1 < |t| <= 5 ==> Group(t, IdCardSizes, sep) == t[..1] + [sep] + t[1..]
    ensures |t| <= 1 ==> Group(t, IdCardSizes, sep) == t
  {
    if |t| > 5 {
      GroupTwoSplits(t, 1, 4, Then(5, Then(2, End)), sep);
      var v := t[5..];
      if |v| > 7 {
        GroupTwoSplits(v, 5, 2, End, sep);
        assert v[..5] == t[5..10] && v[5..7] == t[10..12] && v[7..] == t[12..];
      } else if |v| > 5 {
        GroupSplit(v, 5, Then(2, End), sep);
        GroupStop(v[5..], 2, End, sep);
        assert v[..5] == t[5..10] && v[5..] == t[10..];
      } else {
        GroupStop(v, 5, Then(2, End), sep);
      }
    } else if |t| > 1 {
      GroupSplit(t, 1, Then(4, Then(5, Then(2, End))), sep);
      GroupStop(t[1..], 4, Then(5, Then(2, End)), sep);
    } else {
      GroupStop(t, 1, Then(4, Then(5, Then(2, End))), sep);
    }
  }

  /** The ID card layout is the grouping 1, 4, 5, 2 and the rest, with spaces. */
  lemma IdCardLayoutIsGrouping(t: string)
    requires |t| <= IdCardMaxDigits
    ensures LayOutIdCard(t) == Group(t, IdCardSizes, IdCardSeparator)
  {
    IdCardShapes(t, IdCardSeparator);
  }

  /** The ID formatter lays out the first 13 digits in groups of 1, 4, 5, 2 and the rest. */
  lemma IdCardIsGrouping(value: string)
    ensures FormatIdCard(value) == Group(Take(DigitsOnly(value), IdCardMaxDigits), IdCardSizes, IdCardSeparator)
  {
    var t := Take(DigitsOnly(value), IdCardMaxDigits);
    IdCardLayoutIsGrouping(t);
  }

  /** Where the separators of an ID card grouping of digits fall. */
  lemma IdCardSeparatorPositions(t: string, sep: char)
    requires AllDigits(t) && !IsAsciiDigit(sep) && |t| <= IdCardMaxDigits
    ensures var r := Group(t, IdCardSizes, sep);
            forall i :: 0 <= i < |r| ==> (r[i] == sep <==> i == 1 || i == 6 || i == 12 || i == 15)
  {
    IdCardShapes(t, sep);
    var r := Group(t, IdCardSizes, sep);
    forall i | 0 <= i < |r|
      ensures r[i] == sep <==> i == 1 || i == 6 || i == 12 || i == 15
    {
      var shift := if i > 15 then 4 else if i > 12 then 3 else if i > 6 then 2 else if i > 1 then 1 else 0;
      if !(i == 1 || i == 6 || i == 12 || i == 15) {
        assert r[i] == t[i - shift];
      }
    }
  }

  /**
   * The output holds only ASCII digits and spaces; deleting the spaces (or
   * keeping only the digits) gives exactly the first min(13, n) digits of
   * the input, in order.
   */
  lemma IdCardKeepsDigits(value: string)
    ensures forall i :: 0 <= i < |FormatIdCard(value)| ==>
              IsAsciiDigit(FormatIdCard(value)[i]) || FormatIdCard(value)[i] == ' '
    ensures Without(FormatIdCard(value), ' ') == Take(DigitsOnly(value), 13)
    ensures DigitsOnly(FormatIdCard(value)) == Take(DigitsOnly(value), 13)
  {
    var t := Take(DigitsOnly(value), IdCardMaxDigits);
    IdCardIsGrouping(value);
    GroupCharset(t, IdCardSizes, IdCardSeparator);
    GroupWithout(t, IdCardSizes, IdCardSeparator);
    GroupDigits(t, IdCardSizes, IdCardSeparator);
  }

  /** An input without ASCII digits clears the field, and only such an input does. */
  lemma IdCardEmpty(value: string)
    ensures FormatIdCard(value) == "" <==> forall i :: 0 <= i < |value| ==> !IsAsciiDigit(value[i])
  {
    IdCardKeepsDigits(value);
    DigitsOnlyEmpty(value);
  }

  /**
   * With n = min(13, digits of the input): no space for n <= 1, one for
   * 2..5, two for 6..10, three for 11..12, four for 13; the spaces sit
   * exactly at positions 1, 6, 12 and 15; the output is at most 17 long.
   */
  lemma IdCardSpaces(value: string)
    ensures var n := |Take(DigitsOnly(value), 13)|;
            var spaces := if n > 12 then 4 else if n > 10 then 3 else if n > 5 then 2 else if n > 1 then 1 else 0;
            && Occurrences(FormatIdCard(value), ' ') == spaces
            && |FormatIdCard(value)| == n + spaces <= 17
            && forall i :: 0 <= i < |FormatIdCard(value)| ==>
                 (FormatIdCard(value)[i] == ' ' <==> i == 1 || i == 6 || i == 12 || i == 15)
  {
    var t := Take(DigitsOnly(value), IdCardMaxDigits);
    IdCardIsGrouping(value);
    GroupOccurrences(t, IdCardSizes, IdCardSeparator);
    GroupLength(t, IdCardSizes, IdCardSeparator);
    IdCardSeparatorPositions(t, IdCardSeparator);
  }

  /** Re-running the handler on the value it produced changes nothing. */
  lemma IdCardIdempotent(value: string)
    ensures FormatIdCard(FormatIdCard(value)) == FormatIdCard(value)
  {
    var t := Take(DigitsOnly(value), IdCardMaxDigits);
    IdCardKeepsDigits(value);
    IdCardIsGrouping(value);
    IdCardIsGrouping(FormatIdCard(value));
    assert Take(t, IdCardMaxDigits) == t;
  }
}
