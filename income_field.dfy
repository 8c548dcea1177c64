/** The annual-income field of the second wizard step: the text typed is
    reduced to digits and '.', and the value shown groups the whole part in
    thousands with commas. */
module IncomeField {
  import opened JsText

  predicate NotComma(c: char) { c != ',' }

  /** The string with its commas deleted. The field never calls this; it
      is the inverse against which the comma insertion is specified. */
  function RemoveCommas(s: string): (r: string)
    ensures ',' !in r
  {
    FilterMembership(NotComma, s, ',');
    Filter(NotComma, s)
  }

  /** `replace(/\B(?=(\d{3})+(?!\d))/g, ',')` on a run of digits: a comma at
      every inner position followed by a multiple of three digits. */
  function GroupThousands(d: string): (r: string)
    ensures |d| <= |r|
    decreases |d|
  {
    if |d| <= 3 then d else GroupThousands(d[..|d| - 3]) + "," + d[|d| - 3..]
  }

  /** The comma-separated groups `GroupThousands` produces, from the left. */
  function Groups(d: string): seq<string>
    decreases |d|
  {
    if |d| <= 3 then [d] else Groups(d[..|d| - 3]) + [d[|d| - 3..]]
  }

  lemma {:induction false} JoinSnoc(parts: seq<string>, last: string, sep: char)
    requires |parts| >= 1
    ensures Join(parts + [last], sep) == Join(parts, sep) + [sep] + last
  {
    if |parts| == 1 {
      assert (parts + [last])[1..] == [last];
    } else {
      assert (parts + [last])[1..] == parts[1..] + [last];
      JoinSnoc(parts[1..], last, sep);
    }
  }

  /** The groups: the first has one to three digits, every later one exactly
      three, and no group holds a comma. */
  lemma {:induction false} GroupsShape(d: string)
    requires |d| > 0 && ',' !in d
    ensures var g := Groups(d);
      && 1 <= |g[0]| <= 3
      && (forall k :: 1 <= k < |g| ==> |g[k]| == 3)
      && (forall k :: 0 <= k < |g| ==> ',' !in g[k])
      && GroupThousands(d) == Join(g, ',')
    decreases |d|
  {
    if |d| > 3 {
      var front := d[..|d| - 3];
      assert forall c :: c in front ==> c in d;
      assert forall c :: c in d[|d| - 3..] ==> c in d;
      GroupsShape(front);
      JoinSnoc(Groups(front), d[|d| - 3..], ',');
    }
  }

  /** Grouping only inserts commas. */
  lemma {:induction false} GroupThousandsRemoveCommas(d: string)
    requires ',' !in d
    ensures RemoveCommas(GroupThousands(d)) == d
    decreases |d|
  {
    if |d| <= 3 {
      FilterKeepsAll(NotComma, d);
    } else {
      var front, back := d[..|d| - 3], d[|d| - 3..];
      assert d == front + back;
      NoCommaInParts(front, back);
      var g := GroupThousands(front);
      assert GroupThousands(d) == g + [','] + back;
      GroupThousandsRemoveCommas(front);
      FilterKeepsAll(NotComma, back);
      FilterSkip(NotComma, g, ',', back);
    }
  }

  /** A character the filter drops can be skipped. */
  lemma FilterSkip(keep: char -> bool, a: string, c: char, b: string)
    requires !keep(c)
    ensures Filter(keep, a + [c] + b) == Filter(keep, a) + Filter(keep, b)
  {
    FilterAppend(keep, a, [c] + b);
    assert a + [c] + b == a + ([c] + b);
    assert ([c] + b)[1..] == b;
  }

  lemma NoCommaInParts(a: string, b: string)
    requires ',' !in a + b
    ensures ',' !in a && AllChars(b, NotComma)
  {
    forall i | 0 <= i < |b|
      ensures NotComma(b[i])
    {
      assert (a + b)[|a| + i] == b[i];
    }
  }

  /** Splitting the grouped digits at the commas gives one to three leading
      digits and then full groups of three, and deleting the commas gives
      the digits back: a comma precedes every full group of three counted
      from the right, and never stands first. */
  lemma GroupThousandsShape(d: string)
    requires |d| > 0 && ',' !in d
    ensures var g := Split(GroupThousands(d), ',');
      && 1 <= |g[0]| <= 3
      && (forall k :: 1 <= k < |g| ==> |g[k]| == 3)
      && RemoveCommas(GroupThousands(d)) == d
  {
    GroupsShape(d);
    SplitJoin(Groups(d), ',');
    GroupThousandsRemoveCommas(d);
  }

  /** The position of the first '.', or the length when there is none. */
  function FirstDot(s: string): (n: nat)
    ensures n <= |s| && '.' !in s[..n]
    ensures n < |s| ==> s[n] == '.'
  {
    if s == [] then 0
    else if s[0] == '.' then 0
    else
      var n := 1 + FirstDot(s[1..]);
      assert s[..n] == [s[0]] + s[1..][..n - 1];
      n
  }

  /** `formatCurrency(value)`. */
  function FormatCurrency(value: string): string {
    var numeric := KeepNumeric(value);
    if numeric == "" then ""
    else
      var parts := Split(numeric, '.');
      Join([GroupThousands(parts[0])] + parts[1..], '.')
  }

  /** The formatted text is the grouped whole part followed, unchanged, by
      everything from the first '.' on (further dots included). */
  lemma FormatCurrencyParts(value: string)
    requires KeepNumeric(value) != ""
    ensures var numeric := KeepNumeric(value);
      var n := FirstDot(numeric);
      FormatCurrency(value) == GroupThousands(numeric[..n]) + numeric[n..]
  {
    var numeric := KeepNumeric(value);
    var parts := Split(numeric, '.');
    SplitHead(numeric, '.');
    JoinReplaceHead(parts, GroupThousands(parts[0]), '.');
    JoinSplit(numeric, '.');
    FirstDotIsSplitHead(numeric);
  }

  lemma {:induction false} FirstDotIsSplitHead(s: string)
    ensures |Split(s, '.')[0]| == FirstDot(s)
  {
    if s != [] && s[0] != '.' {
      FirstDotIsSplitHead(s[1..]);
    }
  }

  /** The field shows '' exactly when no digit or '.' was typed. */
  lemma FormatCurrencyEmpty(value: string)
    ensures FormatCurrency(value) == "" <==> KeepNumeric(value) == ""
  {
    var numeric := KeepNumeric(value);
    if numeric != "" {
      FormatCurrencyParts(value);
      var n := FirstDot(numeric);
      assert |numeric[..n] + numeric[n..]| > 0 by { assert numeric[..n] + numeric[n..] == numeric; }
    }
  }

  /** Commas are all that formatting adds: deleting them gives back the
      digits and dots of the input, in order. */
  lemma FormatCurrencyRemoveCommas(value: string)
    ensures RemoveCommas(FormatCurrency(value)) == KeepNumeric(value)
  {
    var numeric := KeepNumeric(value);
    FilterMembership(IsNumericChar, value, ',');
    if numeric == "" {
    } else {
      FormatCurrencyParts(value);
      var n := FirstDot(numeric);
      var whole, tail := numeric[..n], numeric[n..];
      assert whole + tail == numeric;
      assert forall c :: c in whole ==> c in numeric;
      assert forall c :: c in tail ==> c in numeric;
      GroupThousandsRemoveCommas(whole);
      FilterAppend(NotComma, GroupThousands(whole), tail);
      assert AllChars(tail, NotComma);
      FilterKeepsAll(NotComma, tail);
    }
  }

  /** Before the first '.', the formatted text is the whole part grouped in
      thousands. */
  lemma FormatCurrencyWholePart(value: string)
    requires KeepNumeric(value) != "" && FirstDot(KeepNumeric(value)) > 0
    ensures var numeric := KeepNumeric(value);
      var whole := GroupThousands(numeric[..FirstDot(numeric)]);
      var g := Split(whole, ',');
      && |whole| <= |FormatCurrency(value)| && FormatCurrency(value)[..|whole|] == whole
      && 1 <= |g[0]| <= 3
      && (forall k :: 1 <= k < |g| ==> |g[k]| == 3)
      && RemoveCommas(whole) == numeric[..FirstDot(numeric)]
  {
    var numeric := KeepNumeric(value);
    var n := FirstDot(numeric);
    FormatCurrencyParts(value);
    FilterMembership(IsNumericChar, value, ',');
    assert forall c :: c in numeric[..n] ==> c in numeric;
    GroupThousandsShape(numeric[..n]);
  }

  /** The `onChangeText` handler: the value stored for the field. */
  function OnChangeText(text: string): (r: string)
    ensures AllChars(r, IsNumericChar)
    ensures |r| <= |text|
  {
    KeepNumeric(text)
  }

  /** Storing the filtered text loses nothing the display shows: the
      stored value is unchanged by filtering again and is displayed exactly
      as the raw text would be. */
  lemma StoredValueDisplaysAsTyped(text: string)
    ensures OnChangeText(OnChangeText(text)) == OnChangeText(text)
    ensures FormatCurrency(OnChangeText(text)) == FormatCurrency(text)
  {
    FilterIdempotent(IsNumericChar, text);
  }

  /** "75000" is shown as "75,000". */
  lemma FormatExample(value: string)
    requires value == "75000"
    ensures FormatCurrency(value) == "75,000"
  {
    ExampleIsNumeric();
    ExampleHasNoDot();
    ExampleGrouped();
    FormatCurrencyParts(value);
    assert value[..5] == value && value[5..] == "";
  }

  lemma ExampleIsNumeric()
    ensures KeepNumeric("75000") == "75000"
  {
    FilterKeepsAll(IsNumericChar, "75000");
  }

  lemma ExampleHasNoDot()
    ensures FirstDot("75000") == 5
  {
  }

  lemma ExampleGrouped()
    ensures GroupThousands("75000") == "75,000"
  {
    assert "75000"[..2] == "75" && "75000"[2..] == "000";
  }
}
