/** Text shown by the component: signed currency (`getConvertedValue`) and
    the comma-joined list of break-even points. Numbers reach text through a
    renderer `show` for non-negative values, standing for JavaScript's
    number-to-string conversion; a negative number prints as '-' followed
    by the rendering of its magnitude. */
module Format {
  import opened OptionTypes
  import opened BreakEven

  /** A renderer of non-negative numbers that, like JavaScript's decimal
      number printing, never yields the empty string, a '-' or a ','. */
  ghost predicate PlainRenderer(show: real -> string) {
    forall y: real :: y >= 0.0 ==> show(y) != [] && '-' !in show(y) && ',' !in show(y)
  }

  /** Number-to-string conversion of any real. */
  function NumberToString(x: real, show: real -> string): (s: string)
    ensures PlainRenderer(show) ==> s != [] && ',' !in s
    ensures PlainRenderer(show) ==> ('-' in s <==> x < 0.0)
  {
    if x < 0.0 then "-" + show(-x) else show(x)
  }

  /** `String.prototype.split` with a one-character separator: the pieces
      between separators, including empty ones, and at least one piece. */
  function Split(s: string, sep: char): (parts: seq<string>)
    ensures |parts| >= 1
    ensures forall k :: 0 <= k < |parts| ==> sep !in parts[k]
    decreases |s|
  {
    if |s| == 0 then [""]
    else
      var rest := Split(s[1..], sep);
      if s[0] == sep then [""] + rest
      else [[s[0]] + rest[0]] + rest[1..]
  }

  /** `Array.prototype.join` with a one-character separator. */
  function Join(parts: seq<string>, sep: char): string
    decreases |parts|
  {
    if |parts| == 0 then ""
    else if |parts| == 1 then parts[0]
    else parts[0] + [sep] + Join(parts[1..], sep)
  }

  /** A string without the separator splits into itself. */
  lemma {:induction false} SplitNoSeparator(s: string, sep: char)
    requires sep !in s
    ensures Split(s, sep) == [s]
    decreases |s|
  {
    if |s| > 0 {
      SplitNoSeparator(s[1..], sep);
      assert [s[0]] + s[1..] == s;
    }
  }

  /** Splitting at the first separator peels off the piece before it. */
  lemma {:induction false} SplitFirstSeparator(a: string, sep: char, b: string)
    requires sep !in a
    ensures Split(a + [sep] + b, sep) == [a] + Split(b, sep)
    decreases |a|
  {
    var s := a + [sep] + b;
    if |a| == 0 {
      assert s[1..] == b;
    } else {
      assert s[1..] == a[1..] + [sep] + b;
      SplitFirstSeparator(a[1..], sep, b);
      assert [a[0]] + a[1..] == a;
    }
  }

  /** Joining pieces that do not contain the separator and splitting again
      gives back the pieces. */
  lemma {:induction false} SplitJoin(parts: seq<string>, sep: char)
    requires |parts| >= 1
    requires forall k :: 0 <= k < |parts| ==> sep !in parts[k]
    ensures Split(Join(parts, sep), sep) == parts
    decreases |parts|
  {
    if |parts| == 1 {
      SplitNoSeparator(parts[0], sep);
    } else {
      SplitFirstSeparator(parts[0], sep, Join(parts[1..], sep));
      SplitJoin(parts[1..], sep);
      assert [parts[0]] + parts[1..] == parts;
    }
  }

  /** Joining non-empty pieces yields the empty string only for no pieces. */
  lemma JoinEmpty(parts: seq<string>, sep: char)
    requires forall k :: 0 <= k < |parts| ==> parts[k] != []
    ensures Join(parts, sep) == [] <==> |parts| == 0
  {
  }

  /** A negative number's printed form splits at '-' into an empty piece and
      the printed magnitude. */
  lemma SplitSignedMagnitude(t: string)
    ensures '-' !in t ==> Split("-" + t, '-') == ["", t]
  {
    if '-' !in t {
      assert "-" + t == "" + ['-'] + t;
      SplitFirstSeparator("", '-', t);
      SplitNoSeparator(t, '-');
    }
  }

  /** `getConvertedValue`: signed currency. A negative value is printed,
      split at '-', and its second piece follows "-$"; any other value
      follows "$" as printed. The text is "-$" and the magnitude for a
      negative value, "$" and the value otherwise, and it starts with "-$"
      exactly for negative values. */
  function ConvertedValue(x: real, show: real -> string): (r: string)
    ensures PlainRenderer(show) ==> r == (if x < 0.0 then "-$" else "$") + show(Abs(x))
    ensures PlainRenderer(show) ==> (r[..2] == "-$" <==> x < 0.0)
    ensures PlainRenderer(show) && x >= 0.0 ==> r[0] == '$'
  {
    if x < 0.0 then
      SplitSignedMagnitude(show(-x));
      var parts := Split(NumberToString(x, show), '-');
      "-$" + (if |parts| > 1 then parts[1] else "undefined")
    else
      var r := "$" + NumberToString(x, show);
      assert PlainRenderer(show) ==> r[..2][0] == '$';
      r
  }

  /** The printed break-even point of every contract, in order. */
  function BreakEvenStrings(cs: seq<OptionContract>, show: real -> string): (ss: seq<string>)
    ensures |ss| == |cs|
    ensures forall i :: 0 <= i < |cs| ==> ss[i] == NumberToString(BreakEvenPoint(cs[i]), show)
  {
    seq(|cs|, i requires 0 <= i < |cs| => NumberToString(BreakEvenPoint(cs[i]), show))
  }

  /** Joining non-empty pieces free of the separator gives a non-empty text
      that splits back into the pieces. */
  lemma JoinRoundTrip(parts: seq<string>, sep: char)
    ensures |parts| >= 1 && (forall k :: 0 <= k < |parts| ==> parts[k] != [] && sep !in parts[k]) ==>
      Join(parts, sep) != [] && Split(Join(parts, sep), sep) == parts
  {
    if |parts| >= 1 && forall k :: 0 <= k < |parts| ==> parts[k] != [] && sep !in parts[k] {
      JoinEmpty(parts, sep);
      SplitJoin(parts, sep);
    }
  }

  /** The break-even line of the metrics panel: the comma-joined points, or
      "none" when that join is empty. With no contracts it is "none"; with
      some, it splits at the commas into exactly one printed break-even
      point per contract, in contract order. */
  function BreakEvenDisplay(cs: seq<OptionContract>, show: real -> string): (r: string)
    ensures |cs| == 0 ==> r == "none"
    ensures PlainRenderer(show) && |cs| > 0 ==> Split(r, ',') == BreakEvenStrings(cs, show)
    ensures PlainRenderer(show) && |cs| > 0 ==> |Split(r, ',')| == |cs|
  {
    var ss := BreakEvenStrings(cs, show);
    JoinRoundTrip(ss, ',');
    var text := Join(ss, ',');
    if text == "" then "none" else text
  }

  /** "none" is shown exactly when there are no contracts. */
  lemma BreakEvenDisplayNone(cs: seq<OptionContract>, show: real -> string)
    requires PlainRenderer(show)
    ensures Join(BreakEvenStrings(cs, show), ',') == "" <==> |cs| == 0
    ensures |cs| == 0 ==> BreakEvenDisplay(cs, show) == "none"
  {
  }
}
