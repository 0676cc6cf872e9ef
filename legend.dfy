/** The depth legend control: one colour swatch and range label per grade. */
module Legend {
  import opened Wrappers
  import opened Style

  /** The lower bounds the legend lists, ascending. */
  const Grades: seq<nat> := [0, 2, 5, 10, 25, 50, 100, 150]

  const Header: string := "Depth(km) <br>"

  /** `grades[i]`, which JavaScript reads as undefined outside the array. */
  function GradeAt(i: int): Option<nat> {
    if 0 <= i < |Grades| then Some(Grades[i]) else None
  }

  /** JavaScript truthiness of a number that may be undefined: undefined and 0 are falsy. */
  predicate Truthy(v: Option<nat>) {
    v.Some? && v.value != 0
  }

  /** The only falsy grade is the 0 at index 0. */
  lemma OnlyFirstGradeFalsy(i: nat)
    requires i < |Grades|
    ensures Truthy(GradeAt(i)) <==> i != 0
  {
  }

  /** The loop's `grades[i + 1] ? … : '+'` test is exactly "entry i is not the last". */
  lemma NextGradeTruthyIffNotLast(i: nat)
    requires i < |Grades|
    ensures Truthy(GradeAt(i + 1)) <==> i + 1 < |Grades|
  {
    if i + 1 < |Grades| {
      OnlyFirstGradeFalsy(i + 1);
    }
  }

  /** The grades above 0 are the colour thresholds of the style resolver. */
  lemma GradesShareThresholds()
    ensures |Grades| == |Thresholds| + 1 && Grades[0] == 0
    ensures forall k :: 1 <= k < |Grades| ==> Grades[k] as real == Thresholds[k - 1]
  {
  }

  /** JavaScript's rendering of a non-negative integer as a decimal string. */
  function NumberToString(n: nat): (s: string)
    ensures |s| > 0 && IsDigits(s)
    ensures s[0] == '0' ==> n == 0
  {
    if n < 10 then [DigitChar(n)]
    else NumberToString(n / 10) + [DigitChar(n % 10)]
  }

  function DigitChar(d: nat): char
    requires d < 10
  {
    "0123456789"[d]
  }

  predicate IsDigits(s: string) {
    forall i :: 0 <= i < |s| ==> '0' <= s[i] <= '9'
  }

  /** The number a string of decimal digits denotes. */
  function DigitsValue(s: string): nat
    requires IsDigits(s)
  {
    if s == [] then 0
    else DigitsValue(s[..|s| - 1]) * 10 + (s[|s| - 1] as int - '0' as int)
  }

  lemma {:induction false} NumberToStringRoundTrip(n: nat)
    ensures DigitsValue(NumberToString(n)) == n
  {
    var s := NumberToString(n);
    if n >= 10 {
      NumberToStringRoundTrip(n / 10);
      assert s[..|s| - 1] == NumberToString(n / 10);
    }
  }

  /** One legend line: the swatch colour, the grade it starts at, and the next
      grade when the label is a range rather than an open `+` bound. */
  datatype Entry = Entry(swatch: string, lower: nat, upper: Option<nat>)

  /** What the loop emits for grade i: the swatch is `markerColor(grades[i] + 1)`. */
  function EntryAt(i: nat): Entry
    requires i < |Grades|
  {
    var next := GradeAt(i + 1);
    Entry(MarkerColor((Grades[i] + 1) as real), Grades[i], if Truthy(next) then next else None)
  }

  /** The entries for the first n grades, in loop order. */
  function EntriesUpTo(n: nat): (es: seq<Entry>)
    requires n <= |Grades|
    ensures |es| == n
    ensures forall k :: 0 <= k < n ==> es[k] == EntryAt(k)
  {
    if n == 0 then [] else EntriesUpTo(n - 1) + [EntryAt(n - 1)]
  }

  function Entries(): seq<Entry> {
    EntriesUpTo(|Grades|)
  }

  function EntryHtml(e: Entry): string {
    "<i style=\"background:" + e.swatch + "\"></i> " + NumberToString(e.lower) +
    match e.upper
    case Some(u) => "&ndash;" + NumberToString(u) + "<br>"
    case None => "+"
  }

  function EntriesHtml(es: seq<Entry>): string {
    if es == [] then "" else EntriesHtml(es[..|es| - 1]) + EntryHtml(es[|es| - 1])
  }

  /** The markup of the whole legend. */
  function LegendHtml(): string {
    Header + EntriesHtml(Entries())
  }

  /** A depth the label of an entry covers: above its lower grade and, for a
      range, at most its upper grade. */
  predicate Covers(e: Entry, depth: real) {
    e.lower as real < depth && (e.upper.Some? ==> depth <= e.upper.value as real)
  }

  /** Entry i starts at grade i; its label runs to the next grade, except the
      last entry's, which is open-ended. */
  lemma EntryLayout(i: nat)
    requires i < |Grades|
    ensures Entries()[i].lower == Grades[i]
    ensures i + 1 < |Grades| ==> Entries()[i].upper == Some(Grades[i + 1])
    ensures i + 1 == |Grades| ==> Entries()[i].upper == None
  {
    NextGradeTruthyIffNotLast(i);
  }

  /** The legend has one entry per grade, in ascending order, and the last
      one reads `150+`. */
  lemma LegendLayout()
    ensures |Entries()| == |Grades| == 8
    ensures forall i, j :: 0 <= i < j < |Grades| ==> Entries()[i].lower < Entries()[j].lower
    ensures Entries()[7].lower == 150 && Entries()[7].upper == None
  {
    forall i, j | 0 <= i < j < |Grades|
      ensures Entries()[i].lower < Entries()[j].lower
    {
      EntryLayout(i);
      EntryLayout(j);
    }
    EntryLayout(7);
  }

  /** The swatch of entry i is the colour of bucket i. */
  lemma SwatchIsBucketColour(i: nat)
    requires i < |Grades|
    ensures Entries()[i].swatch == Palette[i]
  {
    MarkerColorPartition((Grades[i] + 1) as real, i);
  }

  /** Legend/marker consistency: every depth an entry's label covers is drawn
      in that entry's swatch colour; for a positive depth the converse holds too,
      so the swatch names exactly the depths the label states. */
  lemma LegendMatchesMarkers(i: nat, depth: real)
    requires i < |Grades|
    ensures Covers(Entries()[i], depth) ==> MarkerColor(depth) == Entries()[i].swatch
    ensures depth > 0.0 ==> (MarkerColor(depth) == Entries()[i].swatch <==> Covers(Entries()[i], depth))
  {
    EntryLayout(i);
    SwatchIsBucketColour(i);
    MarkerColorPartition(depth, i);
  }

  lemma SwatchesDistinct(i: nat, j: nat)
    requires i < j < |Grades|
    ensures Entries()[i].swatch != Entries()[j].swatch
  {
    SwatchIsBucketColour(i);
    SwatchIsBucketColour(j);
    PaletteDistinct();
  }

  lemma EntriesHtmlSnoc(es: seq<Entry>, e: Entry)
    ensures EntriesHtml(es + [e]) == EntriesHtml(es) + EntryHtml(e)
  {
    assert (es + [e])[..|es|] == es;
  }

  lemma AppendAssociative(a: string, b: string, c: string)
    ensures (a + b) + c == a + (b + c)
  {
  }

  /** `legend.onAdd`: appends the header and then, grade by grade, a swatch and
      its label to the legend's markup. */
  method OnAdd() returns (html: string)
    ensures html == LegendHtml()
  {
    var grades := Grades;
    html := "";
    html := html + Header;
    for i := 0 to |grades|
      invariant html == Header + EntriesHtml(EntriesUpTo(i))
    {
      ghost var done := EntriesUpTo(i);
      var next := GradeAt(i + 1);
      var line :=
        "<i style=\"background:" + MarkerColor((grades[i] + 1) as real) + "\"></i> " +
        NumberToString(grades[i]) + (if Truthy(next) then "&ndash;" + NumberToString(next.value) + "<br>" else "+");
      assert line == EntryHtml(EntryAt(i));
      AppendAssociative(Header, EntriesHtml(done), line);
      html := html + line;
      EntriesHtmlSnoc(done, EntryAt(i));
      assert EntriesUpTo(i + 1) == done + [EntryAt(i)];
    }
  }
}
