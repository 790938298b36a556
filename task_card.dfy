/** The display rules of a task card: the badge shows the task's priority in
    the style the priority table gives it (the Low style for any priority the
    table does not know), the progress bar is as wide as the progress but never
    wider than 100 percent, and a missing task renders nothing. */
module TaskCard {

  datatype Option<T> = None | Some(value: T)

  /** The fields of a task the card reads. Progress is a whole number of
      percent. */
  datatype Task = Task(title: string, priority: string, progress: int)

  /** What the card shows: the title, the badge text and style, and the
      progress bar's CSS width. */
  datatype CardView = CardView(title: string, badgeText: string, badgeStyle: string, barWidth: string)

  const HighStyle := "bg-red-100 text-red-700 dark:bg-red-900/30 dark:text-red-300"
  const MediumStyle := "bg-amber-100 text-amber-700 dark:bg-amber-900/30 dark:text-amber-300"
  const LowStyle := "bg-green-100 text-green-700 dark:bg-green-900/30 dark:text-green-300"

  /** The priority table. */
  const PriorityColors: map<string, string> :=
    map["High" := HighStyle, "Medium" := MediumStyle, "Low" := LowStyle]

  /** The badge style of a priority: its entry in the table, or the Low entry
      when the table has none. It is always one of the table's styles, and it
      is the Low style exactly when the priority is neither High nor Medium. */
  function BadgeStyle(priority: string): (style: string)
    ensures style in PriorityColors.Values
    ensures style == LowStyle <==> priority != "High" && priority != "Medium"
  {
    if priority in PriorityColors then PriorityColors[priority] else PriorityColors["Low"]
  }

  /** High, Medium and Low each get their own style, and the three differ. */
  lemma KnownPriorityStyles()
    ensures BadgeStyle("High") == PriorityColors["High"]
    ensures BadgeStyle("Medium") == PriorityColors["Medium"]
    ensures BadgeStyle("Low") == PriorityColors["Low"]
    ensures BadgeStyle("High") != BadgeStyle("Medium")
    ensures BadgeStyle("Medium") != BadgeStyle("Low")
    ensures BadgeStyle("Low") != BadgeStyle("High")
  {
  }

  /** A priority the table does not know is styled as Low. */
  lemma UnknownPriorityFallsBack(priority: string)
    requires priority !in PriorityColors
    ensures BadgeStyle(priority) == BadgeStyle("Low")
  {
  }

  /** The progress bar's width in percent: the smaller of the progress and 100.
      It never exceeds 100, a progress at or below 100 (negative ones included)
      passes through unchanged, and anything above 100 is cut to 100. */
  function BarPercent(progress: int): (width: int)
    ensures width <= 100 && width <= progress
    ensures width == progress || width == 100
  {
    if progress <= 100 then progress else 100
  }

  /** Capping is idempotent and keeps the order of progress values. */
  lemma BarPercentMonotone(p: int, q: int)
    requires p <= q
    ensures BarPercent(p) <= BarPercent(q)
    ensures BarPercent(BarPercent(p)) == BarPercent(p)
  {
  }

  function DigitChar(d: nat): (c: char)
    requires d < 10
  {
    "0123456789"[d]
  }

  predicate IsDigit(c: char)
  {
    '0' <= c <= '9'
  }

  /** The decimal numeral of a natural number, as a template literal writes
      any whole number up to 2^53: at least one digit and no leading zero. */
  function NatToDecimal(n: nat): (s: string)
    ensures 1 <= |s|
    ensures forall i :: 0 <= i < |s| ==> IsDigit(s[i])
    ensures s[0] == '0' ==> n == 0 && s == "0"
  {
    if n < 10 then [DigitChar(n)] else NatToDecimal(n / 10) + [DigitChar(n % 10)]
  }

  /** The value a string of digits denotes. */
  function DecimalValue(s: string): (value: int)
    requires forall i :: 0 <= i < |s| ==> IsDigit(s[i])
  {
    if s == [] then 0
    else DecimalValue(s[..|s| - 1]) * 10 + (s[|s| - 1] as int - '0' as int)
  }

  /** Reading a numeral back gives the number written. */
  lemma {:induction false} DecimalRoundTrip(n: nat)
    ensures DecimalValue(NatToDecimal(n)) == n
  {
    if n >= 10 {
      DecimalRoundTrip(n / 10);
      var s := NatToDecimal(n);
      assert s[..|s| - 1] == NatToDecimal(n / 10);
    }
  }

  /** The value of an optionally signed numeral, or None when the text is not
      one. */
  function ParseInt(s: string): (r: Option<int>)
  {
    if |s| >= 2 && s[0] == '-' && forall i :: 1 <= i < |s| ==> IsDigit(s[i]) then
      Some(-DecimalValue(s[1..]))
    else if |s| >= 1 && forall i :: 0 <= i < |s| ==> IsDigit(s[i]) then
      Some(DecimalValue(s))
    else None
  }

  /** An integer of magnitude up to 2^53 as a template literal writes it: a
      minus sign before the numeral of its magnitude when it is negative.
      Reading it back gives the integer. */
  function IntToDecimal(n: int): (s: string)
    ensures ParseInt(s) == Some(n)
  {
    if n < 0 then
      DecimalRoundTrip(-n);
      var s := "-" + NatToDecimal(-n);
      assert s[1..] == NatToDecimal(-n);
      assert !IsDigit(s[0]);
      s
    else
      DecimalRoundTrip(n);
      NatToDecimal(n)
  }

  /** The progress bar's CSS width: the capped progress followed by '%'. The
      text before the '%' reads back as the capped progress. */
  function BarWidth(progress: int): (w: string)
    ensures 1 <= |w| && w[|w| - 1] == '%'
    ensures ParseInt(w[..|w| - 1]) == Some(BarPercent(progress))
  {
    var w := IntToDecimal(BarPercent(progress)) + "%";
    assert w[..|w| - 1] == IntToDecimal(BarPercent(progress));
    w
  }

  /** Any progress of 100 or more draws a full bar. */
  lemma FullBarAtOrAbove100(progress: int)
    requires 100 <= progress
    ensures BarWidth(progress) == "100%"
  {
    assert NatToDecimal(1) == "1";
    assert NatToDecimal(10) == "10";
    assert NatToDecimal(100) == "100";
  }

  /** The card for a task, or nothing when there is no task. The badge text is
      the priority unchanged, the badge style is the priority's table style
      (Low's when it has none), and the bar width is the capped progress in
      percent. */
  function Render(task: Option<Task>): (view: Option<CardView>)
    ensures view.None? <==> task.None?
    ensures task.Some? ==> view.Some? && view.value.title == task.value.title
    ensures task.Some? ==> view.Some? && view.value.badgeText == task.value.priority
    ensures task.Some? ==> view.Some? && view.value.badgeStyle in PriorityColors.Values
    ensures task.Some? ==> view.Some? && view.value.badgeStyle == BadgeStyle(task.value.priority)
    ensures task.Some? ==> view.Some? && view.value.barWidth == BarWidth(task.value.progress)
  {
    match task
    case None => None
    case Some(t) => Some(CardView(t.title, t.priority, BadgeStyle(t.priority), BarWidth(t.progress)))
  }
}
