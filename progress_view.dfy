/** What every view of a progress item derives from its fields: the status and
    priority words, the percent shown (clamped to 0..100), the colour of the
    progress bar and the due-date warning. The same rules appear in
    src/components/ProgressSummary.jsx, src/components/editor/ProgressList.jsx,
    src/components/editor/ProgressForm.jsx and the offline viewer of
    src/components/editor/ExportPanel.jsx. Numbers are integers; NaN is `None`. */
module ProgressView {
  import opened JsString
  import opened JsValue
  import opened JsNumber

  /** StatusText: done, in progress, and everything else as not started. */
  function StatusText(status: Val): (r: string)
    ensures r == "完了" <==> status == Str("done")
    ensures r == "進行中" <==> status == Str("in_progress")
    ensures r == "未着手" <==> status != Str("done") && status != Str("in_progress")
  {
    if status == Str("done") then "完了"
    else if status == Str("in_progress") then "進行中"
    else "未着手"
  }

  /** PriorityText: high, low, and everything else as medium. */
  function PriorityText(priority: Val): (r: string)
    ensures r == "高" <==> priority == Str("high")
    ensures r == "低" <==> priority == Str("low")
    ensures r == "中" <==> priority != Str("high") && priority != Str("low")
  {
    if priority == Str("high") then "高"
    else if priority == Str("low") then "低"
    else "中"
  }

  lemma {:induction false} DigitsOfNatStr(n: nat)
    ensures DigitsValue(NatStr(n)) == n
    decreases n
  {
    if n >= 10 {
      DigitsOfNatStr(n / 10);
      var s := NatStr(n / 10);
      var d := DigitChar(n % 10);
      assert (s + [d])[..|s|] == s;
    }
  }

  /** The text String(n) reads back as n: a number written into an input
      comes back unchanged. */
  lemma NumberOfIntStr(n: int)
    ensures ToNumber(Str(IntStr(n))) == Some(n)
  {
    IntStrTrimmed(n);
    if n < 0 {
      NumberTextOfNegative(-n);
    } else {
      NumberTextOfNat(n);
    }
  }

  lemma IntStrTrimmed(n: int)
    ensures Trim(IntStr(n)) == IntStr(n)
  {
    var t := IntStr(n);
    var m: nat := if n < 0 then -n else n;
    var d := NatStr(m);
    assert t == if n < 0 then "-" + d else d;
    assert IsTrimmed(t) by {
      assert t[|t| - 1] == d[|d| - 1] && IsDigit(d[|d| - 1]);
      assert t[0] == '-' || IsDigit(t[0]);
    }
    TrimOfTrimmed(t);
  }

  lemma NumberTextOfNat(n: nat)
    ensures NumberText(NatStr(n)) == Some(n)
  {
    DigitsOfNatStr(n);
  }

  lemma NumberTextOfNegative(n: nat)
    requires n > 0
    ensures NumberText("-" + NatStr(n)) == Some(-(n as int))
  {
    var t := "-" + NatStr(n);
    assert !IsDigit(t[0]) && t[1..] == NatStr(n);
    DigitsOfNatStr(n);
  }

  function Clamp(n: int): (r: int)
    ensures 0 <= r <= 100
    ensures 0 <= n <= 100 ==> r == n
    ensures n < 0 ==> r == 0
    ensures n > 100 ==> r == 100
  {
    if n < 0 then 0 else if n > 100 then 100 else n
  }

  /** `Math.max(0, Math.min(100, Number(percent || 0)))`: a falsy percent is
      0, a number is clamped to 0..100, and NaN passes through both. */
  function ShownPercent(percent: Val): (r: Option<int>)
    ensures r.Some? ==> 0 <= r.value <= 100
    ensures !Truthy(percent) ==> r == Some(0)
    ensures percent.Num? ==> r == Some(Clamp(percent.n))
    ensures Truthy(percent) ==> (r.None? <==> ToNumber(percent).None?)
  {
    var x := ToNumber(Or(percent, Num(0)));
    if x.None? then None else Some(Clamp(x.value))
  }

  /** Showing a shown percent again changes nothing. */
  lemma ShownPercentIdempotent(percent: Val)
    requires ShownPercent(percent).Some?
    ensures ShownPercent(Num(ShownPercent(percent).value)) == ShownPercent(percent)
  {
  }

  /** `${pct}` */
  function PercentText(p: Option<int>): string {
    if p.Some? then IntStr(p.value) else "NaN"
  }

  /** The bar colour of a shown percent, as ProgressList.jsx computes it:
      below 30 red, below 70 yellow, otherwise green; NaN fails both tests
      and is green. */
  function BarClass(pct: Option<int>): (r: string)
    ensures pct.None? ==> r == "green"
    ensures pct.Some? ==> (r == "red" <==> pct.value < 30)
    ensures pct.Some? ==> (r == "yellow" <==> 30 <= pct.value < 70)
    ensures pct.Some? ==> (r == "green" <==> pct.value >= 70)
  {
    if pct.Some? && pct.value < 30 then "red"
    else if pct.Some? && pct.value < 70 then "yellow"
    else "green"
  }

  /** barClass of ProgressSummary.jsx, applied to the shown percent: it clamps
      again after `pct || 0`, which turns NaN into 0. */
  function SummaryBarClass(pct: Option<int>): (r: string)
    ensures pct.None? ==> r == "red"
    ensures pct.Some? ==> r == BarClass(Some(Clamp(pct.value)))
  {
    var v := ShownPercent(if pct.Some? then Num(pct.value) else Undefined);
    assert v == (if pct.Some? then Some(Clamp(pct.value)) else Some(0));
    BarClass(v)
  }

  /** The two views give every shown percent the same colour; only NaN
      tells them apart (green in the editor list, red in the summary). */
  lemma BarClassViewsAgree(percent: Val)
    ensures ShownPercent(percent).Some? ==>
              SummaryBarClass(ShownPercent(percent)) == BarClass(ShownPercent(percent))
    ensures ShownPercent(percent).None? ==>
              SummaryBarClass(ShownPercent(percent)) == "red" && BarClass(ShownPercent(percent)) == "green"
  {
  }

  const DAY_MS: nat := 1000 * 60 * 60 * 24

  /** `Math.ceil(d / 86400000)`: the whole days until a due time `d`
      milliseconds away, rounded up. */
  function CeilDays(d: int): (days: int)
    ensures (days - 1) * DAY_MS < d <= days * DAY_MS
  {
    -((-d) / DAY_MS)
  }

  predicate Overdue(d: int) {
    d <= -(DAY_MS as int)
  }

  predicate DueSoon(d: int) {
    -(DAY_MS as int) < d <= 3 * DAY_MS
  }

  /** dueLabel: nothing without a due date or once done; otherwise, with
      `days` the rounded-up days left, overdue below zero and a warning with
      the day count up to three days; an unparsable date warns of nothing.
      `parseDate` is `new Date(v).getTime()` and `now` is `Date.now()`. */
  function DueLabel(dueDate: Val, status: Val, now: int, parseDate: Val -> Option<int>): (r: string)
    ensures !Truthy(dueDate) || status == Str("done") ==> r == ""
    ensures r == "期限超過" <==>
              Truthy(dueDate) && status != Str("done") && parseDate(dueDate).Some? && Overdue(parseDate(dueDate).value - now)
    ensures Truthy(dueDate) && status != Str("done") && parseDate(dueDate).Some? && DueSoon(parseDate(dueDate).value - now) ==>
              var days := CeilDays(parseDate(dueDate).value - now);
              0 <= days <= 3 && r == "期限接近(" + IntStr(days) + "日)"
    ensures r == "" <==>
              !Truthy(dueDate) || status == Str("done") || parseDate(dueDate).None?
              || parseDate(dueDate).value - now > 3 * DAY_MS
  {
    if !Truthy(dueDate) || status == Str("done") then ""
    else
      var due := parseDate(dueDate);
      if due.None? then ""
      else
        var days := CeilDays(due.value - now);
        if days < 0 then "期限超過"
        else if days <= 3 then "期限接近(" + IntStr(days) + "日)"
        else ""
  }
}
